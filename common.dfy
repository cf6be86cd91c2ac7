/** Small value types and string helpers shared by the dispatcher model.
    C strings become `string` (a `seq<char>` with no NUL inside, each
    character one byte of the C string); the libc
    routines the dispatcher relies on (strchr, strpbrk, strncat, strncpy)
    become the functions below, each specified by what it finds or keeps. */
module Common {

  datatype Option<+T> = None | Some(value: T)

  /** A C string: bytes, none of them NUL before the terminator. Each
      character stands for one byte, so lengths count bytes as strlen does. */
  predicate IsCString(s: string) {
    forall i :: 0 <= i < |s| ==> '\0' < s[i] <= '\U{FF}'
  }

  function Min(a: nat, b: nat): nat {
    if a <= b then a else b
  }

  /** What a bounded copy (strncat, strncpy followed by a terminator,
      snprintf) keeps of `s` when at most `n` characters fit. */
  function Truncate(s: string, n: nat): (r: string)
    ensures |r| == Min(|s|, n)
    ensures r <= s
    ensures |s| <= n ==> r == s
  {
    if |s| <= n then s else s[..n]
  }

  /** strpbrk (and strchr for a one-element set): the index of the first
      character of `s` that is in `cs`, or |s| when there is none. */
  function IndexOfAny(s: string, cs: set<char>): (i: nat)
    ensures i <= |s|
    ensures forall j :: 0 <= j < i ==> s[j] !in cs
    ensures i < |s| ==> s[i] in cs
  {
    if s == [] then 0
    else if s[0] in cs then 0
    else 1 + IndexOfAny(s[1..], cs)
  }

  /** First-fit search of a slot table: the first free (None) slot, or
      |s| when every slot is taken. */
  function FirstFree<T>(s: seq<Option<T>>): (i: nat)
    ensures i <= |s|
    ensures forall j :: 0 <= j < i ==> s[j].Some?
    ensures i < |s| ==> s[i].None?
  {
    if s == [] then 0
    else if s[0].None? then 0
    else 1 + FirstFree(s[1..])
  }

  /** A first-fit scan that stops at i has found FirstFree(s). */
  lemma FirstFreeIs<T>(s: seq<Option<T>>, i: nat)
    requires i <= |s|
    requires forall j :: 0 <= j < i ==> s[j].Some?
    requires i < |s| ==> s[i].None?
    ensures FirstFree(s) == i
  {
  }

  /** The number a string of decimal digits denotes, most significant first. */
  function DecimalValue(r: string): nat
    requires forall i :: 0 <= i < |r| ==> '0' <= r[i] <= '9'
  {
    if r == [] then 0 else 10 * DecimalValue(r[..|r| - 1]) + (r[|r| - 1] as int - '0' as int)
  }

  /** Decimal rendering of a natural number, as printf's %d/%zu does it:
      digits that denote `n`, with no leading zero unless `n` is zero. */
  function NatToDecimal(n: nat): (r: string)
    ensures |r| >= 1
    ensures forall i :: 0 <= i < |r| ==> '0' <= r[i] <= '9'
    ensures DecimalValue(r) == n
    ensures r[0] == '0' <==> n == 0
  {
    if n < 10 then [Digit(n)]
    else
      var high := NatToDecimal(n / 10);
      var r := high + [Digit(n % 10)];
      assert r[..|r| - 1] == high;
      r
  }

  function Digit(d: nat): (c: char)
    requires d < 10
    ensures '0' <= c <= '9' && c as int - '0' as int == d
  {
    ['0', '1', '2', '3', '4', '5', '6', '7', '8', '9'][d]
  }
}
