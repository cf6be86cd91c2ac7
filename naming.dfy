/** How module names become file names and exported symbol names, the
    case normalisation of a scheme, and the file-name helpers used by
    device discovery (Linux naming: "libCAEN_" + Name + ".so"). */
module Naming {
  import opened Common

  const DLL_PREFIX: string := "libCAEN_"
  const DLL_SUFFIX: string := ".so"
  /** Capacity of the file-name buffer Open formats the module name into:
      15 name characters plus the pattern without its "%s", terminator included. */
  const FILE_NAME_SIZE: nat := 15 + 12
  /** Capacity of the buffer an entry-point name is formatted into. */
  const API_NAME_SIZE: nat := 64
  /** Capacity of library_descr.name (15 characters and the terminator). */
  const NAME_SIZE: nat := 16

  /** The entry points a module exports. */
  datatype Fn =
    | GetLibInfo | GetLibVersion | GetLastError | DevicesDiscovery | Open | Close
    | GetDeviceTree | GetChildHandles | GetHandle | GetParentHandle | GetPath
    | GetNodeProperties | GetValue | SetValue | SendCommand | GetUserRegister
    | SetUserRegister | SetReadDataFormat | ReadDataV | HasData

  function FnName(f: Fn): string {
    match f
    case GetLibInfo => "GetLibInfo"
    case GetLibVersion => "GetLibVersion"
    case GetLastError => "GetLastError"
    case DevicesDiscovery => "DevicesDiscovery"
    case Open => "Open"
    case Close => "Close"
    case GetDeviceTree => "GetDeviceTree"
    case GetChildHandles => "GetChildHandles"
    case GetHandle => "GetHandle"
    case GetParentHandle => "GetParentHandle"
    case GetPath => "GetPath"
    case GetNodeProperties => "GetNodeProperties"
    case GetValue => "GetValue"
    case SetValue => "SetValue"
    case SendCommand => "SendCommand"
    case GetUserRegister => "GetUserRegister"
    case SetUserRegister => "SetUserRegister"
    case SetReadDataFormat => "SetReadDataFormat"
    case ReadDataV => "ReadDataV"
    case HasData => "HasData"
  }

  /** The mandatory entry points, in the order _loadAPIv0 resolves them. */
  const V0_FUNCTIONS: seq<Fn> := [
    GetLibInfo, GetLibVersion, GetLastError, DevicesDiscovery, Open, Close,
    GetDeviceTree, GetChildHandles, GetHandle, GetParentHandle, GetPath,
    GetNodeProperties, GetValue, SetValue, SendCommand, GetUserRegister,
    SetUserRegister, SetReadDataFormat, ReadDataV]

  /** The exported symbol of entry point `f` of module `name`
      ("CAEN%s_" followed by the function name). */
  function SymbolName(name: string, f: Fn): string {
    "CAEN" + name + "_" + FnName(f)
  }

  /** The file Open loads for module `name`. */
  function LibraryFileName(name: string): string {
    DLL_PREFIX + name + DLL_SUFFIX
  }

  /** With a module name of at most 15 characters neither the symbol name
      nor the file name is cut short by its formatting buffer. */
  lemma FormattedNamesFit(name: string, f: Fn)
    requires |name| < NAME_SIZE
    ensures |SymbolName(name, f)| < API_NAME_SIZE
    ensures |LibraryFileName(name)| < FILE_NAME_SIZE
  {
  }

  /** Every one of the 19 mandatory entry points is listed, and HasData,
      the only entry point of the second tier, is not. */
  lemma V0FunctionsComplete(f: Fn)
    ensures f in V0_FUNCTIONS <==> f != HasData
  {
  }

  // ---- case normalisation (toupper/tolower in the "C" locale) ----

  function ToUpper(c: char): char {
    if 'a' <= c <= 'z' then (c as int - 32) as char else c
  }

  function ToLower(c: char): char {
    if 'A' <= c <= 'Z' then (c as int + 32) as char else c
  }

  /** The normal form of a module name: first character upper case, all
      others lower case. */
  function NormalizeCase(s: string): (r: string)
    ensures |r| == |s|
    ensures |s| > 0 ==> r[0] == ToUpper(s[0])
    ensures forall i :: 1 <= i < |s| ==> r[i] == ToLower(s[i])
  {
    if s == [] then [] else [ToUpper(s[0])] + seq(|s| - 1, i requires 0 <= i < |s| - 1 => ToLower(s[i + 1]))
  }

  /** Two strings that differ only in the case of their letters. */
  predicate EqualIgnoringCase(a: string, b: string) {
    |a| == |b| && forall i :: 0 <= i < |a| ==> ToLower(a[i]) == ToLower(b[i])
  }

  /** Normalising twice is normalising once. */
  lemma NormalizeCaseIdempotent(s: string)
    ensures NormalizeCase(NormalizeCase(s)) == NormalizeCase(s)
  {
    var n := NormalizeCase(s);
    var nn := NormalizeCase(n);
    forall i | 0 <= i < |s| ensures nn[i] == n[i] {
      if i == 0 {
        UpperIdempotent(s[0]);
      } else {
        LowerIdempotent(s[i]);
      }
    }
  }

  lemma UpperIdempotent(c: char)
    ensures ToUpper(ToUpper(c)) == ToUpper(c)
  {
  }

  lemma LowerIdempotent(c: char)
    ensures ToLower(ToLower(c)) == ToLower(c)
  {
  }

  /** Two schemes have the same normal form exactly when they differ only
      in case, so they select the same module. */
  lemma NormalizeCaseIgnoresCase(a: string, b: string)
    ensures NormalizeCase(a) == NormalizeCase(b) <==> EqualIgnoringCase(a, b)
  {
    var na, nb := NormalizeCase(a), NormalizeCase(b);
    if EqualIgnoringCase(a, b) {
      assert forall i :: 0 <= i < |a| ==> na[i] == nb[i] by {
        forall i | 0 <= i < |a| ensures na[i] == nb[i] {
          if i == 0 { UpperOfLower(a[0]); UpperOfLower(b[0]); }
        }
      }
    }
    if na == nb {
      forall i | 0 <= i < |a| ensures ToLower(a[i]) == ToLower(b[i]) {
        if i == 0 {
          assert ToUpper(a[0]) == ToUpper(b[0]);
          LowerOfUpper(a[0]);
          LowerOfUpper(b[0]);
        } else {
          assert na[i] == nb[i];
        }
      }
    }
  }

  lemma UpperOfLower(c: char)
    ensures ToUpper(ToLower(c)) == ToUpper(c)
  {
  }

  lemma LowerOfUpper(c: char)
    ensures ToLower(ToUpper(c)) == ToLower(c)
  {
  }

  /** _adjustLibraryNameCase: rewrites the first `nameSize` characters of
      the name buffer into their normal form and leaves the rest alone. */
  method AdjustLibraryNameCase(name: array<char>, nameSize: nat)
    requires nameSize <= name.Length
    modifies name
    ensures name[..nameSize] == NormalizeCase(old(name[..nameSize]))
    ensures name[nameSize..] == old(name[nameSize..])
  {
    if nameSize == 0 {
      return;
    }
    name[0] := ToUpper(name[0]);
    var i := 1;
    while i < nameSize
      invariant 1 <= i <= nameSize
      invariant name[0] == ToUpper(old(name[0]))
      invariant forall k :: 1 <= k < i ==> name[k] == ToLower(old(name[k]))
      invariant forall k :: i <= k < name.Length ==> name[k] == old(name[k])
    {
      name[i] := ToLower(name[i]);
      i := i + 1;
    }
  }

  // ---- discovery file-name helpers ----

  /** _countOccurrences: the number of times `v` occurs in `name`. The
      source walks the string with two counters, the occurrences found and
      the characters skipped, whose sum is the position reached. */
  method CountOccurrences(name: string, v: char) returns (n: nat)
    ensures n == multiset(name)[v]
  {
    n := 0;
    var skipped := 0;
    while n + skipped < |name|
      invariant n + skipped <= |name|
      invariant n == multiset(name[..n + skipped])[v]
    {
      assert name[..n + skipped + 1] == name[..n + skipped] + [name[n + skipped]];
      if name[n + skipped] == v {
        n := n + 1;
      } else {
        skipped := skipped + 1;
      }
    }
    assert name[..n + skipped] == name;
  }

  /** _validateLibraryName: a discovered file name qualifies only when it
      contains exactly one underscore. */
  method ValidateLibraryName(name: string) returns (ok: bool)
    ensures ok <==> multiset(name)['_'] == 1
  {
    var n := CountOccurrences(name, '_');
    ok := n == 1;
  }

  predicate OccursAt(s: string, t: string, i: nat) {
    i + |t| <= |s| && s[i..i + |t|] == t
  }

  /** strstr: the first position at which `t` occurs in `s`, if any. */
  function FindSubstring(s: string, t: string): (r: Option<nat>)
    ensures r.Some? ==> OccursAt(s, t, r.value)
    ensures r.Some? ==> forall j :: 0 <= j < r.value ==> !OccursAt(s, t, j)
    ensures r.None? ==> forall j :: 0 <= j <= |s| ==> !OccursAt(s, t, j)
    decreases |s|
  {
    if t <= s then Some(0)
    else if s == [] then None
    else
      var rest := FindSubstring(s[1..], t);
      assert forall j :: 1 <= j <= |s| ==> (OccursAt(s, t, j) <==> OccursAt(s[1..], t, j - 1)) by {
        forall j | 1 <= j <= |s| ensures OccursAt(s, t, j) <==> OccursAt(s[1..], t, j - 1) {
          if j + |t| <= |s| {
            assert s[j..j + |t|] == s[1..][j - 1..j - 1 + |t|];
          }
        }
      }
      assert !OccursAt(s, t, 0) by { if |t| <= |s| { assert s[..|t|] != t; } }
      match rest
      case None => None
      case Some(i) => Some(i + 1)
  }

  /** _getLibraryHWName: for a name that starts with the file prefix, the
      text between the prefix and the first occurrence of the suffix;
      nothing when the prefix is missing or the suffix does not follow. */
  function GetLibraryHWName(name: string): (r: Option<string>)
    ensures r.Some? <==> DLL_PREFIX <= name && FindSubstring(name[|DLL_PREFIX|..], DLL_SUFFIX).Some?
    ensures r.Some? ==> DLL_PREFIX + r.value + DLL_SUFFIX <= name
    ensures r.Some? ==> forall j :: 0 <= j < |r.value| ==> !OccursAt(name[|DLL_PREFIX|..], DLL_SUFFIX, j)
  {
    if !(DLL_PREFIX <= name) then None
    else
      var rest := name[|DLL_PREFIX|..];
      match FindSubstring(rest, DLL_SUFFIX)
      case None => None
      case Some(i) =>
        assert name == DLL_PREFIX + rest;
        assert rest[..i] + DLL_SUFFIX <= rest by {
          assert rest[i..i + |DLL_SUFFIX|] == DLL_SUFFIX;
        }
        Some(rest[..i])
  }

  /** No occurrence of t starts at a character other than t's first. */
  lemma NotOccursAt(s: string, t: string, i: nat)
    requires 0 < |t| && i < |s| && s[i] != t[0]
    ensures !OccursAt(s, t, i)
  {
    if i + |t| <= |s| {
      assert s[i..i + |t|][0] == s[i];
    }
  }

  /** Discovery recovers the module name from the file name Open loads,
      for every name without a dot. */
  lemma HWNameOfLibraryFileName(name: string)
    requires '.' !in name
    ensures GetLibraryHWName(LibraryFileName(name)) == Some(name)
  {
    var file := LibraryFileName(name);
    assert DLL_PREFIX <= file;
    var rest := file[|DLL_PREFIX|..];
    assert rest == name + DLL_SUFFIX;
    assert OccursAt(rest, DLL_SUFFIX, |name|) by {
      assert rest[|name|..|name| + |DLL_SUFFIX|] == DLL_SUFFIX;
    }
    var found := FindSubstring(rest, DLL_SUFFIX);
    assert found.Some?;
    forall j | 0 <= j < |name| ensures !OccursAt(rest, DLL_SUFFIX, j) {
      assert rest[j] == name[j];
      NotOccursAt(rest, DLL_SUFFIX, j);
    }
    assert found.value == |name|;
    assert rest[..|name|] == name;
  }

  /** The file Open loads for `name` passes the discovery filter's
      one-underscore rule exactly when `name` has no underscore. */
  lemma LibraryFileNameValid(name: string)
    ensures multiset(LibraryFileName(name))['_'] == 1 <==> '_' !in name
  {
    assert multiset(LibraryFileName(name)) == multiset(DLL_PREFIX) + multiset(name) + multiset(DLL_SUFFIX);
    PrefixUnderscore();
    assert multiset(DLL_SUFFIX)['_'] == 0;
  }

  lemma PrefixUnderscore()
    ensures multiset(DLL_PREFIX)['_'] == 1
  {
    assert DLL_PREFIX == ['l', 'i', 'b', 'C', 'A', 'E', 'N', '_'];
    assert multiset(DLL_PREFIX) == multiset{'l', 'i', 'b', 'C', 'A', 'E', 'N', '_'};
  }
}
