/** The connection-string scanner (_scanURI, a cut-down libwww URI
    splitter) and the parse stage of Open that turns a URL into a module
    name and the argument handed to the module. */
module Uri {
  import opened Common

  /** The characters strpbrk looks for: anything from the first of them on is dropped. */
  const WHITESPACE: set<char> := {'\n', '\t', '\r', '\U{000C}', '\U{000B}', ' '}
  /** The characters that end the scheme scan. */
  const SCHEME_STOPS: set<char> := {':', '/', '?'}

  /** The five parts of struct hturi; None is a NULL pointer. */
  datatype HtUri = HtUri(
    scheme: Option<string>,
    host: Option<string>,
    absolute: Option<string>,
    relative: Option<string>,
    fragment: Option<string>)

  /** The text after the first '#', if there is one. */
  function Fragment(name: string): Option<string> {
    var hash := IndexOfAny(name, {'#'});
    if hash < |name| then Some(name[hash + 1..]) else None
  }

  /** The text the scanner parses: the name cut at its first '#', then at
      its first whitespace character. */
  function Body(name: string): string {
    var head := name[..IndexOfAny(name, {'#'})];
    head[..IndexOfAny(head, WHITESPACE)]
  }

  /** The host, absolute path and relative part of what follows the scheme. */
  function SplitRest(after: string): (Option<string>, Option<string>, Option<string>) {
    if |after| > 0 && after[0] == '/' then
      if |after| > 1 && after[1] == '/' then
        var rest := after[2..];
        var slash := IndexOfAny(rest, {'/'});
        (Some(rest[..slash]), if slash < |rest| then Some(rest[slash + 1..]) else None, None)
      else
        (None, Some(after[1..]), None)
    else
      (None, None, if after == [] then None else Some(after))
  }

  /** The scheme, when the first of ':', '/', '?' in the body is a ':', and
      the text after it (the whole body when there is no scheme). */
  function SplitScheme(body: string): (Option<string>, string) {
    var k := IndexOfAny(body, SCHEME_STOPS);
    if k < |body| && body[k] == ':' then (Some(body[..k]), body[k + 1..]) else (None, body)
  }

  /** What _scanURI yields for a name. */
  function Scan(name: string): HtUri {
    var (scheme, after) := SplitScheme(Body(name));
    var (host, absolute, relative) := SplitRest(after);
    HtUri(scheme, host, absolute, relative, Fragment(name))
  }

  /** _scanURI. The source writes NULs into a copy of the name to end each
      part; here each part is a slice. The scheme scan is the source's
      do/while loop over the characters; the end of the text plays the
      part of the NUL that ends the loop. */
  method ScanUri(name: string) returns (parts: HtUri)
    requires IsCString(name)
    ensures parts == Scan(name)
  {
    var fragment: Option<string> := None;
    var text := name;
    var hash := IndexOfAny(name, {'#'});
    if hash < |name| {
      fragment := Some(name[hash + 1..]);
      text := name[..hash];
    }
    text := text[..IndexOfAny(text, WHITESPACE)];
    assert text == Body(name);

    var scheme, after := ScanScheme(text);
    var rest := SplitRest(after);
    parts := HtUri(scheme, rest.0, rest.1, rest.2, fragment);
  }

  /** The scheme loop of _scanURI: walk to the first ':', '/' or '?'; a
      ':' there ends the scheme. */
  method ScanScheme(text: string) returns (scheme: Option<string>, after: string)
    ensures (scheme, after) == SplitScheme(text)
  {
    scheme := None;
    var afterScheme := 0;
    var p := 0;
    var scan := true;
    while scan
      invariant 0 <= p <= |text|
      invariant forall j :: 0 <= j < p ==> text[j] !in SCHEME_STOPS
      invariant scan ==> scheme.None? && afterScheme == 0
      invariant !scan ==> p == |text| || text[p] in SCHEME_STOPS
      invariant !scan ==> (scheme.Some? <==> p < |text| && text[p] == ':')
      invariant !scan && scheme.Some? ==> scheme.value == text[..p] && afterScheme == p + 1
      invariant !scan && scheme.None? ==> afterScheme == 0
      decreases |text| - p, scan
    {
      if p == |text| {
        scan := false;
      } else if text[p] == ':' {
        scheme := Some(text[..p]);
        afterScheme := p + 1;
        scan := false;
      } else if text[p] == '/' || text[p] == '?' {
        scan := false;
      } else {
        p := p + 1;
      }
    }
    IndexOfAnyIs(text, SCHEME_STOPS, p);
    after := text[afterScheme..];
    assert scheme.None? ==> after == text;
  }

  // ---- what the scanner computes ----

  /** Every character that cuts a part short: '#' and the whitespace set. */
  const CUTS: set<char> := {'#', '\n', '\t', '\r', '\U{000C}', '\U{000B}', ' '}

  predicate NoneOf(s: string, cs: set<char>) {
    forall i :: 0 <= i < |s| ==> s[i] !in cs
  }

  /** The text after the scheme that a host, absolute path and relative part stand for. */
  function ComposeRest(host: Option<string>, absolute: Option<string>, relative: Option<string>): string {
    if host.Some? then "//" + host.value + (if absolute.Some? then "/" + absolute.value else "")
    else if absolute.Some? then "/" + absolute.value
    else if relative.Some? then relative.value
    else ""
  }

  /** The text a scanned URI stands for, parts joined by their separators. */
  function Compose(u: HtUri): string {
    (if u.scheme.Some? then u.scheme.value + ":" else "") + ComposeRest(u.host, u.absolute, u.relative)
  }

  /** Compose followed by the fragment, if there is one. */
  function ComposeWithFragment(u: HtUri): string {
    Compose(u) + (if u.fragment.Some? then "#" + u.fragment.value else "")
  }

  lemma SplitSchemeReassembles(body: string)
    ensures var (scheme, after) := SplitScheme(body);
            (if scheme.Some? then scheme.value + ":" else "") + after == body
  {
    var k := IndexOfAny(body, SCHEME_STOPS);
    if k < |body| && body[k] == ':' {
      assert body == body[..k] + ":" + body[k + 1..];
    }
  }

  lemma SplitRestReassembles(after: string)
    ensures var parts := SplitRest(after);
            ComposeRest(parts.0, parts.1, parts.2) == after
  {
    if |after| > 1 && after[0] == '/' && after[1] == '/' {
      AuthorityReassembles(after);
    } else if |after| > 0 && after[0] == '/' {
      assert after == "/" + after[1..];
    }
  }

  /** SplitRestReassembles for a text starting with "//". */
  lemma AuthorityReassembles(after: string)
    requires |after| > 1 && after[0] == '/' && after[1] == '/'
    ensures var parts := SplitRest(after);
            ComposeRest(parts.0, parts.1, parts.2) == after
  {
    var rest := after[2..];
    var slash := IndexOfAny(rest, {'/'});
    JoinAuthority(rest, slash);
    assert after[..2] == "//";
    assert after == after[..2] + rest;
  }

  /** The text after "//" is the host up to the first '/' and, when that
      '/' exists, the path after it. */
  lemma JoinAuthority(rest: string, slash: nat)
    requires slash <= |rest| && (slash < |rest| ==> rest[slash] == '/')
    ensures rest[..slash] + (if slash < |rest| then "/" + rest[slash + 1..] else "") == rest
  {
    if slash < |rest| {
      JoinAtSlash(rest, slash);
    } else {
      assert rest[..slash] == rest;
    }
  }

  /** Cutting a text at a '/' and joining the two pieces with '/' again
      gives the text back. */
  lemma JoinAtSlash(rest: string, k: nat)
    requires k < |rest| && rest[k] == '/'
    ensures rest[..k] + "/" + rest[k + 1..] == rest
  {
    assert rest == rest[..k] + [rest[k]] + rest[k + 1..];
  }

  /** The scanner loses nothing of the text it parses: its parts, joined
      again, give back the name up to the first '#' and whitespace. */
  lemma ScanReassembles(name: string)
    ensures Compose(Scan(name)) == Body(name)
  {
    SplitSchemeReassembles(Body(name));
    var (scheme, after) := SplitScheme(Body(name));
    SplitRestReassembles(after);
  }

  /** The fragment is exactly what follows the first '#'. */
  lemma ScanFragment(name: string)
    ensures Scan(name).fragment.Some? <==> '#' in name
    ensures Scan(name).fragment.Some? ==>
              exists i :: 0 <= i < |name| && name[i] == '#' && '#' !in name[..i] &&
                          Scan(name).fragment.value == name[i + 1..]
  {
    var hash := IndexOfAny(name, {'#'});
    if '#' in name {
      var i :| 0 <= i < |name| && name[i] == '#';
      assert hash <= i;
    }
    if hash < |name| {
      assert '#' !in name[..hash];
    }
  }

  lemma BodyClean(name: string)
    ensures NoneOf(Body(name), CUTS)
  {
    var head := name[..IndexOfAny(name, {'#'})];
    assert NoneOf(head, {'#'});
  }

  /** No part the scanner yields, other than the fragment, holds a '#' or a
      whitespace character; the scheme holds none of ':', '/', '?' and the
      host no '/'. */
  lemma ScanPartsClean(name: string)
    ensures var u := Scan(name);
            (u.scheme.Some? ==> NoneOf(u.scheme.value, SCHEME_STOPS) && NoneOf(u.scheme.value, CUTS)) &&
            (u.host.Some? ==> NoneOf(u.host.value, {'/'}) && NoneOf(u.host.value, CUTS)) &&
            (u.absolute.Some? ==> NoneOf(u.absolute.value, CUTS)) &&
            (u.relative.Some? ==> NoneOf(u.relative.value, CUTS))
  {
    BodyClean(name);
    var body := Body(name);
    var (scheme, after) := SplitScheme(body);
    assert NoneOf(after, CUTS);
    if |after| > 1 && after[0] == '/' && after[1] == '/' {
      assert NoneOf(after[2..], CUTS);
    }
  }

  /** The host, absolute path and relative part of a well-formed rest. */
  predicate WellFormedRest(host: Option<string>, absolute: Option<string>, relative: Option<string>) {
    (host.Some? ==> NoneOf(host.value, {'/'}) && NoneOf(host.value, CUTS) && relative.None?) &&
    (absolute.Some? ==> NoneOf(absolute.value, CUTS) && relative.None?) &&
    (host.None? && absolute.Some? ==> absolute.value == [] || absolute.value[0] != '/') &&
    (relative.Some? ==> relative.value != [] && relative.value[0] != '/' && NoneOf(relative.value, CUTS))
  }

  /** The parts a well-formed connection string is made of. */
  predicate WellFormed(u: HtUri) {
    u.scheme.Some? && NoneOf(u.scheme.value, SCHEME_STOPS) && NoneOf(u.scheme.value, CUTS) &&
    WellFormedRest(u.host, u.absolute, u.relative)
  }

  lemma NoneOfConcat(a: string, b: string, cs: set<char>)
    requires NoneOf(a, cs) && NoneOf(b, cs)
    ensures NoneOf(a + b, cs)
  {
  }

  /** IndexOfAny is determined by its contract. */
  lemma IndexOfAnyIs(s: string, cs: set<char>, i: nat)
    requires i <= |s|
    requires forall j :: 0 <= j < i ==> s[j] !in cs
    requires i < |s| ==> s[i] in cs
    ensures IndexOfAny(s, cs) == i
  {
  }

  lemma ComposeRestClean(host: Option<string>, absolute: Option<string>, relative: Option<string>)
    requires WellFormedRest(host, absolute, relative)
    ensures NoneOf(ComposeRest(host, absolute, relative), CUTS)
  {
    if host.Some? {
      NoneOfConcat("//", host.value, CUTS);
      if absolute.Some? {
        NoneOfConcat("/", absolute.value, CUTS);
        NoneOfConcat("//" + host.value, "/" + absolute.value, CUTS);
      }
    } else if absolute.Some? {
      NoneOfConcat("/", absolute.value, CUTS);
    }
  }

  lemma SplitRestCompose(host: Option<string>, absolute: Option<string>, relative: Option<string>)
    requires WellFormedRest(host, absolute, relative)
    ensures SplitRest(ComposeRest(host, absolute, relative)) == (host, absolute, relative)
  {
    if host.Some? {
      SplitRestHost(host.value, absolute);
    } else if absolute.Some? {
      var t := "/" + absolute.value;
      assert t[1..] == absolute.value;
    }
  }

  /** "//" + host, with or without "/" + path, splits back into both. */
  lemma SplitRestHost(h: string, absolute: Option<string>)
    requires NoneOf(h, {'/'})
    ensures SplitRest(ComposeRest(Some(h), absolute, None)) == (Some(h), absolute, None)
  {
    var rest := JoinArgument(h, absolute);
    var t := "//" + rest;
    assert ComposeRest(Some(h), absolute, None) == t;
    assert t[2..] == rest;
    IndexOfAnyIs(rest, {'/'}, |h|);
    assert rest[..|h|] == h;
    if absolute.Some? {
      assert rest[|h| + 1..] == absolute.value;
    }
  }

  lemma SplitSchemeCompose(s: string, tail: string)
    requires NoneOf(s, SCHEME_STOPS)
    ensures SplitScheme(s + ":" + tail) == (Some(s), tail)
  {
    var body := s + ":" + tail;
    IndexOfAnyIs(body, SCHEME_STOPS, |s|);
    assert body[..|s|] == s;
    assert body[|s| + 1..] == tail;
  }

  lemma BodyOfClean(c: string, fragment: Option<string>)
    requires NoneOf(c, CUTS)
    ensures var name := c + (if fragment.Some? then "#" + fragment.value else "");
            Body(name) == c && Fragment(name) == fragment
  {
    var name := c + (if fragment.Some? then "#" + fragment.value else "");
    IndexOfAnyIs(name, {'#'}, |c|);
    assert name[..|c|] == c;
    IndexOfAnyIs(c, WHITESPACE, |c|);
    if fragment.Some? {
      assert name[|c| + 1..] == fragment.value;
    }
  }

  /** Composing the parts of a well-formed URI and scanning the result gives
      the parts back: Scan inverts Compose. */
  lemma ScanCompose(u: HtUri)
    requires WellFormed(u)
    ensures Scan(ComposeWithFragment(u)) == u
  {
    var s := u.scheme.value;
    var tail := ComposeRest(u.host, u.absolute, u.relative);
    ComposeRestClean(u.host, u.absolute, u.relative);
    NoneOfConcat(s, ":", CUTS);
    NoneOfConcat(s + ":", tail, CUTS);
    BodyOfClean(Compose(u), u.fragment);
    SplitSchemeCompose(s, tail);
    SplitRestCompose(u.host, u.absolute, u.relative);
  }

  // ---- the parse stage of Open ----

  /** Capacity of the module-name buffer (library_descr.name). */
  const LIB_NAME_SIZE: nat := 16
  /** Capacity of the argument buffer (connection_descr.arg). */
  const ARG_SIZE: nat := 128

  /** What the parse stage of Open ends with: the scheme (the module name
      before case normalisation) and the argument for the module's Open, or
      the reason the URL is refused. */
  datatype ParseOutcome =
    | Parsed(scheme: string, arg: string)
    | SchemeNotFound
    | InvalidSchemeSize(scheme: string)
    | HostNotFound

  /** The host followed, when there is an absolute path, by '/' and the path. */
  function JoinArgument(host: string, absolute: Option<string>): string {
    host + (if absolute.Some? then "/" + absolute.value else "")
  }

  /** The parse stage of Open: no scheme, a scheme of length 0 or of 16 or
      more, or neither a host nor a legacy host-only form all fail; the
      argument is the host (or, without "//", the relative part) re-joined
      with the absolute path, cut to what the 128-byte buffer holds. */
  function ParseOpenUrl(url: string): (r: ParseOutcome)
    ensures r.SchemeNotFound? <==> Scan(url).scheme.None?
    ensures r.Parsed? || r.InvalidSchemeSize? ==> Scan(url).scheme == Some(r.scheme)
    ensures r.Parsed? ==> 0 < |r.scheme| < LIB_NAME_SIZE && |r.arg| < ARG_SIZE
    ensures r.InvalidSchemeSize? ==> |r.scheme| == 0 || |r.scheme| >= LIB_NAME_SIZE
    ensures r.HostNotFound? ==> Scan(url).host.None? && Scan(url).relative.None?
  {
    var u := Scan(url);
    if u.scheme.None? then SchemeNotFound
    else if |u.scheme.value| == 0 || |u.scheme.value| >= LIB_NAME_SIZE then InvalidSchemeSize(u.scheme.value)
    else
      var host := if u.host.Some? then u.host else u.relative;
      if host.None? then HostNotFound
      else Parsed(u.scheme.value, Truncate(JoinArgument(host.value, u.absolute), ARG_SIZE - 1))
  }

  /** Lines that build the argument: copy the host with strncat, then, if
      there is an absolute path and room is left, a '/' and as much of the
      path as fits. The result is the joined argument cut to 127 characters. */
  method AssembleArgument(host: string, absolute: Option<string>) returns (arg: string)
    ensures arg == Truncate(JoinArgument(host, absolute), ARG_SIZE - 1)
  {
    arg := Truncate(host, ARG_SIZE - 1);
    if absolute.Some? {
      var currentLen := |arg|;
      var sizeLeft := ARG_SIZE - currentLen - 1;
      if sizeLeft != 0 {
        arg := arg + "/" + Truncate(absolute.value, sizeLeft - 1);
        assert JoinArgument(host, absolute) == host + "/" + absolute.value;
        assert arg == (host + "/" + absolute.value)[..|arg|];
      }
    }
  }

  /** The parse stage of Open as the source runs it: scan a copy of the URL,
      check the scheme and the host, then assemble the module argument. */
  method ParseOpenArguments(url: string) returns (outcome: ParseOutcome)
    requires IsCString(url)
    ensures outcome == ParseOpenUrl(url)
  {
    var uri := ScanUri(url);
    if uri.scheme.None? {
      return SchemeNotFound;
    }
    var libNameSize := |uri.scheme.value|;
    if libNameSize == 0 || libNameSize >= LIB_NAME_SIZE {
      return InvalidSchemeSize(uri.scheme.value);
    }
    var host := uri.host;
    if host.None? {
      host := uri.relative;
    }
    if host.None? {
      return HostNotFound;
    }
    var arg := AssembleArgument(host.value, uri.absolute);
    outcome := Parsed(uri.scheme.value, arg);
  }

  /** A scheme Open accepts: 1 to 15 characters, none of them a separator,
      whitespace or '#'. */
  predicate IsScheme(s: string) {
    0 < |s| < LIB_NAME_SIZE && NoneOf(s, SCHEME_STOPS) && NoneOf(s, CUTS)
  }

  /** Parsing a composed well-formed URL: the scheme is the module name and
      the argument is the host (or the legacy host) joined with the path. */
  lemma ParseComposed(u: HtUri)
    requires WellFormed(u) && IsScheme(u.scheme.value)
    ensures var host := if u.host.Some? then u.host else u.relative;
            ParseOpenUrl(ComposeWithFragment(u)) ==
              if host.None? then HostNotFound
              else Parsed(u.scheme.value, Truncate(JoinArgument(host.value, u.absolute), ARG_SIZE - 1))
  {
    ScanCompose(u);
  }

  /** Cutting an authority at its first '/' gives a well-formed host and
      path that join back to it. */
  lemma SplitAuthority(rest: string) returns (h: string, a: Option<string>)
    requires NoneOf(rest, CUTS)
    ensures WellFormedRest(Some(h), a, None)
    ensures JoinArgument(h, a) == rest
    ensures ComposeRest(Some(h), a, None) == "//" + rest
  {
    var slash := IndexOfAny(rest, {'/'});
    h := rest[..slash];
    a := if slash < |rest| then Some(rest[slash + 1..]) else None;
    assert NoneOf(h, {'/'});
    NoneOfSlice(rest, CUTS, 0, slash);
    if slash < |rest| {
      NoneOfSlice(rest, CUTS, slash + 1, |rest|);
    }
    JoinAuthority(rest, slash);
    assert JoinArgument(h, a) == rest;
  }

  /** A slice of a text free of some characters is free of them too. */
  lemma NoneOfSlice(s: string, cs: set<char>, i: nat, j: nat)
    requires i <= j <= |s| && NoneOf(s, cs)
    ensures NoneOf(s[i..j], cs)
  {
    forall k | 0 <= k < j - i
      ensures s[i..j][k] !in cs
    {
      assert s[i..j][k] == s[i + k];
    }
  }

  /** The text of a URI without fragment is its scheme, ':' and its rest. */
  lemma ComposeOfScheme(s: string, host: Option<string>, absolute: Option<string>, relative: Option<string>)
    ensures ComposeWithFragment(HtUri(Some(s), host, absolute, relative, None)) ==
            s + ":" + ComposeRest(host, absolute, relative)
  {
  }

  /** "scheme://authority/path": the module receives "authority/path"
      unchanged (cut to 127 characters). */
  lemma ParseAuthorityForm(s: string, rest: string)
    requires IsScheme(s) && NoneOf(rest, CUTS)
    ensures ParseOpenUrl(s + "://" + rest) == Parsed(s, Truncate(rest, ARG_SIZE - 1))
  {
    var h, a := SplitAuthority(rest);
    ParseComposed(HtUri(Some(s), Some(h), a, None, None));
    ComposeAuthorityText(s, h, a, rest);
  }

  lemma ComposeAuthorityText(s: string, h: string, a: Option<string>, rest: string)
    requires ComposeRest(Some(h), a, None) == "//" + rest
    ensures ComposeWithFragment(HtUri(Some(s), Some(h), a, None, None)) == s + "://" + rest
  {
    ComposeOfScheme(s, Some(h), a, None);
    assert s + ":" + ("//" + rest) == s + "://" + rest;
  }

  /** "scheme:text" without "//" (the legacy form): the module receives the
      whole text as host (cut to 127 characters). */
  lemma ParseLegacyForm(s: string, rest: string)
    requires IsScheme(s) && NoneOf(rest, CUTS)
    requires rest != [] && rest[0] != '/'
    ensures ParseOpenUrl(s + ":" + rest) == Parsed(s, Truncate(rest, ARG_SIZE - 1))
  {
    var u := HtUri(Some(s), None, None, Some(rest), None);
    ParseComposed(u);
    ComposeOfScheme(s, None, None, Some(rest));
    assert JoinArgument(rest, None) == rest;
  }

  /** "scheme:/path" has neither a host nor a legacy host: Open refuses it. */
  lemma ParseRootWithoutHost(s: string, path: string)
    requires IsScheme(s) && NoneOf(path, CUTS)
    requires path == [] || path[0] != '/'
    ensures ParseOpenUrl(s + ":/" + path) == HostNotFound
  {
    var u := HtUri(Some(s), None, Some(path), None, None);
    assert WellFormedRest(None, Some(path), None);
    ParseComposed(u);
    ComposeRootText(s, path);
  }

  lemma ComposeRootText(s: string, path: string)
    ensures ComposeWithFragment(HtUri(Some(s), None, Some(path), None, None)) == s + ":/" + path
  {
    ComposeOfScheme(s, None, Some(path), None);
    assert s + ":" + ("/" + path) == s + ":/" + path;
  }

  /** A string without ':' has no scheme: Open refuses it. */
  lemma ParseWithoutColon(url: string)
    requires ':' !in url
    ensures ParseOpenUrl(url) == SchemeNotFound
  {
    var body := Body(url);
    var k := IndexOfAny(body, SCHEME_STOPS);
    if k < |body| {
      assert body[k] in url;
    }
  }

  /** ParseAuthorityForm for a URL given as one text, with a short rest. */
  lemma ParseAuthorityText(url: string, s: string, rest: string)
    requires url == s + "://" + rest && IsScheme(s) && NoneOf(rest, CUTS) && |rest| < ARG_SIZE
    ensures ParseOpenUrl(url) == Parsed(s, rest)
  {
    ParseAuthorityForm(s, rest);
  }

  /** A well-formed address reaches the module as host and path. */
  lemma ParseExampleAddress()
    ensures ParseOpenUrl("foo://192.168.1.1/sub") == Parsed("foo", "192.168.1.1/sub")
  {
    ParseAuthorityText("foo://192.168.1.1/sub", "foo", "192.168.1.1/sub");
  }

  /** Text with no scheme separator is refused. */
  lemma ParseExampleNoScheme()
    ensures ParseOpenUrl("justtext") == SchemeNotFound
  {
    ParseWithoutColon("justtext");
  }

  /** An empty host after "//" is still a host: the module gets "". */
  lemma ParseExampleEmptyHost()
    ensures ParseOpenUrl("x://") == Parsed("x", "")
  {
    ParseAuthorityText("x://", "x", "");
  }

  /** A '?' ends only the scheme scan; after "//" it stays in the host. */
  lemma ParseExampleQueryInHost()
    ensures ParseOpenUrl("dig2://host?q=1/p") == Parsed("dig2", "host?q=1/p")
  {
    ParseAuthorityText("dig2://host?q=1/p", "dig2", "host?q=1/p");
  }
}
