/** The connection and library tables of CAEN_FELib as values: what each
    entry point does to them, the invariant they keep, and how several
    calls combine. The class in dispatch.dfy runs the same operations in
    place and is proved equal to the functions here. */
module Tables {
  import opened Common
  import opened ResultCodes
  import opened HandleCodec
  import opened Naming
  import opened Uri

  const MAX_NUM_CONNECTION: nat := 128
  const MAX_NUM_LIBRARY: nat := 8
  /** Capacity of the last-error buffer, terminator included. */
  const LAST_ERROR_SIZE: nat := 1024

  /** enum library_api: which entry-point tier a library exports. */
  datatype Tier = LibraryAPIUnknown | LibraryAPIv0 | LibraryAPIv1

  function Level(t: Tier): nat {
    match t
    case LibraryAPIUnknown => 0
    case LibraryAPIv0 => 1
    case LibraryAPIv1 => 2
  }

  /** struct connection_descr: the argument the module was opened with and
      the index of its library. */
  datatype Connection = Connection(arg: string, lHandle: nat)

  /** struct library_descr: the resolved function table is summarised by
      the tier; the platform handle by the file that was loaded. */
  datatype Library = Library(name: string, api: Tier, nRef: int, file: string)

  /** What the engine asks of the platform loader and of the modules, in order. */
  datatype Event =
    | Load(file: string)
    | Unload(file: string)
    | InvokeOpen(file: string, arg: string)
    | Invoke(file: string, fn: Fn, target: Option<u32>)

  /** The two tables, the calling thread's last error and the calls made. */
  datatype State = State(
    conns: seq<Option<Connection>>,
    libs: seq<Option<Library>>,
    lastError: string,
    trace: seq<Event>)

  /** The platform loader: which files can be loaded and the symbols each exports. */
  type Loader = map<string, set<string>>

  predicate Shaped(s: State) {
    |s.conns| == MAX_NUM_CONNECTION && |s.libs| == MAX_NUM_LIBRARY
  }

  // ---- reference counts ----

  function Refers(c: Option<Connection>, l: nat): nat {
    if c.Some? && c.value.lHandle == l then 1 else 0
  }

  /** The number of live connections bound to library slot l. */
  function RefCount(s: seq<Option<Connection>>, l: nat): nat
    decreases |s|
  {
    if s == [] then 0 else RefCount(s[..|s| - 1], l) + Refers(s[|s| - 1], l)
  }

  lemma {:induction false} RefCountUpdate(s: seq<Option<Connection>>, i: nat, v: Option<Connection>, l: nat)
    requires i < |s|
    ensures RefCount(s[i := v], l) == RefCount(s, l) - Refers(s[i], l) + Refers(v, l)
    decreases |s|
  {
    var n := |s| - 1;
    if i == n {
      assert s[i := v][..n] == s[..n];
    } else {
      assert s[i := v][..n] == s[..n][i := v];
      RefCountUpdate(s[..n], i, v, l);
    }
  }

  lemma {:induction false} RefCountZero(s: seq<Option<Connection>>, l: nat)
    ensures RefCount(s, l) == 0 <==> forall c :: 0 <= c < |s| ==> Refers(s[c], l) == 0
    decreases |s|
  {
    if s != [] {
      var n := |s| - 1;
      RefCountZero(s[..n], l);
      assert forall c :: 0 <= c < n ==> s[..n][c] == s[c];
    }
  }

  // ---- entry points and tiers ----

  /** Every mandatory entry point resolves. */
  predicate ExportsV0(exports: set<string>, name: string) {
    forall f :: f in V0_FUNCTIONS ==> SymbolName(name, f) in exports
  }

  /** The tier _loadAPIv0 and _loadAPIv1 leave a library at. */
  function TierOf(exports: set<string>, name: string): Tier {
    if !ExportsV0(exports, name) then LibraryAPIUnknown
    else if SymbolName(name, Fn.HasData) in exports then LibraryAPIv1
    else LibraryAPIv0
  }

  // ---- the invariant ----

  predicate ConnectionOk(libs: seq<Option<Library>>, c: Connection) {
    c.lHandle < |libs| && libs[c.lHandle].Some? && |c.arg| < ARG_SIZE
  }

  predicate LibraryOk(loader: Loader, lib: Library) {
    0 < |lib.name| < NAME_SIZE && lib.name == NormalizeCase(lib.name) &&
    lib.file == LibraryFileName(lib.name) && lib.file in loader &&
    lib.api == TierOf(loader[lib.file], lib.name) && lib.api != LibraryAPIUnknown &&
    lib.nRef >= 1
  }

  /** Every live connection is bound to a live library; every live library
      was loaded from the loader, has at least the mandatory tier and a
      reference count equal to the connections bound to it; no two live
      libraries have the same name. */
  predicate TablesOk(loader: Loader, conns: seq<Option<Connection>>, libs: seq<Option<Library>>) {
    |conns| == MAX_NUM_CONNECTION && |libs| == MAX_NUM_LIBRARY &&
    (forall c :: 0 <= c < |conns| && conns[c].Some? ==> ConnectionOk(libs, conns[c].value)) &&
    (forall l :: 0 <= l < |libs| && libs[l].Some? ==>
       LibraryOk(loader, libs[l].value) && libs[l].value.nRef == RefCount(conns, l)) &&
    (forall l, m :: 0 <= l < |libs| && 0 <= m < |libs| && l != m && libs[l].Some? && libs[m].Some? ==>
       libs[l].value.name != libs[m].value.name)
  }

  predicate Inv(loader: Loader, s: State) {
    TablesOk(loader, s.conns, s.libs)
  }

  // ---- handle validation (_isValid, _getLibDescr, _checkAPI) ----

  /** The library slot of the connection a handle names, when the handle
      names a live connection. */
  function LibraryOf(s: State, h: u64): (r: Option<nat>)
    ensures r.Some? ==> CHandle(h) < |s.conns| && s.conns[CHandle(h)].Some? &&
                        r.value == s.conns[CHandle(h)].value.lHandle &&
                        r.value < |s.libs| && s.libs[r.value].Some?
    ensures !HasPrefix(h) && |s.conns| <= MAX_NUM_CONNECTION ==> r.None?
  {
    var c := CHandle(h);
    if c < |s.conns| && s.conns[c].Some? then
      var lh := s.conns[c].value.lHandle;
      if lh < |s.libs| && s.libs[lh].Some? then Some(lh) else None
    else None
  }

  datatype Gate = NoConnection | TierTooLow | Granted(ch: nat, lh: nat)

  /** The check every forwarding entry point makes before calling the module. */
  function Admit(s: State, h: u64, required: Tier): (g: Gate)
    ensures g.Granted? ==> g.ch == CHandle(h) && LibraryOf(s, h) == Some(g.lh) &&
                           Level(s.libs[g.lh].value.api) >= Level(required)
    ensures g.NoConnection? <==> LibraryOf(s, h).None?
    ensures g.Granted? <==> LibraryOf(s, h).Some? &&
                            Level(s.libs[LibraryOf(s, h).value].value.api) >= Level(required)
  {
    match LibraryOf(s, h)
    case None => NoConnection
    case Some(lh) =>
      if Level(s.libs[lh].value.api) >= Level(required) then Granted(CHandle(h), lh) else TierTooLow
  }

  /** Every live library has at least the mandatory tier, so only an
      entry point that needs a higher tier can be refused as unsupported. */
  lemma LiveHandlesPassV0(loader: Loader, s: State, h: u64)
    requires Inv(loader, s)
    ensures Admit(s, h, LibraryAPIv0).NoConnection? || Admit(s, h, LibraryAPIv0).Granted?
  {
    if LibraryOf(s, h).Some? {
      assert LibraryOk(loader, s.libs[LibraryOf(s, h).value].value);
    }
  }

  /** A value without the 0xCAE0 prefix is refused whatever the tables hold. */
  lemma ForeignValueRefused(s: State, h: u64, required: Tier)
    requires Shaped(s) && !HasPrefix(h)
    ensures Admit(s, h, required) == NoConnection
  {
  }

  /** The tier each forwarding entry point needs. */
  function RequiredTier(op: Fn): Tier {
    if op == Fn.HasData then LibraryAPIv1 else LibraryAPIv0
  }

  // ---- the last error ----

  const MSG_INVALID_HANDLE: string := "invalid handle"
  const MSG_NOT_SUPPORTED: string := "function not supported by the underlying library"
  const MSG_NOT_IMPLEMENTED: string := "not yet implemented"
  const MSG_NULL_ARGUMENT: string := "NULL argument"
  const MSG_TOO_MANY_DEVICES: string := "too many devices (limited to 128)"
  const MSG_TOO_MANY_LIBRARIES: string := "too many different libraries (limited to 8)"

  /** What writing a message into the 1024-byte buffer keeps. */
  function Stored(msg: string): (r: string)
    ensures |r| < LAST_ERROR_SIZE && r <= msg
  {
    Truncate(msg, LAST_ERROR_SIZE - 1)
  }

  /** The text of a parse failure; url and scheme are inserted verbatim. */
  function ParseMessage(url: string, p: ParseOutcome): string {
    match p
    case SchemeNotFound => "invalid URL '" + url + "': scheme not found"
    case InvalidSchemeSize(scheme) =>
      "library name '" + scheme + "': invalid size (" + NatToDecimal(|scheme|) + ")"
    case HostNotFound => "invalid URL '" + url + "': host not found"
    case Parsed(_, _) => ""
  }

  /** _loadLibraryError on a POSIX system: dlerror's text, if any. */
  function LoaderMessage(diag: Option<string>): string {
    if diag.Some? then "error: " + diag.value else "error: no error found"
  }

  /** Signed decimal, as printf's %d writes it. */
  function IntToDecimal(i: int): string {
    if i < 0 then "-" + NatToDecimal(-i) else NatToDecimal(i)
  }

  /** The last error after a module entry point returned ret: on failure
      the module's GetLastError writes its own text into the buffer. */
  function AfterModuleCall(s: State, failed: bool, moduleErr: string): string {
    if failed then Stored(moduleErr) else s.lastError
  }

  /** The state and code of a refused call. */
  function Refuse(s: State, g: Gate): (State, int)
    requires !g.Granted?
  {
    if g.NoConnection? then (s.(lastError := Stored(MSG_INVALID_HANDLE)), INVALID_HANDLE)
    else (s.(lastError := Stored(MSG_NOT_SUPPORTED)), NOT_IMPLEMENTED)
  }

  // ---- releasing a connection ----

  /** _closeLibraryAndResetDevDescrIfLast: unload and free a library slot
      whose count has reached 0. */
  function CloseIfLast(s: State, lh: nat): State
    requires lh < |s.libs| && s.libs[lh].Some?
  {
    var lib := s.libs[lh].value;
    if lib.nRef == 0 then s.(libs := s.libs[lh := None], trace := s.trace + [Unload(lib.file)])
    else s
  }

  /** The bookkeeping after a connection has been closed: decrement its
      library's count, unload the library if that was the last connection,
      free the connection slot. */
  function Release(s: State, c: nat): (r: State)
    requires c < |s.conns| && s.conns[c].Some?
    ensures |r.conns| == |s.conns| && |r.libs| == |s.libs|
  {
    var lh := s.conns[c].value.lHandle;
    var s1 :=
      if lh < |s.libs| && s.libs[lh].Some? then
        var lib := s.libs[lh].value;
        CloseIfLast(s.(libs := s.libs[lh := Some(lib.(nRef := lib.nRef - 1))]), lh)
      else s;
    s1.(conns := s1.conns[c := None])
  }

  lemma ReleasePreservesInv(loader: Loader, s: State, c: nat)
    requires Inv(loader, s) && c < |s.conns| && s.conns[c].Some?
    ensures Inv(loader, Release(s, c))
    ensures Release(s, c).conns == s.conns[c := None]
  {
    var lh := s.conns[c].value.lHandle;
    assert ConnectionOk(s.libs, s.conns[c].value);
    ReleaseTables(s, c);
    var r := Release(s, c);
    forall l | 0 <= l < |s.libs|
      ensures RefCount(r.conns, l) == RefCount(s.conns, l) - Refers(s.conns[c], l)
    {
      RefCountUpdate(s.conns, c, None, l);
    }
    ReleaseKeepsConnections(loader, s, r, c, lh);
    ReleaseKeepsLibraries(loader, s, r, c, lh);
    ReleaseKeepsNames(loader, s, r, c, lh);
  }

  /** The tables after Release, written out. */
  lemma ReleaseTables(s: State, c: nat)
    requires c < |s.conns| && s.conns[c].Some?
    requires s.conns[c].value.lHandle < |s.libs| && s.libs[s.conns[c].value.lHandle].Some?
    ensures var lh := s.conns[c].value.lHandle;
            var lib := s.libs[lh].value;
            var r := Release(s, c);
            r.conns == s.conns[c := None] &&
            r.libs == (if lib.nRef == 1 then s.libs[lh := None] else s.libs[lh := Some(lib.(nRef := lib.nRef - 1))])
  {
    var lh := s.conns[c].value.lHandle;
    var lib := s.libs[lh].value;
    assert s.libs[lh := Some(lib.(nRef := lib.nRef - 1))][lh := None] == s.libs[lh := None];
  }

  /** What Release leaves, given the tables it writes and the counts after it. */
  predicate Released(s: State, r: State, c: nat, lh: nat)
    requires c < |s.conns| && lh < |s.libs| && s.libs[lh].Some?
  {
    var lib := s.libs[lh].value;
    |r.libs| == |s.libs| &&
    r.conns == s.conns[c := None] &&
    r.libs == (if lib.nRef == 1 then s.libs[lh := None] else s.libs[lh := Some(lib.(nRef := lib.nRef - 1))]) &&
    (forall l :: 0 <= l < |s.libs| ==> RefCount(r.conns, l) == RefCount(s.conns, l) - Refers(s.conns[c], l))
  }

  lemma ReleaseKeepsConnections(loader: Loader, s: State, r: State, c: nat, lh: nat)
    requires TablesOk(loader, s.conns, s.libs) && c < |s.conns| && s.conns[c].Some? && s.conns[c].value.lHandle == lh
    requires lh < |s.libs| && s.libs[lh].Some? && Released(s, r, c, lh)
    ensures forall d :: 0 <= d < |r.conns| && r.conns[d].Some? ==> ConnectionOk(r.libs, r.conns[d].value)
  {
    if s.libs[lh].value.nRef == 1 {
      RefCountZero(r.conns, lh);
    }
    forall d | 0 <= d < |r.conns| && r.conns[d].Some?
      ensures ConnectionOk(r.libs, r.conns[d].value)
    {
      assert ConnectionOk(s.libs, s.conns[d].value);
      if s.libs[lh].value.nRef == 1 {
        assert Refers(r.conns[d], lh) == 0;
      }
    }
  }

  lemma ReleaseKeepsLibraries(loader: Loader, s: State, r: State, c: nat, lh: nat)
    requires TablesOk(loader, s.conns, s.libs) && c < |s.conns| && s.conns[c].Some? && s.conns[c].value.lHandle == lh
    requires lh < |s.libs| && s.libs[lh].Some? && Released(s, r, c, lh)
    ensures forall l :: 0 <= l < |r.libs| && r.libs[l].Some? ==>
              LibraryOk(loader, r.libs[l].value) && r.libs[l].value.nRef == RefCount(r.conns, l)
  {
    forall l | 0 <= l < |r.libs| && r.libs[l].Some?
      ensures LibraryOk(loader, r.libs[l].value) && r.libs[l].value.nRef == RefCount(r.conns, l)
    {
      assert LibraryOk(loader, s.libs[l].value);
    }
  }

  lemma ReleaseKeepsNames(loader: Loader, s: State, r: State, c: nat, lh: nat)
    requires TablesOk(loader, s.conns, s.libs) && c < |s.conns|
    requires lh < |s.libs| && s.libs[lh].Some? && Released(s, r, c, lh)
    ensures forall l, m :: 0 <= l < |r.libs| && 0 <= m < |r.libs| && l != m && r.libs[l].Some? && r.libs[m].Some? ==>
              r.libs[l].value.name != r.libs[m].value.name
  {
    forall l | 0 <= l < |r.libs| && r.libs[l].Some? ensures r.libs[l].value.name == s.libs[l].value.name {
    }
  }

  // ---- Open ----

  /** The first live library slot holding the given name, or |s|. */
  function IndexOfName(s: seq<Option<Library>>, name: string): (i: nat)
    ensures i <= |s|
    ensures forall j :: 0 <= j < i ==> !(s[j].Some? && s[j].value.name == name)
    ensures i < |s| ==> s[i].Some? && s[i].value.name == name
    decreases |s|
  {
    if s == [] then 0
    else if s[0].Some? && s[0].value.name == name then 0
    else 1 + IndexOfName(s[1..], name)
  }

  /** A lookup loop that stops at i has found IndexOfName(s, name). */
  lemma IndexOfNameIs(s: seq<Option<Library>>, name: string, i: nat)
    requires i <= |s|
    requires forall j :: 0 <= j < i ==> !(s[j].Some? && s[j].value.name == name)
    requires i < |s| ==> s[i].Some? && s[i].value.name == name
    ensures IndexOfName(s, name) == i
  {
  }

  /** The module's Open has been called on library slot lh: on success
      (or the version warning) bind connection slot ch to it; on failure
      drop the library if nothing else holds it. */
  function OpenModule(s: State, ch: nat, lh: nat, arg: string,
                      moduleRet: int, moduleHandle: u32, moduleErr: string): (State, int, Option<u64>)
    requires Shaped(s) && ch < MAX_NUM_CONNECTION && lh < MAX_NUM_LIBRARY && s.libs[lh].Some?
  {
    var lib := s.libs[lh].value;
    var s1 := s.(trace := s.trace + [InvokeOpen(lib.file, arg)],
                 lastError := AfterModuleCall(s, moduleRet != SUCCESS, moduleErr));
    if moduleRet != SUCCESS && moduleRet != BAD_LIBRARY_VERSION then
      (CloseIfLast(s1, lh), moduleRet, None)
    else
      (s1.(conns := s1.conns[ch := Some(Connection(arg, lh))],
           libs := s1.libs[lh := Some(lib.(nRef := lib.nRef + 1))]),
       moduleRet, Some(MakeHandle(ch, moduleHandle)))
  }

  /** Open past the parse stage: find a free connection slot, find the
      library by name or load it into a free library slot, then call the
      module. */
  function OpenParsed(loader: Loader, s: State, name: string, arg: string, diag: Option<string>,
                      moduleRet: int, moduleHandle: u32, moduleErr: string): (State, int, Option<u64>)
    requires Shaped(s)
  {
    var ch := FirstFree(s.conns);
    if ch == MAX_NUM_CONNECTION then
      (s.(lastError := Stored(MSG_TOO_MANY_DEVICES)), MAX_DEVICES_ERROR, None)
    else
      var found := IndexOfName(s.libs, name);
      if found < MAX_NUM_LIBRARY then
        OpenModule(s, ch, found, arg, moduleRet, moduleHandle, moduleErr)
      else
        var lh := FirstFree(s.libs);
        if lh == MAX_NUM_LIBRARY then
          (s.(lastError := Stored(MSG_TOO_MANY_LIBRARIES)), MAX_DEVICES_ERROR, None)
        else
          var file := LibraryFileName(name);
          var s1 := s.(trace := s.trace + [Load(file)]);
          if file !in loader then
            (s1.(lastError := Stored(LoaderMessage(diag))), DEVICE_LIBRARY_NOT_AVAILABLE, None)
          else if !ExportsV0(loader[file], name) then
            (s1.(trace := s1.trace + [Unload(file)], lastError := Stored(LoaderMessage(diag))),
             GENERIC_ERROR, None)
          else
            OpenModule(s1.(libs := s1.libs[lh := Some(Library(name, TierOf(loader[file], name), 0, file))]),
                       ch, lh, arg, moduleRet, moduleHandle, moduleErr)
  }

  /** CAEN_FELib_Open. url None and handleGiven false stand for the NULL
      pointers the source checks for; diag is the loader's diagnostic;
      moduleRet, moduleHandle and moduleErr are what the module's Open and
      GetLastError give back. */
  function OpenSpec(loader: Loader, s: State, url: Option<string>, handleGiven: bool, diag: Option<string>,
                    moduleRet: int, moduleHandle: u32, moduleErr: string): (State, int, Option<u64>)
    requires Shaped(s)
  {
    if url.None? || !handleGiven then (s.(lastError := Stored(MSG_NULL_ARGUMENT)), INVALID_PARAM, None)
    else
      var p := ParseOpenUrl(url.value);
      if !p.Parsed? then (s.(lastError := Stored(ParseMessage(url.value, p))), INVALID_PARAM, None)
      else OpenParsed(loader, s, NormalizeCase(p.scheme), p.arg, diag, moduleRet, moduleHandle, moduleErr)
  }

  /** Whether Open established a connection: the module succeeded or only
      warned about its version. */
  predicate Established(ret: int) {
    ret == SUCCESS || ret == BAD_LIBRARY_VERSION
  }

  /** The library slot an Open binds to: the live slot holding the name,
      else the first free one. */
  function BoundSlot(s: State, name: string): nat {
    var found := IndexOfName(s.libs, name);
    if found < |s.libs| then found else FirstFree(s.libs)
  }

  /** Every live library is held by at least one connection. */
  predicate Counted(s: State) {
    forall l :: 0 <= l < |s.libs| && s.libs[l].Some? ==> s.libs[l].value.nRef >= 1
  }

  lemma InvCounted(loader: Loader, s: State)
    requires Inv(loader, s)
    ensures Shaped(s) && Counted(s)
  {
    forall l | 0 <= l < |s.libs| && s.libs[l].Some? ensures s.libs[l].value.nRef >= 1 {
      assert LibraryOk(loader, s.libs[l].value);
    }
  }

  /** How library slot lh changes when a connection is bound to it: a
      live library gains a reference; a free slot receives the library
      loaded for the name, which no other slot holds, with one reference. */
  predicate LibraryBound(loader: Loader, libs: seq<Option<Library>>, libs': seq<Option<Library>>, lh: nat, name: string)
    requires lh < |libs|
  {
    var file := LibraryFileName(name);
    (libs[lh].Some? ==> libs' == libs[lh := Some(libs[lh].value.(nRef := libs[lh].value.nRef + 1))]) &&
    (libs[lh].None? ==>
       IndexOfName(libs, name) == |libs| && file in loader && ExportsV0(loader[file], name) &&
       libs' == libs[lh := Some(Library(name, TierOf(loader[file], name), 1, file))])
  }

  lemma OpenModuleOutcome(s: State, ch: nat, lh: nat, arg: string,
                          moduleRet: int, moduleHandle: u32, moduleErr: string)
    requires Shaped(s) && ch < MAX_NUM_CONNECTION && lh < MAX_NUM_LIBRARY && s.libs[lh].Some?
    ensures var (s', ret, handle) := OpenModule(s, ch, lh, arg, moduleRet, moduleHandle, moduleErr);
            var lib := s.libs[lh].value;
            ret == moduleRet && (handle.Some? <==> Established(ret)) &&
            (handle.None? ==> s'.conns == s.conns &&
                              s'.libs == (if lib.nRef == 0 then s.libs[lh := None] else s.libs) &&
                              s'.trace == s.trace + [InvokeOpen(lib.file, arg)] +
                                          (if lib.nRef == 0 then [Unload(lib.file)] else [])) &&
            (handle.Some? ==> s'.trace == s.trace + [InvokeOpen(lib.file, arg)]) &&
            (handle.Some? ==> handle.value == MakeHandle(ch, moduleHandle) &&
                              s'.conns == s.conns[ch := Some(Connection(arg, lh))] &&
                              s'.libs == s.libs[lh := Some(lib.(nRef := lib.nRef + 1))])
  {
  }

  /** Open past the parse stage either binds the first free connection
      slot to the library's slot, or leaves both tables as they were. */
  lemma OpenParsedOutcome(loader: Loader, s: State, name: string, arg: string, diag: Option<string>,
                          moduleRet: int, moduleHandle: u32, moduleErr: string)
    requires Shaped(s) && Counted(s)
    ensures var (s', ret, handle) := OpenParsed(loader, s, name, arg, diag, moduleRet, moduleHandle, moduleErr);
            var ch := FirstFree(s.conns);
            var lh := BoundSlot(s, name);
            (handle.Some? <==> Established(ret)) &&
            (handle.None? ==> s'.conns == s.conns && s'.libs == s.libs) &&
            (handle.Some? ==>
               ret == moduleRet && ch < MAX_NUM_CONNECTION && lh < MAX_NUM_LIBRARY &&
               handle.value == MakeHandle(ch, moduleHandle) &&
               s'.conns == s.conns[ch := Some(Connection(arg, lh))] &&
               LibraryBound(loader, s.libs, s'.libs, lh, name))
  {
    var ch := FirstFree(s.conns);
    if ch < MAX_NUM_CONNECTION {
      var found := IndexOfName(s.libs, name);
      if found < MAX_NUM_LIBRARY {
        OpenModuleOutcome(s, ch, found, arg, moduleRet, moduleHandle, moduleErr);
      } else {
        var lh := FirstFree(s.libs);
        var file := LibraryFileName(name);
        if lh < MAX_NUM_LIBRARY && file in loader && ExportsV0(loader[file], name) {
          var born := Library(name, TierOf(loader[file], name), 0, file);
          var s2 := s.(trace := s.trace + [Load(file)], libs := s.libs[lh := Some(born)]);
          OpenModuleOutcome(s2, ch, lh, arg, moduleRet, moduleHandle, moduleErr);
          assert s.libs[lh := Some(born)][lh := None] == s.libs;
          assert s.libs[lh := Some(born)][lh := Some(born.(nRef := 0 + 1))] ==
                 s.libs[lh := Some(Library(name, TierOf(loader[file], name), 1, file))];
        }
      }
    }
  }

  /** The tables after binding connection slot ch to library slot lh,
      whether lh held the library already or it was loaded just now. */
  lemma BindPreservesInv(loader: Loader, s: State, s': State, ch: nat, lh: nat, scheme: string, arg: string)
    requires Inv(loader, s)
    requires ch < MAX_NUM_CONNECTION && s.conns[ch].None? && lh < MAX_NUM_LIBRARY && |arg| < ARG_SIZE
    requires 0 < |scheme| < NAME_SIZE
    requires s'.conns == s.conns[ch := Some(Connection(arg, lh))]
    requires LibraryBound(loader, s.libs, s'.libs, lh, NormalizeCase(scheme))
    ensures Inv(loader, s')
  {
    BindKeepsConnections(loader, s, s', ch, lh, NormalizeCase(scheme), arg);
    BindKeepsLibraries(loader, s, s', ch, lh, scheme, arg);
    BindKeepsNames(loader, s, s', lh, NormalizeCase(scheme));
  }

  lemma BindKeepsConnections(loader: Loader, s: State, s': State, ch: nat, lh: nat, name: string, arg: string)
    requires Inv(loader, s)
    requires ch < MAX_NUM_CONNECTION && lh < MAX_NUM_LIBRARY && |arg| < ARG_SIZE
    requires s'.conns == s.conns[ch := Some(Connection(arg, lh))]
    requires LibraryBound(loader, s.libs, s'.libs, lh, name)
    ensures |s'.libs| == |s.libs|
    ensures forall c :: 0 <= c < |s'.conns| && s'.conns[c].Some? ==> ConnectionOk(s'.libs, s'.conns[c].value)
  {
    forall c | 0 <= c < |s'.conns| && s'.conns[c].Some?
      ensures ConnectionOk(s'.libs, s'.conns[c].value)
    {
      if c != ch {
        assert ConnectionOk(s.libs, s.conns[c].value);
      }
    }
  }

  lemma BindKeepsLibraries(loader: Loader, s: State, s': State, ch: nat, lh: nat, scheme: string, arg: string)
    requires Inv(loader, s)
    requires ch < MAX_NUM_CONNECTION && s.conns[ch].None? && lh < MAX_NUM_LIBRARY
    requires 0 < |scheme| < NAME_SIZE
    requires s'.conns == s.conns[ch := Some(Connection(arg, lh))]
    requires LibraryBound(loader, s.libs, s'.libs, lh, NormalizeCase(scheme))
    ensures forall l :: 0 <= l < |s'.libs| && s'.libs[l].Some? ==>
              LibraryOk(loader, s'.libs[l].value) && s'.libs[l].value.nRef == RefCount(s'.conns, l)
  {
    forall l | 0 <= l < MAX_NUM_LIBRARY
      ensures RefCount(s'.conns, l) == RefCount(s.conns, l) + Refers(Some(Connection(arg, lh)), l)
    {
      RefCountUpdate(s.conns, ch, Some(Connection(arg, lh)), l);
    }
    if s.libs[lh].None? {
      NormalizeCaseIdempotent(scheme);
      forall c | 0 <= c < |s.conns| ensures Refers(s.conns[c], lh) == 0 {
        if s.conns[c].Some? {
          assert ConnectionOk(s.libs, s.conns[c].value);
        }
      }
      RefCountZero(s.conns, lh);
    }
  }

  lemma BindKeepsNames(loader: Loader, s: State, s': State, lh: nat, name: string)
    requires Inv(loader, s) && lh < MAX_NUM_LIBRARY
    requires LibraryBound(loader, s.libs, s'.libs, lh, name)
    ensures forall l, m :: 0 <= l < |s'.libs| && 0 <= m < |s'.libs| && l != m && s'.libs[l].Some? && s'.libs[m].Some? ==>
              s'.libs[l].value.name != s'.libs[m].value.name
  {
    if s.libs[lh].None? {
      forall l | 0 <= l < MAX_NUM_LIBRARY && l != lh && s'.libs[l].Some?
        ensures s'.libs[l].value.name != name
      {
        assert s.libs[l] == s'.libs[l];
      }
    }
  }

  /** What an Open that handed out handle h leaves behind: the first free
      connection slot, and only that slot, is now taken; h names that
      slot, carries the module's local handle, and is accepted by every
      mandatory-tier entry point. */
  predicate Admitted(s: State, s': State, h: u64, moduleHandle: u32)
    requires Shaped(s) && Shaped(s')
  {
    var ch := FirstFree(s.conns);
    ch < MAX_NUM_CONNECTION && s.conns[ch].None? && s'.conns[ch].Some? &&
    (forall c :: 0 <= c < MAX_NUM_CONNECTION && c != ch ==> s'.conns[c] == s.conns[c]) &&
    h == MakeHandle(ch, moduleHandle) && RHandle(h) == moduleHandle &&
    LibraryOf(s', h) == Some(s'.conns[ch].value.lHandle) &&
    Admit(s', h, LibraryAPIv0).Granted?
  }

  /** OpenOutcome past the parse stage. */
  lemma OpenParsedEstablishes(loader: Loader, s: State, scheme: string, arg: string, diag: Option<string>,
                              moduleRet: int, moduleHandle: u32, moduleErr: string)
    requires Inv(loader, s) && 0 < |scheme| < NAME_SIZE && |arg| < ARG_SIZE
    ensures var r := OpenParsed(loader, s, NormalizeCase(scheme), arg, diag, moduleRet, moduleHandle, moduleErr);
            Inv(loader, r.0) &&
            (r.2.Some? <==> Established(r.1)) &&
            (r.2.None? ==> r.0.conns == s.conns && r.0.libs == s.libs) &&
            (r.2.Some? ==> r.1 == moduleRet && Admitted(s, r.0, r.2.value, moduleHandle))
  {
    var name := NormalizeCase(scheme);
    InvCounted(loader, s);
    OpenParsedOutcome(loader, s, name, arg, diag, moduleRet, moduleHandle, moduleErr);
    var r := OpenParsed(loader, s, name, arg, diag, moduleRet, moduleHandle, moduleErr);
    var s', handle := r.0, r.2;
    if handle.Some? {
      var ch := FirstFree(s.conns);
      var lh := BoundSlot(s, name);
      BindPreservesInv(loader, s, s', ch, lh, scheme, arg);
      DecodeEncode(ch, moduleHandle);
      LiveHandlesPassV0(loader, s', handle.value);
    }
  }

  /** Open either establishes a connection and hands out a handle for it
      (as Admitted describes), or leaves both tables exactly as they were;
      either way the invariant holds after it. */
  /** The part of OpenOutcome a caller keeping the invariant needs. */
  lemma OpenKeepsInv(loader: Loader, s: State, url: Option<string>, handleGiven: bool, diag: Option<string>,
                     moduleRet: int, moduleHandle: u32, moduleErr: string)
    requires Inv(loader, s)
    ensures Inv(loader, OpenSpec(loader, s, url, handleGiven, diag, moduleRet, moduleHandle, moduleErr).0)
  {
    OpenOutcome(loader, s, url, handleGiven, diag, moduleRet, moduleHandle, moduleErr);
  }

  lemma OpenOutcome(loader: Loader, s: State, url: Option<string>, handleGiven: bool, diag: Option<string>,
                    moduleRet: int, moduleHandle: u32, moduleErr: string)
    requires Inv(loader, s)
    ensures var r := OpenSpec(loader, s, url, handleGiven, diag, moduleRet, moduleHandle, moduleErr);
            Inv(loader, r.0) &&
            (r.2.Some? <==> Established(r.1)) &&
            (r.2.None? ==> r.0.conns == s.conns && r.0.libs == s.libs) &&
            (r.2.Some? ==> r.1 == moduleRet && Admitted(s, r.0, r.2.value, moduleHandle))
  {
    if url.Some? && handleGiven && ParseOpenUrl(url.value).Parsed? {
      var p := ParseOpenUrl(url.value);
      OpenParsedEstablishes(loader, s, p.scheme, p.arg, diag, moduleRet, moduleHandle, moduleErr);
    }
  }

  /** A NULL argument or a URL the parse stage rejects gives InvalidParam
      before anything else happens: only the last error changes. */
  lemma OpenRefusedEarly(loader: Loader, s: State, url: Option<string>, handleGiven: bool, diag: Option<string>,
                         moduleRet: int, moduleHandle: u32, moduleErr: string)
    requires Shaped(s)
    requires url.None? || !handleGiven || !ParseOpenUrl(url.value).Parsed?
    ensures var (s', ret, handle) := OpenSpec(loader, s, url, handleGiven, diag, moduleRet, moduleHandle, moduleErr);
            ret == INVALID_PARAM && handle.None? && s' == s.(lastError := s'.lastError) &&
            |s'.lastError| < LAST_ERROR_SIZE
  {
  }

  /** With every connection slot taken, or every library slot taken and
      the library not loaded yet, Open gives MaxDevicesError and neither
      loads nor calls anything. */
  lemma OpenWhenFull(loader: Loader, s: State, url: string, diag: Option<string>,
                     moduleRet: int, moduleHandle: u32, moduleErr: string)
    requires Shaped(s) && ParseOpenUrl(url).Parsed?
    requires var name := NormalizeCase(ParseOpenUrl(url).scheme);
             FirstFree(s.conns) == MAX_NUM_CONNECTION ||
             (IndexOfName(s.libs, name) == MAX_NUM_LIBRARY && FirstFree(s.libs) == MAX_NUM_LIBRARY)
    ensures var (s', ret, handle) := OpenSpec(loader, s, Some(url), true, diag, moduleRet, moduleHandle, moduleErr);
            ret == MAX_DEVICES_ERROR && handle.None? && s' == s.(lastError := s'.lastError)
  {
    var p := ParseOpenUrl(url);
    assert OpenSpec(loader, s, Some(url), true, diag, moduleRet, moduleHandle, moduleErr) ==
           OpenParsed(loader, s, NormalizeCase(p.scheme), p.arg, diag, moduleRet, moduleHandle, moduleErr);
  }

  /** Opening a library not loaded yet: an unloadable file gives
      DeviceLibraryNotAvailable and a missing mandatory symbol GenericError
      after unloading the file, neither calling the module; otherwise the
      module's Open is called and its code returned, the file is unloaded
      again exactly when no connection results, and the new library slot
      holds one reference at the tier the exports give: v1 exactly when
      HasData is exported as well. */
  lemma OpenLoadOutcome(loader: Loader, s: State, url: string, diag: Option<string>,
                        moduleRet: int, moduleHandle: u32, moduleErr: string)
    requires Shaped(s) && ParseOpenUrl(url).Parsed? && FirstFree(s.conns) < MAX_NUM_CONNECTION
    requires var name := NormalizeCase(ParseOpenUrl(url).scheme);
             IndexOfName(s.libs, name) == MAX_NUM_LIBRARY && FirstFree(s.libs) < MAX_NUM_LIBRARY
    ensures var p := ParseOpenUrl(url);
            var r := OpenSpec(loader, s, Some(url), true, diag, moduleRet, moduleHandle, moduleErr);
            LoadOutcome(loader, s, NormalizeCase(p.scheme), p.arg, moduleRet, r)
  {
    var p := ParseOpenUrl(url);
    var name := NormalizeCase(p.scheme);
    assert OpenSpec(loader, s, Some(url), true, diag, moduleRet, moduleHandle, moduleErr) ==
           OpenParsed(loader, s, name, p.arg, diag, moduleRet, moduleHandle, moduleErr);
    OpenParsedLoads(loader, s, name, p.arg, diag, moduleRet, moduleHandle, moduleErr);
  }

  /** The outcome of an Open that loads the library file for `name` into
      the first free library slot, as OpenLoadOutcome states it. */
  predicate LoadOutcome(loader: Loader, s: State, name: string, arg: string, moduleRet: int, r: (State, int, Option<u64>))
    requires Shaped(s) && FirstFree(s.libs) < MAX_NUM_LIBRARY
  {
    var file := LibraryFileName(name);
    var lh := FirstFree(s.libs);
    (file !in loader ==>
       r.1 == DEVICE_LIBRARY_NOT_AVAILABLE && r.2.None? && r.0.trace == s.trace + [Load(file)]) &&
    (file in loader && !ExportsV0(loader[file], name) ==>
       r.1 == GENERIC_ERROR && r.2.None? && r.0.trace == s.trace + [Load(file), Unload(file)]) &&
    (file in loader && ExportsV0(loader[file], name) ==>
       r.1 == moduleRet &&
       r.0.trace == s.trace + [Load(file), InvokeOpen(file, arg)] + (if r.2.None? then [Unload(file)] else []) &&
       (r.2.Some? ==>
          |r.0.libs| == |s.libs| && r.0.libs[lh].Some? && r.0.libs[lh].value.nRef == 1 &&
          (r.0.libs[lh].value.api == LibraryAPIv1 <==> SymbolName(name, Fn.HasData) in loader[file])))
  }

  /** OpenLoadOutcome past the parse stage. */
  lemma OpenParsedLoads(loader: Loader, s: State, name: string, arg: string, diag: Option<string>,
                        moduleRet: int, moduleHandle: u32, moduleErr: string)
    requires Shaped(s) && FirstFree(s.conns) < MAX_NUM_CONNECTION
    requires IndexOfName(s.libs, name) == MAX_NUM_LIBRARY && FirstFree(s.libs) < MAX_NUM_LIBRARY
    ensures LoadOutcome(loader, s, name, arg, moduleRet, OpenParsed(loader, s, name, arg, diag, moduleRet, moduleHandle, moduleErr))
  {
    var file := LibraryFileName(name);
    var lh := FirstFree(s.libs);
    if file in loader && ExportsV0(loader[file], name) {
      var born := Library(name, TierOf(loader[file], name), 0, file);
      var s2 := s.(trace := s.trace + [Load(file)], libs := s.libs[lh := Some(born)]);
      assert OpenParsed(loader, s, name, arg, diag, moduleRet, moduleHandle, moduleErr) ==
             OpenModule(s2, FirstFree(s.conns), lh, arg, moduleRet, moduleHandle, moduleErr);
      OpenModuleOutcome(s2, FirstFree(s.conns), lh, arg, moduleRet, moduleHandle, moduleErr);
    }
  }

  // ---- Close ----

  /** CAEN_FELib_Close: on the module's success release the connection;
      on failure keep the tables and take the module's error text. */
  function CloseSpec(s: State, h: u64, moduleRet: int, moduleErr: string): (State, int) {
    var g := Admit(s, h, LibraryAPIv0);
    if !g.Granted? then Refuse(s, g)
    else
      var s1 := s.(trace := s.trace + [Invoke(s.libs[g.lh].value.file, Fn.Close, Some(RHandle(h)))]);
      if moduleRet == SUCCESS then (Release(s1, g.ch), SUCCESS)
      else (s1.(lastError := Stored(moduleErr)), moduleRet)
  }

  /** Close keeps the invariant; a successful Close frees exactly the
      handle's slot, after which the handle is refused; a failed one
      changes neither table. */
  lemma CloseOutcome(loader: Loader, s: State, h: u64, moduleRet: int, moduleErr: string)
    requires Inv(loader, s)
    ensures var (s', ret) := CloseSpec(s, h, moduleRet, moduleErr);
            Inv(loader, s') &&
            (ret == SUCCESS && LibraryOf(s, h).Some? ==>
               s'.conns == s.conns[CHandle(h) := None] && LibraryOf(s', h).None?) &&
            (ret != SUCCESS ==> s'.conns == s.conns && s'.libs == s.libs)
    ensures var (s', ret) := CloseSpec(s, h, moduleRet, moduleErr);
            (LibraryOf(s, h).None? ==>
               ret == INVALID_HANDLE && s' == s.(lastError := MSG_INVALID_HANDLE)) &&
            (LibraryOf(s, h).Some? ==>
               ret == moduleRet &&
               (ret != SUCCESS ==>
                  s'.trace == s.trace + [Invoke(s.libs[LibraryOf(s, h).value].value.file, Fn.Close, Some(RHandle(h)))] &&
                  s'.lastError == Stored(moduleErr)))
  {
    var g := Admit(s, h, LibraryAPIv0);
    LiveHandlesPassV0(loader, s, h);
    if g.Granted? && moduleRet == SUCCESS {
      var s1 := s.(trace := s.trace + [Invoke(s.libs[g.lh].value.file, Fn.Close, Some(RHandle(h)))]);
      ReleasePreservesInv(loader, s1, g.ch);
    }
  }

  /** The library count goes down by one with each Close and the library
      is unloaded exactly when the count reaches 0. */
  lemma CloseUnloadsLast(loader: Loader, s: State, h: u64, moduleErr: string)
    requires Inv(loader, s) && LibraryOf(s, h).Some?
    ensures var lh := LibraryOf(s, h).value;
            var lib := s.libs[lh].value;
            var s' := CloseSpec(s, h, SUCCESS, moduleErr).0;
            (lib.nRef == 1 ==> s'.libs[lh].None? &&
                               s'.trace == s.trace + [Invoke(lib.file, Fn.Close, Some(RHandle(h))), Unload(lib.file)]) &&
            (lib.nRef > 1 ==> s'.libs[lh] == Some(lib.(nRef := lib.nRef - 1)) &&
                              s'.trace == s.trace + [Invoke(lib.file, Fn.Close, Some(RHandle(h)))])
  {
    LiveHandlesPassV0(loader, s, h);
  }

  /** Closing the handle of a connection just bound undoes the binding. */
  lemma CloseUndoesBind(loader: Loader, s: State, s1: State, ch: nat, lh: nat, name: string, arg: string,
                        h: u64, closeErr: string)
    requires Shaped(s)
    requires ch < MAX_NUM_CONNECTION && s.conns[ch].None? && lh < MAX_NUM_LIBRARY && CHandle(h) == ch
    requires s.libs[lh].Some? ==> LibraryOk(loader, s.libs[lh].value)
    requires s1.conns == s.conns[ch := Some(Connection(arg, lh))]
    requires LibraryBound(loader, s.libs, s1.libs, lh, name)
    ensures var s2 := CloseSpec(s1, h, SUCCESS, closeErr).0;
            s2.conns == s.conns && s2.libs == s.libs
  {
    var lib1 := s1.libs[lh].value;
    assert Level(lib1.api) >= 1;
    assert Admit(s1, h, LibraryAPIv0) == Granted(ch, lh);
    var s1' := s1.(trace := s1.trace + [Invoke(lib1.file, Fn.Close, Some(RHandle(h)))]);
    assert CloseSpec(s1, h, SUCCESS, closeErr).0 == Release(s1', ch);
    ReleaseTables(s1', ch);
    assert s1.conns[ch := None] == s.conns;
    UnbindLibrary(loader, s.libs, s1.libs, lh, name);
  }

  /** Taking back the reference a binding added restores the library table. */
  lemma UnbindLibrary(loader: Loader, libs: seq<Option<Library>>, libs1: seq<Option<Library>>, lh: nat, name: string)
    requires lh < |libs| && LibraryBound(loader, libs, libs1, lh, name)
    requires libs[lh].Some? ==> libs[lh].value.nRef >= 1
    ensures lh < |libs1| && libs1[lh].Some?
    ensures var lib := libs1[lh].value;
            (if lib.nRef == 1 then libs1[lh := None] else libs1[lh := Some(lib.(nRef := lib.nRef - 1))]) == libs
  {
    var lib := libs1[lh].value;
    if libs[lh].Some? {
      assert libs1[lh := Some(lib.(nRef := lib.nRef - 1))] == libs;
    } else {
      assert libs1[lh := None] == libs;
    }
  }

  /** Opening a connection and closing its handle again gives back both
      tables as they were. */
  lemma OpenThenCloseRestores(loader: Loader, s: State, url: string, diag: Option<string>,
                              moduleRet: int, moduleHandle: u32, moduleErr: string, closeErr: string)
    requires Inv(loader, s)
    requires OpenSpec(loader, s, Some(url), true, diag, moduleRet, moduleHandle, moduleErr).2.Some?
    ensures var r := OpenSpec(loader, s, Some(url), true, diag, moduleRet, moduleHandle, moduleErr);
            var s2 := CloseSpec(r.0, r.2.value, SUCCESS, closeErr).0;
            s2.conns == s.conns && s2.libs == s.libs
  {
    var p := ParseOpenUrl(url);
    var name := NormalizeCase(p.scheme);
    InvCounted(loader, s);
    OpenParsedOutcome(loader, s, name, p.arg, diag, moduleRet, moduleHandle, moduleErr);
    var r := OpenSpec(loader, s, Some(url), true, diag, moduleRet, moduleHandle, moduleErr);
    assert r == OpenParsed(loader, s, name, p.arg, diag, moduleRet, moduleHandle, moduleErr);
    var ch := FirstFree(s.conns);
    DecodeEncode(ch, moduleHandle);
    var lh := BoundSlot(s, name);
    if s.libs[lh].Some? {
      assert LibraryOk(loader, s.libs[lh].value);
    }
    CloseUndoesBind(loader, s, r.0, ch, lh, name, p.arg, r.2.value, closeErr);
  }

  /** Scheme case does not matter: once a library is live, an Open whose
      scheme differs only in case reuses its slot and loads nothing. */
  lemma OpenReusesByName(loader: Loader, s: State, url: string, diag: Option<string>,
                         moduleRet: int, moduleHandle: u32, moduleErr: string, lh: nat)
    requires Inv(loader, s)
    requires ParseOpenUrl(url).Parsed? && FirstFree(s.conns) < MAX_NUM_CONNECTION
    requires lh < MAX_NUM_LIBRARY && s.libs[lh].Some? &&
             EqualIgnoringCase(s.libs[lh].value.name, ParseOpenUrl(url).scheme)
    ensures var r := OpenSpec(loader, s, Some(url), true, diag, moduleRet, moduleHandle, moduleErr);
            r.1 == moduleRet &&
            r.0.trace == s.trace + [InvokeOpen(s.libs[lh].value.file, ParseOpenUrl(url).arg)]
  {
    var lib := s.libs[lh].value;
    var p := ParseOpenUrl(url);
    var name := NormalizeCase(p.scheme);
    assert LibraryOk(loader, lib);
    NormalizeCaseIgnoresCase(lib.name, p.scheme);
    assert lib.name == name;
    forall j | 0 <= j < lh ensures !(s.libs[j].Some? && s.libs[j].value.name == name) {
    }
    IndexOfNameIs(s.libs, name, lh);
    assert OpenSpec(loader, s, Some(url), true, diag, moduleRet, moduleHandle, moduleErr) ==
           OpenParsed(loader, s, name, p.arg, diag, moduleRet, moduleHandle, moduleErr);
    OpenParsedReuses(loader, s, name, p.arg, diag, moduleRet, moduleHandle, moduleErr, lh);
  }

  /** OpenReusesByName past the parse stage. */
  lemma OpenParsedReuses(loader: Loader, s: State, name: string, arg: string, diag: Option<string>,
                         moduleRet: int, moduleHandle: u32, moduleErr: string, lh: nat)
    requires Shaped(s) && FirstFree(s.conns) < MAX_NUM_CONNECTION
    requires lh < MAX_NUM_LIBRARY && IndexOfName(s.libs, name) == lh && s.libs[lh].value.nRef >= 1
    ensures var r := OpenParsed(loader, s, name, arg, diag, moduleRet, moduleHandle, moduleErr);
            r.1 == moduleRet && r.0.trace == s.trace + [InvokeOpen(s.libs[lh].value.file, arg)]
  {
    assert OpenParsed(loader, s, name, arg, diag, moduleRet, moduleHandle, moduleErr) ==
           OpenModule(s, FirstFree(s.conns), lh, arg, moduleRet, moduleHandle, moduleErr);
    OpenModuleOutcome(s, FirstFree(s.conns), lh, arg, moduleRet, moduleHandle, moduleErr);
  }

  // ---- forwarding entry points ----

  /** Which module handle a forwarded call passes: GetImplLibVersion has none. */
  function Target(op: Fn, h: u64): Option<u32> {
    if op == Fn.GetLibVersion then None else Some(RHandle(h))
  }

  /** The entry points that only forward: GetImplLibVersion (the module's
      GetLibVersion), GetDeviceTree, GetPath, GetNodeProperties, GetValue,
      SetValue, SendCommand, Get/SetUserRegister, SetReadDataFormat,
      ReadDataV and HasData. */
  predicate Forwarded(op: Fn) {
    op in {Fn.GetLibVersion, Fn.GetDeviceTree, Fn.GetPath, Fn.GetNodeProperties, Fn.GetValue,
           Fn.SetValue, Fn.SendCommand, Fn.GetUserRegister, Fn.SetUserRegister,
           Fn.SetReadDataFormat, Fn.ReadDataV, Fn.HasData}
  }

  /** Gate the call, then pass it to the handle's library with the low 32
      bits of the handle (`Target`); the module's code is the result.
      failed says whether the source then fetches the module's error text,
      a GetLastError call into the same module that the trace folds into
      the one recorded event. */
  function DispatchSpec(s: State, op: Fn, h: u64, failed: bool, moduleErr: string): (r: (State, Option<int>))
    ensures r.0.conns == s.conns && r.0.libs == s.libs
  {
    var g := Admit(s, h, RequiredTier(op));
    if !g.Granted? then
      var (s', code) := Refuse(s, g);
      (s', Some(code))
    else
      (s.(trace := s.trace + [Invoke(s.libs[g.lh].value.file, op, Target(op, h))],
          lastError := AfterModuleCall(s, failed, moduleErr)), None)
  }

  /** A forwarding entry point returns the gate's code, or the module's code unchanged. */
  function ForwardSpec(s: State, op: Fn, h: u64, moduleRet: int, moduleErr: string): (State, int) {
    var (s', code) := DispatchSpec(s, op, h, moduleRet != SUCCESS, moduleErr);
    (s', if code.Some? then code.value else moduleRet)
  }

  /** The gate every handle-taking entry point passes through: a handle
      that names no connection gives InvalidHandle, records no call and
      leaves "invalid handle"; a granted call is recorded once against the
      handle's own library and leaves the code to the module. */
  lemma DispatchGate(s: State, op: Fn, h: u64, failed: bool, moduleErr: string)
    requires Shaped(s)
    ensures var r := DispatchSpec(s, op, h, failed, moduleErr);
            (LibraryOf(s, h).None? ==>
               r.1 == Some(INVALID_HANDLE) && r.0.trace == s.trace && r.0.lastError == MSG_INVALID_HANDLE) &&
            (Admit(s, h, RequiredTier(op)).Granted? ==>
               r.1.None? && r.0.lastError == AfterModuleCall(s, failed, moduleErr) &&
               r.0.trace == s.trace + [Invoke(s.libs[LibraryOf(s, h).value].value.file, op, Target(op, h))])
  {
  }

  /** The dispatcher discipline: a handle that names no connection gives
      InvalidHandle and calls nothing; a tier too low gives NotImplemented
      and calls nothing; otherwise the call reaches the handle's own library,
      with the handle's low 32 bits (GetImplLibVersion passes none), and its
      code comes back unchanged. No forwarded call changes a table. */
  lemma ForwardDiscipline(loader: Loader, s: State, op: Fn, h: u64, moduleRet: int, moduleErr: string)
    requires Inv(loader, s) && Forwarded(op)
    ensures var (s', ret) := ForwardSpec(s, op, h, moduleRet, moduleErr);
            s'.conns == s.conns && s'.libs == s.libs &&
            (LibraryOf(s, h).None? ==> ret == INVALID_HANDLE && s'.trace == s.trace &&
                                       s'.lastError == MSG_INVALID_HANDLE) &&
            (LibraryOf(s, h).Some? && op != Fn.HasData ==>
               ret == moduleRet &&
               s'.trace == s.trace + [Invoke(s.libs[s.conns[CHandle(h)].value.lHandle].value.file, op, Target(op, h))]) &&
            (LibraryOf(s, h).Some? && op == Fn.HasData ==>
               (s.libs[LibraryOf(s, h).value].value.api == LibraryAPIv1 ==>
                  ret == moduleRet &&
                  s'.trace == s.trace + [Invoke(s.libs[LibraryOf(s, h).value].value.file, op, Target(op, h))]) &&
               (s.libs[LibraryOf(s, h).value].value.api != LibraryAPIv1 ==>
                  ret == NOT_IMPLEMENTED && s'.trace == s.trace && s'.lastError == MSG_NOT_SUPPORTED))
  {
    LiveHandlesPassV0(loader, s, h);
    if LibraryOf(s, h).Some? {
      assert LibraryOk(loader, s.libs[LibraryOf(s, h).value].value);
    }
  }

  /** GetHandle and GetParentHandle: on success the module's node handle
      is returned in public form, on the input handle's connection slot. */
  function NodeHandleSpec(s: State, op: Fn, h: u64, moduleRet: int, moduleHandle: u32, moduleErr: string): (State, int, Option<u64>)
  {
    var (s', code) := DispatchSpec(s, op, h, moduleRet != SUCCESS, moduleErr);
    if code.Some? then (s', code.value, None)
    else if moduleRet == SUCCESS && CHandle(h) < P16 then (s', moduleRet, Some(MakeHandle(CHandle(h), moduleHandle)))
    else (s', moduleRet, None)
  }

  /** A handle returned for a node names the same connection as the
      handle it was asked from, and is accepted wherever that one is. */
  lemma NodeHandleSameConnection(s: State, op: Fn, h: u64, moduleRet: int, moduleHandle: u32, moduleErr: string)
    requires Shaped(s)
    ensures var r := NodeHandleSpec(s, op, h, moduleRet, moduleHandle, moduleErr);
            r.2.Some? <==> Admit(s, h, RequiredTier(op)).Granted? && moduleRet == SUCCESS
    ensures var r := NodeHandleSpec(s, op, h, moduleRet, moduleHandle, moduleErr);
            r.2.Some? ==> CHandle(r.2.value) == CHandle(h) && RHandle(r.2.value) == moduleHandle &&
                          LibraryOf(r.0, r.2.value) == LibraryOf(s, h)
    ensures var r := NodeHandleSpec(s, op, h, moduleRet, moduleHandle, moduleErr);
            r.0.conns == s.conns && r.0.libs == s.libs &&
            (LibraryOf(s, h).None? ==>
               r.1 == INVALID_HANDLE && r.0.trace == s.trace && r.0.lastError == MSG_INVALID_HANDLE) &&
            (Admit(s, h, RequiredTier(op)).Granted? ==>
               r.1 == moduleRet && r.0.trace == s.trace + [Invoke(s.libs[LibraryOf(s, h).value].value.file, op, Target(op, h))])
  {
    DispatchGate(s, op, h, moduleRet != SUCCESS, moduleErr);
    if Admit(s, h, RequiredTier(op)).Granted? {
      DecodeEncode(CHandle(h), moduleHandle);
    }
  }

  /** GetChildHandles: the module's code comes back unchanged; its error
      text is fetched only for a negative code. */
  function ChildHandlesSpec(s: State, h: u64, moduleRet: int, moduleErr: string): (State, int) {
    var (s', code) := DispatchSpec(s, Fn.GetChildHandles, h, moduleRet < 0, moduleErr);
    (s', if code.Some? then code.value else moduleRet)
  }

  /** The caller's buffer of size 64-bit entries, seen as 2*size 32-bit
      words (low word first): after the module has written n local handles
      into the first n words, the first n entries become the public handles
      on connection c and every other word is kept. */
  function ConvertChildren(w: seq<u32>, c: nat, n: nat): (r: seq<u32>)
    requires c < P16 && 2 * n <= |w|
    ensures |r| == |w|
  {
    seq(|w|, k requires 0 <= k < |w| =>
      if k < 2 * n then
        (if k % 2 == 0 then LowWord(MakeHandle(c, w[k / 2])) else HighWord(MakeHandle(c, w[k / 2])))
      else w[k])
  }

  /** Entry i of the converted buffer, read as a 64-bit value, is the public
      handle of the module's i-th local handle on connection c. */
  lemma ConvertChildrenDecodes(w: seq<u32>, c: nat, n: nat, i: nat)
    requires c < P16 && 2 * n <= |w| && i < n
    ensures var r := ConvertChildren(w, c, n);
            var e := Join(r[2 * i], r[2 * i + 1]);
            e == MakeHandle(c, w[i]) && CHandle(e) == c && RHandle(e) == w[i]
  {
    var r := ConvertChildren(w, c, n);
    assert r[2 * i] == LowWord(MakeHandle(c, w[i]));
    assert r[2 * i + 1] == HighWord(MakeHandle(c, w[i]));
    JoinWords(MakeHandle(c, w[i]));
    DecodeEncode(c, w[i]);
  }

  /** How many entries the source converts: the module's count, bounded by
      the buffer. The output is complete exactly when the count fits. */
  function Converted(ret: int, size: nat): (n: nat)
    requires ret >= 0
    ensures n <= size && (n == ret <==> ret <= size)
  {
    Min(ret, size)
  }

  /** The caller's buffer (2*size words) after GetChildHandles: the module
      writes its local handles into the first words; on a count of 0 or
      more the first Converted(count, size) entries are then rewritten as
      public handles. A refused call leaves the buffer alone. */
  function ChildBuffer(s: State, h: u64, w: seq<u32>, size: nat, moduleRet: int, children: seq<u32>): (r: seq<u32>)
    requires Shaped(s) && |w| == 2 * size && |children| <= size
    ensures |r| == |w|
  {
    if !Admit(s, h, LibraryAPIv0).Granted? then w
    else
      var written := children + w[|children|..];
      if moduleRet >= 0 then ConvertChildren(written, CHandle(h), Converted(moduleRet, size)) else written
  }

  /** GetChildHandles: a handle naming no connection gives InvalidHandle,
      records no call and leaves the buffer alone. A granted call returns
      the module's code and is recorded once. With a count of 0 or more,
      entry i, for every i below the converted count, is the public handle
      of the module's i-th child on the caller's connection and every word
      past the converted entries is what the module left there; with a
      negative count the buffer is what the module left. */
  lemma ChildHandlesConverted(s: State, h: u64, w: seq<u32>, size: nat, moduleRet: int, children: seq<u32>,
                              moduleErr: string, i: nat)
    requires Shaped(s) && |w| == 2 * size && |children| <= size
    ensures var r := ChildBuffer(s, h, w, size, moduleRet, children);
            var spec := ChildHandlesSpec(s, h, moduleRet, moduleErr);
            spec.0.conns == s.conns && spec.0.libs == s.libs &&
            (LibraryOf(s, h).None? ==>
               spec.1 == INVALID_HANDLE && spec.0.trace == s.trace && spec.0.lastError == MSG_INVALID_HANDLE &&
               r == w) &&
            (Admit(s, h, LibraryAPIv0).Granted? ==>
               spec.1 == moduleRet &&
               spec.0.trace == s.trace + [Invoke(s.libs[LibraryOf(s, h).value].value.file, Fn.GetChildHandles,
                                                 Some(RHandle(h)))])
    ensures var r := ChildBuffer(s, h, w, size, moduleRet, children);
            var written := children + w[|children|..];
            Admit(s, h, LibraryAPIv0).Granted? && moduleRet < 0 ==> r == written
    ensures var r := ChildBuffer(s, h, w, size, moduleRet, children);
            var written := children + w[|children|..];
            var n := if moduleRet >= 0 then Converted(moduleRet, size) else 0;
            Admit(s, h, LibraryAPIv0).Granted? && moduleRet >= 0 ==>
              (i < n ==> Join(r[2 * i], r[2 * i + 1]) == MakeHandle(CHandle(h), written[i]) &&
                         LibraryOf(s, Join(r[2 * i], r[2 * i + 1])) == LibraryOf(s, h)) &&
              (i < |children| && i < n ==> RHandle(Join(r[2 * i], r[2 * i + 1])) == children[i]) &&
              (2 * n <= i < |w| ==> r[i] == written[i])
  {
    DispatchGate(s, Fn.GetChildHandles, h, moduleRet < 0, moduleErr);
    var written := children + w[|children|..];
    if Admit(s, h, LibraryAPIv0).Granted? && moduleRet >= 0 {
      var n := Converted(moduleRet, size);
      if i < n {
        ConvertChildrenDecodes(written, CHandle(h), n, i);
      }
    }
  }

  // ---- teardown ----

  /** deinit_library from slot i on: release every live connection in slot order. */
  function DeinitFrom(s: State, i: nat): (r: State)
    ensures |r.conns| == |s.conns| && |r.libs| == |s.libs|
    decreases |s.conns| - i
  {
    if i >= |s.conns| then s
    else DeinitFrom(if s.conns[i].Some? then Release(s, i) else s, i + 1)
  }

  lemma {:induction false} DeinitFromClears(loader: Loader, s: State, i: nat)
    requires Inv(loader, s) && i <= |s.conns|
    requires forall j :: 0 <= j < i ==> s.conns[j].None?
    ensures Inv(loader, DeinitFrom(s, i))
    ensures forall j :: 0 <= j < |s.conns| ==> DeinitFrom(s, i).conns[j].None?
    decreases |s.conns| - i
  {
    if i < |s.conns| {
      var s1 := if s.conns[i].Some? then Release(s, i) else s;
      if s.conns[i].Some? {
        ReleasePreservesInv(loader, s, i);
      }
      DeinitFromClears(loader, s1, i + 1);
    }
  }

  /** Teardown empties both tables: with no connection left, no library
      can have a count of 1 or more. */
  lemma DeinitEmpties(loader: Loader, s: State)
    requires Inv(loader, s)
    ensures var r := DeinitFrom(s, 0);
            (forall c :: 0 <= c < |r.conns| ==> r.conns[c].None?) &&
            (forall l :: 0 <= l < |r.libs| ==> r.libs[l].None?)
  {
    DeinitFromClears(loader, s, 0);
    var r := DeinitFrom(s, 0);
    forall l | 0 <= l < |r.libs| ensures r.libs[l].None? {
      RefCountZero(r.conns, l);
    }
  }
}
