/** The dispatcher as the library runs it: the two global descriptor
    tables are arrays updated in place, the calling thread's last error and
    the record of loader and module calls are fields. Every entry point is
    proved to leave exactly the state its counterpart in Tables computes,
    so the lemmas proved there hold of the running object. */
module Dispatch {
  import opened Common
  import opened ResultCodes
  import opened HandleCodec
  import opened Naming
  import opened Uri
  import opened Tables

  /** The library name Open looks the module up by: the scheme copied into
      a buffer of its own and case-adjusted there. */
  method CaseAdjustedName(scheme: string) returns (name: string)
    ensures name == NormalizeCase(scheme)
  {
    var libName := new char[|scheme|](k requires 0 <= k < |scheme| => scheme[k]);
    assert libName[..|scheme|] == scheme;
    AdjustLibraryNameCase(libName, |scheme|);
    name := libName[..];
    assert name == libName[..|scheme|];
  }

  class Registry {
    /** The platform loader: which library files exist and what they export. */
    const loader: Loader
    /** connectionDescr[MAX_NUM_CONNECTION]; None is a NULL slot. */
    const conns: array<Option<Connection>>
    /** libDescr[MAX_NUM_LIBRARY]; None is a NULL slot. */
    const libs: array<Option<Library>>
    /** The text in the last-error buffer. */
    var lastError: string
    /** The loader and module calls made so far, oldest first. */
    var trace: seq<Event>

    function Abstract(): State
      reads this, conns, libs
    {
      State(conns[..], libs[..], lastError, trace)
    }

    ghost predicate Valid()
      reads this, conns, libs
    {
      conns.Length == MAX_NUM_CONNECTION && libs.Length == MAX_NUM_LIBRARY &&
      |lastError| < LAST_ERROR_SIZE && Inv(loader, Abstract())
    }

    /** init_library: both tables empty. */
    constructor (loader: Loader)
      ensures Valid() && this.loader == loader
      ensures forall c :: 0 <= c < conns.Length ==> conns[c].None?
      ensures forall l :: 0 <= l < libs.Length ==> libs[l].None?
      ensures lastError == [] && trace == []
    {
      this.loader := loader;
      conns := new Option<Connection>[MAX_NUM_CONNECTION];
      libs := new Option<Library>[MAX_NUM_LIBRARY];
      lastError := [];
      trace := [];
      new;
      var i := 0;
      while i < conns.Length
        invariant 0 <= i <= conns.Length
        invariant forall c :: 0 <= c < i ==> conns[c].None?
        invariant lastError == [] && trace == []
      {
        conns[i] := None;
        i := i + 1;
      }
      var j := 0;
      while j < libs.Length
        invariant 0 <= j <= libs.Length
        invariant forall c :: 0 <= c < conns.Length ==> conns[c].None?
        invariant forall l :: 0 <= l < j ==> libs[l].None?
        invariant lastError == [] && trace == []
      {
        libs[j] := None;
        j := j + 1;
      }
    }

    // ---- slot searches (the for-loops of Open) ----

    /** The first NULL connection slot, or MAX_NUM_CONNECTION. */
    method FindFreeConnection() returns (ch: nat)
      requires conns.Length == MAX_NUM_CONNECTION
      ensures ch == FirstFree(conns[..])
    {
      ch := 0;
      while ch < conns.Length && conns[ch].Some?
        invariant ch <= conns.Length
        invariant forall j :: 0 <= j < ch ==> conns[j].Some?
      {
        ch := ch + 1;
      }
      FirstFreeIs(conns[..], ch);
    }

    /** The first live library slot with the given name, or MAX_NUM_LIBRARY. */
    method FindLibrary(name: string) returns (lh: nat)
      requires libs.Length == MAX_NUM_LIBRARY
      ensures lh == IndexOfName(libs[..], name)
    {
      lh := 0;
      while lh < libs.Length && !(libs[lh].Some? && libs[lh].value.name == name)
        invariant lh <= libs.Length
        invariant forall j :: 0 <= j < lh ==> !(libs[j].Some? && libs[j].value.name == name)
      {
        lh := lh + 1;
      }
      IndexOfNameIs(libs[..], name, lh);
    }

    /** The first NULL library slot, or MAX_NUM_LIBRARY. */
    method FindFreeLibrary() returns (lh: nat)
      requires libs.Length == MAX_NUM_LIBRARY
      ensures lh == FirstFree(libs[..])
    {
      lh := 0;
      while lh < libs.Length && libs[lh].Some?
        invariant lh <= libs.Length
        invariant forall j :: 0 <= j < lh ==> libs[j].Some?
      {
        lh := lh + 1;
      }
      FirstFreeIs(libs[..], lh);
    }

    // ---- entry-point resolution ----

    /** _loadAPIv0: resolve the 19 mandatory symbols in order, stopping at
        the first missing one; when all resolve the library reaches the
        mandatory tier. */
    method LoadApiV0(lh: nat) returns (code: int)
      requires libs.Length == MAX_NUM_LIBRARY && lh < MAX_NUM_LIBRARY && libs[lh].Some?
      requires libs[lh].value.api == LibraryAPIUnknown && libs[lh].value.file in loader
      modifies libs
      ensures var lib := old(libs[lh].value);
              var ok := ExportsV0(loader[lib.file], lib.name);
              code == (if ok then SUCCESS else GENERIC_ERROR) &&
              libs[..] == (if ok then old(libs[..])[lh := Some(lib.(api := LibraryAPIv0))] else old(libs[..]))
    {
      var lib := libs[lh].value;
      var exports := loader[lib.file];
      var i := 0;
      while i < |V0_FUNCTIONS|
        invariant i <= |V0_FUNCTIONS|
        invariant forall k :: 0 <= k < i ==> SymbolName(lib.name, V0_FUNCTIONS[k]) in exports
      {
        if SymbolName(lib.name, V0_FUNCTIONS[i]) !in exports {
          return GENERIC_ERROR;
        }
        i := i + 1;
      }
      libs[lh] := Some(lib.(api := LibraryAPIv0));
      code := SUCCESS;
    }

    /** _loadAPIv1: the optional tier needs HasData; without it the
        library stays at the mandatory tier. */
    method LoadApiV1(lh: nat) returns (code: int)
      requires libs.Length == MAX_NUM_LIBRARY && lh < MAX_NUM_LIBRARY && libs[lh].Some?
      requires libs[lh].value.api == LibraryAPIv0 && libs[lh].value.file in loader
      modifies libs
      ensures var lib := old(libs[lh].value);
              var ok := SymbolName(lib.name, Fn.HasData) in loader[lib.file];
              code == (if ok then SUCCESS else GENERIC_ERROR) &&
              libs[..] == (if ok then old(libs[..])[lh := Some(lib.(api := LibraryAPIv1))] else old(libs[..]))
    {
      var lib := libs[lh].value;
      if SymbolName(lib.name, Fn.HasData) !in loader[lib.file] {
        return GENERIC_ERROR;
      }
      libs[lh] := Some(lib.(api := LibraryAPIv1));
      code := SUCCESS;
    }

    // ---- releasing ----

    /** _closeLibraryAndResetDevDescrIfLast. */
    method CloseLibraryIfLast(lh: nat)
      requires libs.Length == MAX_NUM_LIBRARY && lh < MAX_NUM_LIBRARY && libs[lh].Some?
      modifies this, libs
      ensures Abstract() == CloseIfLast(old(Abstract()), lh)
    {
      var lib := libs[lh].value;
      if lib.nRef == 0 {
        trace := trace + [Unload(lib.file)];
        libs[lh] := None;
      }
    }

    /** The bookkeeping Close and deinit_library share once a connection
        is gone: one reference fewer, the library unloaded if it was the
        last, the connection slot freed. */
    method ReleaseConnection(c: nat)
      requires conns.Length == MAX_NUM_CONNECTION && libs.Length == MAX_NUM_LIBRARY
      requires c < MAX_NUM_CONNECTION && conns[c].Some?
      requires conns[c].value.lHandle < MAX_NUM_LIBRARY && libs[conns[c].value.lHandle].Some?
      modifies this, conns, libs
      ensures Abstract() == Release(old(Abstract()), c)
    {
      var lh := conns[c].value.lHandle;
      var lib := libs[lh].value;
      libs[lh] := Some(lib.(nRef := lib.nRef - 1));
      CloseLibraryIfLast(lh);
      conns[c] := None;
    }

    // ---- handle gating ----

    /** _getLibDescr followed by _checkAPI. */
    method Gatekeep(h: u64, required: Tier) returns (g: Gate)
      requires conns.Length == MAX_NUM_CONNECTION && libs.Length == MAX_NUM_LIBRARY
      ensures g == Admit(Abstract(), h, required)
    {
      var c := CHandle(h);
      if c < conns.Length && conns[c].Some? {
        var lh := conns[c].value.lHandle;
        if lh < libs.Length && libs[lh].Some? {
          if Level(libs[lh].value.api) >= Level(required) {
            return Granted(c, lh);
          }
          return TierTooLow;
        }
      }
      return NoConnection;
    }

    /** _invalidHandle and _notSupported. */
    method RefuseCall(g: Gate) returns (code: int)
      requires !g.Granted?
      modifies this
      ensures (Abstract(), code) == Refuse(old(Abstract()), g)
    {
      if g.NoConnection? {
        lastError := Stored(MSG_INVALID_HANDLE);
        code := INVALID_HANDLE;
      } else {
        lastError := Stored(MSG_NOT_SUPPORTED);
        code := NOT_IMPLEMENTED;
      }
    }

    // ---- Open ----

    /** CAEN_FELib_Open. url None and handleGiven false stand for the NULL
        pointers; diag is the loader's diagnostic; moduleRet, moduleHandle
        and moduleErr are what the module's Open and GetLastError give. */
    method Open(url: Option<string>, handleGiven: bool, diag: Option<string>,
                moduleRet: int, moduleHandle: u32, moduleErr: string) returns (ret: int, handle: Option<u64>)
      requires Valid()
      requires url.Some? ==> IsCString(url.value)
      modifies this, conns, libs
      ensures Valid()
      ensures (Abstract(), ret, handle) ==
              OpenSpec(loader, old(Abstract()), url, handleGiven, diag, moduleRet, moduleHandle, moduleErr)
    {
      OpenKeepsInv(loader, Abstract(), url, handleGiven, diag, moduleRet, moduleHandle, moduleErr);
      if url.None? || !handleGiven {
        lastError := Stored(MSG_NULL_ARGUMENT);
        return INVALID_PARAM, None;
      }
      var outcome := ParseOpenArguments(url.value);
      if !outcome.Parsed? {
        lastError := Stored(ParseMessage(url.value, outcome));
        return INVALID_PARAM, None;
      }
      var name := CaseAdjustedName(outcome.scheme);
      ret, handle := OpenNamed(name, outcome.arg, diag, moduleRet, moduleHandle, moduleErr);
    }

    /** Open past the parse stage: the slot searches, the library load and
        the module call. */
    method OpenNamed(name: string, arg: string, diag: Option<string>,
                     moduleRet: int, moduleHandle: u32, moduleErr: string) returns (ret: int, handle: Option<u64>)
      requires conns.Length == MAX_NUM_CONNECTION && libs.Length == MAX_NUM_LIBRARY
      modifies this, conns, libs
      ensures (Abstract(), ret, handle) ==
              OpenParsed(loader, old(Abstract()), name, arg, diag, moduleRet, moduleHandle, moduleErr)
      ensures lastError == old(lastError) || |lastError| < LAST_ERROR_SIZE
    {
      var ch := FindFreeConnection();
      if ch == MAX_NUM_CONNECTION {
        lastError := Stored(MSG_TOO_MANY_DEVICES);
        return MAX_DEVICES_ERROR, None;
      }
      var lh := FindLibrary(name);
      if lh == MAX_NUM_LIBRARY {
        lh := FindFreeLibrary();
        if lh == MAX_NUM_LIBRARY {
          lastError := Stored(MSG_TOO_MANY_LIBRARIES);
          return MAX_DEVICES_ERROR, None;
        }
        ret := LoadLibrary(lh, name, diag);
        if ret != SUCCESS {
          return ret, None;
        }
      }
      ret, handle := BindModule(ch, lh, arg, moduleRet, moduleHandle, moduleErr);
    }

    /** Allocate library slot lh, load the module's file and resolve its
        entry points; on failure the slot is free again. */
    method LoadLibrary(lh: nat, name: string, diag: Option<string>) returns (code: int)
      requires libs.Length == MAX_NUM_LIBRARY && lh < MAX_NUM_LIBRARY && libs[lh].None?
      modifies this, libs
      ensures lastError == old(lastError) || |lastError| < LAST_ERROR_SIZE
      ensures var file := LibraryFileName(name);
              var s := old(Abstract());
              var s1 := s.(trace := s.trace + [Load(file)]);
              if file !in loader then
                code == DEVICE_LIBRARY_NOT_AVAILABLE &&
                Abstract() == s1.(lastError := Stored(LoaderMessage(diag)))
              else if !ExportsV0(loader[file], name) then
                code == GENERIC_ERROR &&
                Abstract() == s1.(trace := s1.trace + [Unload(file)], lastError := Stored(LoaderMessage(diag)))
              else
                code == SUCCESS &&
                Abstract() == s1.(libs := s.libs[lh := Some(Library(name, TierOf(loader[file], name), 0, file))])
    {
      ghost var libs0 := libs[..];
      libs[lh] := Some(Library([], LibraryAPIUnknown, 0, []));
      var file := LibraryFileName(name);
      trace := trace + [Load(file)];
      if file !in loader {
        libs[lh] := None;
        assert libs[..] == libs0;
        lastError := Stored(LoaderMessage(diag));
        return DEVICE_LIBRARY_NOT_AVAILABLE;
      }
      libs[lh] := Some(Library(name, LibraryAPIUnknown, 0, file));
      code := LoadApiV0(lh);
      if code != SUCCESS {
        CloseLibraryIfLast(lh);
        assert libs[..] == libs0;
        lastError := Stored(LoaderMessage(diag));
        return code;
      }
      var optional := LoadApiV1(lh);
      assert libs[..] == libs0[lh := Some(Library(name, TierOf(loader[file], name), 0, file))];
    }

    /** Call the module's Open on library slot lh; on success (or the
        version warning) bind connection slot ch to it, otherwise drop the
        library if no connection holds it. */
    method BindModule(ch: nat, lh: nat, arg: string,
                      moduleRet: int, moduleHandle: u32, moduleErr: string) returns (ret: int, handle: Option<u64>)
      requires conns.Length == MAX_NUM_CONNECTION && libs.Length == MAX_NUM_LIBRARY
      requires ch < MAX_NUM_CONNECTION && lh < MAX_NUM_LIBRARY && libs[lh].Some?
      modifies this, conns, libs
      ensures (Abstract(), ret, handle) == OpenModule(old(Abstract()), ch, lh, arg, moduleRet, moduleHandle, moduleErr)
      ensures lastError == old(lastError) || |lastError| < LAST_ERROR_SIZE
    {
      var lib := libs[lh].value;
      trace := trace + [InvokeOpen(lib.file, arg)];
      ret := moduleRet;
      if ret != SUCCESS {
        lastError := Stored(moduleErr);
      }
      if ret != SUCCESS && ret != BAD_LIBRARY_VERSION {
        CloseLibraryIfLast(lh);
        return ret, None;
      }
      conns[ch] := Some(Connection(arg, lh));
      libs[lh] := Some(lib.(nRef := lib.nRef + 1));
      handle := Some(MakeHandle(ch, moduleHandle));
    }

    // ---- Close and teardown ----

    /** CAEN_FELib_Close; moduleRet and moduleErr are the module's answers. */
    method Close(h: u64, moduleRet: int, moduleErr: string) returns (ret: int)
      requires Valid()
      modifies this, conns, libs
      ensures Valid()
      ensures (Abstract(), ret) == CloseSpec(old(Abstract()), h, moduleRet, moduleErr)
    {
      CloseOutcome(loader, Abstract(), h, moduleRet, moduleErr);
      var g := Gatekeep(h, LibraryAPIv0);
      if !g.Granted? {
        ret := RefuseCall(g);
        return;
      }
      trace := trace + [Invoke(libs[g.lh].value.file, Fn.Close, Some(RHandle(h)))];
      ret := moduleRet;
      if ret == SUCCESS {
        ReleaseConnection(g.ch);
      } else {
        lastError := Stored(moduleErr);
      }
    }

    /** deinit_library: release every live connection in slot order; both
        tables end empty. */
    method Deinit()
      requires Valid()
      modifies this, conns, libs
      ensures Valid()
      ensures Abstract() == DeinitFrom(old(Abstract()), 0)
      ensures forall c :: 0 <= c < conns.Length ==> conns[c].None?
      ensures forall l :: 0 <= l < libs.Length ==> libs[l].None?
    {
      DeinitEmpties(loader, Abstract());
      var i := 0;
      while i < conns.Length
        invariant 0 <= i <= conns.Length
        invariant Inv(loader, Abstract()) && |lastError| < LAST_ERROR_SIZE
        invariant DeinitFrom(Abstract(), i) == DeinitFrom(old(Abstract()), 0)
      {
        ghost var before := Abstract();
        assert DeinitFrom(before, i) ==
               DeinitFrom(if before.conns[i].Some? then Release(before, i) else before, i + 1);
        if conns[i].Some? {
          assert ConnectionOk(libs[..], conns[i].value);
          ReleasePreservesInv(loader, before, i);
          ReleaseConnection(i);
        }
        assert Abstract() == (if before.conns[i].Some? then Release(before, i) else before);
        i := i + 1;
      }
    }

    // ---- forwarding entry points ----

    /** GetImplLibVersion, GetDeviceTree, GetPath, GetNodeProperties,
        GetValue, SetValue, SendCommand, Get/SetUserRegister,
        SetReadDataFormat, ReadData(V) and HasData: gate the handle, call
        the module, fetch its error text on failure. */
    method Forward(op: Fn, h: u64, moduleRet: int, moduleErr: string) returns (ret: int)
      requires Valid() && Forwarded(op)
      modifies this
      ensures Valid()
      ensures (Abstract(), ret) == ForwardSpec(old(Abstract()), op, h, moduleRet, moduleErr)
    {
      var g := Gatekeep(h, RequiredTier(op));
      if !g.Granted? {
        ret := RefuseCall(g);
        return;
      }
      trace := trace + [Invoke(libs[g.lh].value.file, op, Target(op, h))];
      ret := moduleRet;
      if ret != SUCCESS {
        lastError := Stored(moduleErr);
      }
    }

    /** GetHandle and GetParentHandle: the module's node handle comes back
        in public form on the caller's connection slot. */
    method GetNodeHandle(op: Fn, h: u64, moduleRet: int, moduleHandle: u32, moduleErr: string)
      returns (ret: int, node: Option<u64>)
      requires Valid() && (op == Fn.GetHandle || op == Fn.GetParentHandle)
      modifies this
      ensures Valid()
      ensures (Abstract(), ret, node) == NodeHandleSpec(old(Abstract()), op, h, moduleRet, moduleHandle, moduleErr)
    {
      var g := Gatekeep(h, RequiredTier(op));
      if !g.Granted? {
        ret := RefuseCall(g);
        return ret, None;
      }
      trace := trace + [Invoke(libs[g.lh].value.file, op, Target(op, h))];
      ret := moduleRet;
      if ret == SUCCESS {
        node := Some(MakeHandle(g.ch, moduleHandle));
      } else {
        lastError := Stored(moduleErr);
        node := None;
      }
    }

    /** GetChildHandles. buf is the caller's array of size 64-bit entries
        seen as 2*size 32-bit words, low word first; the module writes the
        local handles in children into its first words and returns
        moduleRet. The conversion runs backwards, so each local handle is
        read before its word is overwritten. */
    method GetChildHandles(h: u64, buf: array<u32>, size: nat,
                           moduleRet: int, children: seq<u32>, moduleErr: string) returns (ret: int)
      requires Valid() && buf.Length == 2 * size && |children| <= size
      modifies this, buf
      ensures Valid()
      ensures (Abstract(), ret) == ChildHandlesSpec(old(Abstract()), h, moduleRet, moduleErr)
      ensures buf[..] == ChildBuffer(old(Abstract()), h, old(buf[..]), size, moduleRet, children)
    {
      var g := Gatekeep(h, LibraryAPIv0);
      if !g.Granted? {
        ret := RefuseCall(g);
        return;
      }
      trace := trace + [Invoke(libs[g.lh].value.file, Fn.GetChildHandles, Some(RHandle(h)))];
      ghost var w := buf[..];
      forall k | 0 <= k < |children| {
        buf[k] := children[k];
      }
      ghost var written := buf[..];
      assert written == children + w[|children|..];
      ret := moduleRet;
      if ret >= 0 {
        var n := Min(ret, size);
        ConvertBackwards(buf, g.ch, n);
      } else {
        lastError := Stored(moduleErr);
      }
      assert conns[..] == old(conns[..]) && libs[..] == old(libs[..]);
    }

    /** The backward loop over the first n entries. */
    static method ConvertBackwards(buf: array<u32>, c: nat, n: nat)
      requires c < P16 && 2 * n <= buf.Length
      modifies buf
      ensures buf[..] == ConvertChildren(old(buf[..]), c, n)
    {
      ghost var target := ConvertChildren(buf[..], c, n);
      ghost var w := buf[..];
      var i := n;
      while i > 0
        invariant 0 <= i <= n
        invariant forall k :: 0 <= k < buf.Length ==>
                    buf[k] == (if 2 * i <= k < 2 * n then target[k] else w[k])
      {
        i := i - 1;
        assert i < 2 * (i + 1);
        var local := buf[i];
        assert local == w[i];
        var e := MakeHandle(c, local);
        buf[2 * i] := LowWord(e);
        buf[2 * i + 1] := HighWord(e);
        assert (2 * i) / 2 == i && (2 * i) % 2 == 0;
        assert (2 * i + 1) / 2 == i && (2 * i + 1) % 2 == 1;
        assert target[2 * i] == LowWord(e) && target[2 * i + 1] == HighWord(e);
      }
      assert buf[..] == target;
    }

    // ---- the last error and the error tables ----

    /** CAEN_FELib_GetLastError: read and clear. */
    method GetLastError() returns (ret: int, description: string)
      requires Valid()
      modifies this
      ensures Valid()
      ensures ret == SUCCESS && description == old(lastError) && |description| < LAST_ERROR_SIZE
      ensures lastError == [] && trace == old(trace)
    {
      description := Truncate(lastError, LAST_ERROR_SIZE - 1);
      lastError := [];
      ret := SUCCESS;
    }

    /** CAEN_FELib_GetErrorName (which false) and GetErrorDescription
        (which true): the table entry, or InvalidParam and a message for a
        code outside the enumeration. */
    method GetErrorText(code: int, which: bool) returns (ret: int, text: Option<string>)
      requires Valid()
      modifies this
      ensures Valid() && trace == old(trace)
      ensures ErrorText(code).Some? ==>
                ret == SUCCESS && lastError == old(lastError) &&
                text == Some(if which then ErrorText(code).value.1 else ErrorText(code).value.0)
      ensures ErrorText(code).None? ==>
                ret == INVALID_PARAM && text.None? &&
                lastError == Stored("unknown error code '" + IntToDecimal(code) + "'")
    {
      var entry := ErrorText(code);
      if entry.None? {
        lastError := Stored("unknown error code '" + IntToDecimal(code) + "'");
        return INVALID_PARAM, None;
      }
      ret := SUCCESS;
      text := Some(if which then entry.value.1 else entry.value.0);
    }

    /** CAEN_FELib_GetLibInfo is not implemented. */
    method GetLibInfo() returns (ret: int)
      requires Valid()
      modifies this
      ensures Valid() && trace == old(trace)
      ensures ret == NOT_IMPLEMENTED && lastError == Stored(MSG_NOT_IMPLEMENTED)
    {
      lastError := Stored(MSG_NOT_IMPLEMENTED);
      ret := NOT_IMPLEMENTED;
    }
  }
}
