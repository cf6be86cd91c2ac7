# CAEN FELib dispatcher, modelled in Dafny

CAEN FELib is a thin front end. It does not talk to hardware itself. For a
connection string such as `dig2://192.168.1.1/sub` it:

- loads the device library named by the scheme (`libCAEN_Dig2.so`);
- resolves its entry points `CAENDig2_Open`, `CAENDig2_Close`, …;
- records the connection in a table of 128 connection slots that refer
  into a table of 8 library slots, each with a reference count;
- hands the caller a 64-bit handle `0xCAE0 | slot(16) | module handle(32)`.

Every later call is checked against the tables and forwarded to the owning
library with the low 32 bits of the handle (none for GetImplLibVersion,
which takes no handle of the module). Handles the library returns are
re-encoded on the caller's slot. This project models that engine and proves
what it promises.

Files, one module each:

- `common.dfy`: `Option`, C strings, the bounded-copy and search helpers
  (`Truncate`, `IndexOfAny`, `FirstFree`), decimal rendering.
- `result_codes.dfy`: the result-code enumeration, the version macros and the
  `_getError` name/description table.
- `handle_codec.dfy`: `_handle`, `_cHandle` and `_rHandle` as arithmetic on
  64- and 32-bit unsigned newtypes. Also the two 32-bit words a handle
  occupies in memory.
- `naming.dfy`: the symbol names `CAEN<name>_<function>`, the library file
  name, `_adjustLibraryNameCase`, and the discovery file-name helpers
  `_countOccurrences`, `_validateLibraryName` and `_getLibraryHWName`.
- `uri.dfy`: `_scanURI`, both as a specification function and as the
  character loop, plus Open's parse stage and argument assembly.
- `tables.dfy`: the tables as values, the invariant they keep, and one
  function per entry point (`OpenSpec`, `CloseSpec`, `ForwardSpec`,
  `NodeHandleSpec`, `ChildHandlesSpec`, `DeinitFrom`). Lemmas state what
  calls and sequences of calls do.
- `dispatch.dfy`: class `Registry`.
  - It holds `connectionDescr` and `libDescr` as arrays, plus the last-error
    text.
  - It records the loader and module calls made, as a sequence of events.
  - Every entry point is a method that updates the arrays in place. Each is
    proved to produce exactly the state and result of its `Tables`
    counterpart, and to keep `Valid()`.

Things outside the engine are parameters: the platform loader (a map from
file name to exported symbol names), the loader's diagnostic text, and
what each module call returns (result code, local handle, error text).

`Valid()` states the promises every entry point keeps:

- every live connection points to a live library;
- every live library was loaded for a normalised name of 1 to 15
  characters, from that name's file;
- every live library has the mandatory entry-point tier at least;
- every live library's `nRef` equals the number of connections bound to it,
  and is at least 1;
- no two live libraries share a name;
- the last error fits its 1024-byte buffer.

## Model

| member | source | states |
|---|---|---|
| HandleCodec.DecodeEncode | src/CAEN_FELib.c:385-397 | for every slot below 2^16 and every 32-bit module handle, `_cHandle` and `_rHandle` of `_handle(c, r)` give back c and r |
| HandleCodec.EncodeDecode | src/CAEN_FELib.c:385-397 | a value carrying the 0xCAE0 prefix is the handle of its own slot and module handle |
| HandleCodec.MakeHandleInjective | src/CAEN_FELib.c:395-397 | handles minted from different (slot, module handle) pairs differ |
| HandleCodec.CHandle | src/CAEN_FELib.c:385-388 | a prefixed value yields a slot below 2^16; any other value yields UINT_FAST16_MAX |
| HandleCodec.JoinWords | src/CAEN_FELib.c:1005-1012 | a handle stored as two 32-bit words, low word first, reads back as the same handle |
| Tables.ForeignValueRefused | src/CAEN_FELib.c:380-402 | a value without the prefix is refused, whatever the tables hold |
| Tables.LibraryOf | src/CAEN_FELib.c:380-402 | `_getLibDescr` finds a library only through a live connection slot whose library slot is live |
| Tables.Admit | src/CAEN_FELib.c:564-566 | a call is granted exactly when the handle names a live connection and the library's tier is at least the one required; it is refused as no connection exactly when `_getLibDescr` finds nothing |
| Tables.LiveHandlesPassV0 | src/CAEN_FELib.c:564-566 | under the invariant, a handle that names a live connection always passes the mandatory-tier gate |
| Common.NatToDecimal | src/CAEN_FELib.c:797 | the `%zu` rendering of the scheme size: decimal digits that denote the number, with a leading zero only for zero itself |
| Common.Truncate | src/CAEN_FELib.c:532-547 | a bounded copy keeps the longest prefix that fits; the whole string when it fits |
| Common.IndexOfAny | src/CAEN_FELib.c:311-369 | strpbrk/strchr: no earlier character is in the set, and the returned position is in the set unless it is the end |
| Common.FirstFree | src/CAEN_FELib.c:837-845 | first-fit search: every earlier slot is taken, and the returned slot is free unless it is the table size |
| Uri.ScanUri | src/CAEN_FELib.c:311-369 | the character loop of `_scanURI` yields exactly the parts `Scan` specifies; the `strchr` cuts after the scheme are `SplitRest`, whose meaning `SplitRestReassembles` and `ScanCompose` state |
| Uri.ScanScheme | src/CAEN_FELib.c:330-350 | the do/while loop stops at the first ':', '/', '?' or the end of the text; a scheme is found exactly when that stop is a ':', and what follows is the text after it (the whole text without a scheme), as `SplitScheme` specifies |
| Uri.ScanReassembles | src/CAEN_FELib.c:311-369 | the parts joined by their separators give back the text before the first '#' and the first whitespace character |
| Uri.ScanFragment | src/CAEN_FELib.c:321-325 | a fragment is present exactly when the name has a '#', and it is the text after the first '#' |
| Uri.ScanPartsClean | src/CAEN_FELib.c:321-329 | no part except the fragment holds a '#' or a whitespace character |
| Uri.ScanCompose | src/CAEN_FELib.c:311-369 | scanning the text of well-formed parts gives back those parts; with `ScanReassembles` this makes the scanner and composition inverse |
| Uri.SplitSchemeReassembles | src/CAEN_FELib.c:330-350 | a found scheme is followed by ':' in the body, and the body is scheme, ':' and the remainder |
| Uri.SplitRestReassembles | src/CAEN_FELib.c:351-367 | a remainder starting "//" gives host and absolute path; any other non-empty remainder is the relative part |
| Uri.ParseOpenUrl | src/CAEN_FELib.c:776-830 | the four parse outcomes: no scheme exactly when the scanner finds none; a rejected scheme size of 0 or 16 and more; a missing host only when host and relative are both absent; on success a 1 to 15 character scheme and an argument under 128 characters |
| Uri.AssembleArgument | src/CAEN_FELib.c:817-828 | the strncat steps build the first 127 characters of host, then '/' and the absolute path when there is one |
| Uri.ParseOpenArguments | src/CAEN_FELib.c:776-830 | the parse stage as the code runs it ends with exactly the outcome `ParseOpenUrl` specifies |
| Uri.ParseComposed | src/CAEN_FELib.c:776-830 | a well-formed URL with a valid scheme parses to that scheme and the joined host (or legacy relative) and path, cut at 127 characters |
| Uri.ParseAuthorityForm | src/CAEN_FELib.c:776-830 | "scheme://rest" gives the scheme and the first 127 characters of rest |
| Uri.ParseLegacyForm | src/CAEN_FELib.c:802-809 | "scheme:text" without "//" passes the text as the host |
| Uri.ParseRootWithoutHost | src/CAEN_FELib.c:808-815 | "scheme:/path" has no host and is refused |
| Uri.ParseWithoutColon | src/CAEN_FELib.c:787-793 | a string without ':' has no scheme and is refused |
| Uri.ParseExampleAddress | src/CAEN_FELib.c:776-830 | "foo://192.168.1.1/sub" gives module "foo" and argument "192.168.1.1/sub" |
| Uri.ParseExampleNoScheme | src/CAEN_FELib.c:787-793 | "justtext" is refused for lack of a scheme |
| Uri.ParseExampleEmptyHost | src/CAEN_FELib.c:352-354 | "x://" has an empty but present host, so Open goes on with argument "" |
| Uri.ParseExampleQueryInHost | src/CAEN_FELib.c:355-359 | after "//" a '?' stays in the host, because only '/' ends it |
| Naming.AdjustLibraryNameCase | src/CAEN_FELib.c:287-294 | the loop rewrites the first nameSize characters into their normal form and leaves the rest of the buffer alone |
| Naming.NormalizeCase | src/CAEN_FELib.c:287-294 | first character upper-cased, all others lower-cased, length kept |
| Naming.NormalizeCaseIdempotent | src/CAEN_FELib.c:287-294 | normalising twice is normalising once |
| Naming.NormalizeCaseIgnoresCase | src/CAEN_FELib.c:834-835 | schemes that differ only in letter case normalise to the same module name |
| Naming.FormattedNamesFit | src/CAEN_FELib.c:874-876 | with a name of at most 15 characters neither the 64-byte symbol-name buffer nor the file-name buffer cuts anything |
| Naming.V0FunctionsComplete | src/CAEN_FELib.c:404-511 | the mandatory tier lists every entry point but HasData |
| Naming.CountOccurrences | src/CAEN_FELib.c:175-179 | the two-counter walk counts exactly the occurrences of the character |
| Naming.ValidateLibraryName | src/CAEN_FELib.c:181-183 | a discovered file name qualifies exactly when it has one underscore |
| Naming.FindSubstring | src/CAEN_FELib.c:192 | strstr: the first position at which the text occurs, or none when it occurs nowhere |
| Naming.GetLibraryHWName | src/CAEN_FELib.c:187-199 | a result exists exactly when the prefix is there and the suffix follows it; the result sits between prefix and first suffix |
| Naming.HWNameOfLibraryFileName | src/CAEN_FELib.c:187-199 | discovery recovers the module name from the file name Open loads, for names without a dot |
| Naming.LibraryFileNameValid | src/CAEN_FELib.c:181-183 | the file loaded for a name passes the one-underscore rule exactly when the name has no underscore |
| Tables.RefCountUpdate | src/CAEN_FELib.c:931 | changing one connection slot changes each library's count by what that slot held and now holds |
| Tables.RefCountZero | src/CAEN_FELib.c:269-276 | a library's count is 0 exactly when no connection slot is bound to it |
| Tables.ReleasePreservesInv | src/CAEN_FELib.c:946-949 | releasing a live connection keeps the invariant and frees exactly that slot |
| Tables.OpenOutcome | src/CAEN_FELib.c:768-937 | Open keeps the invariant. A handle comes back exactly when the module answers Success or BadLibraryVersion; then the first free connection slot, and only that slot, is bound. The handle names that slot, carries the module's handle and passes the mandatory gate. Without a handle both tables are unchanged |
| Tables.OpenParsedOutcome | src/CAEN_FELib.c:837-936 | past the parse stage a connection binds the first free slot to the slot holding the library (or the first free library slot, for a library loaded just now); otherwise both tables are unchanged |
| Tables.OpenParsedEstablishes | src/CAEN_FELib.c:837-936 | from a state meeting the invariant, the stage after parsing keeps the invariant. It yields a handle exactly when the module's code is Success or BadLibraryVersion, and then returns that code and binds only the first free connection slot, with a handle that carries the module's handle and passes the mandatory gate. Without a handle both tables are unchanged |
| Tables.OpenParsedLoads | src/CAEN_FELib.c:855-936 | a name that no live library holds, with a free library slot: the file fails to load (DeviceLibraryNotAvailable, trace gains the load only), or a mandatory symbol is missing (GenericError, trace gains load then unload), or the trace gains the load and the module's Open (and the unload exactly when no handle results) and the module's code is returned, and a kept library holds one reference at tier v1 exactly when HasData is exported |
| Tables.OpenParsedReuses | src/CAEN_FELib.c:847-850 | a name held by a live library reuses it: the one event recorded is the module's Open on that library's file, and the module's code is returned |
| Tables.OpenModuleOutcome | src/CAEN_FELib.c:908-936 | the module's code is always returned. On Success or BadLibraryVersion the connection slot is bound to the library, the library gains one reference and the handle joins slot and module handle. Otherwise the connection table is unchanged and a library with no other reference is unloaded and its slot cleared |
| Tables.OpenRefusedEarly | src/CAEN_FELib.c:776-815 | a NULL argument or a rejected URL gives InvalidParam with no handle; only the last error changes, so no table, load or module call is touched |
| Tables.OpenWhenFull | src/CAEN_FELib.c:837-865 | a full connection table, or a full library table for a library not loaded yet, gives MaxDevicesError; nothing but the last error changes |
| Tables.OpenLoadOutcome | src/CAEN_FELib.c:852-936 | a new library: an unloadable file gives DeviceLibraryNotAvailable and a missing mandatory symbol GenericError after unloading, neither calling the module. Otherwise the trace gains the load and the module's Open, the module's code is returned, and the file is unloaded again exactly when no connection results. A kept library holds one reference at tier v1 exactly when HasData is exported |
| Tables.OpenReusesByName | src/CAEN_FELib.c:847-850 | a scheme equal up to case to a live library's name reuses its slot: nothing is loaded, the one event recorded is the module's Open, and its code is returned |
| Tables.BindPreservesInv | src/CAEN_FELib.c:924-931 | binding a connection slot and counting one more reference keeps the invariant |
| Tables.CloseOutcome | src/CAEN_FELib.c:939-956 | Close keeps the invariant. A handle naming no connection gives InvalidHandle, records no call and changes only the last error, to "invalid handle". Otherwise the module's code is returned; on success exactly the handle's slot is freed, after which the handle is refused; on failure both tables are unchanged, the trace gains the module's Close and the module's error text is kept |
| Tables.CloseUnloadsLast | src/CAEN_FELib.c:946-949 | a successful Close lowers the count by one and unloads the library exactly when the count reaches 0 |
| Tables.CloseUndoesBind | src/CAEN_FELib.c:939-956 | closing the handle of a connection just bound gives back both tables as they were before the binding |
| Tables.OpenThenCloseRestores | src/CAEN_FELib.c:768-956 | an Open that hands out a handle, followed by a successful Close of that handle, gives back both tables |
| Tables.ForwardDiscipline | src/CAEN_FELib.c:958-1191 | for every forwarding entry point: a handle naming no connection gives InvalidHandle, calls nothing and leaves "invalid handle". Otherwise the trace gains one call event on the handle's own library, passing the low 32 bits (GetImplLibVersion passes none), and the module's code comes back unchanged. HasData alone needs tier v1 and otherwise gives NotImplemented with the not-supported message. No table changes |
| Tables.NodeHandleSameConnection | src/CAEN_FELib.c:1019-1053 | GetHandle and GetParentHandle: a handle naming no connection gives InvalidHandle, records no call and leaves "invalid handle". A granted call records one call event on the handle's library and returns the module's code. A node handle comes back exactly when the call is granted and the module succeeds; it names the caller's slot and library and carries the module's node handle. No table changes |
| Tables.ConvertChildrenDecodes | src/CAEN_FELib.c:1005-1012 | entry i of the converted buffer, read as 64 bits, is the public handle of the module's i-th handle on the caller's slot |
| Tables.Converted | src/CAEN_FELib.c:1006-1008 | the number of entries converted is at most the buffer size, and equals the module's count exactly when that count fits |
| Tables.ChildHandlesConverted | src/CAEN_FELib.c:983-1017 | GetChildHandles: a handle naming no connection gives InvalidHandle, records no call, leaves "invalid handle" and the buffer untouched. A granted call records one call event and returns the module's code. With a count of 0 or more each converted entry decodes to the module's child handle on the caller's connection and every word past them is what the module left; with a negative count the buffer is what the module left. No table changes |
| Tables.DispatchGate | src/CAEN_FELib.c:939-1191 | every handle-taking entry point: a handle naming no connection gives InvalidHandle, records no call and leaves "invalid handle"; a granted call records exactly one call event on the handle's own library, leaves the return code to the module and stores the module's error text only when the call failed |
| Tables.DeinitFromClears | src/CAEN_FELib.c:1202-1212 | releasing connections from slot i on keeps the invariant and frees every connection slot |
| Tables.DeinitEmpties | src/CAEN_FELib.c:1202-1212 | teardown empties both tables |
| ResultCodes.FromValueDomain | include/CAEN_FELib.h:92-109 | exactly 0 and -1 to -15 are result codes, and decoding is inverted by the enumerator values |
| ResultCodes.FromValueOfValue | include/CAEN_FELib.h:92-109 | decoding an enumerator's value gives back the enumerator |
| ResultCodes.ErrorText | src/CAEN_FELib.c:594-697 | `_getError` has an entry exactly for the enumerated codes; every name is under 32 bytes and every description under 256 |
| ResultCodes.ErrorTextFits | include/CAEN_FELib.h:154-172 | every name and description fits, with its terminator, the buffer the header documents |
| ResultCodes.VersionMacros | include/CAEN_FELib.h:66-70 | the version string is the dotted rendering of MAJOR, MINOR and PATCH ("1.3.1"); the number is MAJOR·10000 + MINOR·100 + PATCH; the string fits the 16-byte buffer |
| ResultCodes.GetLibVersion | src/CAEN_FELib.c:572-576 | GetLibVersion succeeds with the whole version string, under 16 characters |
| Dispatch.Registry.constructor | src/CAEN_FELib.c:1194-1199 | `init_library`: both tables empty, so the invariant holds from the start |
| Dispatch.Registry.FindFreeConnection | src/CAEN_FELib.c:837-839 | the search loop returns the first free connection slot |
| Dispatch.Registry.FindLibrary | src/CAEN_FELib.c:847-850 | the lookup loop returns the first live library slot with the name, or 8 |
| Dispatch.Registry.FindFreeLibrary | src/CAEN_FELib.c:856-858 | the search loop returns the first free library slot |
| Dispatch.Registry.LoadApiV0 | src/CAEN_FELib.c:404-511 | succeeds and raises the tier to v0 exactly when every mandatory symbol is exported; otherwise GenericError with the library unchanged |
| Dispatch.Registry.LoadApiV1 | src/CAEN_FELib.c:513-530 | raises the tier to v1 exactly when HasData is exported; otherwise the library stays at v0 |
| Dispatch.Registry.CloseLibraryIfLast | src/CAEN_FELib.c:269-276 | a library slot whose count is 0 is unloaded and freed; any other is left alone |
| Dispatch.Registry.ReleaseConnection | src/CAEN_FELib.c:946-949 | one reference fewer, the library unloaded if it was the last, the connection slot freed |
| Dispatch.Registry.Gatekeep | src/CAEN_FELib.c:399-402 | the handle check every forwarding entry point makes is exactly `Admit` |
| Dispatch.Registry.RefuseCall | src/CAEN_FELib.c:549-557 | a refused call sets "invalid handle" and returns InvalidHandle, or sets the not-supported message and returns NotImplemented |
| Dispatch.CaseAdjustedName | src/CAEN_FELib.c:816-836 | the scheme copied into a buffer of its own and adjusted there is exactly its normal form, the name libraries are looked up and stored by |
| Dispatch.Registry.Open | src/CAEN_FELib.c:768-937 | the in-place Open yields exactly `OpenSpec`'s state, code and handle, and keeps the invariant |
| Dispatch.Registry.OpenNamed | src/CAEN_FELib.c:837-936 | the slot searches, load and module call yield exactly `OpenParsed` |
| Dispatch.Registry.LoadLibrary | src/CAEN_FELib.c:852-898 | an unloadable file gives DeviceLibraryNotAvailable; a missing mandatory symbol gives GenericError after unloading; both leave the slot free. Otherwise the slot holds the library at its tier with count 0 |
| Dispatch.Registry.BindModule | src/CAEN_FELib.c:908-936 | the module call and binding yield exactly `OpenModule` |
| Dispatch.Registry.Close | src/CAEN_FELib.c:939-956 | the in-place Close yields exactly `CloseSpec` and keeps the invariant |
| Dispatch.Registry.Deinit | src/CAEN_FELib.c:1202-1212 | `deinit_library` yields `DeinitFrom` from slot 0, leaves both tables empty and keeps the invariant |
| Dispatch.Registry.Forward | src/CAEN_FELib.c:958-1191 | every forwarding entry point yields exactly `ForwardSpec` and keeps the invariant |
| Dispatch.Registry.GetNodeHandle | src/CAEN_FELib.c:1019-1053 | GetHandle and GetParentHandle yield exactly `NodeHandleSpec` |
| Dispatch.Registry.GetChildHandles | src/CAEN_FELib.c:983-1017 | the call yields `ChildHandlesSpec`, and the caller's buffer ends as `ChildBuffer` describes |
| Dispatch.Registry.ConvertBackwards | src/CAEN_FELib.c:1005-1012 | the backward loop converts the first n entries in place, reading each local handle before its word is overwritten |
| Dispatch.Registry.GetLastError | src/CAEN_FELib.c:709-713 | returns the last error in full (it always fits the buffer) and clears it, so a second read gives "" |
| Dispatch.Registry.GetErrorText | src/CAEN_FELib.c:594-707 | GetErrorName and GetErrorDescription give the table entry for an enumerated code. Any other code gives InvalidParam and the "unknown error code" message |
| Dispatch.Registry.GetLibInfo | src/CAEN_FELib.c:568-570 | always NotImplemented, with "not yet implemented" as the last error |

## Left out

- Platform loader internals (`dlopen`, `dlsym`, `dlclose`, `dlerror`, `LoadLibraryA`, `FormatMessageA`). The loader is a fixed map from file name to exported symbols. Its diagnostic text is an opaque parameter, and an absent diagnostic gives "error: no error found". The model does not capture that `_closeLibrary` clears `dlerror` before the diagnostic is read after a missing symbol.
- Text encoding: a C string is a `string` whose every character is one byte (`IsCString` admits only characters 1..255), so the 1..15 scheme size and the 127-byte argument cut count bytes exactly as `strlen` and `strncat` do; a multi-byte UTF-8 character of the host application appears as several such characters.
- Locale: `toupper` and `tolower` are modelled as in the "C" locale (only ASCII letters change). A host application that sets another locale with `setlocale` can make the source map further bytes, which the model does not capture.
- The Windows and macOS file-name forms. Only the POSIX `libCAEN_<name>.so` form is modelled.
- `CAEN_FELib_DevicesDiscovery`, because it enumerates the working directory and calls each module's discovery. Only its pure file-name helpers are modelled.
- Thread-local storage of the last error. The sequential model has one caller, so the last error is a field.
- The `va_list` payload of ReadData and ReadDataV. Both are one forwarded call (`Fn.ReadDataV`), and the variadic `ReadData` wrapper adds nothing.
- DllMain and the constructor/destructor hooks. `init_library` and `deinit_library` are the constructor and `Deinit`.
- Allocation failure. The `malloc` and `strdup` failure paths that return InternalError or GenericError (`_allocateLibDescr`, `_allocateConnectionDescr`, the URL copy) are not modelled.
- What modules do: device trees, values, registers, commands and the text they write into output buffers. Each module call is its result code, its local handle and its error text, and the model records the call in the event trace. After a failing call the source calls the same module's GetLastError to fetch that text; the trace records the failing call and this fetch as one event, and the fetched text is the error-text parameter.
- The one-pending-read-per-handle rule, because it is a concurrency rule enforced by the modules.
- Dispatch.Registry.GetChildHandles: the caller's buffer is 2·size 32-bit words, low word first, which fixes a little-endian layout. The module writes only the local handles it reports, and at most size of them.
- Tables.OpenOutcome: a handle that outlives a Close and whose connection slot is later reused names the new connection. The source has no generation counter, and the model does not claim otherwise.
- Formatted message text follows the source's format strings. `%zu` and `%d` are written as decimal renderings, and the sizes in the two "too many" messages are the constants 128 and 8.
