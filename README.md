# Use-after-free tracker: a Dafny model

This project models the allocation-lifecycle tracker of the `dangling-pointers` Pin tool. The
tool hooks `malloc` and `free` at entry and exit, and hooks every non-stack memory read and
write. It keeps a shadow map with one key per byte that was ever allocated. Each key points at
a shared `ObjectData` record, and an access to a byte whose record has been released is
reported as a use-after-free.

The model has three parts, one per source file.

- `objectdata.dfy` (module `Objects`) holds the `ObjectData` record and its constructor, with
  the machine types it uses: `THREADID`/`UINT32`, `size_t`, and unbounded addresses.
- `objectmanager.dfy` (module `Manager`) holds the `ObjectManager`. Records get identity from
  an arena `objects: seq<ObjectData>`, and `_allObjects` maps each byte address to a record's
  index (`Ref`).
  - The pure transitions `Insert`, `Delete` and `Query` state what `InsertObject`,
    `DeleteObject` and `IsUseAfterFree` do.
  - The class `ObjectManager` implements them with methods that update its two fields in
    place. There is one loop, binding byte after byte.
  - `objectmanager_lemmas.dfy` (module `ManagerLemmas`) proves what the map promises across
    calls.
- `mytls.dfy` (module `Tls`) and `dangling.dfy` (module `Dangling`) hold the per-thread
  `MyTLS` slot and the callbacks of `src/dangling.cpp`. The class `Tool` holds the global
  `manager` and a map from thread id to slot. Each read or write hook returns either the
  report it would print or nothing.
- `scenarios.dfy` (module `Scenarios`) replays `test/basic.cpp` and `test/reuse.cpp`. It also
  shows that accesses made inside `malloc` go unreported.

Behaviour the model keeps as written:
- `InsertObject` on a base that is already a key rewrites that record in place. Every byte
  still bound to the record, including bytes outside the new block, becomes live again.
- `MallocAfter` with a null result returns before it clears `_inMalloc`. The thread's later
  accesses stay suppressed until a `malloc` succeeds.
- `MallocAfter` passes the 64-bit staged size to `InsertObject`'s `UINT32` parameter, so the
  size is truncated modulo 2^32.
- The reported offset `addrAccessed - d->_addr` is unsigned `ADDRINT` arithmetic. It wraps
  modulo 2^64 when a reused record's base lies above the accessed byte (`ShiftedReuseOffset`).
- `objectdata.hpp` shows a three-argument constructor without trace fields, while its users
  call a four-argument one and read `_mallocTrace`/`_freeTrace`. The model follows the users:
  - fields addr, size, isLive, mallocThread, freeThread, mallocTrace, freeTrace;
  - initial values as in `objectdata.hpp` (live, `freeThread` = -1, which is 0xFFFFFFFF in the
    unsigned `THREADID`);
  - a default-constructed (empty) free trace.
- `ThreadStart` takes the indeterminate initial `_cachedPtr`/`_cachedSize` of a new `MyTLS`
  as parameters, because the constructor sets only `_inMalloc`.

Further behaviour of the tool that the model keeps:
- The tool has no aggregate-by-source-location reporting mode. Verbosity only adds backtrace
  lines to the printed finding.
- A free of an untracked address is not logged; it returns silently and changes nothing.
- Bindings are never removed, so the base of a freed block stays a key. A second free of it
  is not skipped, although the comment in `DeleteObject` says double frees are: it releases
  the record again and overwrites its free thread and free trace with the later call's.
- A free of any byte of a block, not only its base, releases the whole block's record.
- A reused record can be shared by two live blocks: after 24 bytes at 100 are freed, 16
  bytes are allocated at 100 and 8 at 116 (byte 116 is still bound to the same record), so
  freeing 116 makes the live byte 100 a hit as well.
- `_inMalloc` is not cleared when `malloc` fails.

## Model

| member | source | states |
|---|---|---|
| `Objects.NewObjectData` | include/objectdata.hpp:9-14 | a new record is live, has freeThread -1 (0xFFFFFFFF), stores addr, size, malloc thread and malloc trace as passed, and has no release data |
| `Manager.Insert` | include/objectmanager.hpp:18-46 | keeps the map well formed; the key set afterwards is the old key set plus the block's bytes; a record is added exactly when ptr was not a key |
| `Manager.Delete` | include/objectmanager.hpp:48-70 | keeps the map well formed; never changes keys or bindings, and never adds a record |
| `Manager.Query` | include/objectmanager.hpp:72-95 | a reported record is an allocated one |
| `Manager.ObjectManager.constructor` | include/objectmanager.hpp:14-16 | a new manager tracks no byte and holds no record |
| `Manager.ObjectManager.InsertObject` | include/objectmanager.hpp:18-46 | rewrites the record bound to ptr in place or appends a new one, then binds the block byte by byte (loop invariant: the first i bytes are bound); the result is `Insert` of the old state |
| `Manager.ObjectManager.DeleteObject` | include/objectmanager.hpp:48-70 | an untracked ptr changes nothing; otherwise the record's free thread, free trace and liveness are set in place; the result is `Delete` of the old state |
| `Manager.ObjectManager.IsUseAfterFree` | include/objectmanager.hpp:72-95 | returns a record exactly when addr is a key whose record is not live, and then it returns that record; depends on addr only (not on size) and changes nothing |
| `ManagerLemmas.InsertBindsBlock` | include/objectmanager.hpp:37-45 | after an insert every byte of [ptr, ptr+size) maps to one and the same record, which holds the new allocation and is live, so none of them is reported |
| `ManagerLemmas.InsertKeepsIdentity` | include/objectmanager.hpp:27-35 | if ptr is a key its record keeps its identity and no record is added; otherwise the new record is one no existing byte points at; no other record changes |
| `ManagerLemmas.InsertFrame` | include/objectmanager.hpp:39-45 | an insert never removes a key, rebinds only keys inside the block, and with size 0 leaves the table unchanged |
| `ManagerLemmas.QueryAfterInsert` | include/objectmanager.hpp:18-46 | after an insert, bytes of the block and bytes still bound to the reused record answer live; every other address answers as before |
| `ManagerLemmas.InsertRevivesReusedRecord` | include/objectmanager.hpp:28-31 | a byte bound to ptr's reused record, inside or outside the new block, stays bound to it and becomes live |
| `ManagerLemmas.DeleteUntracked` | include/objectmanager.hpp:56-61 | deleting an address that is not a key leaves the whole state unchanged |
| `ManagerLemmas.DeleteReleases` | include/objectmanager.hpp:64-69 | deleting a key releases its record in place (free thread, free trace, not live), keeps keys, bindings and other records, and makes every byte bound to that record a hit on it |
| `ManagerLemmas.QueryAfterDelete` | include/objectmanager.hpp:48-70 | after a delete of a key, the bytes of its record are hits on it; every other address answers as before |
| `ManagerLemmas.HitPersists` | include/objectmanager.hpp:18-70 | a use-after-free hit survives any delete, and any insert that neither covers the byte nor reuses its record |
| `ManagerLemmas.DoubleFreeOverwrites` | include/objectmanager.hpp:53-69 | after a free the base is still a key whose record is a hit; a second free re-releases the same record, overwriting free thread and free trace with its own, and equals a single free with the second call's values |
| `ManagerLemmas.InteriorFreeReleasesBlock` | include/objectmanager.hpp:56-69 | after inserting a block, a free at any of its bytes makes every byte of the block a hit on the block's record |
| `ManagerLemmas.ReusedRecordShared` | include/objectmanager.hpp:27-45 | 24 bytes at 100 freed, 16 allocated at 100 and 8 at 116: one record serves both live blocks, and freeing 116 makes the live byte 100 a hit |
| `ManagerLemmas.Apply` | include/objectmanager.hpp:18-70 | one insert or delete call keeps the map well formed |
| `ManagerLemmas.Run` | include/objectmanager.hpp:18-70 | any sequence of insert and delete calls keeps the map well formed |
| `ManagerLemmas.RunKeepsKeys` | include/objectmanager.hpp:39-45 | over any sequence of calls, keys are never removed |
| `ManagerLemmas.NeverInsertedUntracked` | include/objectmanager.hpp:80-84 | an address covered by no insert of the sequence stays untracked and is never reported |
| `Tls.NewMyTLS` | include/mytls.hpp:6-13 | a new slot is not inside malloc, has a default backtrace, and keeps the given indeterminate ptr and size |
| `Dangling.Offset` | src/dangling.cpp:98-99 | the offset is the distance from the record's base when the byte is at or above the base, and wraps modulo 2^64 below it |
| `Dangling.Tool.constructor` | src/dangling.cpp:32-33 | the tool starts with an empty manager and no thread slots |
| `Dangling.Tool.ThreadStart` | src/dangling.cpp:41-44 | the thread gets a fresh slot with `inMalloc` false; other slots and the manager are untouched |
| `Dangling.Tool.ThreadFini` | src/dangling.cpp:46-49 | the thread's slot is removed; other slots and the manager are untouched |
| `Dangling.Tool.MallocBefore` | src/dangling.cpp:54-59 | stages the size and backtrace and sets `inMalloc` in the caller's slot only; the manager is untouched |
| `Dangling.Tool.MallocAfter` | src/dangling.cpp:61-71 | a null result changes nothing (`inMalloc` stays set); otherwise the block is inserted with the staged size truncated to 32 bits and the staged backtrace, and `inMalloc` is cleared |
| `Dangling.Tool.FreeBefore` | src/dangling.cpp:73-77 | stages the pointer and overwrites the shared staged backtrace; `inMalloc` and the manager are untouched |
| `Dangling.Tool.FreeAfter` | src/dangling.cpp:82-85 | deletes the staged pointer with the staged backtrace, with no null check; no slot changes |
| `Dangling.Tool.ReadsMem` | src/dangling.cpp:107-117 | reports exactly when the thread is not inside malloc and the byte's record is released; the report carries thread, read size, record and offset; nothing changes |
| `Dangling.Tool.WritesMem` | src/dangling.cpp:119-129 | the same as ReadsMem, for writes |
| `Scenarios.BasicScenario` | test/basic.cpp:18-38 | insert 20 bytes: no byte is reported; delete: all 20 bytes are hits on the same record, which carries both threads and traces |
| `Scenarios.ReuseBigToSmall` | test/reuse.cpp:24-35 | 24 bytes freed, 16 reallocated at the same base: same record, bytes 16..23 live again; after the second free all 24 bytes are hits on a record that says 16 bytes |
| `Scenarios.ReuseSmallToBig` | test/reuse.cpp:11-22 | 16 bytes freed, 24 reallocated at the same base: same record, all 24 bytes bound to it and live, size 24 |
| `Scenarios.AccessAll` | test/basic.cpp:5-16 | one 1-byte access per byte yields, for each byte, exactly the hooks' classification of it |
| `Scenarios.BasicProgram` | test/basic.cpp:18-42 | through the callbacks: 40 valid accesses give no report; after free, 40 accesses give reports on record 0 at offsets 0..19 |
| `Scenarios.InMallocSuppression` | src/dangling.cpp:61-66 | a freed byte is not reported inside malloc nor after a failed malloc on that thread, but is reported for another thread |
| `Scenarios.ShiftedReuseOffset` | src/dangling.cpp:98-99 | after reuse at a base inside an older freed block, a low byte of that block is a hit on the reused record with offset 2^64 - 5 |

## Left out

- Locks and concurrency: `PIN_GetLock`/`PIN_ReleaseLock` around each key operation and the output lock. The model is sequential and treats each call as atomic, so torn views of a block that is still being inserted are not modelled. test/multithreaded.cpp is not modelled either.
- Pin plumbing: `Instruction`, `Image`, `main`, the verbosity knob, TLS key creation and `PIN_ExitProcess` (src/dangling.cpp:131-222). These are instrumentation and process control.
- `PrintUseAfterFree` and include/misc.hpp: stream output and source-location lookup. A finding is returned as a `Report` (thread, size, record, offset). The record's threads and traces can be read from the manager.
- Backtrace capture (`SetTrace`): backtrace.hpp is not part of this model. Captured backtraces are parameters, and a default-constructed one is `EmptyTrace`.
- The handlers require the thread to have a slot. Pin runs `ThreadStart` before anything else on a thread; without a slot the source dereferences null.
- `assert(PIN_SetThreadData(...))` in `ThreadStart`: the model assumes the call succeeds. The abort on failure is not modelled, and neither is the assertion vanishing under `NDEBUG`.
- `InsertObject`: byte addresses `ptr + i` are unbounded integers. `ADDRINT` wrap-around past 2^64 is not modelled, because no allocator returns a block that crosses the top of the address space.
- Records are never reclaimed: the source never deletes an `ObjectData`, and the arena only grows.
