/**
 * The analysis callbacks of src/dangling.cpp: thread start and exit, the entry and exit hooks
 * on malloc and free, and the per-access read and write hooks.
 */
module Dangling {
  import opened Wrappers
  import opened Objects
  import opened Manager
  import opened Tls

  /** 2^64: ADDRINT arithmetic wraps at this modulus. */
  const AddrModulus := 0x1_0000_0000_0000_0000

  /**
   * What PrintUseAfterFree is called with for one finding: the accessing thread, the access
   * size, the released record, and the offset of the access into it.
   */
  datatype Report = Report(thread: ThreadId, accessSize: U32, record: Ref, offset: U64)

  /**
   * `addrAccessed - d->_addr` computed on ADDRINT: the distance from the record's base, wrapped
   * modulo 2^64 when the accessed byte lies below the base.
   */
  function Offset(addrAccessed: Addr, base: Addr): (r: U64)
    ensures base <= addrAccessed < base + AddrModulus ==> r == addrAccessed - base
    ensures addrAccessed < base <= addrAccessed + AddrModulus ==> r == (AddrModulus - (base - addrAccessed)) % AddrModulus
  {
    (addrAccessed - base) % AddrModulus
  }

  /**
   * The decision ReadsMem and WritesMem take for an access of `size` bytes at addr by a
   * thread whose slot is `slot`: no report inside malloc, none for an untracked or live byte,
   * otherwise a report on the released record.
   */
  function Classify(s: Shadow, slot: MyTLS, threadId: ThreadId, addr: Addr, size: U32): Option<Report>
    requires WellFormed(s)
  {
    if slot.inMalloc then None
    else match Query(s, addr)
      case None => None
      case Some(d) => Some(Report(threadId, size, d, Offset(addr, s.objects[d].addr)))
  }

  /** The tool's global state: the shared ObjectManager and one staging slot per live thread. */
  class Tool {
    const manager: ObjectManager
    var tls: map<ThreadId, MyTLS>

    ghost predicate Valid()
      reads this, manager
    {
      manager.Valid()
    }

    constructor ()
      ensures Valid() && fresh(manager)
      ensures manager.Model() == Empty && tls == map[]
    {
      manager := new ObjectManager();
      tls := map[];
    }

    /** ThreadStart: the thread gets a fresh slot, not inside malloc. */
    method ThreadStart(threadId: ThreadId, ptr: Addr, size: U64)
      requires Valid()
      modifies this
      ensures Valid() && manager.Model() == old(manager.Model())
      ensures tls == old(tls)[threadId := NewMyTLS(ptr, size)]
    {
      tls := tls[threadId := NewMyTLS(ptr, size)];
    }

    /** ThreadFini: the thread's slot is discarded. */
    method ThreadFini(threadId: ThreadId)
      requires Valid()
      modifies this
      ensures Valid() && manager.Model() == old(manager.Model())
      ensures tls == old(tls) - {threadId}
    {
      tls := tls - {threadId};
    }

    /** MallocBefore: stage the requested size and the caller's backtrace; enter malloc. */
    method MallocBefore(threadId: ThreadId, size: U64, trace: Backtrace)
      requires Valid() && threadId in tls
      modifies this
      ensures Valid() && manager.Model() == old(manager.Model())
      ensures tls == old(tls)[threadId := old(tls[threadId]).(cachedSize := size, cachedBacktrace := trace, inMalloc := true)]
    {
      var slot := tls[threadId];
      slot := slot.(cachedSize := size);
      slot := slot.(cachedBacktrace := trace);
      slot := slot.(inMalloc := true);
      tls := tls[threadId := slot];
    }

    /**
     * MallocAfter: a null result registers nothing and leaves the slot as it is (so the thread
     * stays inside malloc); otherwise the block is inserted with the staged size, truncated to
     * InsertObject's UINT32 parameter, and the staged backtrace, and the thread leaves malloc.
     */
    method MallocAfter(threadId: ThreadId, retVal: Addr)
      requires Valid() && (retVal != 0 ==> threadId in tls)
      modifies this, manager
      ensures Valid()
      ensures retVal == 0 ==> tls == old(tls) && manager.Model() == old(manager.Model())
      ensures retVal != 0 ==>
        var slot := old(tls[threadId]);
        && manager.Model() == Insert(old(manager.Model()), retVal, slot.cachedSize % 0x1_0000_0000, slot.cachedBacktrace, threadId)
        && tls == old(tls)[threadId := slot.(inMalloc := false)]
    {
      if retVal == 0 {
        return;
      }
      var slot := tls[threadId];
      manager.InsertObject(retVal, slot.cachedSize % 0x1_0000_0000, slot.cachedBacktrace, threadId);
      tls := tls[threadId := slot.(inMalloc := false)];
    }

    /** FreeBefore: stage the pointer and overwrite the shared staged backtrace. */
    method FreeBefore(threadId: ThreadId, ptr: Addr, trace: Backtrace)
      requires Valid() && threadId in tls
      modifies this
      ensures Valid() && manager.Model() == old(manager.Model())
      ensures tls == old(tls)[threadId := old(tls[threadId]).(cachedPtr := ptr, cachedBacktrace := trace)]
    {
      var slot := tls[threadId];
      slot := slot.(cachedPtr := ptr);
      slot := slot.(cachedBacktrace := trace);
      tls := tls[threadId := slot];
    }

    /** FreeAfter: release the staged pointer with the staged backtrace; no null check here. */
    method FreeAfter(threadId: ThreadId)
      requires Valid() && threadId in tls
      modifies manager
      ensures Valid() && tls == old(tls)
      ensures manager.Model() == Delete(old(manager.Model()), tls[threadId].cachedPtr, tls[threadId].cachedBacktrace, threadId)
    {
      manager.DeleteObject(tls[threadId].cachedPtr, tls[threadId].cachedBacktrace, threadId);
    }

    /**
     * ReadsMem: a read is reported exactly when the thread is not inside malloc and the byte
     * at addrRead is bound to a released record; the report names that record and the offset
     * of addrRead from its base. Nothing changes.
     */
    method ReadsMem(threadId: ThreadId, addrRead: Addr, readSize: U32) returns (report: Option<Report>)
      requires Valid() && threadId in tls
      ensures report.Some? <==> !tls[threadId].inMalloc && Query(manager.Model(), addrRead).Some?
      ensures report.Some? ==>
        var d := Query(manager.Model(), addrRead).value;
        report.value == Report(threadId, readSize, d, Offset(addrRead, manager.objects[d].addr))
      ensures report == Classify(manager.Model(), tls[threadId], threadId, addrRead, readSize)
    {
      var d := manager.IsUseAfterFree(addrRead, readSize, threadId);
      if tls[threadId].inMalloc {
        return None;
      }
      if d.None? {
        return None;
      }
      report := Some(Report(threadId, readSize, d.value, Offset(addrRead, manager.objects[d.value].addr)));
    }

    /** WritesMem: the same test as ReadsMem, for a write of writeSize bytes at addrWritten. */
    method WritesMem(threadId: ThreadId, addrWritten: Addr, writeSize: U32) returns (report: Option<Report>)
      requires Valid() && threadId in tls
      ensures report.Some? <==> !tls[threadId].inMalloc && Query(manager.Model(), addrWritten).Some?
      ensures report.Some? ==>
        var d := Query(manager.Model(), addrWritten).value;
        report.value == Report(threadId, writeSize, d, Offset(addrWritten, manager.objects[d].addr))
      ensures report == Classify(manager.Model(), tls[threadId], threadId, addrWritten, writeSize)
    {
      var d := manager.IsUseAfterFree(addrWritten, writeSize, threadId);
      if tls[threadId].inMalloc {
        return None;
      }
      if d.None? {
        return None;
      }
      report := Some(Report(threadId, writeSize, d.value, Offset(addrWritten, manager.objects[d.value].addr)));
    }
  }
}
