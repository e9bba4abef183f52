/**
 * The allocation record (include/objectdata.hpp) and the machine types it is built from.
 */
module Objects {

  /** Pin's THREADID and the UINT32 sizes the tracker passes around. */
  type U32 = x: int | 0 <= x < 0x1_0000_0000
  /** size_t / ADDRINT as a size: 64 bits wide. */
  type U64 = x: int | 0 <= x < 0x1_0000_0000_0000_0000
  type ThreadId = U32

  /** A byte address (ADDRINT). Addresses are unbounded here: see README, "Left out". */
  type Addr = nat

  /** `freeThread(-1)` stores -1 into the unsigned 32-bit THREADID, which reads back as 0xFFFFFFFF. */
  const NoThread: ThreadId := 0xFFFF_FFFF

  /**
   * A captured call stack. The model never looks inside one: it is only stored, copied and
   * compared. `EmptyTrace` is the value of a default-constructed Backtrace.
   */
  datatype Backtrace = Backtrace(frames: seq<Addr>)

  const EmptyTrace := Backtrace([])

  /** One allocation's metadata, with the fields its users read and write. */
  datatype ObjectData = ObjectData(
    addr: Addr,
    size: U32,
    isLive: bool,
    mallocThread: ThreadId,
    freeThread: ThreadId,
    mallocTrace: Backtrace,
    freeTrace: Backtrace)

  /** While a record is live its release fields still hold their "unset" values. */
  predicate Unreleased(d: ObjectData) {
    d.isLive ==> d.freeThread == NoThread && d.freeTrace == EmptyTrace
  }

  /**
   * The four-argument constructor `ObjectData(addr, size, mallocThread, mallocTrace)`:
   * a new record is live and has not been released by any thread.
   */
  function NewObjectData(addr: Addr, size: U32, mallocThread: ThreadId, mallocTrace: Backtrace): (d: ObjectData)
    ensures d.isLive && d.freeThread == NoThread
    ensures d.addr == addr && d.size == size
    ensures d.mallocThread == mallocThread && d.mallocTrace == mallocTrace
    ensures Unreleased(d)
  {
    ObjectData(addr, size, true, mallocThread, NoThread, mallocTrace, EmptyTrace)
  }

}
