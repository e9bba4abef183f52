/** A thread's staging slot (include/mytls.hpp). */
module Tls {
  import opened Objects

  /**
   * What a thread caches between the entry and the exit of malloc or free. One backtrace
   * field serves both: FreeBefore overwrites what MallocBefore stored.
   */
  datatype MyTLS = MyTLS(cachedPtr: Addr, cachedSize: U64, cachedBacktrace: Backtrace, inMalloc: bool)

  /**
   * `new MyTLS`: the constructor initialises only _inMalloc (to false) and default-constructs
   * the backtrace; _cachedPtr and _cachedSize keep whatever the allocation left there, which
   * the caller supplies as ptr and size.
   */
  function NewMyTLS(ptr: Addr, size: U64): (t: MyTLS)
    ensures !t.inMalloc
    ensures t.cachedBacktrace == EmptyTrace
    ensures t.cachedPtr == ptr && t.cachedSize == size
  {
    MyTLS(ptr, size, EmptyTrace, false)
  }
}
