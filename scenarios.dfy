/**
 * The repository's test programs (test/basic.cpp, test/reuse.cpp) replayed against the model,
 * and the suppression of findings while a thread is inside malloc.
 */
module Scenarios {
  import opened Wrappers
  import opened Objects
  import opened Manager
  import opened ManagerLemmas
  import opened Tls
  import opened Dangling

  /**
   * test/basic.cpp on the shadow map: a 20-byte block is live on every byte after it is
   * allocated, and after it is deleted each of its 20 bytes is a hit on the one record, which
   * carries the allocating and the releasing thread and backtrace.
   */
  lemma BasicScenario(s: Shadow, x: Addr, mt: ThreadId, mtr: Backtrace, ft: ThreadId, ftr: Backtrace)
    requires WellFormed(s)
    ensures var s1 := Insert(s, x, 20, mtr, mt);
      var s2 := Delete(s1, x, ftr, ft);
      var d := Target(s, x);
      && (forall a | a in Block(x, 20) :: Query(s1, a) == None)
      && (forall a | a in Block(x, 20) :: Query(s2, a) == Some(d))
      && d < |s2.objects| && s2.objects[d] == ObjectData(x, 20, false, mt, ft, mtr, ftr)
  {
  }

  /**
   * test/reuse.cpp, bigToSmall: 24 bytes are freed and the same base is reallocated with 16
   * bytes. The record is reused, so bytes 16..23 are live again and go unreported; after the
   * second free all 24 bytes are hits on the record, which now says 16 bytes.
   */
  lemma ReuseBigToSmall(s: Shadow, x: Addr, t: ThreadId, tr1: Backtrace, tr2: Backtrace, tr3: Backtrace, tr4: Backtrace)
    requires WellFormed(s)
    ensures var s1 := Insert(s, x, 24, tr1, t);
      var s2 := Delete(s1, x, tr2, t);
      var s3 := Insert(s2, x, 16, tr3, t);
      var s4 := Delete(s3, x, tr4, t);
      var d := Target(s, x);
      && Target(s2, x) == d
      && (forall a | a in Block(x, 24) :: Query(s2, a) == Some(d))
      && (forall a | a in Block(x + 16, 8) :: a in s3.allObjects && s3.allObjects[a] == d && Query(s3, a) == None)
      && d < |s3.objects| && s3.objects[d].size == 16
      && (forall a | a in Block(x, 24) :: Query(s4, a) == Some(d))
  {
  }

  /**
   * test/reuse.cpp, smallToBig: 16 bytes are freed and the same base is reallocated with 24
   * bytes. Bytes 16..23 answer as before unless they were stale bytes of the same record; after
   * the second insert all 24 bytes point at the reused record, which is live and says 24 bytes.
   */
  lemma ReuseSmallToBig(s: Shadow, x: Addr, t: ThreadId, tr1: Backtrace, tr2: Backtrace, tr3: Backtrace)
    requires WellFormed(s)
    ensures var s1 := Insert(s, x, 16, tr1, t);
      var s2 := Delete(s1, x, tr2, t);
      var s3 := Insert(s2, x, 24, tr3, t);
      var d := Target(s, x);
      && Target(s2, x) == d
      && (forall a | a in Block(x + 16, 8) ::
            Query(s2, a) == if a in s.allObjects && s.allObjects[a] == d then Some(d) else Query(s, a))
      && (forall a | a in Block(x, 24) :: a in s3.allObjects && s3.allObjects[a] == d && Query(s3, a) == None)
      && d < |s3.objects| && s3.objects[d].size == 24
  {
  }

  /** write_all / read_all of the test programs: one 1-byte access per byte of [p, p + n). */
  method AccessAll(tool: Tool, threadId: ThreadId, p: Addr, n: nat, write: bool) returns (reports: seq<Option<Report>>)
    requires tool.Valid() && threadId in tool.tls
    ensures |reports| == n
    ensures forall k | 0 <= k < n :: reports[k] == Classify(tool.manager.Model(), tool.tls[threadId], threadId, p + k, 1)
  {
    reports := [];
    for i := 0 to n
      invariant |reports| == i
      invariant forall k | 0 <= k < i :: reports[k] == Classify(tool.manager.Model(), tool.tls[threadId], threadId, p + k, 1)
    {
      var r;
      if write {
        r := tool.WritesMem(threadId, p + i, 1);
      } else {
        r := tool.ReadsMem(threadId, p + i, 1);
      }
      reports := reports + [r];
    }
  }

  /** In basic.cpp, before the free: the thread is outside malloc and every byte is live. */
  lemma BasicBeforeFree(x: Addr, t: ThreadId, slot: MyTLS, mallocTrace: Backtrace, k: nat)
    requires !slot.inMalloc && k < 20
    ensures Classify(Insert(Empty, x, 20, mallocTrace, t), slot, t, x + k, 1) == None
  {
  }

  /** In basic.cpp, after the free: every byte is a hit on record 0 at its offset. */
  lemma BasicAfterFree(x: Addr, t: ThreadId, slot: MyTLS, mallocTrace: Backtrace, freeTrace: Backtrace, k: nat)
    requires !slot.inMalloc && k < 20
    ensures var s2 := Delete(Insert(Empty, x, 20, mallocTrace, t), x, freeTrace, t);
      Classify(s2, slot, t, x + k, 1) == Some(Report(t, 1, 0, k))
  {
  }

  /**
   * The valid writes and reads of test/basic.cpp: with the 20-byte block just allocated and the
   * thread outside malloc, none of the 40 accesses is reported.
   */
  method BasicValidAccesses(tool: Tool, t: ThreadId, x: Addr, mallocTrace: Backtrace) returns (valid: seq<Option<Report>>)
    requires tool.Valid() && t in tool.tls && !tool.tls[t].inMalloc
    requires tool.manager.Model() == Insert(Empty, x, 20, mallocTrace, t)
    ensures |valid| == 40 && forall k | 0 <= k < 40 :: valid[k] == None
  {
    var w := AccessAll(tool, t, x, 20, true);
    var r := AccessAll(tool, t, x, 20, false);
    forall k | 0 <= k < 20 ensures w[k] == None && r[k] == None {
      BasicBeforeFree(x, t, tool.tls[t], mallocTrace, k);
    }
    valid := w + r;
    forall k | 0 <= k < 40 ensures valid[k] == None {
      if k >= 20 {
        assert valid[k] == r[k - 20];
      }
    }
  }

  /**
   * The invalid writes and reads of test/basic.cpp: once the block is freed, each of the 40
   * accesses is reported on record 0 at the offset of its byte.
   */
  method BasicInvalidAccesses(tool: Tool, t: ThreadId, x: Addr, mallocTrace: Backtrace, freeTrace: Backtrace)
    returns (invalid: seq<Option<Report>>)
    requires tool.Valid() && t in tool.tls && !tool.tls[t].inMalloc
    requires tool.manager.Model() == Delete(Insert(Empty, x, 20, mallocTrace, t), x, freeTrace, t)
    ensures |invalid| == 40
    ensures forall k | 0 <= k < 20 :: invalid[k] == Some(Report(t, 1, 0, k)) && invalid[20 + k] == Some(Report(t, 1, 0, k))
  {
    var w := AccessAll(tool, t, x, 20, true);
    var r := AccessAll(tool, t, x, 20, false);
    invalid := w + r;
    forall k | 0 <= k < 20 ensures invalid[k] == Some(Report(t, 1, 0, k)) && invalid[20 + k] == Some(Report(t, 1, 0, k)) {
      BasicAfterFree(x, t, tool.tls[t], mallocTrace, freeTrace, k);
      assert invalid[k] == w[k] && invalid[20 + k] == r[k];
    }
  }

  /**
   * test/basic.cpp through the callbacks, in a fresh tool: the valid writes and reads report
   * nothing; after free the invalid writes and reads report every byte, at offsets 0..19, on
   * the one record, which keeps the malloc and the free thread and backtrace.
   */
  method BasicProgram(x: Addr, t: ThreadId, junkPtr: Addr, junkSize: U64, mallocTrace: Backtrace, freeTrace: Backtrace)
    returns (valid: seq<Option<Report>>, invalid: seq<Option<Report>>, record: ObjectData)
    requires x != 0
    ensures |valid| == 40 && forall k | 0 <= k < 40 :: valid[k] == None
    ensures |invalid| == 40
    ensures forall k | 0 <= k < 20 :: invalid[k] == Some(Report(t, 1, 0, k)) && invalid[20 + k] == Some(Report(t, 1, 0, k))
    ensures record == ObjectData(x, 20, false, t, t, mallocTrace, freeTrace)
  {
    var tool := new Tool();
    tool.ThreadStart(t, junkPtr, junkSize);
    tool.MallocBefore(t, 20, mallocTrace);
    tool.MallocAfter(t, x);
    valid := BasicValidAccesses(tool, t, x, mallocTrace);
    tool.FreeBefore(t, x, freeTrace);
    tool.FreeAfter(t);
    invalid := BasicInvalidAccesses(tool, t, x, mallocTrace, freeTrace);
    BasicScenario(Empty, x, t, mallocTrace, t, freeTrace);
    record := tool.manager.objects[0];
  }

  /** A fresh tool on which threads t and u have started. */
  method StartedThreads(t: ThreadId, u: ThreadId) returns (tool: Tool)
    requires t != u
    ensures fresh(tool) && fresh(tool.manager) && tool.Valid()
    ensures tool.manager.Model() == Empty && tool.tls == map[t := NewMyTLS(0, 0), u := NewMyTLS(0, 0)]
  {
    tool := new Tool();
    tool.ThreadStart(t, 0, 0);
    tool.ThreadStart(u, 0, 0);
  }

  /** Two threads start; the first allocates 20 bytes at x. */
  method AllocatedBlock(x: Addr, t: ThreadId, u: ThreadId, tr1: Backtrace) returns (tool: Tool)
    requires x != 0 && t != u
    ensures fresh(tool) && fresh(tool.manager) && tool.Valid()
    ensures t in tool.tls && u in tool.tls && !tool.tls[t].inMalloc && !tool.tls[u].inMalloc
    ensures tool.manager.Model() == Insert(Empty, x, 20, tr1, t)
  {
    tool := StartedThreads(t, u);
    tool.MallocBefore(t, 20, tr1);
    tool.MallocAfter(t, x);
  }

  /** Two threads start; the first allocates 20 bytes at x and frees them. */
  method FreedBlock(x: Addr, t: ThreadId, u: ThreadId, tr1: Backtrace, tr2: Backtrace) returns (tool: Tool)
    requires x != 0 && t != u
    ensures fresh(tool) && fresh(tool.manager) && tool.Valid()
    ensures t in tool.tls && u in tool.tls && !tool.tls[t].inMalloc && !tool.tls[u].inMalloc
    ensures Query(tool.manager.Model(), x) == Some(0) && tool.manager.objects[0].addr == x
  {
    tool := AllocatedBlock(x, t, u, tr1);
    ghost var inserted := tool.manager.Model();
    assert inserted.allObjects[x] == 0 by { assert x in Block(x, 20); }
    tool.FreeBefore(t, x, tr2);
    tool.FreeAfter(t);
    assert tool.manager.Model() == Delete(inserted, x, tr2, t);
  }

  /**
   * Accesses inside malloc are not classified. A thread that is inside malloc gets no report
   * for a freed byte; when that malloc fails (returns null) the thread stays marked as inside
   * malloc, so its later accesses go unreported too, while another thread's access to the
   * same byte is reported.
   */
  method InMallocSuppression(x: Addr, t: ThreadId, u: ThreadId, size: U64, tr1: Backtrace, tr2: Backtrace, tr3: Backtrace)
    returns (during: Option<Report>, afterFailed: Option<Report>, other: Option<Report>)
    requires x != 0 && t != u
    ensures during == None && afterFailed == None
    ensures other == Some(Report(u, 1, 0, 0))
  {
    var tool := FreedBlock(x, t, u, tr1, tr2);
    tool.MallocBefore(t, size, tr3);
    during := tool.WritesMem(t, x, 1);
    tool.MallocAfter(t, 0);
    afterFailed := tool.ReadsMem(t, x, 1);
    other := tool.ReadsMem(u, x, 1);
  }

  /**
   * A record reused at a base inside an older block keeps the older block's low bytes. After
   * 10 bytes at 100 are freed and 10 bytes at 105 are allocated and freed, byte 100 is a hit
   * on the record whose base is now 105, and its offset `100 - 105` wraps to 2^64 - 5.
   */
  lemma ShiftedReuseOffset(t: ThreadId, slot: MyTLS, tr1: Backtrace, tr2: Backtrace, tr3: Backtrace, tr4: Backtrace)
    requires !slot.inMalloc
    ensures var s1 := Insert(Empty, 100, 10, tr1, t);
      var s2 := Delete(s1, 100, tr2, t);
      var s3 := Insert(s2, 105, 10, tr3, t);
      var s4 := Delete(s3, 105, tr4, t);
      && s4.objects[0].addr == 105
      && Classify(s4, slot, t, 100, 1) == Some(Report(t, 1, 0, AddrModulus - 5))
  {
  }
}
