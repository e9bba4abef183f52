/**
 * What the shadow object map promises over one or several calls, stated on the transitions
 * Insert, Delete and Query of module Manager (which the ObjectManager methods implement).
 */
module ManagerLemmas {
  import opened Wrappers
  import opened Objects
  import opened Manager

  /**
   * After InsertObject(ptr, size, …) every byte of the block is bound to the one record
   * Target(s, ptr), that record holds exactly the new allocation, and no byte of the block
   * is reported.
   */
  lemma InsertBindsBlock(s: Shadow, ptr: Addr, size: U32, trace: Backtrace, threadId: ThreadId)
    requires WellFormed(s)
    ensures var r, d := Insert(s, ptr, size, trace, threadId), Target(s, ptr);
      && d < |r.objects|
      && r.objects[d] == NewObjectData(ptr, size, threadId, trace)
      && forall a | a in Block(ptr, size) :: a in r.allObjects && r.allObjects[a] == d && Query(r, a) == None
  {
  }

  /**
   * If ptr is already a key, InsertObject keeps ptr's record (same identity, rewritten in
   * place); otherwise it allocates a record that no existing byte points at. No other record
   * changes.
   */
  lemma InsertKeepsIdentity(s: Shadow, ptr: Addr, size: U32, trace: Backtrace, threadId: ThreadId)
    requires WellFormed(s)
    ensures var r := Insert(s, ptr, size, trace, threadId);
      && (ptr in s.allObjects ==>
            && ptr in r.allObjects && r.allObjects[ptr] == s.allObjects[ptr]
            && |r.objects| == |s.objects|)
      && (ptr !in s.allObjects ==>
            && |r.objects| == |s.objects| + 1
            && (forall a | a in s.allObjects :: s.allObjects[a] != |s.objects|)
            && (size > 0 ==> r.allObjects[ptr] == |s.objects|))
      && forall k | 0 <= k < |s.objects| && k != Target(s, ptr) :: r.objects[k] == s.objects[k]
  {
  }

  /**
   * InsertObject only adds keys and only rebinds keys inside [ptr, ptr + size); with size 0
   * the table is unchanged.
   */
  lemma InsertFrame(s: Shadow, ptr: Addr, size: U32, trace: Backtrace, threadId: ThreadId)
    requires WellFormed(s)
    ensures var r := Insert(s, ptr, size, trace, threadId);
      && s.allObjects.Keys <= r.allObjects.Keys
      && (forall a | a in s.allObjects && a !in Block(ptr, size) :: r.allObjects[a] == s.allObjects[a])
      && (size == 0 ==> r.allObjects == s.allObjects)
  {
  }

  /**
   * The use-after-free test after InsertObject, for every address: bytes of the new block are
   * live, so are the bytes outside it that still point at a reused record, and every other
   * address answers as before.
   */
  lemma QueryAfterInsert(s: Shadow, ptr: Addr, size: U32, trace: Backtrace, threadId: ThreadId, a: Addr)
    requires WellFormed(s)
    ensures Query(Insert(s, ptr, size, trace, threadId), a) ==
      if a in Block(ptr, size) then None
      else if a in s.allObjects && s.allObjects[a] == Target(s, ptr) then None
      else Query(s, a)
  {
  }

  /**
   * Reuse revives: when ptr's record is reused, a byte that pointed at it keeps pointing at it
   * and is live again, even outside the new block (for example the tail of a larger freed
   * block whose base is reallocated with a smaller size).
   */
  lemma InsertRevivesReusedRecord(s: Shadow, ptr: Addr, size: U32, trace: Backtrace, threadId: ThreadId, a: Addr)
    requires WellFormed(s)
    requires ptr in s.allObjects && a in s.allObjects && s.allObjects[a] == s.allObjects[ptr]
    ensures var r := Insert(s, ptr, size, trace, threadId);
      a in r.allObjects && r.allObjects[a] == s.allObjects[ptr] && Query(r, a) == None
  {
  }

  /** DeleteObject on an address that is not a key (a free of an untracked address) changes nothing. */
  lemma DeleteUntracked(s: Shadow, ptr: Addr, trace: Backtrace, threadId: ThreadId)
    requires WellFormed(s) && ptr !in s.allObjects
    ensures Delete(s, ptr, trace, threadId) == s
  {
  }

  /**
   * DeleteObject on a key releases its record in place (free thread, free trace, not live),
   * keeps every key and binding and every other record, and every byte bound to that record
   * becomes a use-after-free hit on it.
   */
  lemma DeleteReleases(s: Shadow, ptr: Addr, trace: Backtrace, threadId: ThreadId)
    requires WellFormed(s) && ptr in s.allObjects
    ensures var r, d := Delete(s, ptr, trace, threadId), s.allObjects[ptr];
      && r.allObjects == s.allObjects
      && |r.objects| == |s.objects|
      && r.objects[d] == s.objects[d].(isLive := false, freeThread := threadId, freeTrace := trace)
      && (forall k | 0 <= k < |s.objects| && k != d :: r.objects[k] == s.objects[k])
      && forall a | a in s.allObjects && s.allObjects[a] == d :: Query(r, a) == Some(d)
  {
  }

  /**
   * A double free is not skipped: the base of a freed block is still a key, so the second
   * DeleteObject releases the same record again and its free thread and free trace become
   * the second call's; every binding and every other record stays as it was.
   */
  lemma DoubleFreeOverwrites(s: Shadow, ptr: Addr, tr1: Backtrace, t1: ThreadId, tr2: Backtrace, t2: ThreadId)
    requires WellFormed(s) && ptr in s.allObjects
    ensures var once := Delete(s, ptr, tr1, t1);
      var twice := Delete(once, ptr, tr2, t2);
      var d := s.allObjects[ptr];
      && ptr in once.allObjects && Query(once, ptr) == Some(d)
      && twice.allObjects == s.allObjects
      && twice.objects[d] == s.objects[d].(isLive := false, freeThread := t2, freeTrace := tr2)
      && twice == Delete(s, ptr, tr2, t2)
  {
  }

  /**
   * A free of any byte of a block releases the whole block's record: after InsertObject of
   * [ptr, ptr + size), DeleteObject at any byte of it makes every byte of the block a hit.
   */
  lemma InteriorFreeReleasesBlock(s: Shadow, ptr: Addr, size: U32, trace: Backtrace, t: ThreadId,
                                  inner: Addr, freeTrace: Backtrace, u: ThreadId, a: Addr)
    requires WellFormed(s) && inner in Block(ptr, size) && a in Block(ptr, size)
    ensures var s1 := Insert(s, ptr, size, trace, t);
      Query(Delete(s1, inner, freeTrace, u), a) == Some(Target(s, ptr))
  {
    var s1 := Insert(s, ptr, size, trace, t);
    QueryAfterDelete(s1, inner, freeTrace, u, a);
  }

  /**
   * Record sharing through reuse: after 24 bytes at 100 are freed, 16 bytes are allocated
   * at 100 (reusing the record) and 8 at 116 (whose byte is still bound to that record, so
   * it is reused again). Both blocks are live and share record 0, and freeing 116 makes the
   * live byte 100 a hit.
   */
  lemma ReusedRecordShared(t: ThreadId, tr: Backtrace)
    ensures var s1 := Delete(Insert(Empty, 100, 24, tr, t), 100, tr, t);
      var s2 := Insert(Insert(s1, 100, 16, tr, t), 116, 8, tr, t);
      && |s2.objects| == 1 && s2.allObjects[100] == 0 && s2.allObjects[116] == 0
      && Query(s2, 100) == None
      && Query(Delete(s2, 116, tr, t), 100) == Some(0)
  {
    var s0 := Insert(Empty, 100, 24, tr, t);
    assert 100 in Block(100, 24) && 116 in Block(100, 24);
    var s1 := Delete(s0, 100, tr, t);
    var s3 := Insert(s1, 100, 16, tr, t);
    assert 100 in Block(100, 16);
    assert s3.allObjects[116] == 0;
  }

  /**
   * The use-after-free test after DeleteObject, for every address: the bytes of the released
   * record are hits on it, every other address answers as before.
   */
  lemma QueryAfterDelete(s: Shadow, ptr: Addr, trace: Backtrace, threadId: ThreadId, a: Addr)
    requires WellFormed(s)
    ensures Query(Delete(s, ptr, trace, threadId), a) ==
      if ptr in s.allObjects && a in s.allObjects && s.allObjects[a] == s.allObjects[ptr]
      then Some(s.allObjects[ptr])
      else Query(s, a)
  {
  }

  /**
   * A use-after-free hit stays a hit on the same record until an InsertObject rebinds that
   * byte or reuses that record; any DeleteObject keeps it.
   */
  lemma HitPersists(s: Shadow, a: Addr, ptr: Addr, size: U32, trace: Backtrace, threadId: ThreadId)
    requires WellFormed(s) && Query(s, a).Some?
    ensures Query(Delete(s, ptr, trace, threadId), a) == Query(s, a)
    ensures a !in Block(ptr, size) && Target(s, ptr) != Query(s, a).value ==>
      Query(Insert(s, ptr, size, trace, threadId), a) == Query(s, a)
  {
  }

  /** A call into the ObjectManager that changes it. */
  datatype Op =
    | InsertOp(ptr: Addr, size: U32, trace: Backtrace, threadId: ThreadId)
    | DeleteOp(ptr: Addr, trace: Backtrace, threadId: ThreadId)

  function Apply(s: Shadow, op: Op): (r: Shadow)
    requires WellFormed(s)
    ensures WellFormed(r)
  {
    match op
    case InsertOp(ptr, size, trace, threadId) => Insert(s, ptr, size, trace, threadId)
    case DeleteOp(ptr, trace, threadId) => Delete(s, ptr, trace, threadId)
  }

  /** The manager after a sequence of calls, in order; every state on the way is well formed. */
  function Run(s: Shadow, ops: seq<Op>): (r: Shadow)
    requires WellFormed(s)
    ensures WellFormed(r)
    decreases |ops|
  {
    if ops == [] then s else Run(Apply(s, ops[0]), ops[1..])
  }

  /** Keys are never removed: once a byte is tracked it stays tracked. */
  lemma {:induction false} RunKeepsKeys(s: Shadow, ops: seq<Op>)
    requires WellFormed(s)
    ensures s.allObjects.Keys <= Run(s, ops).allObjects.Keys
    decreases |ops|
  {
    if ops != [] {
      var s' := Apply(s, ops[0]);
      assert s.allObjects.Keys <= s'.allObjects.Keys;
      RunKeepsKeys(s', ops[1..]);
    }
  }

  /** An address that no InsertObject of the sequence covered is still not tracked. */
  lemma {:induction false} NeverInsertedUntracked(s: Shadow, ops: seq<Op>, a: Addr)
    requires WellFormed(s) && a !in s.allObjects
    requires forall k | 0 <= k < |ops| && ops[k].InsertOp? :: a !in Block(ops[k].ptr, ops[k].size)
    ensures a !in Run(s, ops).allObjects && Query(Run(s, ops), a) == None
    decreases |ops|
  {
    if ops != [] {
      var s' := Apply(s, ops[0]);
      assert a !in s'.allObjects;
      forall k | 0 <= k < |ops[1..]| && ops[1..][k].InsertOp?
        ensures a !in Block(ops[1..][k].ptr, ops[1..][k].size)
      {
        assert ops[1..][k] == ops[k + 1];
      }
      NeverInsertedUntracked(s', ops[1..], a);
    }
  }
}
