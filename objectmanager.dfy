/**
 * The shadow object map (include/objectmanager.hpp).
 *
 * ObjectData records are heap objects in the source, shared by every byte that points at
 * them. Here they live in `objects`, indexed by their identity (a `Ref`), and `_allObjects`
 * maps each byte address to the identity of its record. Records are never freed: the
 * source never deletes an ObjectData either.
 */
module Manager {
  import opened Wrappers
  import opened Objects

  /** The identity of an ObjectData allocation: what an `ObjectData *` points at. */
  type Ref = nat

  /** The manager's whole state: the records allocated so far and the byte-to-record table. */
  datatype Shadow = Shadow(objects: seq<ObjectData>, allObjects: map<Addr, Ref>)

  /** A freshly constructed ObjectManager tracks nothing. */
  const Empty := Shadow([], map[])

  /** Every binding points at an allocated record, and no live record carries release data. */
  ghost predicate WellFormed(s: Shadow) {
    && (forall a | a in s.allObjects :: s.allObjects[a] < |s.objects|)
    && (forall k | 0 <= k < |s.objects| :: Unreleased(s.objects[k]))
  }

  /** Byte a lies in the block [ptr, ptr + size). */
  predicate InBlock(a: Addr, ptr: Addr, size: nat) {
    ptr <= a < ptr + size
  }

  /** The bytes of the block [ptr, ptr + size) (the InBlock conjunct gives the comprehension a trigger). */
  function Block(ptr: Addr, size: nat): set<Addr> {
    set a: Addr | ptr <= a < ptr + size && InBlock(a, ptr, size)
  }

  /** `m` after binding every byte of [ptr, ptr + size) to record `d`. */
  function Bind(m: map<Addr, Ref>, ptr: Addr, size: nat, d: Ref): (r: map<Addr, Ref>)
    ensures r.Keys == m.Keys + Block(ptr, size)
    ensures forall a | a in r :: r[a] == if a in Block(ptr, size) then d else m[a]
  {
    m + map a | a in Block(ptr, size) :: d
  }

  /** Binding one more byte: the step of InsertObject's loop. */
  lemma BindStep(m: map<Addr, Ref>, ptr: Addr, i: nat, d: Ref)
    ensures Bind(m, ptr, 0, d) == m
    ensures Bind(m, ptr, i + 1, d) == Bind(m, ptr, i, d)[ptr + i := d]
  {
  }

  /** The record that InsertObject(ptr, …) writes: the one already bound to ptr, else a new one. */
  function Target(s: Shadow, ptr: Addr): Ref {
    if ptr in s.allObjects then s.allObjects[ptr] else |s.objects|
  }

  /** InsertObject(ptr, size, trace, threadId) as a state transition. */
  function Insert(s: Shadow, ptr: Addr, size: U32, trace: Backtrace, threadId: ThreadId): (r: Shadow)
    requires WellFormed(s)
    ensures WellFormed(r)
    ensures r.allObjects.Keys == s.allObjects.Keys + Block(ptr, size)
    ensures |r.objects| == if ptr in s.allObjects then |s.objects| else |s.objects| + 1
  {
    var d := Target(s, ptr);
    var rec := NewObjectData(ptr, size, threadId, trace);
    var objects := if d < |s.objects| then s.objects[d := rec] else s.objects + [rec];
    Shadow(objects, Bind(s.allObjects, ptr, size, d))
  }

  /** DeleteObject(ptr, trace, threadId) as a state transition. */
  function Delete(s: Shadow, ptr: Addr, trace: Backtrace, threadId: ThreadId): (r: Shadow)
    requires WellFormed(s)
    ensures WellFormed(r)
    ensures r.allObjects == s.allObjects && |r.objects| == |s.objects|
  {
    if ptr !in s.allObjects then s
    else
      var d := s.allObjects[ptr];
      var freed := s.objects[d].(freeThread := threadId, freeTrace := trace, isLive := false);
      Shadow(s.objects[d := freed], s.allObjects)
  }

  /** IsUseAfterFree(addr, …): the record bound to addr if it has been released, else null. */
  function Query(s: Shadow, addr: Addr): (r: Option<Ref>)
    requires WellFormed(s)
    ensures r.Some? ==> r.value < |s.objects|
  {
    if addr !in s.allObjects then None
    else if s.objects[s.allObjects[addr]].isLive then None
    else Some(s.allObjects[addr])
  }

  /** The ObjectManager object: `_allObjects` and the records it points at, updated in place. */
  class ObjectManager {
    var objects: seq<ObjectData>
    var allObjects: map<Addr, Ref>

    function Model(): Shadow
      reads this
    {
      Shadow(objects, allObjects)
    }

    ghost predicate Valid()
      reads this
    {
      WellFormed(Model())
    }

    constructor ()
      ensures Valid() && Model() == Empty
    {
      objects := [];
      allObjects := map[];
    }

    /**
     * Registers the block [ptr, ptr + size). A record already bound to ptr is overwritten in
     * place (same identity); otherwise a new record is allocated. Then each byte of the block
     * is bound to that record, one key at a time.
     */
    method InsertObject(ptr: Addr, size: U32, trace: Backtrace, threadId: ThreadId)
      requires Valid()
      modifies this
      ensures Valid()
      ensures Model() == Insert(old(Model()), ptr, size, trace, threadId)
    {
      ghost var goal := Insert(Model(), ptr, size, trace, threadId);
      var d: Ref;
      if ptr in allObjects {
        d := allObjects[ptr];
        objects := objects[d := NewObjectData(ptr, size, threadId, trace)];
      } else {
        d := |objects|;
        objects := objects + [NewObjectData(ptr, size, threadId, trace)];
      }
      assert objects == goal.objects;
      ghost var before := allObjects;
      assert goal.allObjects == Bind(before, ptr, size, d);
      BindStep(before, ptr, 0, d);
      for i := 0 to size
        modifies this`allObjects
        invariant allObjects == Bind(before, ptr, i, d)
      {
        BindStep(before, ptr, i, d);
        allObjects := allObjects[ptr + i := d];
      }
    }

    /**
     * Marks the record bound to ptr as released by threadId at trace. An address that is not a
     * key changes nothing. No binding is ever removed, so a second free of a tracked address
     * releases the record again and overwrites its free thread and trace.
     */
    method DeleteObject(ptr: Addr, trace: Backtrace, threadId: ThreadId)
      requires Valid()
      modifies this
      ensures Valid()
      ensures Model() == Delete(old(Model()), ptr, trace, threadId)
    {
      if ptr !in allObjects {
        return;
      }
      var d := allObjects[ptr];
      objects := objects[d := objects[d].(freeThread := threadId)];
      objects := objects[d := objects[d].(freeTrace := trace)];
      objects := objects[d := objects[d].(isLive := false)];
    }

    /**
     * The use-after-free test for an access at addr: null for an untracked address or a live
     * record, otherwise the released record. Only addr is looked up; size is not consulted.
     */
    method IsUseAfterFree(addr: Addr, size: U32, threadId: ThreadId) returns (d: Option<Ref>)
      requires Valid()
      ensures d.Some? <==> addr in allObjects && !objects[allObjects[addr]].isLive
      ensures d.Some? ==> d.value == allObjects[addr]
      ensures d == Query(Model(), addr)
    {
      if addr !in allObjects {
        return None;
      }
      var r := allObjects[addr];
      if objects[r].isLive {
        d := None;
      } else {
        d := Some(r);
      }
    }
  }
}
