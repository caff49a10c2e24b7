/**
  Reference ownership: scoped_refptr of webrtc/include/api/scoped_refptr.h over objects whose count
  follows webrtc/include/api/ref_counted_base.h. The memory of a program is a value; every operation is
  the sequence of AddRef, Release and pointer writes that its C++ body performs, in that order, so an
  AddRef that comes too late touches a deleted object on the way.
 */
module ScopedRefptr {

  /** Objects are known by their address. */
  type Object = nat

  datatype Ptr = Null | To(target: Object)

  /** A scoped_refptr variable, until its destructor has run. */
  datatype Slot = Dead | Live(ptr: Ptr)

  /**
    `raw` holds the references that belong to raw pointers: those handed out by release() and not yet
    given back. `held` are the objects that ever had a reference. `fault` says that an object was
    touched after its deletion, or released without a reference.
   */
  datatype Memory = Memory(counts: map<Object, nat>, deleted: set<Object>, held: set<Object>, slots: seq<Slot>,
                           raw: multiset<Object>, fault: bool)

  function Empty(): Memory {
    Memory(map[], {}, {}, [], multiset{}, false)
  }

  predicate Usable(m: Memory, o: Object) {
    o in m.counts && o !in m.deleted
  }

  function AddRef(m: Memory, p: Ptr): Memory {
    match p
    case Null => m
    case To(o) =>
      if Usable(m, o) then m.(counts := m.counts[o := m.counts[o] + 1], held := m.held + {o})
      else m.(fault := true)
  }

  /** Release deletes the object when it drops the last reference. */
  function Release(m: Memory, p: Ptr): Memory {
    match p
    case Null => m
    case To(o) =>
      if Usable(m, o) && m.counts[o] > 0 then
        m.(counts := m.counts[o := m.counts[o] - 1],
           deleted := if m.counts[o] == 1 then m.deleted + {o} else m.deleted)
      else m.(fault := true)
  }

  predicate IsLive(m: Memory, i: nat) {
    i < |m.slots| && m.slots[i].Live?
  }

  function At(m: Memory, i: nat): Ptr
    requires IsLive(m, i)
  {
    m.slots[i].ptr
  }

  function Write(m: Memory, i: nat, p: Ptr): Memory
    requires i < |m.slots|
  {
    m.(slots := m.slots[i := Live(p)])
  }

  // ---------------------------------------------------------------- the operations

  /** scoped_refptr(T*), and with Null the default constructor. */
  function Construct(m: Memory, p: Ptr): Memory {
    AddRef(m.(slots := m.slots + [Live(p)]), p)
  }

  function MoveConstruct(m: Memory, j: nat): Memory
    requires IsLive(m, j)
  {
    var p := At(m, j);
    var m1 := Write(m, j, Null);
    m1.(slots := m1.slots + [Live(p)])
  }

  function Destroy(m: Memory, i: nat): Memory
    requires IsLive(m, i)
  {
    var m1 := Release(m, At(m, i));
    m1.(slots := m1.slots[i := Dead])
  }

  /** operator=(T*): the new object is referenced before the old one is released. */
  function Assign(m: Memory, i: nat, p: Ptr): Memory
    requires IsLive(m, i)
  {
    var m1 := AddRef(m, p);
    var m2 := Release(m1, At(m, i));
    Write(m2, i, p)
  }

  function Swap(m: Memory, i: nat, j: nat): Memory
    requires IsLive(m, i) && IsLive(m, j)
  {
    Write(Write(m, i, At(m, j)), j, At(m, i))
  }

  /** operator=(&&): move into a temporary, swap, and destroy the temporary. */
  function MoveAssign(m: Memory, i: nat, j: nat): Memory
    requires IsLive(m, i) && IsLive(m, j)
  {
    var temporary := |m.slots|;
    var m1 := MoveConstruct(m, j);
    var m2 := Swap(m1, temporary, i);
    var m3 := Destroy(m2, temporary);
    m3.(slots := m3.slots[..temporary])
  }

  function Owned(raw: multiset<Object>, p: Ptr): multiset<Object> {
    match p
    case Null => raw
    case To(o) => raw + multiset{o}
  }

  /** release(): the reference now belongs to the returned raw pointer. */
  function HandOut(m: Memory, i: nat): Memory
    requires IsLive(m, i)
  {
    Write(m, i, Null).(raw := Owned(m.raw, At(m, i)))
  }

  /** swap(T**) with a raw pointer that owns its reference. */
  function SwapRaw(m: Memory, i: nat, p: Ptr): Memory
    requires IsLive(m, i)
  {
    var rest := if p.Null? then m.raw else m.raw - multiset{p.target};
    Write(m, i, p).(raw := Owned(rest, At(m, i)))
  }

  datatype Op =
    | DoCreate(o: Object)                // new T
    | DoConstruct(p: Ptr)
    | DoCopy(j: nat)
    | DoMove(j: nat)
    | DoDestroy(i: nat)
    | DoAssign(i: nat, p: Ptr)
    | DoCopyAssign(i: nat, j: nat)
    | DoMoveAssign(i: nat, j: nat)
    | DoSwap(i: nat, j: nat)
    | DoSwapRaw(i: nat, p: Ptr)
    | DoRelease(i: nat)             // scoped_refptr::release()
    | DoAddRef(o: Object)                // p->AddRef() by a raw pointer's owner
    | DoDrop(o: Object)                  // p->Release() of a reference a raw pointer owns

  /**
    What C++ asks of the caller: live variables, raw pointers to objects that still exist, no reference
    given back twice.
   */
  predicate CanDo(m: Memory, op: Op) {
    match op
    case DoCreate(o) => o !in m.counts
    case DoConstruct(p) => p.To? ==> Usable(m, p.target)
    case DoCopy(j) => IsLive(m, j)
    case DoMove(j) => IsLive(m, j)
    case DoDestroy(i) => IsLive(m, i)
    case DoAssign(i, p) => IsLive(m, i) && (p.To? ==> Usable(m, p.target))
    case DoCopyAssign(i, j) => IsLive(m, i) && IsLive(m, j)
    case DoMoveAssign(i, j) => IsLive(m, i) && IsLive(m, j)
    case DoSwap(i, j) => IsLive(m, i) && IsLive(m, j)
    case DoSwapRaw(i, p) => IsLive(m, i) && (p.To? ==> p.target in m.raw)
    case DoRelease(i) => IsLive(m, i)
    case DoAddRef(o) => Usable(m, o)
    case DoDrop(o) => o in m.raw
  }

  function Do(m: Memory, op: Op): Memory
    requires CanDo(m, op)
  {
    match op
    case DoCreate(o) => m.(counts := m.counts[o := 0])
    case DoConstruct(p) => Construct(m, p)
    case DoCopy(j) => Construct(m, At(m, j))
    case DoMove(j) => MoveConstruct(m, j)
    case DoDestroy(i) => Destroy(m, i)
    case DoAssign(i, p) => Assign(m, i, p)
    case DoCopyAssign(i, j) => Assign(m, i, At(m, j))
    case DoMoveAssign(i, j) => MoveAssign(m, i, j)
    case DoSwap(i, j) => Swap(m, i, j)
    case DoSwapRaw(i, p) => SwapRaw(m, i, p)
    case DoRelease(i) => HandOut(m, i)
    case DoAddRef(o) => AddRef(m, To(o)).(raw := m.raw + multiset{o})
    case DoDrop(o) => Release(m, To(o)).(raw := m.raw - multiset{o})
  }

  predicate CanRun(m: Memory, ops: seq<Op>)
    decreases |ops|
  {
    ops == [] || (CanDo(m, ops[0]) && CanRun(Do(m, ops[0]), ops[1..]))
  }

  function Run(m: Memory, ops: seq<Op>): Memory
    requires CanRun(m, ops)
    decreases |ops|
  {
    if ops == [] then m else Run(Do(m, ops[0]), ops[1..])
  }

  // ---------------------------------------------------------------- conservation

  /** The references to o: one for each variable that points to it and each raw pointer that owns one. */
  function References(m: Memory, o: Object): nat {
    multiset(m.slots)[Live(To(o))] + m.raw[o]
  }

  ghost predicate Conserved(m: Memory) {
    && !m.fault
    && m.deleted <= m.counts.Keys
    && m.held <= m.counts.Keys
    && (forall o: Object :: References(m, o) == if o in m.counts then m.counts[o] else 0)
    && (forall o :: o in m.counts ==> (o in m.deleted <==> o in m.held && m.counts[o] == 0))
    && (forall o :: o in m.counts && m.counts[o] > 0 ==> o in m.held)
  }

  lemma SlotIn(s: seq<Slot>, i: nat, o: Object)
    requires i < |s| && s[i] == Live(To(o))
    ensures multiset(s)[Live(To(o))] > 0
  {
    assert s[i] in multiset(s);
  }

  lemma PointeeUsable(m: Memory, i: nat)
    requires Conserved(m) && IsLive(m, i)
    ensures var p := At(m, i); p.To? ==> Usable(m, p.target) && m.counts[p.target] > 0
  {
    var p := At(m, i);
    if p.To? {
      SlotIn(m.slots, i, p.target);
      assert References(m, p.target) > 0;
    }
  }

  lemma CountAppend(s: seq<Slot>, x: Slot)
    ensures multiset(s + [x]) == multiset(s) + multiset{x}
  {}

  function Hit(x: Slot, o: Object): nat {
    if x == Live(To(o)) then 1 else 0
  }

  lemma CountUpdate(s: seq<Slot>, i: nat, x: Slot)
    requires i < |s|
    ensures forall o: Object :: multiset(s[i := x])[Live(To(o))] == multiset(s)[Live(To(o))] - Hit(s[i], o) + Hit(x, o)
  {
    assert s[i] in multiset(s);
    assert multiset(s[i := x]) == multiset(s) - multiset{s[i]} + multiset{x};
  }

  lemma ConstructKeeps(m: Memory, p: Ptr)
    requires Conserved(m) && (p.To? ==> Usable(m, p.target))
    ensures Conserved(Construct(m, p))
  {
    CountAppend(m.slots, Live(p));
  }

  lemma MoveConstructKeeps(m: Memory, j: nat)
    requires Conserved(m) && IsLive(m, j)
    ensures Conserved(MoveConstruct(m, j))
  {
    var s1 := m.slots[j := Live(Null)];
    CountUpdate(m.slots, j, Live(Null));
    CountAppend(s1, Live(At(m, j)));
  }

  lemma SwapKeeps(m: Memory, i: nat, j: nat)
    requires Conserved(m) && IsLive(m, i) && IsLive(m, j)
    ensures Conserved(Swap(m, i, j))
  {
    var s1 := m.slots[i := Live(At(m, j))];
    CountUpdate(m.slots, i, Live(At(m, j)));
    CountUpdate(s1, j, Live(At(m, i)));
  }

  lemma TrimDead(m: Memory, n: nat)
    requires Conserved(m) && |m.slots| == n + 1 && m.slots[n] == Dead
    ensures Conserved(m.(slots := m.slots[..n]))
  {
    assert m.slots == m.slots[..n] + [Dead];
    CountAppend(m.slots[..n], Dead);
  }

  lemma MoveAssignKeeps(m: Memory, i: nat, j: nat)
    requires Conserved(m) && IsLive(m, i) && IsLive(m, j)
    ensures Conserved(MoveAssign(m, i, j))
  {
    var t := |m.slots|;
    MoveConstructKeeps(m, j);
    var m1 := MoveConstruct(m, j);
    SwapKeeps(m1, t, i);
    var m2 := Swap(m1, t, i);
    DestroyKeeps(m2, t);
    TrimDead(Destroy(m2, t), t);
  }

  lemma HandOutKeeps(m: Memory, i: nat)
    requires Conserved(m) && IsLive(m, i)
    ensures Conserved(HandOut(m, i))
  {
    CountUpdate(m.slots, i, Live(Null));
  }

  lemma DropKeeps(m: Memory, o: Object)
    requires Conserved(m) && o in m.raw
    ensures Conserved(Do(m, DoDrop(o)))
  {
    assert References(m, o) > 0;
  }

  lemma FillSlot(m: Memory, i: nat, x: Slot)
    requires Conserved(m) && i < |m.slots| && m.slots[i] == Live(Null) && (x == Dead || x == Live(Null))
    ensures Conserved(m.(slots := m.slots[i := x]))
  {
    CountUpdate(m.slots, i, x);
  }

  /** The destructor gives back what release() would have handed out. */
  lemma DestroyIsReleaseAndDrop(m: Memory, i: nat)
    requires Conserved(m) && IsLive(m, i)
    ensures var p := At(m, i); var m1 := HandOut(m, i);
      && (p.To? ==> CanDo(m1, DoDrop(p.target)))
      && var m2 := if p.To? then Do(m1, DoDrop(p.target)) else m1;
         i < |m2.slots| && m2.slots[i] == Live(Null) && Destroy(m, i) == m2.(slots := m2.slots[i := Dead])
  {
    var p := At(m, i);
    PointeeUsable(m, i);
    hide Conserved;
    var s1 := m.slots[i := Live(Null)];
    assert s1[i := Dead] == m.slots[i := Dead];
    if p.To? { assert m.raw + multiset{p.target} - multiset{p.target} == m.raw; }
  }

  lemma DestroyKeeps(m: Memory, i: nat)
    requires Conserved(m) && IsLive(m, i)
    ensures Conserved(Destroy(m, i))
  {
    hide Conserved;
    var p := At(m, i);
    HandOutKeeps(m, i);
    DestroyIsReleaseAndDrop(m, i);
    var m1 := HandOut(m, i);
    if p.To? { DropKeeps(m1, p.target); }
    FillSlot(if p.To? then Do(m1, DoDrop(p.target)) else m1, i, Dead);
  }

  lemma AdoptKeeps(m: Memory, i: nat, o: Object)
    requires Conserved(m) && IsLive(m, i) && At(m, i).Null? && o in m.raw
    ensures Conserved(Write(m, i, To(o)).(raw := m.raw - multiset{o}))
  {
    CountUpdate(m.slots, i, Live(To(o)));
  }

  /** Swapping with a raw pointer hands out one reference and adopts another. */
  lemma SwapRawKeeps(m: Memory, i: nat, p: Ptr)
    requires Conserved(m) && IsLive(m, i) && (p.To? ==> p.target in m.raw)
    ensures Conserved(SwapRaw(m, i, p))
  {
    hide Conserved;
    HandOutKeeps(m, i);
    var m1 := HandOut(m, i);
    if p.To? {
      AdoptKeeps(m1, i, p.target);
      assert m1.raw - multiset{p.target} == Owned(m.raw - multiset{p.target}, At(m, i));
      assert m1.slots[i := Live(p)] == m.slots[i := Live(p)];
    }
  }

  /** Assigning a raw pointer is making a temporary from it, swapping, and destroying the temporary. */
  lemma AssignIsCopyAndSwap(m: Memory, i: nat, p: Ptr)
    requires IsLive(m, i)
    ensures var t := |m.slots|; var d := Destroy(Swap(Construct(m, p), t, i), t);
      |d.slots| == t + 1 && d.slots[t] == Dead && Assign(m, i, p) == d.(slots := d.slots[..t])
  {
    var t, q := |m.slots|, At(m, i);
    var s1 := m.slots + [Live(p)];
    var s2 := s1[t := Live(q)][i := Live(p)];
    SlotsAside(m, p, s1);
    var m1 := AddRef(m, p);
    SlotsAside(m1, q, s2);
    hide AddRef, Release;
    assert Swap(Construct(m, p), t, i) == m1.(slots := s2);
    assert s2[t := Dead][..t] == m.slots[i := Live(p)];
  }

  /** Counting does not look at the variables. */
  lemma SlotsAside(m: Memory, p: Ptr, slots: seq<Slot>)
    ensures AddRef(m, p).slots == Release(m, p).slots == m.slots
    ensures AddRef(m.(slots := slots), p) == AddRef(m, p).(slots := slots)
    ensures Release(m.(slots := slots), p) == Release(m, p).(slots := slots)
  {}

  lemma AssignKeeps(m: Memory, i: nat, p: Ptr)
    requires Conserved(m) && IsLive(m, i) && (p.To? ==> Usable(m, p.target))
    ensures Conserved(Assign(m, i, p))
  {
    hide Conserved;
    var t := |m.slots|;
    ConstructKeeps(m, p);
    var m1 := Construct(m, p);
    SwapKeeps(m1, t, i);
    var m2 := Swap(m1, t, i);
    DestroyKeeps(m2, t);
    AssignIsCopyAndSwap(m, i, p);
    TrimDead(Destroy(m2, t), t);
  }

  lemma StepKeeps(m: Memory, op: Op)
    requires Conserved(m) && CanDo(m, op)
    ensures Conserved(Do(m, op))
  {
    match op
    case DoConstruct(p) => ConstructKeeps(m, p);
    case DoCopy(j) => PointeeUsable(m, j); ConstructKeeps(m, At(m, j));
    case DoMove(j) => MoveConstructKeeps(m, j);
    case DoDestroy(i) => DestroyKeeps(m, i);
    case DoAssign(i, p) => AssignKeeps(m, i, p);
    case DoCopyAssign(i, j) => PointeeUsable(m, j); AssignKeeps(m, i, At(m, j));
    case DoMoveAssign(i, j) => MoveAssignKeeps(m, i, j);
    case DoSwap(i, j) => SwapKeeps(m, i, j);
    case DoSwapRaw(i, p) => SwapRawKeeps(m, i, p);
    case DoRelease(i) => HandOutKeeps(m, i);
    case DoDrop(o) => DropKeeps(m, o);
    case _ =>
  }

  lemma {:induction false} RunKeeps(m: Memory, ops: seq<Op>)
    requires Conserved(m) && CanRun(m, ops)
    ensures Conserved(Run(m, ops))
    decreases |ops|
  {
    if ops != [] {
      StepKeeps(m, ops[0]);
      RunKeeps(Do(m, ops[0]), ops[1..]);
    }
  }

  // ---------------------------------------------------------------- whole runs

  /** At some point of the run, o had a reference. */
  predicate EverReferenced(m: Memory, ops: seq<Op>, o: Object)
    requires CanRun(m, ops)
    decreases |ops|
  {
    References(m, o) > 0 || (ops != [] && EverReferenced(Do(m, ops[0]), ops[1..], o))
  }

  lemma StepHolds(m: Memory, op: Op, o: Object)
    requires Conserved(m) && CanDo(m, op)
    ensures o in m.held ==> o in Do(m, op).held
    ensures o in Do(m, op).held && o !in m.held ==> References(Do(m, op), o) > 0
  {
    hide Conserved, Construct, Assign, MoveAssign, References, Release;
    match op
    case DoConstruct(p) => ConstructHolds(m, p, o);
    case DoCopy(j) => ConstructHolds(m, At(m, j), o);
    case DoAssign(i, p) => AssignHolds(m, i, p, o);
    case DoCopyAssign(i, j) => AssignHolds(m, i, At(m, j), o);
    case DoMoveAssign(i, j) =>
      MoveAssignPointers(m, i, j);
      ReleaseHolds(m, if i == j then Null else At(m, i));
    case DoDestroy(i) => ReleaseHolds(m, At(m, i));
    case DoDrop(o) => ReleaseHolds(m, To(o));
    case DoAddRef(p) => AddRefHolds(m, p, o);
    case _ =>
  }

  lemma ReleaseHolds(m: Memory, p: Ptr)
    ensures Release(m, p).held == m.held
  {}

  lemma AddRefHolds(m: Memory, p: Object, o: Object)
    requires Usable(m, p)
    ensures var r := Do(m, DoAddRef(p)); r.held == m.held + {p} && References(r, p) > 0
  {}

  lemma ConstructHolds(m: Memory, p: Ptr, o: Object)
    ensures o in m.held ==> o in Construct(m, p).held
    ensures o in Construct(m, p).held && o !in m.held ==> References(Construct(m, p), o) > 0
  {
    var r := Construct(m, p);
    if p == To(o) { SlotIn(r.slots, |m.slots|, o); }
  }

  lemma AssignHolds(m: Memory, i: nat, p: Ptr, o: Object)
    requires IsLive(m, i)
    ensures o in m.held ==> o in Assign(m, i, p).held
    ensures o in Assign(m, i, p).held && o !in m.held ==> References(Assign(m, i, p), o) > 0
  {
    var r := Assign(m, i, p);
    assert r.slots == m.slots[i := Live(p)];
    if p == To(o) { SlotIn(r.slots, i, o); }
  }

  lemma {:induction false} HeldMeans(m: Memory, ops: seq<Op>, o: Object)
    requires Conserved(m) && CanRun(m, ops)
    ensures o in Run(m, ops).held <==> o in m.held || EverReferenced(m, ops, o)
    decreases |ops|
  {
    if ops != [] {
      StepKeeps(m, ops[0]);
      StepHolds(m, ops[0], o);
      HeldMeans(Do(m, ops[0]), ops[1..], o);
    }
  }

  /**
    After any sequence of operations no object was touched after its deletion, every count is the number
    of variables and raw pointers that hold the object, an object is deleted exactly if it was held and
    is no longer, and no variable points to a deleted object.
   */
  lemma ReferencesAreConserved(ops: seq<Op>, o: Object)
    requires CanRun(Empty(), ops)
    ensures var m := Run(Empty(), ops);
      && !m.fault
      && References(m, o) == (if o in m.counts then m.counts[o] else 0)
      && (o in m.deleted <==> EverReferenced(Empty(), ops, o) && References(m, o) == 0)
      && (forall i :: IsLive(m, i) && At(m, i) == To(o) ==> Usable(m, o))
  {
    assert Conserved(Empty());
    RunKeeps(Empty(), ops);
    HeldMeans(Empty(), ops, o);
    var m := Run(Empty(), ops);
    forall i | IsLive(m, i) && At(m, i) == To(o) ensures Usable(m, o) { PointeeUsable(m, i); }
    if EverReferenced(Empty(), ops, o) && References(m, o) == 0 { assert o in m.held && o in m.counts; }
  }

  // ---------------------------------------------------------------- who points where

  /** The variables an operation needs exist. */
  predicate Fits(slots: seq<Slot>, op: Op) {
    match op
    case DoCopy(j) => j < |slots|
    case DoMove(j) => j < |slots|
    case DoDestroy(i) => i < |slots|
    case DoAssign(i, _) => i < |slots|
    case DoCopyAssign(i, j) => i < |slots| && j < |slots|
    case DoMoveAssign(i, j) => i < |slots| && j < |slots|
    case DoSwap(i, j) => i < |slots| && j < |slots|
    case DoSwapRaw(i, _) => i < |slots|
    case DoRelease(i) => i < |slots|
    case _ => true
  }

  /** The operations without their counting: which variable points where afterwards. */
  function Pointers(slots: seq<Slot>, op: Op): seq<Slot>
    requires Fits(slots, op)
  {
    match op
    case DoConstruct(p) => slots + [Live(p)]
    case DoCopy(j) => slots + [slots[j]]
    case DoMove(j) => slots[j := Live(Null)] + [slots[j]]
    case DoDestroy(i) => slots[i := Dead]
    case DoAssign(i, p) => slots[i := Live(p)]
    case DoCopyAssign(i, j) => slots[i := slots[j]]
    case DoMoveAssign(i, j) => slots[j := Live(Null)][i := slots[j]]
    case DoSwap(i, j) => slots[i := slots[j]][j := slots[i]]
    case DoSwapRaw(i, p) => slots[i := Live(p)]
    case DoRelease(i) => slots[i := Live(Null)]
    case _ => slots
  }

  /** The references that raw pointers own afterwards. */
  function RawOwners(m: Memory, op: Op): multiset<Object>
    requires Fits(m.slots, op)
  {
    match op
    case DoRelease(i) =>
      if m.slots[i].Live? && m.slots[i].ptr.To? then m.raw + multiset{m.slots[i].ptr.target} else m.raw
    case DoSwapRaw(i, p) =>
      var rest := if p.To? then m.raw - multiset{p.target} else m.raw;
      if m.slots[i].Live? && m.slots[i].ptr.To? then rest + multiset{m.slots[i].ptr.target} else rest
    case DoAddRef(o) => m.raw + multiset{o}
    case DoDrop(o) => m.raw - multiset{o}
    case _ => m.raw
  }

  /** Counting moves no pointer, hands no reference out, and makes no object. */
  lemma CountingPoints(m: Memory, p: Ptr)
    ensures var r := AddRef(m, p); r.slots == m.slots && r.raw == m.raw && r.counts.Keys == m.counts.Keys
    ensures var r := Release(m, p); r.slots == m.slots && r.raw == m.raw && r.counts.Keys == m.counts.Keys
  {}

  lemma DestroyPoints(m: Memory, i: nat)
    requires IsLive(m, i)
    ensures var r := Destroy(m, i); r.slots == m.slots[i := Dead] && r.raw == m.raw && r.counts.Keys == m.counts.Keys
  {
    hide Release;
    CountingPoints(m, At(m, i));
  }

  lemma ConstructPoints(m: Memory, p: Ptr)
    ensures var r := Construct(m, p);
      r.slots == m.slots + [Live(p)] && r.raw == m.raw && r.counts.Keys == m.counts.Keys
  {
    hide AddRef;
    CountingPoints(m.(slots := m.slots + [Live(p)]), p);
  }

  lemma AssignPoints(m: Memory, i: nat, p: Ptr)
    requires IsLive(m, i)
    ensures var r := Assign(m, i, p);
      r.slots == m.slots[i := Live(p)] && r.raw == m.raw && r.counts.Keys == m.counts.Keys
  {
    hide AddRef, Release;
    CountingPoints(m, p);
    CountingPoints(AddRef(m, p), At(m, i));
  }

  lemma MoveAssignPoints(m: Memory, i: nat, j: nat)
    requires IsLive(m, i) && IsLive(m, j)
    ensures var r := MoveAssign(m, i, j);
      && r.slots == m.slots[j := Live(Null)][i := Live(At(m, j))] && r.raw == m.raw
      && r.counts.Keys == m.counts.Keys
  {
    MoveAssignPointers(m, i, j);
    CountingPoints(m, if i == j then Null else At(m, i));
    hide MoveAssign, Release;
  }

  /** Each operation moves the pointers as it says. */
  lemma StepSlots(m: Memory, op: Op)
    requires CanDo(m, op)
    ensures Fits(m.slots, op) && Do(m, op).slots == Pointers(m.slots, op)
  {
    hide Construct, Assign, MoveAssign, Destroy, AddRef, Release;
    match op
    case DoDestroy(i) => DestroyPoints(m, i);
    case DoAddRef(o) => CountingPoints(m, To(o));
    case DoDrop(o) => CountingPoints(m, To(o));
    case DoConstruct(p) => ConstructPoints(m, p);
    case DoCopy(j) => ConstructPoints(m, At(m, j));
    case DoAssign(i, p) => AssignPoints(m, i, p);
    case DoCopyAssign(i, j) => AssignPoints(m, i, At(m, j));
    case DoMoveAssign(i, j) => MoveAssignPoints(m, i, j);
    case _ =>
  }

  /** Each operation hands out and takes back the references it says, and only `new` makes an object. */
  lemma StepOwners(m: Memory, op: Op)
    requires CanDo(m, op)
    ensures Do(m, op).raw == RawOwners(m, op)
    ensures Do(m, op).counts.Keys == m.counts.Keys + (if op.DoCreate? then {op.o} else {})
  {
    hide Construct, Assign, MoveAssign, Destroy, AddRef, Release;
    match op
    case DoDestroy(i) => DestroyPoints(m, i);
    case DoAddRef(o) => CountingPoints(m, To(o));
    case DoDrop(o) => CountingPoints(m, To(o));
    case DoConstruct(p) => ConstructPoints(m, p);
    case DoCopy(j) => ConstructPoints(m, At(m, j));
    case DoAssign(i, p) => AssignPoints(m, i, p);
    case DoCopyAssign(i, j) => AssignPoints(m, i, At(m, j));
    case DoMoveAssign(i, j) => MoveAssignPoints(m, i, j);
    case _ =>
  }

  predicate AllFit(slots: seq<Slot>, ops: seq<Op>)
    decreases |ops|
  {
    ops == [] || (Fits(slots, ops[0]) && AllFit(Pointers(slots, ops[0]), ops[1..]))
  }

  function PointersAfter(slots: seq<Slot>, ops: seq<Op>): seq<Slot>
    requires AllFit(slots, ops)
    decreases |ops|
  {
    if ops == [] then slots else PointersAfter(Pointers(slots, ops[0]), ops[1..])
  }

  lemma {:induction false} RunPoints(m: Memory, ops: seq<Op>)
    requires CanRun(m, ops)
    ensures AllFit(m.slots, ops) && Run(m, ops).slots == PointersAfter(m.slots, ops)
    decreases |ops|
  {
    hide Do, CanDo, Fits, Pointers;
    if ops != [] {
      StepSlots(m, ops[0]);
      RunPoints(Do(m, ops[0]), ops[1..]);
    }
  }

  /**
    After any sequence of operations every variable points where the operations, read without their
    counting, make it point, and every object has exactly the references of that picture.
   */
  lemma EveryVariablePointsRight(ops: seq<Op>, o: Object)
    requires CanRun(Empty(), ops)
    ensures AllFit([], ops)
    ensures var m := Run(Empty(), ops); var slots := PointersAfter([], ops);
      && m.slots == slots
      && (o in m.counts ==> m.counts[o] == multiset(slots)[Live(To(o))] + m.raw[o])
  {
    RunPoints(Empty(), ops);
    ReferencesAreConserved(ops, o);
  }

  // ---------------------------------------------------------------- what the assignments do

  /** Assigning a variable to itself, by copy or by move, changes nothing. */
  lemma SelfAssignment(m: Memory, i: nat)
    requires Conserved(m) && IsLive(m, i)
    ensures Do(m, DoCopyAssign(i, i)) == m && Do(m, DoMoveAssign(i, i)) == m
  {
    PointeeUsable(m, i);
    var p := At(m, i);
    if p.To? {
      assert p.target in m.held;
      hide Conserved;
      AddThenRelease(m, p);
    }
    hide Conserved;
    MoveAssignPointers(m, i, i);
    assert m.slots[i := Live(p)] == m.slots == m.slots[i := Live(Null)][i := Live(p)];
  }

  lemma AddThenRelease(m: Memory, p: Ptr)
    requires p.To? && Usable(m, p.target) && m.counts[p.target] > 0 && p.target in m.held
    ensures Release(AddRef(m, p), p) == m
  {
    var c := m.counts[p.target];
    assert m.counts[p.target := c + 1][p.target := c] == m.counts;
    assert m.held + {p.target} == m.held;
  }

  /**
    Move assignment empties the source and gives its pointer to the destination; only the old pointee's
    count drops.
   */
  lemma MoveAssignPointers(m: Memory, i: nat, j: nat)
    requires IsLive(m, i) && IsLive(m, j)
    ensures var before := if i == j then Null else At(m, i);
      Do(m, DoMoveAssign(i, j)) == Release(m, before).(slots := m.slots[j := Live(Null)][i := Live(At(m, j))])
  {
    var t, p := |m.slots|, At(m, j);
    var s1 := m.slots[j := Live(Null)] + [Live(p)];
    var q := s1[i].ptr;
    var s2 := s1[t := Live(q)][i := Live(p)];
    assert MoveConstruct(m, j).slots == s1;
    assert Swap(MoveConstruct(m, j), t, i).slots == s2;
    SlotsAside(m, q, s2);
    hide Release;
    assert s2[t := Dead][..t] == m.slots[j := Live(Null)][i := Live(p)];
  }
}
