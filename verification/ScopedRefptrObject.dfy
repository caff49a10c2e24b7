/**
  The objects behind ScopedRefptr: counted objects, smart pointers that refer to them, and the heap they
  live in. Each method is the C++ body; its effect on the heap is the operation of the same name on the
  memory value, so that what is proved about runs there holds of the objects here.
 */
module ScopedRefptrObject {
  import R = ScopedRefptr

  ghost function PtrOf(p: RefCounted?): R.Ptr {
    if p == null then R.Null else R.To(p.address)
  }

  /** The allocator's view: every object by address, every variable, and who owns the raw references. */
  class Heap {
    ghost var objects: seq<RefCounted>
    ghost var slots: seq<ScopedPtr?>
    ghost var raw: multiset<nat>
    ghost var held: set<nat>

    ghost predicate Owns(o: RefCounted)
      reads this
    {
      o.address < |objects| && objects[o.address] == o
    }

    ghost predicate Valid()
      reads this, objects, slots
    {
      && (forall k :: 0 <= k < |objects| ==> objects[k].address == k)
      && (forall i, j :: 0 <= i < j < |slots| && slots[i] != null ==> slots[i] != slots[j])
      && (forall i :: 0 <= i < |slots| && slots[i] != null && slots[i].ptr != null ==> Owns(slots[i].ptr))
    }

    ghost function SlotAt(i: nat): R.Slot
      requires i < |slots|
      reads this, slots
    {
      if slots[i] == null then R.Dead else R.Live(PtrOf(slots[i].ptr))
    }

    ghost function Memory(): R.Memory
      reads this, objects, slots
    {
      R.Memory((map k: nat | k < |objects| :: objects[k].refCount),
               (set k: nat | k < |objects| && objects[k].deleted),
               held,
               seq(|slots|, i requires 0 <= i < |slots| reads this, slots => SlotAt(i)),
               raw,
               false)
    }

    ghost predicate Holds(p: ScopedPtr, i: nat)
      reads this
    {
      i < |slots| && slots[i] == p
    }

    lemma SlotIs(p: ScopedPtr, i: nat)
      requires Valid() && Holds(p, i)
      ensures R.IsLive(Memory(), i) && R.At(Memory(), i) == PtrOf(p.ptr)
      ensures |Memory().slots| == |slots| && Memory().raw == raw && Memory().held == held
      ensures p.ptr != null ==> Owns(p.ptr)
    {}

    lemma ObjectIs(o: RefCounted)
      requires Valid() && Owns(o)
      ensures o.address in Memory().counts && Memory().counts[o.address] == o.refCount
      ensures o.deleted <==> o.address in Memory().deleted
    {}

    /** In a conserved heap a live variable's object can be touched and released. */
    lemma PointeeIs(p: ScopedPtr, i: nat)
      requires Valid() && Holds(p, i) && R.Conserved(Memory())
      ensures R.IsLive(Memory(), i) && R.At(Memory(), i) == PtrOf(p.ptr)
      ensures p.ptr != null ==> Owns(p.ptr) && !p.ptr.deleted && p.ptr.refCount > 0
      ensures R.CanDo(Memory(), R.DoCopy(i))
    {
      SlotIs(p, i);
      R.PointeeUsable(Memory(), i);
      if p.ptr != null { ObjectIs(p.ptr); }
    }

    ghost method Enter(p: ScopedPtr)
      requires Valid() && p !in slots && (p.ptr != null ==> Owns(p.ptr))
      modifies this`slots
      ensures Valid() && slots == old(slots) + [p]
      ensures var m := old(Memory()); Memory() == m.(slots := m.slots + [R.Live(PtrOf(p.ptr))])
    {
      slots := slots + [p];
    }

    ghost method Bury(i: nat)
      requires Valid() && i < |slots|
      modifies this`slots
      ensures Valid() && slots == old(slots)[i := null]
      ensures var m := old(Memory()); Memory() == m.(slots := m.slots[i := R.Dead])
    {
      slots := slots[i := null];
    }

    ghost method Trim()
      requires Valid() && |slots| > 0
      modifies this`slots
      ensures Valid() && slots == old(slots)[..|old(slots)| - 1]
      ensures var m := old(Memory()); Memory() == m.(slots := m.slots[..|m.slots| - 1])
    {
      slots := slots[..|slots| - 1];
    }

    ghost method SetRaw(owned: multiset<nat>)
      requires Valid()
      modifies this`raw
      ensures Valid() && Memory() == old(Memory()).(raw := owned)
    {
      raw := owned;
    }

    constructor ()
      ensures Valid() && Memory() == R.Empty()
    {
      objects, slots, raw, held := [], [], multiset{}, {};
    }
  }

  class RefCounted {
    ghost const address: nat
    var refCount: nat
    var deleted: bool

    /** `new T`: alive, with no reference yet. */
    constructor (ghost heap: Heap)
      requires heap.Valid()
      modifies heap
      ensures heap.Valid() && heap.Owns(this)
      ensures address !in old(heap.Memory()).counts
      ensures heap.Memory() == R.Do(old(heap.Memory()), R.DoCreate(address))
    {
      address := |heap.objects|;
      refCount, deleted := 0, false;
      new;
      heap.objects := heap.objects + [this];
    }

    method AddRef(ghost heap: Heap)
      requires heap.Valid() && heap.Owns(this) && !deleted
      modifies this`refCount, heap`held
      ensures refCount == old(refCount) + 1
      ensures heap.Valid() && heap.Memory() == R.AddRef(old(heap.Memory()), R.To(address))
    {
      refCount := refCount + 1;
      heap.held := heap.held + {address};
    }

    method Release(ghost heap: Heap)
      requires heap.Valid() && heap.Owns(this) && !deleted && refCount > 0
      modifies this
      ensures refCount == old(refCount) - 1 && (deleted <==> refCount == 0)
      ensures heap.Valid() && heap.Memory() == R.Release(old(heap.Memory()), R.To(address))
    {
      refCount := refCount - 1;
      if refCount == 0 { deleted := true; }
    }
  }

  class ScopedPtr {
    var ptr: RefCounted?

    constructor (ghost heap: Heap)
      requires heap.Valid()
      modifies heap`slots
      ensures heap.Valid() && heap.slots == old(heap.slots) + [this]
      ensures ptr == null && heap.Memory() == R.Construct(old(heap.Memory()), R.Null)
    {
      ptr := null;
      new;
      heap.Enter(this);
    }

    constructor FromRaw(p: RefCounted?, ghost heap: Heap)
      requires heap.Valid() && (p != null ==> heap.Owns(p) && !p.deleted)
      modifies heap`slots, heap`held, p
      ensures heap.Valid() && heap.slots == old(heap.slots) + [this]
      ensures ptr == p && heap.Memory() == R.Construct(old(heap.Memory()), PtrOf(p))
    {
      ptr := p;
      new;
      hide Heap.Memory, Heap.Valid;
      heap.Enter(this);
      if ptr != null { ptr.AddRef(heap); }
    }

    constructor Copy(r: ScopedPtr, ghost heap: Heap, ghost j: nat)
      requires heap.Valid() && heap.Holds(r, j) && R.Conserved(heap.Memory())
      modifies heap`slots, heap`held, r.ptr
      ensures heap.Valid() && heap.slots == old(heap.slots) + [this]
      ensures ptr == r.ptr == old(r.ptr) && heap.Memory() == R.Do(old(heap.Memory()), R.DoCopy(j))
    {
      heap.PointeeIs(r, j);
      ptr := r.ptr;
      new;
      hide Heap.Memory, Heap.Valid, R.Conserved;
      heap.Enter(this);
      if ptr != null { ptr.AddRef(heap); }
    }

    constructor Move(r: ScopedPtr, ghost heap: Heap, ghost j: nat)
      requires heap.Valid() && heap.Holds(r, j)
      modifies heap`slots, heap`raw, r
      ensures heap.Valid() && heap.slots == old(heap.slots) + [this] && ptr == old(r.ptr) && r.ptr == null
      ensures heap.Memory() == R.Do(old(heap.Memory()), R.DoMove(j))
    {
      hide Heap.Memory, Heap.Valid;
      heap.SlotIs(r, j);
      var p := r.Take(heap, j);
      ptr := p;
      new;
      heap.SetRaw(old(heap.raw));         // the reference is this variable's from here on
      assert heap.Memory() == R.Write(old(heap.Memory()), j, R.Null);
      heap.Enter(this);
    }

    /** The destructor. */
    method Destroy(ghost heap: Heap, ghost i: nat)
      requires heap.Valid() && heap.Holds(this, i) && R.Conserved(heap.Memory())
      modifies heap`slots, ptr
      ensures heap.Valid() && heap.slots == old(heap.slots)[i := null]
      ensures heap.Memory() == R.Do(old(heap.Memory()), R.DoDestroy(i))
    {
      hide Heap.Memory, Heap.Valid, R.Conserved;
      heap.PointeeIs(this, i);
      if ptr != null { ptr.Release(heap); }
      heap.Bury(i);
    }

    /** ptr_ = p. */
    method Set(p: RefCounted?, ghost heap: Heap, ghost i: nat)
      requires heap.Valid() && heap.Holds(this, i) && (p != null ==> heap.Owns(p))
      modifies this
      ensures heap.Valid() && ptr == p
      ensures i < |heap.Memory().slots| && heap.Memory() == R.Write(old(heap.Memory()), i, PtrOf(p))
    {
      ptr := p;
    }

    /** release(): the caller owns the reference of the result. */
    method Take(ghost heap: Heap, ghost i: nat) returns (retVal: RefCounted?)
      requires heap.Valid() && heap.Holds(this, i)
      modifies this, heap`raw
      ensures heap.Valid() && retVal == old(ptr) && ptr == null
      ensures R.IsLive(old(heap.Memory()), i) && heap.Memory() == R.Do(old(heap.Memory()), R.DoRelease(i))
    {
      hide Heap.Memory, Heap.Valid;
      heap.SlotIs(this, i);
      retVal := ptr;
      Set(null, heap, i);
      heap.SetRaw(R.Owned(heap.raw, PtrOf(retVal)));
    }

    /** operator=(T*): AddRef first, so that self assignment works. */
    method Assign(p: RefCounted?, ghost heap: Heap, ghost i: nat)
      requires heap.Valid() && heap.Holds(this, i) && R.Conserved(heap.Memory())
      requires p != null ==> heap.Owns(p) && !p.deleted
      modifies this, p, ptr, heap`held
      ensures heap.Valid() && R.IsLive(old(heap.Memory()), i)
      ensures ptr == p && heap.Memory() == R.Assign(old(heap.Memory()), i, PtrOf(p))
    {
      hide Heap.Memory, Heap.Valid, R.Conserved;
      heap.PointeeIs(this, i);
      if p != null { p.AddRef(heap); }
      if ptr != null { ptr.Release(heap); }
      Set(p, heap, i);
    }

    method AssignCopy(r: ScopedPtr, ghost heap: Heap, ghost i: nat, ghost j: nat)
      requires heap.Valid() && heap.Holds(this, i) && heap.Holds(r, j) && R.Conserved(heap.Memory())
      modifies this, r.ptr, ptr, heap`held
      ensures heap.Valid() && R.CanDo(old(heap.Memory()), R.DoCopyAssign(i, j))
      ensures ptr == old(r.ptr) && heap.Memory() == R.Do(old(heap.Memory()), R.DoCopyAssign(i, j))
    {
      hide Heap.Memory, Heap.Valid, R.Conserved;
      heap.PointeeIs(r, j);
      Assign(r.ptr, heap, i);
    }

    method Swap(r: ScopedPtr, ghost heap: Heap, ghost i: nat, ghost j: nat)
      requires heap.Valid() && heap.Holds(this, i) && heap.Holds(r, j)
      modifies this, r
      ensures heap.Valid() && ptr == old(r.ptr) && r.ptr == old(ptr)
      ensures R.CanDo(old(heap.Memory()), R.DoSwap(i, j))
      ensures heap.Memory() == R.Do(old(heap.Memory()), R.DoSwap(i, j))
    {
      hide Heap.Memory, Heap.Valid;
      heap.SlotIs(this, i);
      heap.SlotIs(r, j);
      var p := ptr;
      Set(r.ptr, heap, i);
      r.Set(p, heap, j);
    }

    /** swap(T**) with a raw pointer that owns its reference. */
    method SwapRaw(pp: RefCounted?, ghost heap: Heap, ghost i: nat) returns (q: RefCounted?)
      requires heap.Valid() && heap.Holds(this, i)
      requires pp != null ==> heap.Owns(pp) && pp.address in heap.raw
      modifies this, heap`raw
      ensures heap.Valid() && q == old(ptr) && ptr == pp
      ensures R.CanDo(old(heap.Memory()), R.DoSwapRaw(i, PtrOf(pp)))
      ensures heap.Memory() == R.Do(old(heap.Memory()), R.DoSwapRaw(i, PtrOf(pp)))
    {
      hide Heap.Memory, Heap.Valid;
      heap.SlotIs(this, i);
      q := ptr;
      Set(pp, heap, i);
      heap.SetRaw(R.Owned(if pp == null then heap.raw else heap.raw - multiset{pp.address}, PtrOf(q)));
    }

    /** operator=(&&): scoped_refptr(std::move(r)).swap(*this), and the temporary dies. */
    method AssignMove(r: ScopedPtr, ghost heap: Heap, ghost i: nat, ghost j: nat)
      requires heap.Valid() && heap.Holds(this, i) && heap.Holds(r, j) && R.Conserved(heap.Memory())
      modifies this, r, ptr, heap`slots, heap`raw
      ensures heap.Valid() && heap.slots == old(heap.slots)
      ensures ptr == old(r.ptr) && (r != this ==> r.ptr == null)
      ensures R.CanDo(old(heap.Memory()), R.DoMoveAssign(i, j))
      ensures heap.Memory() == R.Do(old(heap.Memory()), R.DoMoveAssign(i, j))
    {
      hide Heap.Memory, Heap.Valid, R.Conserved, R.MoveConstruct, R.Swap, R.Destroy;
      heap.SlotIs(this, i);
      heap.SlotIs(r, j);
      R.MoveConstructKeeps(heap.Memory(), j);
      var temporary := new ScopedPtr.Move(r, heap, j);
      ghost var t := |heap.slots| - 1;
      heap.SlotIs(this, i);
      heap.SlotIs(temporary, t);
      R.SwapKeeps(heap.Memory(), t, i);
      temporary.Swap(this, heap, t, i);
      temporary.Destroy(heap, t);
      heap.SlotIs(this, i);
      heap.Trim();
    }
  }
}
