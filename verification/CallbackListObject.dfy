/**
  The callback list as the object it is: callbacks_, null_callbacks_ and iterating_ are fields, Notify
  is a loop over a saved iterator, and a callback is a script of list operations that re-enters the
  same object. Every method is proved to perform steps of the machine in `CallbackList`, so each
  property of all machine runs is a property of every re-entrant use of the object.
 */
module CallbackListObject {
  import opened CallbackList
  import opened CallbackListInvariant

  /** What a callback does while it runs. A nested Notify comes with the scripts of what it invokes. */
  datatype Act = DoAdd(subscribed: bool) | DoCancel(id: nat) | DoNotify(bodies: seq<Body>) | DoSetRemoval(on: bool)

  datatype Body = Body(acts: seq<Act>)

  // ---------------------------------------------------------------- what a script does to the machine

  /** `run` is what one operation of a script does from `s`. */
  ghost predicate Does(kind: Kind, s: State, act: Act, run: seq<Action>)
    decreases act, 0
  {
    match act
    case DoAdd(subscribed) => run == [Action.Add(subscribed)]
    case DoCancel(id) => run == if id in s.subs then [Cancel(id)] else []
    case DoSetRemoval(on) => run == [SetRemoval(on)]
    case DoNotify(bodies) =>
      if kind.Repeating? || s.frames == [] then Notifies(kind, s, bodies, run) else run == []
  }

  /** `run` is what a whole script does, operation by operation. */
  ghost predicate DoesAll(kind: Kind, s: State, acts: seq<Act>, run: seq<Action>)
    decreases acts, 1
  {
    if acts == [] then run == []
    else
      var n := |acts| - 1;
      exists m :: 0 <= m <= |run| && CanRun(kind, s, run[..m])
                  && DoesAll(kind, s, acts[..n], run[..m]) && Does(kind, Run(kind, s, run[..m]), acts[n], run[m..])
  }

  /** `run` is k callbacks: the script of each in turn, and its return. */
  ghost predicate Visits(kind: Kind, s: State, bodies: seq<Body>, k: nat, run: seq<Action>)
    decreases bodies, k
  {
    if k == 0 then run == []
    else
      exists m :: 0 <= m < |run| && CanRun(kind, s, run[..m]) && run[|run| - 1] == Return
                  && Visits(kind, s, bodies, k - 1, run[..m])
                  && Executes(kind, Run(kind, s, run[..m]), bodies, k - 1, run[m..|run| - 1])
  }

  /** The k-th script; a callback beyond the scripts does nothing. */
  ghost predicate Executes(kind: Kind, s: State, bodies: seq<Body>, k: nat, run: seq<Action>)
    decreases bodies, 0
  {
    if k < |bodies| then DoesAll(kind, s, bodies[k].acts, run) else run == []
  }

  /** `run` is one notification whose callbacks do what the scripts say, from its start to its end. */
  ghost predicate Notifies(kind: Kind, s: State, bodies: seq<Body>, run: seq<Action>)
    decreases bodies, |run| + 1
  {
    && run != [] && run[0] == Action.Notify && CanRun(kind, s, run)
    && |Run(kind, s, run).frames| == |s.frames|
    && exists k: nat :: k <= |run| && Visits(kind, Step(kind, s, Action.Notify), bodies, k, run[1..])
  }

  lemma DoesSnoc(kind: Kind, s: State, acts: seq<Act>, n: nat, run: seq<Action>, part: seq<Action>)
    requires n < |acts| && CanRun(kind, s, run)
    requires DoesAll(kind, s, acts[..n], run) && Does(kind, Run(kind, s, run), acts[n], part)
    ensures DoesAll(kind, s, acts[..n + 1], run + part)
  {
    hide Does, CanRun, Run;
    var more, all := acts[..n + 1], run + part;
    assert more[..n] == acts[..n] && more[n] == acts[n];
    assert all[..|run|] == run && all[|run|..] == part;
  }

  lemma VisitsSnoc(kind: Kind, s: State, bodies: seq<Body>, k: nat, run: seq<Action>, part: seq<Action>)
    requires CanRun(kind, s, run) && Visits(kind, s, bodies, k, run)
    requires Executes(kind, Run(kind, s, run), bodies, k, part)
    ensures Visits(kind, s, bodies, k + 1, run + part + [Return])
  {
    hide Executes, CanRun, Run;
    var all := run + part + [Return];
    assert all[..|run|] == run && all[|run|..|all| - 1] == part;
  }

  lemma {:induction false} VisitsBound(kind: Kind, s: State, bodies: seq<Body>, k: nat, run: seq<Action>)
    requires Visits(kind, s, bodies, k, run)
    ensures k <= |run|
  {
    hide Executes, CanRun, Run;
    if k > 0 {
      var m :| 0 <= m < |run| && CanRun(kind, s, run[..m]) && Visits(kind, s, bodies, k - 1, run[..m]);
      VisitsBound(kind, s, bodies, k - 1, run[..m]);
    }
  }

  lemma NothingDone(kind: Kind, s: State)
    ensures DoesAll(kind, s, [], [])
  {}

  lemma NoVisits(kind: Kind, s: State, bodies: seq<Body>)
    ensures Visits(kind, s, bodies, 0, [])
  {}

  // ---------------------------------------------------------------- the object

  ghost predicate SameCursors(a: seq<Frame>, b: seq<Frame>) {
    && |a| == |b|
    && forall k :: 0 <= k < |a| ==> a[k].cursor == b[k].cursor && a[k].saved == b[k].saved
  }

  lemma IndexOfAt(nodes: seq<Node>, i: nat)
    requires Sorted(nodes) && i < |nodes|
    ensures IndexOf(nodes, nodes[i].id) == i
  {
    assert nodes[i] in nodes && nodes[i] == Node(nodes[i].id, nodes[i].live);
  }

  lemma ActiveIffIterating(kind: Kind, s: State)
    requires Inv(kind, s)
    ensures s.iterating <==> s.frames != []
  {}

  lemma RunNothing(kind: Kind, s: State)
    ensures CanRun(kind, s, []) && Run(kind, s, []) == s
  {}

  lemma RunSnoc(kind: Kind, s: State, run: seq<Action>, a: Action)
    requires CanRun(kind, s, run) && Enabled(kind, Run(kind, s, run), a)
    ensures CanRun(kind, s, run + [a]) && Run(kind, s, run + [a]) == Step(kind, Run(kind, s, run), a)
  {
    var t := Run(kind, s, run);
    assert [a][0] == a && [a][1..] == [];
    RunNothing(kind, Step(kind, t, a));
    assert CanRun(kind, t, [a]);
    RunConcat(kind, s, run, [a]);
  }

  /** Running the callback at position i leaves fewer list positions ahead of the saved iterator. */
  lemma Advances(kind: Kind, s: State, i: nat)
    requires Inv(kind, s) && s.frames != []
    requires i == FirstLive(s.callbacks, Position(s.callbacks, Top(s).cursor)) < |s.callbacks|
    ensures var t := RunAt(kind, s, i); var d := CursorAt(s.callbacks, i + 1);
      |t.callbacks| - FirstLive(t.callbacks, Position(t.callbacks, d)) < |s.callbacks| - i
  {
    var t := RunAt(kind, s, i);
    RunAtSets(kind, s, i);
    if i + 1 < |s.callbacks| {
      IndexOfAt(s.callbacks, i + 1);
      if kind.Once? {
        assert t.callbacks[i] == s.callbacks[i + 1];
        IndexOfAt(t.callbacks, i);
      }
    }
  }

  lemma PositionOfCursorAt(nodes: seq<Node>, i: nat)
    requires Sorted(nodes) && i <= |nodes|
    ensures Position(nodes, CursorAt(nodes, i)) == i
  {
    if i < |nodes| { IndexOfAt(nodes, i); }
  }

  class CallbackListBase {
    const kind: Kind
    var callbacks: seq<Node>
    var nullCallbacks: seq<nat>
    var iterating: bool
    var hasRemovalCallback: bool
    var nextId: nat
    /** The subscriptions callers still hold. */
    var subscriptions: set<nat>
    ghost var frames: seq<Frame>
    ghost var log: seq<Event>

    ghost function Spec(): State
      reads this
    {
      State(callbacks, nullCallbacks, iterating, hasRemovalCallback, frames, nextId, subscriptions, log)
    }

    ghost predicate Valid()
      reads this
    {
      Inv(kind, Spec()) && Turns(kind, Spec())
    }

    constructor (kind: Kind)
      ensures this.kind == kind && Spec() == INIT && Valid()
    {
      this.kind := kind;
      callbacks, nullCallbacks, iterating, hasRemovalCallback := [], [], false, false;
      nextId, subscriptions, frames, log := 0, {}, [], [];
    }

    function NextValid(it: Cursor): Cursor
      reads this
    {
      CursorAt(callbacks, FirstLive(callbacks, Position(callbacks, it)))
    }

    method Add(subscribed: bool) returns (id: nat)
      requires Valid()
      modifies this
      ensures Valid() && Spec() == Step(kind, old(Spec()), Action.Add(subscribed))
      ensures id == old(nextId) && frames == old(frames)
    {
      hide FramesInv, OnceInv, Turns, Inv;
      StepKeeps(kind, Spec(), Action.Add(subscribed));
      StepTurns(kind, Spec(), Action.Add(subscribed));
      id := nextId;
      callbacks := callbacks + [Node(id, true)];
      nextId := nextId + 1;
      if subscribed { subscriptions := subscriptions + {id}; }
    }

    method SetRemovalCallback(on: bool)
      requires Valid()
      modifies this
      ensures Valid() && Spec() == Step(kind, old(Spec()), SetRemoval(on)) && frames == old(frames)
    {
      StepKeeps(kind, Spec(), SetRemoval(on));
      StepTurns(kind, Spec(), SetRemoval(on));
      hasRemovalCallback := on;
    }

    /** Destroying the subscription for `id`. */
    method CancelCallback(id: nat)
      requires Valid() && id in subscriptions
      modifies this
      ensures Valid() && Spec() == Step(kind, old(Spec()), Cancel(id))
      ensures SameCursors(old(frames), frames)
    {
      StepKeeps(kind, Spec(), Cancel(id));
      StepTurns(kind, Spec(), Cancel(id));
      Unlink(id);
    }

    method Unlink(id: nat)
      modifies this
      ensures Spec() == CancelStep(kind, old(Spec()), id)
      ensures SameCursors(old(frames), frames)
    {
      subscriptions := subscriptions - {id};
      if kind.Once? && (id in nullCallbacks || Node(id, true) !in callbacks) {
        nullCallbacks := Remove(nullCallbacks, id);
        return;
      }
      if iterating {
        callbacks := Reset(callbacks, id);
        frames := Drop(frames, id);
      } else {
        callbacks := Erase(callbacks, id);
        if hasRemovalCallback { log := log + [Removed]; }
      }
    }

    /** RunCallback up to the moment the user's code takes over; `it` is already past `cur`. */
    method EnterCallback(cur: Cursor, it: Cursor)
      requires Inv(kind, Spec()) && frames != [] && cur.At?
      requires var i := FirstLive(callbacks, Position(callbacks, Top(Spec()).cursor));
        && i < |callbacks| && cur == CursorAt(callbacks, i) && it == CursorAt(callbacks, i + 1)
      modifies this
      ensures var s := old(Spec()); var i := FirstLive(s.callbacks, Position(s.callbacks, Top(s).cursor));
        Spec() == RunAt(kind, s, i)
    {
      hide FramesInv, OnceInv, Ids, Live;
      var i := IndexOf(callbacks, cur.id);
      IndexOfAt(callbacks, FirstLive(callbacks, Position(callbacks, Top(Spec()).cursor)));
      var f := Top(Spec());
      frames := frames[|frames| - 1 := f.(cursor := it, visited := f.visited + [cur.id])];
      log := log + [Invoked(cur.id)];
      if kind.Once? {
        callbacks := callbacks[..i] + callbacks[i + 1..];
        nullCallbacks := nullCallbacks + [cur.id];
      }
    }

    /** `RunCallback(it++)` up to the moment the user's code takes over. */
    method TakeNext(it: Cursor) returns (next: Cursor)
      requires frames != [] && Inv(kind, Spec()) && Turns(kind, Continue(kind, Spec()))
      requires it != End && it == NextValid(Top(Spec()).cursor)
      modifies this
      ensures Valid() && Spec() == Continue(kind, old(Spec())) && frames != []
      ensures |frames| == old(|frames|) && frames[..|frames| - 1] == old(frames)[..|frames| - 1]
      ensures Top(Spec()).saved == old(Top(Spec()).saved) && next == Top(Spec()).cursor
      ensures Left(NextValid(next)) < old(Left(it))
    {
      hide FramesInv, OnceInv, Turns, IndexOf, FirstLive, Ids, Live, Finish, Sorted;
      ghost var i := FirstLive(callbacks, Position(callbacks, Top(Spec()).cursor));
      PositionOfCursorAt(callbacks, i);
      ContinueKeeps(kind, Spec());
      Advances(kind, Spec(), i);
      next := CursorAt(callbacks, Position(callbacks, it) + 1);
      EnterCallback(it, next);
      PositionOfCursorAt(callbacks, FirstLive(callbacks, Position(callbacks, next)));
    }

    /** What Notify does after its loop. */
    method Leave(saved: bool)
      requires frames != [] && Inv(kind, Spec()) && saved == Top(Spec()).saved
      modifies this
      ensures Spec() == Finish(kind, old(Spec()))
    {
      iterating := saved;
      frames := frames[..|frames| - 1];
      if iterating { return; }
      var size := |callbacks|;
      callbacks := Prune(callbacks);
      if hasRemovalCallback && (|callbacks| < size || kind.Once?) { log := log + [Removed]; }
    }

    /** Positions from the iterator to the end of the list. */
    ghost function Left(it: Cursor): nat
      reads this
    {
      |callbacks| - Position(callbacks, it)
    }

    /** The loop of Notify. The frame on top is this call's, and `it` its first live position. */
    method Drain(bodies: seq<Body>, first: Cursor) returns (ghost run: seq<Action>, ghost visits: nat)
      requires frames != [] && Inv(kind, Spec()) && Turns(kind, Continue(kind, Spec()))
      requires first == NextValid(Top(Spec()).cursor)
      modifies this
      ensures frames != [] && Inv(kind, Spec()) && Turns(kind, Continue(kind, Spec()))
      ensures NextValid(Top(Spec()).cursor) == End && Top(Spec()).saved == old(Top(Spec()).saved)
      ensures CanRun(kind, Continue(kind, old(Spec())), run)
      ensures Continue(kind, Spec()) == Run(kind, Continue(kind, old(Spec())), run)
      ensures Visits(kind, Continue(kind, old(Spec())), bodies, visits, run)
      ensures SameCursors(old(frames)[..|old(frames)| - 1], frames[..|frames| - 1])
      decreases bodies, 1
    {
      hide Continue, Inv, Turns, CanRun, Run, NextValid, Left, DoesAll, Visits;
      ghost var s0, saved := Continue(kind, Spec()), Top(Spec()).saved;
      run, visits := [], 0;
      NoVisits(kind, s0, bodies);
      RunNothing(kind, s0);
      var it := first;
      var k := 0;
      while it != End
        invariant frames != [] && Inv(kind, Spec()) && Turns(kind, Continue(kind, Spec()))
        invariant CanRun(kind, s0, run) && Run(kind, s0, run) == Continue(kind, Spec())
        invariant visits == k && Visits(kind, s0, bodies, visits, run)
        invariant it == NextValid(Top(Spec()).cursor) && Top(Spec()).saved == saved
        invariant SameCursors(old(frames)[..|old(frames)| - 1], frames[..|frames| - 1])
        decreases if k < |bodies| then |bodies| - k else 0, Left(it)
      {
        it := TakeNext(it);
        ghost var before, nested: seq<Action> := run, [];
        if k < |bodies| {
          nested := Execute(bodies[k].acts);
          RunConcat(kind, s0, run, nested);
        }
        run := run + nested;
        assert nested == [] ==> run == before;
        VisitsSnoc(kind, s0, bodies, k, before, nested);
        k, visits := k + 1, visits + 1;
        RunSnoc(kind, s0, run, Return);
        run := run + [Return];
        ContinueTurns(kind, Spec());
        it := NextValid(it);
      }
    }

    /**
      Notify, whose k-th invocation executes bodies[k] (a callback beyond the scripts does nothing).
      It performs a machine run that starts with Notify, and leaves the iterators of the Notify calls
      around it as it found them.
     */
    method Notify(bodies: seq<Body>) returns (ghost run: seq<Action>)
      requires Valid() && Enabled(kind, Spec(), Action.Notify)
      modifies this
      ensures Valid() && CanRun(kind, old(Spec()), run) && Spec() == Run(kind, old(Spec()), run)
      ensures Notifies(kind, old(Spec()), bodies, run) && SameCursors(old(frames), frames)
      decreases bodies, 2
    {
      hide Inv, Turns, Run, CanRun, Visits;
      ghost var s0 := Spec();
      run := [Action.Notify];
      NoVisits(kind, Step(kind, s0, Action.Notify), bodies);
      RunNothing(kind, Step(kind, s0, Action.Notify));
      RunCons(kind, s0, Action.Notify, []);
      assert [Action.Notify] + [] == run;
      if Empty(callbacks) { return; }
      PushKeeps(kind, Spec());
      PushTurns(kind, Spec());
      var saved := iterating;
      iterating := true;
      frames := frames + [Frame(CursorAt(callbacks, 0), saved, nextId, Live(callbacks), [], {})];
      ghost var rest, visits := Drain(bodies, NextValid(CursorAt(callbacks, 0)));
      RunCons(kind, s0, Action.Notify, rest);
      run := run + rest;
      assert run[1..] == rest;
      VisitsBound(kind, Step(kind, s0, Action.Notify), bodies, visits, rest);
      ContinueKeeps(kind, Spec());
      Leave(saved);
    }

    /** The body of a callback: any sequence of operations on this list, nested notifications included. */
    method Execute(acts: seq<Act>) returns (ghost run: seq<Action>)
      requires Valid()
      modifies this
      ensures Valid() && CanRun(kind, old(Spec()), run) && Spec() == Run(kind, old(Spec()), run)
      ensures DoesAll(kind, old(Spec()), acts, run) && SameCursors(old(frames), frames)
      decreases acts, 0
    {
      hide Inv, Turns, CanRun, Run, Step, DoesAll, Notifies;
      ghost var s0 := Spec();
      run := [];
      RunNothing(kind, s0);
      assert DoesAll(kind, s0, acts[..0], run) by { NothingDone(kind, s0); }
      for n := 0 to |acts|
        invariant Valid() && CanRun(kind, s0, run) && Spec() == Run(kind, s0, run)
        invariant DoesAll(kind, s0, acts[..n], run) && SameCursors(s0.frames, frames)
      {
        ghost var before, part: seq<Action> := run, [];
        match acts[n] {
          case DoAdd(subscribed) =>
            part := [Action.Add(subscribed)];
            RunSnoc(kind, s0, run, Action.Add(subscribed));
            var _ := Add(subscribed);
          case DoCancel(id) =>
            if id in subscriptions {
              part := [Cancel(id)];
              RunSnoc(kind, s0, run, Cancel(id));
              CancelCallback(id);
            }
          case DoNotify(bodies) =>
            ActiveIffIterating(kind, Spec());
            if kind.Repeating? || !iterating {
              part := Notify(bodies);
              RunConcat(kind, s0, run, part);
            }
          case DoSetRemoval(on) =>
            part := [SetRemoval(on)];
            RunSnoc(kind, s0, run, SetRemoval(on));
            SetRemovalCallback(on);
        }
        run := run + part;
        assert part == [] ==> run == before;
        DoesSnoc(kind, s0, acts, n, before, part);
      }
      assert acts[..|acts|] == acts;
    }
  }
}
