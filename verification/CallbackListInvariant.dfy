/**
  What every run of the callback list keeps. `Inv` is inductive; the lemmas after it read off the
  promises the header makes: iterators never dangle, subscriptions always point at their node, each
  frame runs exactly the callbacks it should, once callbacks run at most once, and the removal
  callback fires exactly when elements left the list.
 */
module CallbackListInvariant {
  import opened CallbackList

  /** About one active Notify, given the ids in the list and those not cancelled. */
  ghost predicate FrameInv(ids: set<nat>, live: set<nat>, next: nat, f: Frame) {
    && f.start <= next
    && (forall id | id in f.present :: id < f.start)
    && (forall i, j :: 0 <= i < j < |f.visited| ==> f.visited[i] < f.visited[j])
    && (forall id | id in f.visited :: id < f.Low() <= next && (id < f.start ==> id in f.present))
    && (forall id | id in f.dropped :: id in f.present && id !in f.visited && id !in live)
    && (f.cursor.At? ==> f.cursor.id in ids && f.Low() <= f.cursor.id)
    && (f.cursor.At? ==> forall id | id in ids && f.Low() <= id :: f.cursor.id <= id)
    && (forall id | id in live && id < f.start :: id in f.present)
    && (forall id | id in f.present && id !in f.visited && id !in f.dropped ::
          f.cursor.At? && f.cursor.id <= id && id in live)
  }

  ghost predicate FramesInv(ids: set<nat>, live: set<nat>, next: nat, frames: seq<Frame>) {
    && (forall k :: 0 <= k < |frames| ==> frames[k].saved == (k > 0) && FrameInv(ids, live, next, frames[k]))
    && (frames != [] ==> forall id | id in ids :: id in frames[0].present || frames[0].start <= id)
  }

  predicate NoRepeat(log: seq<Event>) {
    forall i, j :: 0 <= i < j < |log| && log[i].Invoked? ==> log[i] != log[j]
  }

  /** Only a once-list forgets callbacks by running them. */
  ghost predicate OnceInv(ids: set<nat>, next: nat, nulls: seq<nat>, log: seq<Event>) {
    && NoRepeat(log)
    && (forall id: nat | Invoked(id) in log :: id < next && id !in ids)
    && (forall id | id in nulls :: Invoked(id) in log)
  }

  ghost predicate ListInv(kind: Kind, s: State) {
    && Sorted(s.callbacks)
    && Live(s.callbacks) <= Ids(s.callbacks)
    && Below(Ids(s.callbacks), s.next)
    && (s.iterating <==> s.frames != [])
    && (s.frames == [] ==> Live(s.callbacks) == Ids(s.callbacks))
    && (kind.Once? ==> |s.frames| <= 1)
    && (kind.Repeating? ==> s.nulls == [])
    && Distinct(s.nulls)
    && (forall id | id in s.nulls :: id < s.next && id !in Ids(s.callbacks))
    && (forall id | id in s.subs :: id < s.next && (id in Live(s.callbacks) || id in s.nulls))
  }

  ghost predicate Inv(kind: Kind, s: State) {
    && ListInv(kind, s)
    && FramesInv(Ids(s.callbacks), Live(s.callbacks), s.next, s.frames)
    && (kind.Once? ==> OnceInv(Ids(s.callbacks), s.next, s.nulls, s.log))
  }

  // ---------------------------------------------------------------- preservation, one action at a time

  lemma AddFrames(ids: set<nat>, live: set<nat>, next: nat, frames: seq<Frame>)
    requires FramesInv(ids, live, next, frames) && Below(ids, next)
    ensures FramesInv(ids + {next}, live + {next}, next + 1, frames)
  {
    forall k | 0 <= k < |frames| ensures FrameInv(ids + {next}, live + {next}, next + 1, frames[k]) {
      assert FrameInv(ids, live, next, frames[k]);
    }
  }

  lemma AddKeeps(kind: Kind, s: State, subscribed: bool)
    requires Inv(kind, s)
    ensures Inv(kind, Step(kind, s, Add(subscribed)))
  {
    hide FirstLive, Position, IndexOf, Erase, Reset, Prune, Ids, Live, Sorted;
    AppendSets(s.callbacks, s.next);
    AddFrames(Ids(s.callbacks), Live(s.callbacks), s.next, s.frames);
  }

  lemma NullIsNotLive(s: State, id: nat)
    ensures IsNull(s, id) <==> id in s.nulls || id !in Live(s.callbacks)
  {
    InSets(s.callbacks, id);
  }

  lemma DropFrames(ids: set<nat>, live: set<nat>, next: nat, frames: seq<Frame>, id: nat)
    requires FramesInv(ids, live, next, frames)
    ensures FramesInv(ids, live - {id}, next, Drop(frames, id))
  {
    hide FrameInv;
    var r := Drop(frames, id);
    forall k | 0 <= k < |r| ensures r[k].saved == (k > 0) && FrameInv(ids, live - {id}, next, r[k]) {
      DropFrame(ids, live, next, frames[k], id);
    }
  }

  lemma DropFrame(ids: set<nat>, live: set<nat>, next: nat, f: Frame, id: nat)
    requires FrameInv(ids, live, next, f)
    ensures FrameInv(ids, live - {id}, next,
                     if id in f.present && id !in f.visited then f.(dropped := f.dropped + {id}) else f)
  {
    var g := f.(dropped := f.dropped + {id});
    assert g.Low() == f.Low();
  }

  lemma CancelKeeps(kind: Kind, s: State, id: nat)
    requires Inv(kind, s) && id in s.subs
    ensures Inv(kind, Step(kind, s, Cancel(id)))
  {
    hide FirstLive, Position, IndexOf, Erase, Reset, Prune, Ids, Live, Sorted;
    NullIsNotLive(s, id);
    if kind.Once? && IsNull(s, id) {
      RemoveMembers(s.nulls, id);
    } else if s.iterating {
      ResetSets(s.callbacks, id);
      DropFrames(Ids(s.callbacks), Live(s.callbacks), s.next, s.frames, id);
    } else {
      EraseSets(s.callbacks, id);
    }
  }

  /** The frame that runs node x of the list and saves the node after it. */
  lemma VisitKeeps(ids: set<nat>, live: set<nat>, next: nat, f: Frame, x: nat, d: Cursor,
                   ids': set<nat>, live': set<nat>)
    requires FrameInv(ids, live, next, f) && live <= ids
    requires f.cursor.At? && f.cursor.id <= x < next && x in live
    requires forall id | id in live && f.cursor.id <= id :: x <= id
    requires d.At? ==> d.id in ids && x < d.id
    requires forall id | id in ids && x < id :: d.At? && d.id <= id
    requires ids - {x} <= ids' <= ids && live - {x} <= live' <= live
    ensures FrameInv(ids', live', next, f.(cursor := d, visited := f.visited + [x]))
  {
    var g := f.(cursor := d, visited := f.visited + [x]);
    assert g.Low() == x + 1;
    assert forall id :: id in g.visited <==> id in f.visited || id == x;
    assert x !in f.visited;
  }

  lemma LogStep(log: seq<Event>, e: Event)
    requires NoRepeat(log) && e !in log
    ensures NoRepeat(log + [e])
  {}

  lemma ReplaceTop(ids: set<nat>, live: set<nat>, next: nat, frames: seq<Frame>, g: Frame)
    requires FramesInv(ids, live, next, frames) && frames != []
    requires FrameInv(ids, live, next, g) && g.saved == (|frames| > 1)
    requires g.present == frames[|frames| - 1].present && g.start == frames[|frames| - 1].start
    ensures FramesInv(ids, live, next, frames[|frames| - 1 := g])
  {}

  lemma RunAtSets(kind: Kind, s: State, i: nat)
    requires s.frames != [] && i == FirstLive(s.callbacks, Position(s.callbacks, Top(s).cursor)) < |s.callbacks|
    requires Inv(kind, s)
    ensures var t, x := RunAt(kind, s, i), s.callbacks[i].id;
      && Sorted(t.callbacks) && x in Live(s.callbacks)
      && Ids(t.callbacks) == (if kind.Once? then Ids(s.callbacks) - {x} else Ids(s.callbacks))
      && Live(t.callbacks) == (if kind.Once? then Live(s.callbacks) - {x} else Live(s.callbacks))
  {
    hide Position, IndexOf, Erase, Reset, Prune, Ids, Live, Sorted;
    NextSpec(s.callbacks, Top(s).cursor);
    DropAtSets(s.callbacks, i);
  }

  lemma RunAtTop(kind: Kind, s: State, i: nat)
    requires s.frames != [] && i == FirstLive(s.callbacks, Position(s.callbacks, Top(s).cursor)) < |s.callbacks|
    requires Inv(kind, s)
    ensures var t := RunAt(kind, s, i); FrameInv(Ids(t.callbacks), Live(t.callbacks), s.next, Top(t))
  {
    hide FirstLive, Position, IndexOf, Erase, Reset, Prune, Ids, Live, Sorted;
    var f, x, d := Top(s), s.callbacks[i].id, CursorAt(s.callbacks, i + 1);
    var t := RunAt(kind, s, i);
    assert FrameInv(Ids(s.callbacks), Live(s.callbacks), s.next, f);
    NextSpec(s.callbacks, f.cursor);
    CursorSpec(s.callbacks, i);
    RunAtSets(kind, s, i);
    assert Top(t) == f.(cursor := d, visited := f.visited + [x]);
    VisitKeeps(Ids(s.callbacks), Live(s.callbacks), s.next, f, x, d, Ids(t.callbacks), Live(t.callbacks));
  }

  lemma RunAtFrames(kind: Kind, s: State, i: nat)
    requires s.frames != [] && i == FirstLive(s.callbacks, Position(s.callbacks, Top(s).cursor)) < |s.callbacks|
    requires Inv(kind, s)
    ensures var t := RunAt(kind, s, i); FramesInv(Ids(t.callbacks), Live(t.callbacks), t.next, t.frames)
  {
    hide FirstLive, Position, IndexOf, Erase, Reset, Prune, Ids, Live, Sorted;
    var t := RunAt(kind, s, i);
    RunAtSets(kind, s, i);
    RunAtTop(kind, s, i);
    if kind.Once? {
      assert t.frames == [Top(t)];
    } else {
      ReplaceTop(Ids(s.callbacks), Live(s.callbacks), s.next, s.frames, Top(t));
    }
  }

  lemma RunAtKeeps(kind: Kind, s: State, i: nat)
    requires s.frames != [] && i == FirstLive(s.callbacks, Position(s.callbacks, Top(s).cursor)) < |s.callbacks|
    requires Inv(kind, s)
    ensures Inv(kind, RunAt(kind, s, i))
  {
    hide FirstLive, Position, IndexOf, Erase, Reset, Prune, Ids, Live, Sorted;
    var t := RunAt(kind, s, i);
    RunAtSets(kind, s, i);
    RunAtFrames(kind, s, i);
    if kind.Once? {
      assert OnceInv(Ids(t.callbacks), t.next, t.nulls, t.log) by { LogStep(s.log, Invoked(s.callbacks[i].id)); }
    }
    assert ListInv(kind, t);
  }

  lemma FinishKeeps(kind: Kind, s: State)
    requires s.frames != [] && Inv(kind, s)
    ensures Inv(kind, Finish(kind, s))
  {
    hide FirstLive, Position, IndexOf, Erase, Reset, Prune, Ids, Live, Sorted;
    PruneSets(s.callbacks);
    assert Top(s).saved == (|s.frames| > 1);
  }

  lemma ContinueKeeps(kind: Kind, s: State)
    requires s.frames != [] && Inv(kind, s)
    ensures Inv(kind, Continue(kind, s))
  {
    var i := FirstLive(s.callbacks, Position(s.callbacks, Top(s).cursor));
    if i < |s.callbacks| { RunAtKeeps(kind, s, i); } else { FinishKeeps(kind, s); }
  }

  lemma PushKeeps(kind: Kind, s: State)
    requires Inv(kind, s) && Enabled(kind, s, Notify) && !Empty(s.callbacks)
    ensures Inv(kind, Push(s))
  {
    var first := s.callbacks[0].id;
    AroundSets(s.callbacks, 0);
    assert s.callbacks[..0] == [];
    hide FirstLive, IndexOf, Position, Erase, Reset, Prune, Sorted;
    NewFrame(Ids(s.callbacks), Live(s.callbacks), s.next, first, s.iterating);
    hide Ids, Live, FrameInv;
    PushFrames(Ids(s.callbacks), Live(s.callbacks), s.next, s.frames,
               Frame(At(first), s.iterating, s.next, Live(s.callbacks), [], {}));
    hide FramesInv, OnceInv;
  }

  lemma PushFrames(ids: set<nat>, live: set<nat>, next: nat, frames: seq<Frame>, g: Frame)
    requires FramesInv(ids, live, next, frames) && FrameInv(ids, live, next, g) && g.saved == (|frames| > 0)
    requires frames == [] ==> ids <= g.present
    ensures FramesInv(ids, live, next, frames + [g])
  {
    hide FrameInv;
  }

  /** A Notify that starts at the first node owes a visit to every live one. */
  lemma NewFrame(ids: set<nat>, live: set<nat>, next: nat, first: nat, saved: bool)
    requires live <= ids && Below(ids, next) && first in ids && forall id | id in ids :: first <= id
    ensures FrameInv(ids, live, next, Frame(At(first), saved, next, live, [], {}))
  {
    assert Frame(At(first), saved, next, live, [], {}).Low() == 0;
  }

  lemma StepKeeps(kind: Kind, s: State, a: Action)
    requires Inv(kind, s) && Enabled(kind, s, a)
    ensures Inv(kind, Step(kind, s, a))
  {
    match a
    case Add(subscribed) => AddKeeps(kind, s, subscribed);
    case Cancel(id) => CancelKeeps(kind, s, id);
    case Notify =>
      if !Empty(s.callbacks) {
        PushKeeps(kind, s);
        ContinueKeeps(kind, Push(s));
      }
    case Return => ContinueKeeps(kind, s);
    case SetRemoval(_) =>
  }

  ghost predicate Keeps(ids: set<nat>, next: nat, f: Frame) {
    forall id: nat | id in f.present || f.start <= id < next :: id in ids
  }

  /** Between steps every frame has started running, and the ids its history names are accounted for. */
  ghost predicate Turns(kind: Kind, s: State) {
    && (forall k :: 0 <= k < |s.frames| ==> s.frames[k].visited != [])
    && (kind.Repeating? ==> forall k :: 0 <= k < |s.frames| ==> Keeps(Ids(s.callbacks), s.next, s.frames[k]))
    && (kind.Once? && s.frames != [] ==> forall id | id in s.frames[0].visited :: Invoked(id) in s.log)
  }

  /** Notify on a list that is not empty always has a callback to run. */
  lemma FirstTurnRuns(kind: Kind, s: State)
    requires ListInv(kind, s) && !Empty(s.callbacks)
    ensures FirstLive(s.callbacks, Position(s.callbacks, Top(Push(s)).cursor)) < |s.callbacks|
  {
    var n :| n in s.callbacks && n.live;
    InSets(s.callbacks, n.id);
    assert n == Node(n.id, true) && s.callbacks != [];
    var c := s.callbacks[0];
    assert c in s.callbacks && c == Node(c.id, c.live);
    InSets(s.callbacks, c.id);
    NextSpec(s.callbacks, At(c.id));
    if n != c { AroundSets(s.callbacks, 0); }
  }

  lemma ContinueGrows(s: State)
    requires s.frames != [] && Continue(Repeating, s).frames != []
    requires FramesInv(Ids(s.callbacks), Live(s.callbacks), s.next, s.frames)
    ensures Continue(Repeating, s).callbacks == s.callbacks
  {
    hide FirstLive, Position, IndexOf, Prune, Ids, Live, FrameInv;
    assert Top(s).saved == (|s.frames| > 1);
  }

  lemma GrowsWhileActive(s: State, a: Action)
    requires Inv(Repeating, s) && Enabled(Repeating, s, a) && Step(Repeating, s, a).frames != []
    ensures Ids(s.callbacks) <= Ids(Step(Repeating, s, a).callbacks)
  {
    match a
    case Add(_) => AppendSets(s.callbacks, s.next);
    case Cancel(id) =>
      hide FirstLive, Position, IndexOf, Erase, Reset, Prune, Ids, Live, Sorted;
      ResetSets(s.callbacks, id);
    case Notify =>
      if !Empty(s.callbacks) {
        PushKeeps(Repeating, s);
        ContinueGrows(Push(s));
      }
    case Return => ContinueGrows(s);
    case SetRemoval(_) =>
  }

  lemma PushTurns(kind: Kind, s: State)
    requires Inv(kind, s) && Turns(kind, s) && Enabled(kind, s, Notify) && !Empty(s.callbacks)
    ensures Turns(kind, Continue(kind, Push(s)))
  {
    hide FirstLive, Position, IndexOf, Erase, Reset, Prune, Ids, Live, Sorted;
    FirstTurnRuns(kind, s);
    assert Live(s.callbacks) <= Ids(s.callbacks);
  }

  lemma AddTurns(kind: Kind, s: State, subscribed: bool)
    requires Inv(kind, s) && Turns(kind, s)
    ensures Turns(kind, Step(kind, s, Add(subscribed)))
  {
    hide FirstLive, Position, IndexOf, Erase, Reset, Prune, Ids, Live, Sorted;
    AppendSets(s.callbacks, s.next);
    forall k | 0 <= k < |s.frames| && kind.Repeating?
      ensures Keeps(Ids(s.callbacks) + {s.next}, s.next + 1, s.frames[k])
    {
      assert Keeps(Ids(s.callbacks), s.next, s.frames[k]);
    }
  }

  lemma CancelTurns(kind: Kind, s: State, id: nat)
    requires Inv(kind, s) && Turns(kind, s) && id in s.subs
    ensures Turns(kind, Step(kind, s, Cancel(id)))
  {
    hide FirstLive, Position, IndexOf, Erase, Reset, Prune, Ids, Live, Sorted;
    var t := Step(kind, s, Cancel(id));
    ResetSets(s.callbacks, id);
    forall k | 0 <= k < |t.frames| && kind.Repeating? ensures Keeps(Ids(t.callbacks), t.next, t.frames[k]) {
      assert Keeps(Ids(s.callbacks), s.next, s.frames[k]);
    }
  }

  lemma ContinueTurns(kind: Kind, s: State)
    requires Inv(kind, s) && Turns(kind, s) && s.frames != []
    ensures Turns(kind, Continue(kind, s))
  {
    hide FirstLive, Position, IndexOf, Erase, Reset, Prune, Ids, Live, Sorted;
    var t := Continue(kind, s);
    forall k | 0 <= k < |t.frames| && kind.Repeating? ensures Keeps(Ids(t.callbacks), t.next, t.frames[k]) {
      assert Keeps(Ids(s.callbacks), s.next, s.frames[k]);
    }
  }

  lemma StepTurns(kind: Kind, s: State, a: Action)
    requires Inv(kind, s) && Turns(kind, s) && Enabled(kind, s, a)
    ensures Turns(kind, Step(kind, s, a))
  {
    match a
    case Add(subscribed) => AddTurns(kind, s, subscribed);
    case Cancel(id) => CancelTurns(kind, s, id);
    case Notify => if !Empty(s.callbacks) { PushTurns(kind, s); }
    case Return => ContinueTurns(kind, s);
    case SetRemoval(_) =>
  }

  /** Every state a run reaches satisfies the invariant. */
  lemma {:induction false} RunKeeps(kind: Kind, s: State, run: seq<Action>)
    requires Inv(kind, s) && Turns(kind, s) && CanRun(kind, s, run)
    ensures Inv(kind, Run(kind, s, run)) && Turns(kind, Run(kind, s, run))
    decreases |run|
  {
    if run != [] {
      StepKeeps(kind, s, run[0]);
      StepTurns(kind, s, run[0]);
      RunKeeps(kind, Step(kind, s, run[0]), run[1..]);
    }
  }

  // ---------------------------------------------------------------- what the header promises, in every reachable state

  lemma Reachable(kind: Kind, run: seq<Action>)
    requires CanRun(kind, INIT, run)
    ensures Inv(kind, Run(kind, INIT, run)) && Turns(kind, Run(kind, INIT, run))
  {
    RunKeeps(kind, INIT, run);
  }

  /** Saved iterators point at nodes of the list, and pruning leaves no null behind. */
  lemma IteratorsNeverDangle(kind: Kind, run: seq<Action>)
    requires CanRun(kind, INIT, run)
    ensures var s := Run(kind, INIT, run);
      && (forall k :: 0 <= k < |s.frames| && s.frames[k].cursor.At? ==> Has(s.callbacks, s.frames[k].cursor.id))
      && (s.iterating <==> s.frames != [])
      && (!s.iterating ==> forall id :: Node(id, false) !in s.callbacks)
  {
    Reachable(kind, run);
    var s := Run(kind, INIT, run);
    forall k | 0 <= k < |s.frames| && s.frames[k].cursor.At? ensures Has(s.callbacks, s.frames[k].cursor.id) {
      InSets(s.callbacks, s.frames[k].cursor.id);
    }
    forall id | !s.iterating ensures Node(id, false) !in s.callbacks {
      InSets(s.callbacks, id);
      OneNode(s.callbacks, id);
    }
  }

  lemma OneNode(nodes: seq<Node>, id: nat)
    requires Sorted(nodes)
    ensures Node(id, true) in nodes ==> Node(id, false) !in nodes
  {}

  /**
    A live subscription's iterator points at exactly one node: one still registered, or a once node
    already run and parked in null_callbacks_. So CancelCallback erases from the list that owns the
    node, and a repeating list never sees a subscription to a null (the check at line 339).
   */
  lemma SubscriptionsOwnTheirNode(kind: Kind, run: seq<Action>, id: nat)
    requires CanRun(kind, INIT, run) && id in Run(kind, INIT, run).subs
    ensures var s := Run(kind, INIT, run);
      && (IsNull(s, id) <==> id in s.nulls)
      && (id in s.nulls <==> Node(id, true) !in s.callbacks)
      && Node(id, false) !in s.callbacks
      && (kind.Repeating? ==> !IsNull(s, id))
      && (id in s.nulls ==> Invoked(id) in s.log)
  {
    Reachable(kind, run);
    var s := Run(kind, INIT, run);
    InSets(s.callbacks, id);
    OneNode(s.callbacks, id);
  }

  /** While any Notify is still active after a step, no node has been erased from a repeating list. */
  lemma ErasedOnlyAtDepthZero(run: seq<Action>, a: Action)
    requires CanRun(Repeating, INIT, run) && Enabled(Repeating, Run(Repeating, INIT, run), a)
    ensures var s := Run(Repeating, INIT, run); var t := Step(Repeating, s, a);
      t.frames != [] ==> forall id | Has(s.callbacks, id) :: Has(t.callbacks, id)
  {
    Reachable(Repeating, run);
    var s := Run(Repeating, INIT, run);
    var t := Step(Repeating, s, a);
    StepKeeps(Repeating, s, a);
    if t.frames != [] {
      GrowsWhileActive(s, a);
      forall id | Has(s.callbacks, id) ensures Has(t.callbacks, id) {
        InSets(s.callbacks, id);
        InSets(t.callbacks, id);
      }
    }
  }

  /**
    When the innermost loop finds nothing more, its Notify has run, in registration order and never
    twice, exactly those callbacks present at its start that were not cancelled before their turn.
   */
  lemma FrameRunsEveryCallback(kind: Kind, run: seq<Action>)
    requires CanRun(kind, INIT, run) && Run(kind, INIT, run).frames != []
    requires var s := Run(kind, INIT, run);
      FirstLive(s.callbacks, Position(s.callbacks, Top(s).cursor)) == |s.callbacks|
    ensures var f := Top(Run(kind, INIT, run));
      && (forall id | id in f.present :: (id in f.visited) != (id in f.dropped))
      && (forall i, j :: 0 <= i < j < |f.visited| ==> f.visited[i] < f.visited[j])
      && f.dropped <= f.present
  {
    Reachable(kind, run);
    var s := Run(kind, INIT, run);
    assert FrameInv(Ids(s.callbacks), Live(s.callbacks), s.next, Top(s));
    NextSpec(s.callbacks, Top(s).cursor);
  }

  lemma {:induction false} IncreasingCount(v: seq<nat>, bound: set<nat>)
    requires forall i, j :: 0 <= i < j < |v| ==> v[i] < v[j]
    requires forall x | x in v :: x in bound
    ensures |v| <= |bound|
  {
    if v != [] {
      var n := |v| - 1;
      assert v[n] !in v[..n];
      IncreasingCount(v[..n], bound - {v[n]});
    }
  }

  function Range(lo: nat, hi: nat): (r: set<nat>)
    requires lo <= hi
    ensures |r| == hi - lo && forall x :: x in r <==> lo <= x < hi
    decreases hi - lo
  {
    if lo == hi then {} else {lo} + Range(lo + 1, hi)
  }

  /** A Notify makes at most as many invocations as there were callbacks plus additions since its start. */
  lemma InvocationBound(kind: Kind, run: seq<Action>, k: nat)
    requires CanRun(kind, INIT, run) && k < |Run(kind, INIT, run).frames|
    ensures var s := Run(kind, INIT, run); var f := s.frames[k];
      |f.visited| <= |f.present| + (s.next - f.start)
  {
    Reachable(kind, run);
    var s := Run(kind, INIT, run);
    var f := s.frames[k];
    assert FrameInv(Ids(s.callbacks), Live(s.callbacks), s.next, f);
    var added := Range(f.start, s.next);
    IncreasingCount(f.visited, f.present + added);
    assert |f.present + added| <= |f.present| + |added|;
  }

  /** No callback of a once-list is ever run twice. */
  lemma OnceRunsAtMostOnce(run: seq<Action>, i: nat, j: nat)
    requires CanRun(Once, INIT, run) && i < j < |Run(Once, INIT, run).log|
    requires Run(Once, INIT, run).log[i].Invoked?
    ensures Run(Once, INIT, run).log[i] != Run(Once, INIT, run).log[j]
  {
    Reachable(Once, run);
  }

  predicate Fired(s: State, t: State) {
    |s.log| < |t.log| && t.log[|t.log| - 1] == Removed
  }

  /** Something the outermost Notify found registered, or that was added during it, has left the list. */
  ghost predicate TookNodeOut(s: State, t: State)
    requires s.frames != []
  {
    exists id: nat :: (id in s.frames[0].present || s.frames[0].start <= id < s.next) && !Has(t.callbacks, id)
  }

  /**
    The removal callback runs exactly when a removal callback is set and the step either ends the
    outermost Notify after a node left the list, or is a cancellation outside Notify that erased one.
   */
  lemma RemovalFiresExactly(kind: Kind, run: seq<Action>, a: Action)
    requires CanRun(kind, INIT, run) && Enabled(kind, Run(kind, INIT, run), a)
    ensures var s := Run(kind, INIT, run); var t := Step(kind, s, a);
      && |s.log| <= |t.log| <= |s.log| + 1 && t.log[..|s.log|] == s.log
      && (Fired(s, t) <==>
            && s.removal
            && (|| (s.frames != [] && t.frames == [] && TookNodeOut(s, t))
                || (a.Cancel? && s.frames == [] && Has(s.callbacks, a.id))))
  {
    hide FirstLive, Position, IndexOf, Erase, Reset, Prune, Ids, Live, Sorted;
    Reachable(kind, run);
    var s := Run(kind, INIT, run);
    match a
    case Add(_) =>
    case Cancel(id) =>
      NullIsNotLive(s, id);
      InSets(s.callbacks, id);
    case Notify =>
      if !Empty(s.callbacks) {
        PushKeeps(kind, s);
        FirstTurnRuns(kind, s);
      }
    case Return => ReturnFires(kind, s);
    case SetRemoval(_) =>
  }

  lemma ReturnFires(kind: Kind, s: State)
    requires Inv(kind, s) && Turns(kind, s) && s.frames != []
    ensures var t := Continue(kind, s);
      && |s.log| <= |t.log| <= |s.log| + 1 && t.log[..|s.log|] == s.log
      && (Fired(s, t) <==> s.removal && t.frames == [] && TookNodeOut(s, t))
  {
    var i := FirstLive(s.callbacks, Position(s.callbacks, Top(s).cursor));
    if i == |s.callbacks| && |s.frames| == 1 {
      var f, t := s.frames[0], Finish(kind, s);
      assert FrameInv(Ids(s.callbacks), Live(s.callbacks), s.next, f);
      PruneSets(s.callbacks);
      forall id: nat ensures Has(t.callbacks, id) <==> id in Live(s.callbacks) { InSets(t.callbacks, id); }
      if kind.Once? {
        assert f.visited[0] in f.visited;
        assert Invoked(f.visited[0]) in s.log;
        assert !Has(t.callbacks, f.visited[0]);
      } else if Live(s.callbacks) != Ids(s.callbacks) {
        var id :| id in Ids(s.callbacks) && id !in Live(s.callbacks);
        assert !Has(t.callbacks, id);
      }
    }
  }

  /**
    Destroying a subscription removes its callback for good: no list holds it as a callback to run or as a
    node awaiting its subscription's end, and its subscription is gone. Every other node stays where it is.
   */
  lemma CancelledIsGone(kind: Kind, run: seq<Action>, id: nat)
    requires CanRun(kind, INIT, run) && id in Run(kind, INIT, run).subs
    ensures var s := Run(kind, INIT, run); var t := Step(kind, s, Cancel(id));
      && id !in t.subs && id !in t.nulls && Node(id, true) !in t.callbacks
      && (t.frames == [] ==> !Has(t.callbacks, id))
      && (forall x | x != id :: (x in t.nulls <==> x in s.nulls) && (x in t.subs <==> x in s.subs)
                                && (Has(t.callbacks, x) <==> Has(s.callbacks, x))
                                && (Node(x, true) in t.callbacks <==> Node(x, true) in s.callbacks))
  {
    Reachable(kind, run);
    var s := Run(kind, INIT, run);
    var t := Step(kind, s, Cancel(id));
    hide FirstLive, Position, IndexOf, Erase, Reset, Prune, Ids, Live, Sorted, Run, CanRun;
    NullIsNotLive(s, id);
    RemoveMembers(s.nulls, id);
    ResetSets(s.callbacks, id);
    EraseSets(s.callbacks, id);
    forall x: nat ensures x in Ids(t.callbacks) <==> Has(t.callbacks, x)
                  ensures x in Live(t.callbacks) <==> Node(x, true) in t.callbacks
                  ensures x in Ids(s.callbacks) <==> Has(s.callbacks, x)
                  ensures x in Live(s.callbacks) <==> Node(x, true) in s.callbacks {
      InSets(t.callbacks, x);
      InSets(s.callbacks, x);
    }
  }
}
