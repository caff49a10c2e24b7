/**
  Lazy deletion refines eager deletion. The ideal list below has no null nodes, no iterators and no
  pruning: a cancelled registration is gone at once, and a Notify is either over or will next run the
  first registration that is not older than its mark. The one trace the tombstones of the real list
  leave is `newest`: a Notify is over once it has run the newest registration of the current outermost
  Notify, counting registrations cancelled since. `TombstoneTailIsObservable` shows that forgetting
  the cancelled ones here would change which callbacks run.
 */
module CallbackListRefinement {
  import opened CallbackList
  import opened CallbackListInvariant

  datatype Mark = Over | From(low: nat)

  datatype Ideal = Ideal(live: set<nat>, newest: nat, dirty: bool, removal: bool, marks: seq<Mark>,
                         next: nat, subs: set<nat>, log: seq<Event>)

  const IDEAL_INIT := Ideal({}, 0, false, false, [], 0, {}, [])

  ghost predicate IsFirst(live: set<nat>, low: nat, x: nat) {
    x in live && low <= x && forall y | y in live && low <= y :: x <= y
  }

  ghost predicate IsNewest(ids: set<nat>, x: nat) {
    x in ids && forall y | y in ids :: y <= x
  }

  lemma {:induction false} FirstExists(live: set<nat>, low: nat, y: nat)
    requires y in live && low <= y
    ensures exists x :: IsFirst(live, low, x)
    decreases y
  {
    if !IsFirst(live, low, y) {
      var z :| z in live && low <= z && z < y;
      FirstExists(live, low, z);
    }
  }

  lemma {:induction false} NewestExists(ids: set<nat>)
    requires ids != {}
    ensures exists x :: IsNewest(ids, x)
  {
    var y :| y in ids;
    if ids != {y} {
      NewestExists(ids - {y});
      var z :| IsNewest(ids - {y}, z);
      var m := if y < z then z else y;
      forall w | w in ids ensures w <= m { assert w == y || w in ids - {y}; }
      assert IsNewest(ids, m);
    } else {
      assert IsNewest(ids, y);
    }
  }

  ghost function Newest(ids: set<nat>): (x: nat)
    requires ids != {}
    ensures IsNewest(ids, x)
  {
    NewestExists(ids);
    var x :| IsNewest(ids, x);
    x
  }

  function IdealEmit(e: Ideal, fire: bool): Ideal {
    if e.removal && fire then e.(log := e.log + [Removed]) else e
  }

  /** The innermost Notify runs registration x. */
  function IdealRun(kind: Kind, e: Ideal, x: nat): Ideal
    requires e.marks != []
  {
    var t := e.(marks := e.marks[|e.marks| - 1 := if x == e.newest then Over else From(x + 1)],
                log := e.log + [Invoked(x)]);
    if kind.Once? then t.(live := e.live - {x}, dirty := true) else t
  }

  function IdealFinish(e: Ideal): Ideal
    requires e.marks != []
  {
    var t := e.(marks := e.marks[..|e.marks| - 1]);
    if t.marks != [] then t else IdealEmit(t.(dirty := false), e.dirty)
  }

  ghost function IdealContinue(kind: Kind, e: Ideal): Ideal
    requires e.marks != []
  {
    var m := e.marks[|e.marks| - 1];
    if m.From? && exists x :: IsFirst(e.live, m.low, x) then
      var x :| IsFirst(e.live, m.low, x);
      IdealRun(kind, e, x)
    else IdealFinish(e)
  }

  function IdealPush(e: Ideal, newest: nat): Ideal {
    e.(newest := newest, marks := e.marks + [From(0)])
  }

  ghost function IdealNotify(kind: Kind, e: Ideal): Ideal {
    if e.live == {} then e
    else
      IdealContinue(kind, IdealPush(e, if e.marks == [] then Newest(e.live) else e.newest))
  }

  function IdealCancel(e: Ideal, id: nat): Ideal {
    var t := e.(subs := e.subs - {id}, live := e.live - {id});
    if id !in e.live then t
    else if e.marks != [] then t.(dirty := true)
    else IdealEmit(t, true)
  }

  predicate IdealEnabled(kind: Kind, e: Ideal, a: Action) {
    match a
    case Add(_) => true
    case Cancel(id) => id in e.subs
    case Notify => kind.Repeating? || e.marks == []
    case Return => e.marks != []
    case SetRemoval(_) => true
  }

  ghost function IdealStep(kind: Kind, e: Ideal, a: Action): Ideal
    requires IdealEnabled(kind, e, a)
  {
    match a
    case Add(subscribed) =>
      e.(live := e.live + {e.next}, next := e.next + 1, newest := e.next,
         subs := if subscribed then e.subs + {e.next} else e.subs)
    case Cancel(id) => IdealCancel(e, id)
    case Notify => IdealNotify(kind, e)
    case Return => IdealContinue(kind, e)
    case SetRemoval(on) => e.(removal := on)
  }

  ghost predicate IdealCanRun(kind: Kind, e: Ideal, run: seq<Action>)
    decreases |run|
  {
    run == [] || (IdealEnabled(kind, e, run[0]) && IdealCanRun(kind, IdealStep(kind, e, run[0]), run[1..]))
  }

  ghost function IdealExec(kind: Kind, e: Ideal, run: seq<Action>): Ideal
    requires IdealCanRun(kind, e, run)
    decreases |run|
  {
    if run == [] then e else IdealExec(kind, IdealStep(kind, e, run[0]), run[1..])
  }

  // ---------------------------------------------------------------- the simulation

  ghost predicate MarksAgree(frames: seq<Frame>, marks: seq<Mark>) {
    && |marks| == |frames|
    && forall k :: 0 <= k < |frames| ==>
         marks[k] == if frames[k].cursor.End? then Over else From(frames[k].Low())
  }

  ghost predicate Simulates(kind: Kind, s: State, e: Ideal) {
    && e.live == Live(s.callbacks)
    && e.removal == s.removal && e.next == s.next && e.subs == s.subs && e.log == s.log
    && MarksAgree(s.frames, e.marks)
    && (s.frames == [] ==> !e.dirty)
    && (s.frames != [] && kind.Repeating? ==> (e.dirty <==> Live(s.callbacks) != Ids(s.callbacks)))
    && (s.frames != [] && kind.Once? && s.frames[0].visited != [] ==> e.dirty)
    && (s.frames != [] && (kind.Repeating? || s.frames[0].cursor.At?) ==> IsNewest(Ids(s.callbacks), e.newest))
  }

  lemma SimAdd(kind: Kind, s: State, e: Ideal, subscribed: bool)
    requires Inv(kind, s) && Simulates(kind, s, e)
    ensures Simulates(kind, Step(kind, s, Add(subscribed)), IdealStep(kind, e, Add(subscribed)))
  {
    hide FirstLive, Position, IndexOf, Erase, Reset, Prune, Ids, Live, Sorted;
    AppendSets(s.callbacks, s.next);
  }

  lemma DropMarks(frames: seq<Frame>, marks: seq<Mark>, id: nat)
    requires MarksAgree(frames, marks)
    ensures MarksAgree(Drop(frames, id), marks)
  {
    var r := Drop(frames, id);
    forall k | 0 <= k < |r| ensures r[k].Low() == frames[k].Low() && r[k].cursor == frames[k].cursor {}
  }

  lemma SimCancelActive(kind: Kind, s: State, e: Ideal, id: nat)
    requires Inv(kind, s) && Simulates(kind, s, e) && id in s.subs && s.frames != [] && id in Live(s.callbacks)
    ensures Simulates(kind, Step(kind, s, Cancel(id)), IdealStep(kind, e, Cancel(id)))
  {
    hide FirstLive, Position, IndexOf, Erase, Reset, Prune, Ids, Live, Sorted;
    NullIsNotLive(s, id);
    ResetSets(s.callbacks, id);
    DropMarks(s.frames, e.marks, id);
  }

  lemma SimCancel(kind: Kind, s: State, e: Ideal, id: nat)
    requires Inv(kind, s) && Simulates(kind, s, e) && id in s.subs
    ensures Simulates(kind, Step(kind, s, Cancel(id)), IdealStep(kind, e, Cancel(id)))
  {
    hide FirstLive, Position, IndexOf, Erase, Reset, Prune, Ids, Live, Sorted;
    NullIsNotLive(s, id);
    if id in Live(s.callbacks) && s.frames != [] {
      SimCancelActive(kind, s, e, id);
    } else if id in Live(s.callbacks) {
      EraseSets(s.callbacks, id);
    }
  }

  /** Both lists agree on whether the Notify is over once it has run the node at position i. */
  lemma OverAtNewest(nodes: seq<Node>, i: nat, newest: nat)
    requires Sorted(nodes) && i < |nodes| && IsNewest(Ids(nodes), newest)
    ensures CursorAt(nodes, i + 1).End? <==> nodes[i].id == newest
  {
    CursorSpec(nodes, i);
    SplitSets(nodes, i);
  }

  lemma SimRunAt(kind: Kind, s: State, e: Ideal, i: nat)
    requires s.frames != [] && i == FirstLive(s.callbacks, Position(s.callbacks, Top(s).cursor)) < |s.callbacks|
    requires Inv(kind, s) && Simulates(kind, s, e)
    ensures Top(s).cursor.At? && IsFirst(e.live, Top(s).Low(), s.callbacks[i].id)
    ensures Simulates(kind, RunAt(kind, s, i), IdealRun(kind, e, s.callbacks[i].id))
  {
    hide FirstLive, Position, IndexOf, Erase, Reset, Prune, Ids, Live, Sorted;
    var x := s.callbacks[i].id;
    assert FrameInv(Ids(s.callbacks), Live(s.callbacks), s.next, Top(s));
    NextSpec(s.callbacks, Top(s).cursor);
    RunAtSets(kind, s, i);
    OverAtNewest(s.callbacks, i, e.newest);
    var t, u := RunAt(kind, s, i), IdealRun(kind, e, x);
    assert Top(t).Low() == x + 1;
    assert MarksAgree(t.frames, u.marks);
  }

  lemma SimFinish(kind: Kind, s: State, e: Ideal)
    requires s.frames != [] && Inv(kind, s) && Turns(kind, s) && Simulates(kind, s, e)
    ensures Simulates(kind, Finish(kind, s), IdealFinish(e))
  {
    hide FirstLive, Position, IndexOf, Erase, Reset, Prune, Ids, Live, Sorted;
    PruneSets(s.callbacks);
    assert Top(s).saved == (|s.frames| > 1);
  }

  lemma FirstIsUnique(live: set<nat>, low: nat, x: nat)
    requires IsFirst(live, low, x)
    ensures forall y | IsFirst(live, low, y) :: y == x
  {}

  lemma SimContinue(kind: Kind, s: State, e: Ideal)
    requires s.frames != [] && Inv(kind, s) && Simulates(kind, s, e)
    requires Turns(kind, s) || FirstLive(s.callbacks, Position(s.callbacks, Top(s).cursor)) < |s.callbacks|
    ensures Simulates(kind, Continue(kind, s), IdealContinue(kind, e))
  {
    hide FirstLive, Position, IndexOf, Erase, Reset, Prune, Ids, Live, Sorted;
    var i := FirstLive(s.callbacks, Position(s.callbacks, Top(s).cursor));
    var m := e.marks[|e.marks| - 1];
    assert FrameInv(Ids(s.callbacks), Live(s.callbacks), s.next, Top(s));
    if i < |s.callbacks| {
      SimRunAt(kind, s, e, i);
      FirstIsUnique(e.live, m.low, s.callbacks[i].id);
    } else {
      NextSpec(s.callbacks, Top(s).cursor);
      SimFinish(kind, s, e);
    }
  }

  lemma SimPush(kind: Kind, s: State, e: Ideal, newest: nat)
    requires Inv(kind, s) && Simulates(kind, s, e) && Enabled(kind, s, Notify) && s.callbacks != []
    requires if e.marks == [] then IsNewest(e.live, newest) else newest == e.newest
    ensures Simulates(kind, Push(s), IdealPush(e, newest))
  {
    hide FirstLive, Position, IndexOf, Erase, Reset, Prune, Ids, Live, Sorted;
    var t := Push(s);
    assert Top(t).Low() == 0 && Top(t).cursor.At?;
    assert MarksAgree(t.frames, IdealPush(e, newest).marks);
  }

  lemma NotEmptyIsLive(nodes: seq<Node>)
    ensures Empty(nodes) <==> Live(nodes) == {}
  {
    forall id | id in Live(nodes) ensures !Empty(nodes) { InSets(nodes, id); }
    forall n | n in nodes && n.live ensures n.id in Live(nodes) {
      assert n == Node(n.id, true);
      InSets(nodes, n.id);
    }
  }

  lemma SimNotify(kind: Kind, s: State, e: Ideal)
    requires Inv(kind, s) && Turns(kind, s) && Simulates(kind, s, e) && Enabled(kind, s, Notify)
    ensures Simulates(kind, Step(kind, s, Notify), IdealStep(kind, e, Notify))
  {
    NotEmptyIsLive(s.callbacks);
    if !Empty(s.callbacks) {
      var newest := if e.marks == [] then Newest(e.live) else e.newest;
      PushKeeps(kind, s);
      FirstTurnRuns(kind, s);
      SimPush(kind, s, e, newest);
      SimContinue(kind, Push(s), IdealPush(e, newest));
    }
  }

  lemma SimStep(kind: Kind, s: State, e: Ideal, a: Action)
    requires Inv(kind, s) && Turns(kind, s) && Simulates(kind, s, e) && Enabled(kind, s, a)
    ensures IdealEnabled(kind, e, a) && Simulates(kind, Step(kind, s, a), IdealStep(kind, e, a))
  {
    match a
    case Add(subscribed) => SimAdd(kind, s, e, subscribed);
    case Cancel(id) => SimCancel(kind, s, e, id);
    case Notify => SimNotify(kind, s, e);
    case Return => SimContinue(kind, s, e);
    case SetRemoval(_) =>
  }

  lemma {:induction false} SimRun(kind: Kind, s: State, e: Ideal, run: seq<Action>)
    requires Inv(kind, s) && Turns(kind, s) && Simulates(kind, s, e) && CanRun(kind, s, run)
    ensures IdealCanRun(kind, e, run) && Simulates(kind, Run(kind, s, run), IdealExec(kind, e, run))
    decreases |run|
  {
    if run != [] {
      SimStep(kind, s, e, run[0]);
      StepKeeps(kind, s, run[0]);
      StepTurns(kind, s, run[0]);
      SimRun(kind, Step(kind, s, run[0]), IdealStep(kind, e, run[0]), run[1..]);
    }
  }

  /**
    For every interleaving of additions, cancellations and nested notifications, the list that only
    nulls cancelled callbacks and prunes them at the end invokes the same callbacks in the same order,
    and the removal callback at the same moments, as the ideal list that erases them at once.
   */
  lemma LazyDeletionRefinesEager(kind: Kind, run: seq<Action>)
    requires CanRun(kind, INIT, run)
    ensures IdealCanRun(kind, IDEAL_INIT, run)
    ensures Run(kind, INIT, run).log == IdealExec(kind, IDEAL_INIT, run).log
    ensures Live(Run(kind, INIT, run).callbacks) == IdealExec(kind, IDEAL_INIT, run).live
    ensures Empty(Run(kind, INIT, run).callbacks) <==> IdealExec(kind, IDEAL_INIT, run).live == {}
  {
    SimRun(kind, INIT, IDEAL_INIT, run);
    NotEmptyIsLive(Run(kind, INIT, run).callbacks);
  }

  lemma RunThree(kind: Kind, s: State, a: Action, b: Action, c: Action)
    requires Enabled(kind, s, a) && Enabled(kind, Step(kind, s, a), b)
    requires Enabled(kind, Step(kind, Step(kind, s, a), b), c)
    ensures CanRun(kind, s, [a, b, c])
    ensures Run(kind, s, [a, b, c]) == Step(kind, Step(kind, Step(kind, s, a), b), c)
  {
    RunCons(kind, Step(kind, Step(kind, s, a), b), c, []);
    RunCons(kind, Step(kind, s, a), b, [c]);
    RunCons(kind, s, a, [b, c]);
  }

  lemma NotifyVisitsFirst(s: State)
    requires s.callbacks != [] && s.callbacks[0].live
    ensures Step(Repeating, s, Notify) == s.(iterating := true, log := s.log + [Invoked(s.callbacks[0].id)],
              frames := s.frames + [Frame(CursorAt(s.callbacks, 1), s.iterating, s.next, Live(s.callbacks),
                                          [s.callbacks[0].id], {})])
  {
    assert s.callbacks[0] in s.callbacks;
    var t := Push(s);
    assert Position(t.callbacks, Top(t).cursor) == 0;
    var x := s.callbacks[0].id;
    assert [] + [x] == [x];
    assert RunAt(Repeating, t, 0).frames
      == s.frames + [Frame(CursorAt(s.callbacks, 1), s.iterating, s.next, Live(s.callbacks), [x], {})];
  }

  lemma ReturnVisitsLast(s: State, n: nat)
    requires Sorted(s.callbacks) && s.frames != []
    requires s.callbacks != [] && s.callbacks[|s.callbacks| - 1] == Node(n, true)
    requires Top(s).cursor.At? && |s.callbacks| >= 2 && s.callbacks[|s.callbacks| - 2] == Node(Top(s).cursor.id, false)
    ensures Step(Repeating, s, Return).log == s.log + [Invoked(n)]
  {
    var i := IndexOf(s.callbacks, Top(s).cursor.id);
    assert s.callbacks[|s.callbacks| - 2] in s.callbacks;
    assert i == |s.callbacks| - 2;
  }

  lemma TailStart() returns (s: State)
    ensures var run := [Add(true), Add(true), Notify, Cancel(1)];
      CanRun(Repeating, INIT, run) && Run(Repeating, INIT, run) == s
    ensures s.callbacks == [Node(0, true), Node(1, false)] && s.log == [Invoked(0)] && s.next == 2
  {
    var s1 := Step(Repeating, INIT, Add(true));
    var s2 := Step(Repeating, s1, Add(true));
    assert s2.callbacks == [Node(0, true), Node(1, true)];
    var s3 := Step(Repeating, s2, Notify);
    NotifyVisitsFirst(s2);
    assert s3.callbacks == s2.callbacks && 1 in s3.subs && s3.iterating;
    s := Step(Repeating, s3, Cancel(1));
    assert IndexOf(s3.callbacks[1..], 1) == 0;
    RunCons(Repeating, s3, Cancel(1), []);
    RunCons(Repeating, s2, Notify, [Cancel(1)]);
    RunCons(Repeating, s1, Add(true), [Notify, Cancel(1)]);
    RunCons(Repeating, INIT, Add(true), [Add(true), Notify, Cancel(1)]);
  }

  lemma NestedStart(s: State) returns (t: State)
    requires s.callbacks == [Node(0, true), Node(1, false)]
    ensures t == Step(Repeating, s, Notify)
    ensures t.frames != [] && Top(t).cursor == At(1)
    ensures t.callbacks == s.callbacks && t.next == s.next && t.log == s.log + [Invoked(0)]
  {
    t := Step(Repeating, s, Notify);
    NotifyVisitsFirst(s);
  }

  lemma AddedIsVisited(s: State)
    requires s.frames != [] && Top(s).cursor == At(1)
    requires s.callbacks == [Node(0, true), Node(1, false)] && s.next == 2
    ensures Enabled(Repeating, Step(Repeating, s, Add(true)), Return)
    ensures Step(Repeating, Step(Repeating, s, Add(true)), Return).log == s.log + [Invoked(2)]
  {
    var t := Step(Repeating, s, Add(true));
    assert t.callbacks == [Node(0, true), Node(1, false), Node(2, true)];
    ReturnVisitsLast(t, 2);
  }

  lemma TailRest(s: State)
    requires s.callbacks == [Node(0, true), Node(1, false)] && s.log == [Invoked(0)] && s.next == 2
    ensures var run := [Notify, Add(true), Return];
      CanRun(Repeating, s, run) && Run(Repeating, s, run).log == [Invoked(0), Invoked(0), Invoked(2)]
  {
    hide Step, Run, CanRun;
    var t := NestedStart(s);
    AddedIsVisited(t);
    RunThree(Repeating, s, Notify, Add(true), Return);
  }

  lemma TailWith()
    ensures var run := [Add(true), Add(true), Notify, Cancel(1), Notify, Add(true), Return];
      CanRun(Repeating, INIT, run) && Run(Repeating, INIT, run).log == [Invoked(0), Invoked(0), Invoked(2)]
  {
    var s := TailStart();
    TailRest(s);
    var head, rest := [Add(true), Add(true), Notify, Cancel(1)], [Notify, Add(true), Return];
    RunConcat(Repeating, INIT, head, rest);
    assert head + rest == [Add(true), Add(true), Notify, Cancel(1), Notify, Add(true), Return];
  }

  lemma NestedEnd(s: State)
    requires s.callbacks == [Node(0, true)] && s.frames == [] && !s.iterating
    ensures var t := Step(Repeating, Step(Repeating, s, Notify), Notify);
      t.log == s.log + [Invoked(0), Invoked(0)] && t.frames != [] && Top(t).cursor == End && Top(t).saved
  {
    var t := Step(Repeating, s, Notify);
    NotifyVisitsFirst(s);
    assert t.callbacks == s.callbacks && t.iterating;
    NotifyVisitsFirst(t);
  }

  lemma AddedIsMissed(s: State)
    requires s.frames != [] && Top(s).cursor == End && Top(s).saved
    ensures Enabled(Repeating, Step(Repeating, s, Add(true)), Return)
    ensures Step(Repeating, Step(Repeating, s, Add(true)), Return).log == s.log
  {}

  lemma TailWithout()
    ensures var run := [Add(true), Notify, Notify, Add(true), Return];
      CanRun(Repeating, INIT, run) && Run(Repeating, INIT, run).log == [Invoked(0), Invoked(0)]
  {
    var s := Step(Repeating, INIT, Add(true));
    assert s.callbacks == [Node(0, true)] && s.frames == [] && !s.iterating && s.log == [];
    WithoutRest(s);
    RunCons(Repeating, INIT, Add(true), [Notify, Notify, Add(true), Return]);
  }

  lemma WithoutRest(s: State)
    requires s.callbacks == [Node(0, true)] && s.frames == [] && !s.iterating && s.log == []
    ensures var run := [Notify, Notify, Add(true), Return];
      CanRun(Repeating, s, run) && Run(Repeating, s, run).log == [Invoked(0), Invoked(0)]
  {
    hide Step, Run, CanRun;
    NestedEnd(s);
    var t := Step(Repeating, s, Notify);
    AddedIsMissed(Step(Repeating, t, Notify));
    RunThree(Repeating, t, Notify, Add(true), Return);
    RunCons(Repeating, s, Notify, [Notify, Add(true), Return]);
    assert [Notify] + [Notify, Add(true), Return] == [Notify, Notify, Add(true), Return];
  }

  /**
    Two runs in which a nested Notify runs the newest callback still registered, 0, and an addition
    follows. They differ only in callback 1, cancelled before the nested Notify began in the one and
    never registered in the other. Its tombstone keeps the nested Notify going in the first run alone.
   */
  lemma TombstoneTailIsObservable()
    ensures var with := [Add(true), Add(true), Notify, Cancel(1), Notify, Add(true), Return];
      CanRun(Repeating, INIT, with) && Run(Repeating, INIT, with).log == [Invoked(0), Invoked(0), Invoked(2)]
    ensures var without := [Add(true), Notify, Notify, Add(true), Return];
      CanRun(Repeating, INIT, without) && Run(Repeating, INIT, without).log == [Invoked(0), Invoked(0)]
  {
    TailWith();
    TailWithout();
  }
}
