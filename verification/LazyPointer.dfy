/**
  Lock-free lazy creation: GetOrCreateLazyPointer of webrtc/include/base/lazy_instance_helpers.h, run
  by any number of threads over one atomic word, in any interleaving of their atomic steps.
  NeedsLazyInstance and CompleteLazyInstance stand for their documented contracts: a compare-and-swap
  that elects the creator, a wait while the word says "creating", and one store.
 */
module LazyPointer {

  const UNINITIALIZED := 0
  const CREATING := 1

  /** Any bit of kLazyInstanceCreatedMask is set. */
  predicate IsCreated(word: int) {
    word != UNINITIALIZED && word != CREATING
  }

  /** Where a thread is in GetOrCreateLazyPointer. */
  datatype Pc = Entry | Electing | Creator | Storing(instance: int) | Waiting | Reloading | Returned(result: int)

  datatype State = State(word: int, threads: seq<Pc>, creations: nat, checkFailed: bool)

  function Init(n: nat): State {
    State(UNINITIALIZED, seq(n, _ => Entry), 0, false)
  }

  predicate Enabled(s: State, t: nat) {
    && t < |s.threads| && !s.threads[t].Returned?
    && (s.threads[t].Waiting? ==> s.word != CREATING)
  }

  /** One atomic step of thread t. `made` is what creator_func returns, should this step call it. */
  function Step(s: State, t: nat, made: int): State
    requires Enabled(s, t)
  {
    match s.threads[t]
    case Entry =>
      s.(threads := s.threads[t := if IsCreated(s.word) then Returned(s.word) else Electing])
    case Electing =>
      if s.word == UNINITIALIZED then s.(word := CREATING, threads := s.threads[t := Creator])
      else s.(threads := s.threads[t := Waiting])
    case Creator => s.(creations := s.creations + 1, threads := s.threads[t := Storing(made)])
    case Storing(instance) => s.(word := instance, threads := s.threads[t := Returned(instance)])
    case Waiting => s.(threads := s.threads[t := Reloading])
    case Reloading =>
      s.(checkFailed := s.checkFailed || !IsCreated(s.word), threads := s.threads[t := Returned(s.word)])
  }

  datatype Move = Move(thread: nat, made: int)

  predicate CanRun(s: State, run: seq<Move>)
    decreases |run|
  {
    run == [] || (Enabled(s, run[0].thread) && CanRun(Step(s, run[0].thread, run[0].made), run[1..]))
  }

  function Run(s: State, run: seq<Move>): State
    requires CanRun(s, run)
    decreases |run|
  {
    if run == [] then s else Run(Step(s, run[0].thread, run[0].made), run[1..])
  }

  // ---------------------------------------------------------------- safety

  predicate InCharge(pc: Pc) {
    pc.Creator? || pc.Storing?
  }

  /** The word says whether nobody, one thread, or nobody any more is creating the instance. */
  predicate Inv(s: State) {
    && !s.checkFailed
    && (forall t, u :: 0 <= t < u < |s.threads| ==> !(InCharge(s.threads[t]) && InCharge(s.threads[u])))
    && ((exists t :: 0 <= t < |s.threads| && InCharge(s.threads[t])) <==> s.word == CREATING)
    && (forall t :: 0 <= t < |s.threads| ==>
          match s.threads[t]
          case Creator => s.creations == 0
          case Storing(v) => s.creations == 1 && IsCreated(v)
          case Waiting => s.word != UNINITIALIZED
          case Reloading => IsCreated(s.word)
          case Returned(v) => IsCreated(s.word) && v == s.word
          case _ => true)
    && (s.word == UNINITIALIZED ==> s.creations == 0)
    && (IsCreated(s.word) ==> s.creations == 1)
    && s.creations <= 1
  }

  lemma StepKeeps(s: State, t: nat, made: int)
    requires Inv(s) && Enabled(s, t) && IsCreated(made)
    ensures Inv(Step(s, t, made))
  {
    var r := Step(s, t, made);
    if s.word == CREATING && r.word == CREATING {
      var u :| 0 <= u < |s.threads| && InCharge(s.threads[u]);
      assert InCharge(r.threads[u]);
    }
    if s.threads[t].Electing? && s.word == UNINITIALIZED { assert InCharge(r.threads[t]); }
  }

  lemma {:induction false} RunKeeps(s: State, run: seq<Move>)
    requires Inv(s) && CanRun(s, run) && forall m | m in run :: IsCreated(m.made)
    ensures Inv(Run(s, run))
    decreases |run|
  {
    if run != [] {
      assert run[0] in run;
      StepKeeps(s, run[0].thread, run[0].made);
      forall m | m in run[1..] ensures IsCreated(m.made) { assert m in run; }
      RunKeeps(Step(s, run[0].thread, run[0].made), run[1..]);
    }
  }

  /**
    For any number of threads and any interleaving: the creator runs at most once, and exactly once if
    any call has returned; all calls return the same pointer, which is the one in the word; and the
    check at line 91 never fails.
   */
  lemma Linearizable(n: nat, run: seq<Move>)
    requires CanRun(Init(n), run) && forall m | m in run :: IsCreated(m.made)
    ensures var s := Run(Init(n), run);
      && s.creations <= 1
      && !s.checkFailed
      && forall t :: 0 <= t < |s.threads| && s.threads[t].Returned? ==>
           s.creations == 1 && s.threads[t].result == s.word && IsCreated(s.word)
  {
    RunKeeps(Init(n), run);
  }

  // ---------------------------------------------------------------- which pointer

  /** What creator_func returned in the run, each time it was called. */
  function Made(s: State, run: seq<Move>): seq<int>
    requires CanRun(s, run)
    decreases |run|
  {
    if run == [] then []
    else
      var m := run[0];
      (if s.threads[m.thread].Creator? then [m.made] else []) + Made(Step(s, m.thread, m.made), run[1..])
  }

  /** The pointer being stored, and the one in the word, is what creator_func returned. */
  predicate Holds(s: State, made: seq<int>) {
    && (s.creations == 0 ==> made == [])
    && (forall t :: 0 <= t < |s.threads| && s.threads[t].Storing? ==> made == [s.threads[t].instance])
    && (IsCreated(s.word) ==> made == [s.word])
  }

  lemma StepHolds(s: State, t: nat, made: int, before: seq<int>)
    requires Inv(s) && Holds(s, before) && Enabled(s, t) && IsCreated(made)
    ensures Holds(Step(s, t, made), before + (if s.threads[t].Creator? then [made] else []))
  {
    assert before + [] == before && [] + [made] == [made];
  }

  lemma {:induction false} RunHolds(s: State, run: seq<Move>, before: seq<int>)
    requires Inv(s) && Holds(s, before) && CanRun(s, run) && forall m | m in run :: IsCreated(m.made)
    ensures Inv(Run(s, run)) && Holds(Run(s, run), before + Made(s, run))
    decreases |run|
  {
    hide Inv, Holds, Step;
    if run == [] {
      assert before + [] == before;
    } else {
      var m := run[0];
      assert m in run;
      var called := if s.threads[m.thread].Creator? then [m.made] else [];
      StepKeeps(s, m.thread, m.made);
      StepHolds(s, m.thread, m.made, before);
      forall k | k in run[1..] ensures IsCreated(k.made) { assert k in run; }
      RunHolds(Step(s, m.thread, m.made), run[1..], before + called);
      assert before + called + Made(Step(s, m.thread, m.made), run[1..]) == before + Made(s, run);
    }
  }

  /**
    Every call returns the pointer that the one call of creator_func made: if any thread has returned,
    creator_func was called once in the run, and what it returned then is the result.
   */
  lemma ReturnsWhatWasCreated(n: nat, run: seq<Move>)
    requires CanRun(Init(n), run) && forall m | m in run :: IsCreated(m.made)
    ensures var s := Run(Init(n), run);
      forall t :: 0 <= t < |s.threads| && s.threads[t].Returned? ==> Made(Init(n), run) == [s.threads[t].result]
  {
    RunHolds(Init(n), run, []);
    assert [] + Made(Init(n), run) == Made(Init(n), run);
  }

  // ---------------------------------------------------------------- progress

  function Ahead(pc: Pc): nat {
    match pc
    case Entry => 5
    case Electing => 4
    case Creator => 2
    case Storing(_) => 1
    case Waiting => 2
    case Reloading => 1
    case Returned(_) => 0
  }

  function Work(threads: seq<Pc>): nat {
    if threads == [] then 0 else Ahead(threads[0]) + Work(threads[1..])
  }

  lemma {:induction false} WorkUpdate(threads: seq<Pc>, t: nat, pc: Pc)
    requires t < |threads|
    ensures Work(threads[t := pc]) == Work(threads) - Ahead(threads[t]) + Ahead(pc)
  {
    if t > 0 {
      assert threads[t := pc][1..] == threads[1..][t - 1 := pc];
      WorkUpdate(threads[1..], t - 1, pc);
    } else {
      assert threads[t := pc][1..] == threads[1..];
    }
  }

  lemma {:induction false} WorkOfEntry(n: nat)
    ensures Work(seq(n, _ => Entry)) == 5 * n
  {
    if n > 0 {
      assert seq(n, _ => Entry)[1..] == seq(n - 1, _ => Entry);
      WorkOfEntry(n - 1);
    }
  }

  lemma StepWorks(s: State, t: nat, made: int)
    requires Enabled(s, t)
    ensures Work(Step(s, t, made).threads) < Work(s.threads)
    ensures |Step(s, t, made).threads| == |s.threads|
  {
    WorkUpdate(s.threads, t, Step(s, t, made).threads[t]);
  }

  lemma {:induction false} RunWorks(s: State, run: seq<Move>)
    requires CanRun(s, run)
    ensures Work(Run(s, run).threads) + |run| <= Work(s.threads)
    ensures |Run(s, run).threads| == |s.threads|
    decreases |run|
  {
    if run != [] {
      StepWorks(s, run[0].thread, run[0].made);
      RunWorks(Step(s, run[0].thread, run[0].made), run[1..]);
    }
  }

  /**
    Every run takes at most five steps a thread, and it can only stop when every call has returned:
    no interleaving deadlocks or goes on for ever.
   */
  lemma EveryCallReturns(n: nat, run: seq<Move>)
    requires CanRun(Init(n), run) && forall m | m in run :: IsCreated(m.made)
    ensures |run| <= 5 * n && |Run(Init(n), run).threads| == n
    ensures var s := Run(Init(n), run);
      (forall t :: 0 <= t < n ==> !Enabled(s, t)) ==> forall t :: 0 <= t < n ==> s.threads[t].Returned?
  {
    WorkOfEntry(n);
    RunWorks(Init(n), run);
    RunKeeps(Init(n), run);
    var s := Run(Init(n), run);
    if s.word == CREATING {
      var u :| 0 <= u < n && InCharge(s.threads[u]);
      assert Enabled(s, u);
    }
    forall t | 0 <= t < n && !Enabled(s, t) && s.word != CREATING ensures s.threads[t].Returned? {}
  }

  // ---------------------------------------------------------------- the null creator

  /**
    The header also lets creator_func return null. With a second thread that breaks the check at line 91:
    the loser of the race waits until the word no longer says "creating", and then reads null from it.
   */
  lemma NullCreatorFailsTheCheck(n: nat) returns (run: seq<Move>)
    requires n >= 2
    ensures CanRun(Init(n), run) && AllMade(run, 0)
    ensures Run(Init(n), run).checkFailed
  {
    var a, b := Move(0, 0), Move(1, 0);
    var s0 := Init(n);
    var s1 := Next(s0, a, Electing);
    var s2 := Next(s1, a, Creator);
    var s3 := Next(s2, b, Electing);
    var s4 := Next(s3, b, Waiting);
    var s5 := Next(s4, a, Storing(0));
    var s6 := Next(s5, a, Returned(0));
    var s7 := Next(s6, b, Reloading);
    var s8 := Next(s7, b, Returned(0));
    assert s8.checkFailed;
    hide Step;
    run := Then(s7, b, s8, []);
    run := Then(s6, b, s7, run);
    run := Then(s5, a, s6, run);
    run := Then(s4, a, s5, run);
    run := Then(s3, b, s4, run);
    run := Then(s2, b, s3, run);
    run := Then(s1, a, s2, run);
    run := Then(s0, a, s1, run);
  }

  /** A step of one of the first two threads that takes it to `pc`. */
  lemma Next(s: State, m: Move, pc: Pc) returns (t: State)
    requires |s.threads| >= 2 && m.thread < 2 && Enabled(s, m.thread)
    requires Step(s, m.thread, m.made).threads[m.thread] == pc
    ensures t == Step(s, m.thread, m.made)
    ensures |t.threads| == |s.threads|
    ensures t.threads[m.thread] == pc && t.threads[1 - m.thread] == s.threads[1 - m.thread]
  {
    t := Step(s, m.thread, m.made);
  }

  lemma Then(s: State, m: Move, t: State, rest: seq<Move>) returns (run: seq<Move>)
    requires Enabled(s, m.thread) && Step(s, m.thread, m.made) == t && CanRun(t, rest)
    requires m.made == 0 && AllMade(rest, 0)
    ensures run == [m] + rest && CanRun(s, run) && Run(s, run) == Run(t, rest) && AllMade(run, 0)
  {
    run := [m] + rest;
    assert run[1..] == rest;
  }

  /** While no null is created, a thread that reloads the word finds it past "creating". */
  predicate NeverNull(s: State) {
    && !s.checkFailed
    && (forall t, u :: 0 <= t < u < |s.threads| ==> !(InCharge(s.threads[t]) && InCharge(s.threads[u])))
    && (forall t :: 0 <= t < |s.threads| ==>
          match s.threads[t]
          case Creator => s.word == CREATING
          case Storing(v) => s.word == CREATING && v != 0
          case Waiting => s.word != UNINITIALIZED
          case Reloading => IsCreated(s.word)
          case _ => true)
  }

  lemma {:induction false} NonNullRunKeeps(s: State, run: seq<Move>)
    requires NeverNull(s) && CanRun(s, run) && forall m | m in run :: m.made != 0
    ensures NeverNull(Run(s, run))
    decreases |run|
  {
    if run != [] {
      assert run[0] in run;
      forall m | m in run[1..] ensures m.made != 0 { assert m in run; }
      NonNullRunKeeps(Step(s, run[0].thread, run[0].made), run[1..]);
    }
  }

  /** A thread on its own is never the loser of a race. */
  predicate Alone(s: State) {
    && !s.checkFailed && |s.threads| <= 1
    && forall t :: 0 <= t < |s.threads| ==>
         !s.threads[t].Waiting? && !s.threads[t].Reloading? && (s.threads[t].Electing? ==> s.word == UNINITIALIZED)
         && (s.threads[t].Entry? ==> s.word == UNINITIALIZED)
  }

  lemma {:induction false} AloneRunKeeps(s: State, run: seq<Move>)
    requires Alone(s) && CanRun(s, run)
    ensures Alone(Run(s, run))
    decreases |run|
  {
    if run != [] { AloneRunKeeps(Step(s, run[0].thread, run[0].made), run[1..]); }
  }

  predicate AllMade(run: seq<Move>, made: int) {
    forall m | m in run :: m.made == made
  }

  /** The check at line 91 can fail exactly if there is a second thread and creator_func returns null. */
  lemma CheckFailsIffNull(n: nat, made: int)
    ensures (exists run :: CanRun(Init(n), run) && AllMade(run, made) && Run(Init(n), run).checkFailed)
       <==> n >= 2 && made == 0
  {
    if n >= 2 && made == 0 {
      var run := NullCreatorFailsTheCheck(n);
      assert AllMade(run, made);
    } else {
      forall run | CanRun(Init(n), run) && AllMade(run, made) ensures !Run(Init(n), run).checkFailed {
        if made == 0 { AloneRunKeeps(Init(n), run); } else { NonNullRunKeeps(Init(n), run); }
      }
    }
  }

  // ---------------------------------------------------------------- the shared word as an object

  /** The word and the threads that use it; each call of Advance is one atomic step of one of them. */
  class LazyInstance {
    var state: int
    var threads: seq<Pc>
    ghost var creations: nat
    ghost var checkFailed: bool

    ghost function Spec(): State
      reads this
    {
      State(state, threads, creations, checkFailed)
    }

    constructor (n: nat)
      ensures Spec() == Init(n) && Inv(Spec())
    {
      state, threads, creations, checkFailed := UNINITIALIZED, seq(n, _ => Entry), 0, false;
    }

    method Advance(t: nat, made: int)
      requires Enabled(Spec(), t)
      modifies this
      ensures Spec() == Step(old(Spec()), t, made)
      ensures old(Inv(Spec())) && IsCreated(made) ==> Inv(Spec()) && !checkFailed
    {
      if Inv(Spec()) && IsCreated(made) { StepKeeps(Spec(), t, made); }
      match threads[t]
      case Entry =>
        var instance := state;
        threads := threads[t := if IsCreated(instance) then Returned(instance) else Electing];
      case Electing =>
        if state == UNINITIALIZED {
          state := CREATING;
          threads := threads[t := Creator];
        } else {
          threads := threads[t := Waiting];
        }
      case Creator =>
        creations := creations + 1;
        threads := threads[t := Storing(made)];
      case Storing(instance) =>
        state := instance;
        threads := threads[t := Returned(instance)];
      case Waiting =>
        threads := threads[t := Reloading];
      case Reloading =>
        var instance := state;
        checkFailed := checkFailed || !IsCreated(instance);       // the check at line 91
        threads := threads[t := Returned(instance)];
    }
  }
}
