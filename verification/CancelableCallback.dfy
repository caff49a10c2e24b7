/**
  CancelableCallbackImpl of webrtc/include/base/cancelable_callback.h. A forwarder does not carry the
  wrapped callback: it holds a weak pointer to the object and runs whatever the object wraps when it is
  called. Weak pointers are valid while their generation is the object's; InvalidateWeakPtrs starts the
  next generation.

  A wrapped callback may itself reset, cancel or destroy the object. Both forwarding methods change the
  object before they run the callback and not after, so such nested calls are the actions that follow.
 */
module CancelableCallback {

  datatype Kind = Once | Repeating

  /** A OnceCallback or RepeatingCallback, possibly null. */
  datatype Callback = Null | To(id: nat)

  /** `spent` is set when a once-forwarder has been run: it cannot be run again. */
  datatype Forwarder = Forwarder(generation: nat, spent: bool)

  /** `invoked` is what the last action ran; `crashed`, that a null callback was run. */
  datatype State = State(kind: Kind, alive: bool, callback: Callback, generation: nat,
                         forwarders: seq<Forwarder>, invoked: Callback, crashed: bool)

  datatype Action = Reset(id: nat) | Cancel | Issue | RunForwarder(f: nat) | Destroy

  /** The default constructor, and the one that takes a callback. */
  function Init(kind: Kind, callback: Callback): State {
    State(kind, true, callback, 0, [], Null, false)
  }

  predicate CanDo(s: State, a: Action) {
    match a
    case RunForwarder(f) => f < |s.forwarders| && !s.forwarders[f].spent
    case _ => s.alive
  }

  function Cancelled(s: State): State {
    s.(generation := s.generation + 1, callback := Null, invoked := Null)
  }

  predicate WeakPointerValid(s: State, f: nat)
    requires f < |s.forwarders|
  {
    s.alive && s.forwarders[f].generation == s.generation
  }

  function Step(s: State, a: Action): State
    requires CanDo(s, a)
  {
    match a
    case Cancel => Cancelled(s)
    case Reset(id) => Cancelled(s).(callback := To(id))
    case Issue =>
      if s.callback.Null? then s.(invoked := Null)
      else s.(forwarders := s.forwarders + [Forwarder(s.generation, false)], invoked := Null)
    case Destroy => Cancelled(s).(alive := false)
    case RunForwarder(f) =>
      var s1 := if s.kind.Once? then s.(forwarders := s.forwarders[f := s.forwarders[f].(spent := true)]) else s;
      if !WeakPointerValid(s, f) then s1.(invoked := Null)
      else
        var s2 := s1.(crashed := s1.crashed || s1.callback.Null?, invoked := s1.callback);
        if s.kind.Once? then s2.(generation := s2.generation + 1, callback := Null) else s2
  }

  predicate CanRun(s: State, run: seq<Action>)
    decreases |run|
  {
    run == [] || (CanDo(s, run[0]) && CanRun(Step(s, run[0]), run[1..]))
  }

  function Run(s: State, run: seq<Action>): State
    requires CanRun(s, run)
    decreases |run|
  {
    if run == [] then s else Run(Step(s, run[0]), run[1..])
  }

  // ---------------------------------------------------------------- the invariant

  /** No forwarder is newer than the object, and a current one finds a callback to run. */
  predicate Inv(s: State) {
    && !s.crashed
    && forall f :: 0 <= f < |s.forwarders| ==>
         s.forwarders[f].generation <= s.generation && (WeakPointerValid(s, f) ==> s.callback.To?)
  }

  lemma StepKeeps(s: State, a: Action)
    requires Inv(s) && CanDo(s, a)
    ensures Inv(Step(s, a))
  {
    var r := Step(s, a);
    forall f | 0 <= f < |r.forwarders| && f < |s.forwarders|
      ensures r.forwarders[f].generation == s.forwarders[f].generation {}
  }

  lemma {:induction false} RunKeeps(s: State, run: seq<Action>)
    requires Inv(s) && CanRun(s, run)
    ensures Inv(Run(s, run))
    decreases |run|
  {
    if run != [] {
      StepKeeps(s, run[0]);
      RunKeeps(Step(s, run[0]), run[1..]);
    }
  }

  /** No run ever calls a null callback. */
  lemma NeverRunsNull(kind: Kind, callback: Callback, run: seq<Action>)
    requires CanRun(Init(kind, callback), run)
    ensures !Run(Init(kind, callback), run).crashed
  {
    RunKeeps(Init(kind, callback), run);
  }

  // ---------------------------------------------------------------- when a forwarder runs, and what

  /** The action cancels every outstanding forwarder: Reset, Cancel, destruction, or a once-forwarder that ran. */
  predicate Invalidates(s: State, a: Action)
    requires CanDo(s, a)
  {
    a.Reset? || a.Cancel? || a.Destroy? || (s.kind.Once? && Step(s, a).invoked.To?)
  }

  predicate Quiet(s: State, run: seq<Action>)
    requires CanRun(s, run)
    decreases |run|
  {
    run == [] || (!Invalidates(s, run[0]) && Quiet(Step(s, run[0]), run[1..]))
  }

  /**
    A forwarder stays current through a quiet run, and the wrapped callback stays the same; otherwise it
    is stale for good.
   */
  lemma {:induction false} ForwarderFate(s: State, run: seq<Action>, f: nat)
    requires Inv(s) && CanRun(s, run) && f < |s.forwarders|
    ensures var t := Run(s, run);
      && f < |t.forwarders| && t.kind == s.kind
      && (WeakPointerValid(t, f) <==> WeakPointerValid(s, f) && Quiet(s, run))
      && (Quiet(s, run) ==> t.callback == s.callback)
    decreases |run|
  {
    if run != [] {
      StepKeeps(s, run[0]);
      StepFate(s, run[0], f);
      ForwarderFate(Step(s, run[0]), run[1..], f);
    }
  }

  lemma StepFate(s: State, a: Action, f: nat)
    requires Inv(s) && CanDo(s, a) && f < |s.forwarders|
    ensures var t := Step(s, a);
      && f < |t.forwarders| && t.kind == s.kind
      && (WeakPointerValid(t, f) <==> WeakPointerValid(s, f) && !Invalidates(s, a))
      && (!Invalidates(s, a) ==> t.callback == s.callback)
  {}

  /**
    After any history, a forwarder issued now and run after any further actions invokes a callback
    exactly if none of these invalidated it, and then the callback that was wrapped when it was issued.
   */
  lemma ForwarderRunsIff(kind: Kind, callback: Callback, before: seq<Action>, between: seq<Action>)
    requires CanRun(Init(kind, callback), before)
    requires var s := Run(Init(kind, callback), before);
      && s.callback.To? && CanDo(s, Issue) && CanRun(Step(s, Issue), between)
      && CanDo(Run(Step(s, Issue), between), RunForwarder(|s.forwarders|))
    ensures var s := Run(Init(kind, callback), before); var s1 := Step(s, Issue);
      Step(Run(s1, between), RunForwarder(|s.forwarders|)).invoked == if Quiet(s1, between) then s.callback else Null
  {
    RunKeeps(Init(kind, callback), before);
    var s := Run(Init(kind, callback), before);
    StepKeeps(s, Issue);
    ForwarderFate(Step(s, Issue), between, |s.forwarders|);
  }

  lemma {:induction false} SpentIff(s: State, run: seq<Action>, f: nat)
    requires CanRun(s, run) && f < |s.forwarders|
    ensures var t := Run(s, run);
      f < |t.forwarders|
      && (t.forwarders[f].spent <==> s.forwarders[f].spent || (s.kind.Once? && RunForwarder(f) in run))
    decreases |run|
  {
    if run != [] {
      SpentIff(Step(s, run[0]), run[1..], f);
      assert run == [run[0]] + run[1..];
    }
  }

  /** A forwarder can be run once it is issued: as often as one likes, or once if it is a once-callback. */
  lemma ForwarderCanRunIff(kind: Kind, callback: Callback, before: seq<Action>, between: seq<Action>)
    requires CanRun(Init(kind, callback), before)
    requires var s := Run(Init(kind, callback), before);
      s.callback.To? && CanDo(s, Issue) && CanRun(Step(s, Issue), between)
    ensures var s := Run(Init(kind, callback), before); var run := RunForwarder(|s.forwarders|);
      CanDo(Run(Step(s, Issue), between), run) <==> kind.Repeating? || run !in between
  {
    KindStays(Init(kind, callback), before);
    var s := Run(Init(kind, callback), before);
    SpentIff(Step(s, Issue), between, |s.forwarders|);
  }

  // ---------------------------------------------------------------- what is wrapped

  /** The callback of the last Reset, unless a Cancel, destruction or completed once-run came after it. */
  function Installed(s: State, run: seq<Action>, current: Callback): Callback
    requires CanRun(s, run)
    decreases |run|
  {
    if run == [] then current
    else Installed(Step(s, run[0]), run[1..],
                   if run[0].Reset? then To(run[0].id) else if Invalidates(s, run[0]) then Null else current)
  }

  lemma {:induction false} WrappedIsInstalled(s: State, run: seq<Action>)
    requires CanRun(s, run)
    ensures Run(s, run).callback == Installed(s, run, s.callback)
    decreases |run|
  {
    if run != [] { WrappedIsInstalled(Step(s, run[0]), run[1..]); }
  }

  /** From the constructor on: what it was given is wrapped until something else happens to it. */
  lemma WrappedFromStart(kind: Kind, callback: Callback, run: seq<Action>)
    requires CanRun(Init(kind, callback), run)
    ensures Run(Init(kind, callback), run).callback == Installed(Init(kind, callback), run, callback)
  {
    WrappedIsInstalled(Init(kind, callback), run);
  }

  predicate NoReset(run: seq<Action>) {
    forall a | a in run :: !a.Reset?
  }

  /** Once the object wraps nothing - cancelled, destroyed, or its once-callback run - nothing runs before a Reset. */
  lemma {:induction false} NothingRunsUntilReset(s: State, run: seq<Action>)
    requires Inv(s) && CanRun(s, run) && s.callback.Null? && NoReset(run) && run != []
    ensures Run(s, run).callback.Null? && Run(s, run).invoked.Null?
    decreases |run|
  {
    StepKeeps(s, run[0]);
    assert run[0] in run;
    var t := Step(s, run[0]);
    if |run| > 1 {
      forall a | a in run[1..] ensures !a.Reset? { assert a in run; }
      NothingRunsUntilReset(t, run[1..]);
    }
  }

  /** After its destruction the object lets nothing run any more. */
  lemma DestroyedRunsNothing(kind: Kind, callback: Callback, before: seq<Action>, after: seq<Action>)
    requires CanRun(Init(kind, callback), before) && CanDo(Run(Init(kind, callback), before), Destroy)
    requires after != [] && CanRun(Step(Run(Init(kind, callback), before), Destroy), after)
    ensures Run(Step(Run(Init(kind, callback), before), Destroy), after).invoked.Null?
  {
    RunKeeps(Init(kind, callback), before);
    var s := Run(Init(kind, callback), before);
    StepKeeps(s, Destroy);
    OnlyForwarders(Step(s, Destroy), after);
    NothingRunsUntilReset(Step(s, Destroy), after);
  }

  lemma {:induction false} OnlyForwarders(s: State, run: seq<Action>)
    requires CanRun(s, run) && !s.alive
    ensures NoReset(run)
    decreases |run|
  {
    if run != [] {
      OnlyForwarders(Step(s, run[0]), run[1..]);
      assert run == [run[0]] + run[1..];
    }
  }

  /** Between two runs of a once-callback's forwarders there is a Reset: one generation runs at most once. */
  lemma OnceRunsOncePerReset(callback: Callback, before: seq<Action>, a: Action, between: seq<Action>)
    requires CanRun(Init(Once, callback), before)
    requires var s := Run(Init(Once, callback), before);
      CanDo(s, a) && Step(s, a).invoked.To? && between != [] && CanRun(Step(s, a), between)
      && Run(Step(s, a), between).invoked.To?
    ensures !NoReset(between)
  {
    RunKeeps(Init(Once, callback), before);
    var s := Run(Init(Once, callback), before);
    KindStays(Init(Once, callback), before);
    StepKeeps(s, a);
    if NoReset(between) { NothingRunsUntilReset(Step(s, a), between); }
  }

  lemma {:induction false} KindStays(s: State, run: seq<Action>)
    requires CanRun(s, run)
    ensures Run(s, run).kind == s.kind
    decreases |run|
  {
    if run != [] { KindStays(Step(s, run[0]), run[1..]); }
  }

  // ---------------------------------------------------------------- the object

  class CancelableCallbackImpl {
    const kind: Kind
    var alive: bool
    var wrapped: Callback
    var generation: nat                    // weak_ptr_factory_
    var forwarders: seq<Forwarder>         // what callback() has given out

    function Spec(): State
      reads this
    {
      State(kind, alive, wrapped, generation, forwarders, Null, false)
    }

    ghost predicate Valid()
      reads this
    {
      Inv(Spec())
    }

    constructor (kind: Kind, callback: Callback)
      ensures Valid() && Spec() == Init(kind, callback)
    {
      this.kind, alive, wrapped, generation, forwarders := kind, true, callback, 0, [];
    }

    method InvalidateWeakPtrs()
      modifies this`generation
      ensures generation == old(generation) + 1
    {
      generation := generation + 1;
    }

    method Cancel()
      requires Valid() && alive
      modifies this`generation, this`wrapped
      ensures Valid() && Spec() == Step(old(Spec()), Action.Cancel)
    {
      InvalidateWeakPtrs();
      wrapped := Null;
    }

    method Reset(id: nat)
      requires Valid() && alive
      modifies this`generation, this`wrapped
      ensures Valid() && Spec() == Step(old(Spec()), Action.Reset(id))
    {
      Cancel();
      wrapped := To(id);
    }

    /** The destructor, which destroys the weak pointer factory. */
    method Destroy()
      requires Valid() && alive
      modifies this`generation, this`wrapped, this`alive
      ensures Valid() && Spec() == Step(old(Spec()), Action.Destroy)
    {
      Cancel();
      alive := false;
    }

    method IsCancelled() returns (r: bool)
      requires Valid()
      ensures r <==> wrapped.Null?
      ensures r ==> forall f | 0 <= f < |forwarders| :: !WeakPointerValid(Spec(), f)
    {
      r := wrapped.Null?;
    }

    /** callback(): a forwarder bound to a weak pointer, or a null callback. */
    method MakeForwarder() returns (f: nat, isNull: bool)
      requires Valid() && alive
      modifies this`forwarders
      ensures Valid() && Spec() == Step(old(Spec()), Issue)
      ensures isNull <==> wrapped.Null?
      ensures !isNull ==> f == old(|forwarders|) && WeakPointerValid(Spec(), f)
    {
      f, isNull := |forwarders|, wrapped.Null?;
      if isNull { return; }
      forwarders := forwarders + [Forwarder(generation, false)];
    }

    method ForwardOnce() returns (ran: Callback)
      requires wrapped.To?
      modifies this`generation, this`wrapped
      ensures ran == old(wrapped) && wrapped == Null && generation == old(generation) + 1
    {
      InvalidateWeakPtrs();
      ran := wrapped;
      wrapped := Null;
    }

    method ForwardRepeating() returns (ran: Callback)
      requires wrapped.To?
      ensures ran == wrapped
    {
      ran := wrapped;
    }

    /** Run a forwarder: a call bound to a weak pointer is dropped when the pointer is no longer valid. */
    method RunForwarder(f: nat) returns (ran: Callback)
      requires Valid() && CanDo(Spec(), Action.RunForwarder(f))
      modifies this`generation, this`wrapped, this`forwarders
      ensures Valid()
      ensures var r := Step(old(Spec()), Action.RunForwarder(f)); ran == r.invoked && Spec() == r.(invoked := Null)
    {
      StepKeeps(Spec(), Action.RunForwarder(f));
      ran := Null;
      var valid := alive && forwarders[f].generation == generation;
      if kind.Once? {
        forwarders := forwarders[f := forwarders[f].(spent := true)];
        if valid { ran := ForwardOnce(); }
      } else if valid {
        ran := ForwardRepeating();
      }
    }
  }
}
