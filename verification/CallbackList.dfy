/**
  The re-entrant callback list of webrtc/include/base/callback_list.h as a small-step machine.

  A std::list node is modelled by its identity (the registration number it got from Add) and by
  whether it still holds a callback. Iterators are node identities, so a dangling iterator is
  expressible and has to be proved impossible. One `Action` is one thing that running user code can
  do to the list: call a public member, destroy a subscription, or return from the callback that the
  innermost Notify is executing. A run is any sequence of enabled actions, so it covers every
  interleaving of additions, cancellations and nested notifications.
 */
module CallbackList {

  datatype Kind = Once | Repeating

  datatype Node = Node(id: nat, live: bool)

  datatype Cursor = End | At(id: nat)

  /** An active Notify: its saved iterator, the value AutoReset will restore, and its history. */
  datatype Frame = Frame(cursor: Cursor, saved: bool,
                         start: nat, present: set<nat>, visited: seq<nat>, dropped: set<nat>)
  {
    /** No callback below this registration number is still owed a visit by this frame. */
    function Low(): nat {
      if visited == [] then 0 else visited[|visited| - 1] + 1
    }
  }

  datatype Event = Invoked(id: nat) | Removed

  datatype Action = Add(subscribed: bool) | Cancel(id: nat) | Notify | Return | SetRemoval(on: bool)

  /** `nulls` is null_callbacks_; `subs` are the subscriptions not yet destroyed. */
  datatype State = State(callbacks: seq<Node>, nulls: seq<nat>, iterating: bool, removal: bool,
                         frames: seq<Frame>, next: nat, subs: set<nat>, log: seq<Event>)

  const INIT := State([], [], false, false, [], 0, {}, [])

  // ---------------------------------------------------------------- list operations

  predicate Has(nodes: seq<Node>, id: nat) {
    Node(id, true) in nodes || Node(id, false) in nodes
  }

  function IndexOf(nodes: seq<Node>, id: nat): (i: nat)
    ensures i <= |nodes|
    ensures i < |nodes| ==> nodes[i].id == id
    ensures i == |nodes| ==> !Has(nodes, id)
  {
    if nodes == [] then 0
    else if nodes[0].id == id then 0
    else 1 + IndexOf(nodes[1..], id)
  }

  function Position(nodes: seq<Node>, c: Cursor): (i: nat)
    ensures i <= |nodes|
  {
    match c
    case End => |nodes|
    case At(id) => IndexOf(nodes, id)
  }

  function CursorAt(nodes: seq<Node>, i: nat): Cursor {
    if i < |nodes| then At(nodes[i].id) else End
  }

  /** std::find_if_not(it, end(), is_null). */
  function FirstLive(nodes: seq<Node>, i: nat): (j: nat)
    requires i <= |nodes|
    ensures i <= j <= |nodes|
    ensures j < |nodes| ==> nodes[j].live
    ensures forall k :: i <= k < j ==> !nodes[k].live
    decreases |nodes| - i
  {
    if i == |nodes| || nodes[i].live then i else FirstLive(nodes, i + 1)
  }

  function Erase(nodes: seq<Node>, id: nat): seq<Node> {
    var i := IndexOf(nodes, id);
    if i < |nodes| then nodes[..i] + nodes[i + 1..] else nodes
  }

  function Reset(nodes: seq<Node>, id: nat): seq<Node> {
    var i := IndexOf(nodes, id);
    if i < |nodes| then nodes[i := Node(id, false)] else nodes
  }

  function Prune(nodes: seq<Node>): seq<Node> {
    if nodes == [] then []
    else if nodes[0].live then [nodes[0]] + Prune(nodes[1..])
    else Prune(nodes[1..])
  }

  function Remove(ids: seq<nat>, id: nat): seq<nat> {
    if ids == [] then []
    else if ids[0] == id then ids[1..]
    else [ids[0]] + Remove(ids[1..], id)
  }

  predicate Empty(nodes: seq<Node>) {
    forall n | n in nodes :: !n.live
  }

  // ---------------------------------------------------------------- the machine

  function Ids(nodes: seq<Node>): set<nat> {
    if nodes == [] then {} else {nodes[0].id} + Ids(nodes[1..])
  }

  function Live(nodes: seq<Node>): set<nat> {
    if nodes == [] then {}
    else (if nodes[0].live then {nodes[0].id} else {}) + Live(nodes[1..])
  }

  function Emit(s: State, fire: bool): State {
    if s.removal && fire then s.(log := s.log + [Removed]) else s
  }

  function Top(s: State): Frame
    requires s.frames != []
  {
    s.frames[|s.frames| - 1]
  }

  function SetTop(s: State, f: Frame): State
    requires s.frames != []
  {
    s.(frames := s.frames[|s.frames| - 1 := f])
  }

  /** `it++` in the loop header followed by RunCallback on the node at position i. */
  function RunAt(kind: Kind, s: State, i: nat): State
    requires s.frames != [] && i < |s.callbacks|
  {
    var x := s.callbacks[i].id;
    var f := Top(s);
    var t := SetTop(s, f.(cursor := CursorAt(s.callbacks, i + 1), visited := f.visited + [x]));
    var u := t.(log := t.log + [Invoked(x)]);
    if kind.Once? then u.(callbacks := s.callbacks[..i] + s.callbacks[i + 1..], nulls := s.nulls + [x]) else u
  }

  /** The end of Notify once its loop has run out of callbacks. */
  function Finish(kind: Kind, s: State): State
    requires s.frames != []
  {
    var t := s.(iterating := Top(s).saved, frames := s.frames[..|s.frames| - 1]);
    if t.iterating then t
    else
      var kept := Prune(t.callbacks);
      Emit(t.(callbacks := kept), |kept| < |t.callbacks| || kind.Once?)
  }

  /** One turn of the loop condition: find the next callback from the saved iterator, run it or leave. */
  function Continue(kind: Kind, s: State): State
    requires s.frames != []
  {
    var i := FirstLive(s.callbacks, Position(s.callbacks, Top(s).cursor));
    if i < |s.callbacks| then RunAt(kind, s, i) else Finish(kind, s)
  }

  function Push(s: State): State {
    s.(iterating := true,
       frames := s.frames + [Frame(CursorAt(s.callbacks, 0), s.iterating, s.next, Live(s.callbacks), [], {})])
  }

  /** History only: a frame that has not visited `id` yet is no longer owed the visit. */
  function Drop(frames: seq<Frame>, id: nat): (r: seq<Frame>)
    ensures |r| == |frames|
    ensures forall k :: 0 <= k < |r| ==>
      r[k] == if id in frames[k].present && id !in frames[k].visited
              then frames[k].(dropped := frames[k].dropped + {id}) else frames[k]
  {
    if frames == [] then []
    else
      var f := frames[0];
      [if id in f.present && id !in f.visited then f.(dropped := f.dropped + {id}) else f] + Drop(frames[1..], id)
  }

  predicate IsNull(s: State, id: nat) {
    id in s.nulls || Node(id, true) !in s.callbacks
  }

  /** CancelCallback, reached by destroying the subscription for `id`. */
  function CancelStep(kind: Kind, s: State, id: nat): State {
    var t := s.(subs := s.subs - {id});
    if kind.Once? && IsNull(s, id) then t.(nulls := Remove(s.nulls, id))
    else if s.iterating then t.(callbacks := Reset(s.callbacks, id), frames := Drop(s.frames, id))
    else Emit(t.(callbacks := Erase(s.callbacks, id)), true)
  }

  predicate Enabled(kind: Kind, s: State, a: Action) {
    match a
    case Add(_) => true
    case Cancel(id) => id in s.subs
    case Notify => kind.Repeating? || s.frames == []
    case Return => s.frames != []
    case SetRemoval(_) => true
  }

  function Step(kind: Kind, s: State, a: Action): State
    requires Enabled(kind, s, a)
  {
    match a
    case Add(subscribed) =>
      s.(callbacks := s.callbacks + [Node(s.next, true)], next := s.next + 1,
         subs := if subscribed then s.subs + {s.next} else s.subs)
    case Cancel(id) => CancelStep(kind, s, id)
    case Notify => if Empty(s.callbacks) then s else Continue(kind, Push(s))
    case Return => Continue(kind, s)
    case SetRemoval(on) => s.(removal := on)
  }

  predicate CanRun(kind: Kind, s: State, run: seq<Action>)
    decreases |run|
  {
    run == [] || (Enabled(kind, s, run[0]) && CanRun(kind, Step(kind, s, run[0]), run[1..]))
  }

  function Run(kind: Kind, s: State, run: seq<Action>): State
    requires CanRun(kind, s, run)
    decreases |run|
  {
    if run == [] then s else Run(kind, Step(kind, s, run[0]), run[1..])
  }

  lemma RunCons(kind: Kind, s: State, a: Action, rest: seq<Action>)
    requires Enabled(kind, s, a) && CanRun(kind, Step(kind, s, a), rest)
    ensures CanRun(kind, s, [a] + rest) && Run(kind, s, [a] + rest) == Run(kind, Step(kind, s, a), rest)
  {
    assert ([a] + rest)[1..] == rest;
  }

  lemma {:induction false} RunConcat(kind: Kind, s: State, a: seq<Action>, b: seq<Action>)
    requires CanRun(kind, s, a) && CanRun(kind, Run(kind, s, a), b)
    ensures CanRun(kind, s, a + b) && Run(kind, s, a + b) == Run(kind, Run(kind, s, a), b)
    decreases |a|
  {
    if a == [] {
      assert a + b == b;
    } else {
      RunConcat(kind, Step(kind, s, a[0]), a[1..], b);
      assert (a + b)[0] == a[0] && (a + b)[1..] == a[1..] + b;
    }
  }

  // ---------------------------------------------------------------- the list operations as set operations

  predicate Sorted(nodes: seq<Node>) {
    forall i, j :: 0 <= i < j < |nodes| ==> nodes[i].id < nodes[j].id
  }

  lemma {:induction false} InSets(nodes: seq<Node>, id: nat)
    ensures id in Ids(nodes) <==> Has(nodes, id)
    ensures id in Live(nodes) <==> Node(id, true) in nodes
    ensures Live(nodes) <= Ids(nodes)
  {
    if nodes != [] {
      InSets(nodes[1..], id);
      assert nodes == [nodes[0]] + nodes[1..];
    }
  }

  lemma {:induction false} ConcatSets(a: seq<Node>, b: seq<Node>)
    ensures Ids(a + b) == Ids(a) + Ids(b) && Live(a + b) == Live(a) + Live(b)
  {
    if a == [] {
      assert a + b == b;
    } else {
      assert (a + b)[1..] == a[1..] + b;
      ConcatSets(a[1..], b);
    }
  }

  predicate Below(ids: set<nat>, x: nat) {
    forall id | id in ids :: id < x
  }

  predicate Above(ids: set<nat>, x: nat) {
    forall id | id in ids :: x < id
  }

  lemma {:induction false} SortedBounds(nodes: seq<Node>, i: nat)
    requires Sorted(nodes) && i <= |nodes|
    ensures i < |nodes| ==> Below(Ids(nodes[..i]), nodes[i].id)
    ensures 0 < i ==> Above(Ids(nodes[i..]), nodes[i - 1].id)
  {
    forall id | id in Ids(nodes[..i]) && i < |nodes| ensures id < nodes[i].id {
      InSets(nodes[..i], id);
    }
    forall id | id in Ids(nodes[i..]) && 0 < i ensures nodes[i - 1].id < id {
      InSets(nodes[i..], id);
    }
  }

  lemma ConcatSorted(a: seq<Node>, b: seq<Node>)
    requires Sorted(a) && Sorted(b)
    requires forall x, y | x in Ids(a) && y in Ids(b) :: x < y
    ensures Sorted(a + b)
  {
    forall i, j | 0 <= i < j < |a + b| ensures (a + b)[i].id < (a + b)[j].id {
      if i < |a| <= j {
        InSets(a, a[i].id);
        InSets(b, b[j - |a|].id);
        assert a[i] == Node(a[i].id, a[i].live) && b[j - |a|] == Node(b[j - |a|].id, b[j - |a|].live);
      }
    }
  }

  lemma SingleSets(n: Node)
    ensures Ids([n]) == {n.id} && Live([n]) == if n.live then {n.id} else {}
  {}

  lemma SplitSets(nodes: seq<Node>, i: nat)
    requires i < |nodes|
    ensures Ids(nodes) == Ids(nodes[..i]) + {nodes[i].id} + Ids(nodes[i + 1..])
    ensures Live(nodes) == Live(nodes[..i]) + (if nodes[i].live then {nodes[i].id} else {}) + Live(nodes[i + 1..])
  {
    assert nodes == nodes[..i] + nodes[i..];
    ConcatSets(nodes[..i], nodes[i..]);
    assert nodes[i..][1..] == nodes[i + 1..];
  }

  /** A sorted list around one of its nodes, and its sets. */
  lemma AroundSets(nodes: seq<Node>, i: nat)
    requires Sorted(nodes) && i < |nodes|
    ensures Sorted(nodes[..i]) && Sorted(nodes[i + 1..])
    ensures Ids(nodes) == Ids(nodes[..i]) + {nodes[i].id} + Ids(nodes[i + 1..])
    ensures Live(nodes) == Live(nodes[..i]) + (if nodes[i].live then {nodes[i].id} else {}) + Live(nodes[i + 1..])
    ensures Live(nodes[..i]) <= Ids(nodes[..i]) && Below(Ids(nodes[..i]), nodes[i].id)
    ensures Live(nodes[i + 1..]) <= Ids(nodes[i + 1..]) && Above(Ids(nodes[i + 1..]), nodes[i].id)
  {
    SplitSets(nodes, i);
    SortedBounds(nodes, i);
    SortedBounds(nodes, i + 1);
    InSets(nodes[..i], 0);
    InSets(nodes[i + 1..], 0);
  }

  lemma AppendSets(nodes: seq<Node>, id: nat)
    requires Sorted(nodes) && Below(Ids(nodes), id)
    ensures var r := nodes + [Node(id, true)];
      Sorted(r) && Ids(r) == Ids(nodes) + {id} && Live(r) == Live(nodes) + {id}
  {
    SingleSets(Node(id, true));
    ConcatSets(nodes, [Node(id, true)]);
    ConcatSorted(nodes, [Node(id, true)]);
  }

  lemma DropAtSets(nodes: seq<Node>, i: nat)
    requires Sorted(nodes) && i < |nodes|
    ensures var r := nodes[..i] + nodes[i + 1..];
      Sorted(r) && Ids(r) == Ids(nodes) - {nodes[i].id} && Live(r) == Live(nodes) - {nodes[i].id}
  {
    AroundSets(nodes, i);
    ConcatSets(nodes[..i], nodes[i + 1..]);
    ConcatSorted(nodes[..i], nodes[i + 1..]);
  }

  lemma EraseSets(nodes: seq<Node>, id: nat)
    requires Sorted(nodes)
    ensures var r := Erase(nodes, id);
      Sorted(r) && Ids(r) == Ids(nodes) - {id} && Live(r) == Live(nodes) - {id}
  {
    InSets(nodes, id);
    if IndexOf(nodes, id) < |nodes| { DropAtSets(nodes, IndexOf(nodes, id)); }
  }

  lemma ResetSets(nodes: seq<Node>, id: nat)
    requires Sorted(nodes)
    ensures var r := Reset(nodes, id);
      Sorted(r) && |r| == |nodes| && Ids(r) == Ids(nodes) && Live(r) == Live(nodes) - {id}
  {
    var i := IndexOf(nodes, id);
    InSets(nodes, id);
    if i < |nodes| {
      var r := Reset(nodes, id);
      AroundSets(nodes, i);
      AroundSets(r, i);
      assert r[..i] == nodes[..i] && r[i + 1..] == nodes[i + 1..];
    }
  }

  lemma {:induction false} PruneSets(nodes: seq<Node>)
    requires Sorted(nodes)
    ensures var r := Prune(nodes);
      && Sorted(r) && |r| <= |nodes| && Ids(r) == Live(nodes) && Live(r) == Live(nodes)
      && (|r| < |nodes| <==> Live(nodes) != Ids(nodes))
  {
    if nodes != [] {
      SortedBounds(nodes, 1);
      PruneSets(nodes[1..]);
      InSets(nodes[1..], nodes[0].id);
      if nodes[0].live {
        SingleSets(nodes[0]);
        ConcatSets([nodes[0]], Prune(nodes[1..]));
        ConcatSorted([nodes[0]], Prune(nodes[1..]));
      }
    }
  }

  predicate Distinct(ids: seq<nat>) {
    forall i, j :: 0 <= i < j < |ids| ==> ids[i] != ids[j]
  }

  lemma {:induction false} RemoveMembers(ids: seq<nat>, id: nat)
    requires Distinct(ids)
    ensures Distinct(Remove(ids, id))
    ensures forall x :: x in Remove(ids, id) <==> x in ids && x != id
  {
    if ids != [] {
      assert ids == [ids[0]] + ids[1..];
      assert ids[0] !in ids[1..];
      if ids[0] != id {
        RemoveMembers(ids[1..], id);
        assert ids[0] !in Remove(ids[1..], id);
      }
    }
  }

  lemma FirstLiveSpec(nodes: seq<Node>, p: nat)
    requires Sorted(nodes) && p < |nodes|
    ensures var i := FirstLive(nodes, p);
      if i < |nodes| then
        && nodes[p].id <= nodes[i].id && nodes[i].id in Live(nodes)
        && (forall id | id in Live(nodes) && nodes[p].id <= id :: nodes[i].id <= id)
      else
        forall id | id in Live(nodes) :: id < nodes[p].id
  {
    var i := FirstLive(nodes, p);
    if i < |nodes| {
      InSets(nodes, nodes[i].id);
      assert nodes[i] == Node(nodes[i].id, true);
    }
    forall id | id in Live(nodes) && nodes[p].id <= id
      ensures i < |nodes| && nodes[i].id <= id
    {
      InSets(nodes, id);
      var k :| 0 <= k < |nodes| && nodes[k] == Node(id, true);
      assert p <= k;
      assert i <= k;
    }
  }

  /** What find_if_not finds from a valid saved iterator, and what `it++` then saves. */
  lemma NextSpec(nodes: seq<Node>, c: Cursor)
    requires Sorted(nodes) && (c.At? ==> c.id in Ids(nodes))
    ensures var i := FirstLive(nodes, Position(nodes, c));
      if i < |nodes| then
        && c.At? && c.id <= nodes[i].id && nodes[i].id in Live(nodes)
        && (forall id | id in Live(nodes) && c.id <= id :: nodes[i].id <= id)
      else
        forall id | id in Live(nodes) && c.At? :: id < c.id
  {
    if c.At? {
      InSets(nodes, c.id);
      FirstLiveSpec(nodes, Position(nodes, c));
    }
  }

  lemma CursorSpec(nodes: seq<Node>, i: nat)
    requires Sorted(nodes) && i < |nodes|
    ensures var d := CursorAt(nodes, i + 1);
      && (d.At? ==> d.id in Ids(nodes) && nodes[i].id < d.id)
      && (forall id | id in Ids(nodes) && nodes[i].id < id :: d.At? && d.id <= id)
  {
    AroundSets(nodes, i);
    if i + 1 < |nodes| { AroundSets(nodes, i + 1); }
  }
}
