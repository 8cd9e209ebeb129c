/**
 What holds over every step and every run of a well-formed machine: entries and exits
 are well bracketed, the state is written once per external transition and last, and
 entering a node follows a repetition-free chain of initial and choice edges to a leaf.
 */
module Runs {
  import opened Wrappers
  import opened Hierarchy
  import opened Flat
  import opened Engine
  import Meaning

  // ----- Observations on events -----

  /**
   Replay entries and exits on the stack of active states.  An entry must push a child of
   the current top, an exit must pop the top; anything else makes the replay fail.
   */
  function Replay(p: Parents, events: seq<Event>, stack: seq<Node>): Option<seq<Node>> {
    if events == [] then Some(stack)
    else
      match events[0]
      case Arrived(n) =>
        if n < |p| && p[n] == (if stack == [] then None else Some(stack[|stack| - 1]))
        then Replay(p, events[1..], stack + [n]) else None
      case Left(n) =>
        if stack != [] && stack[|stack| - 1] == n
        then Replay(p, events[1..], stack[..|stack| - 1]) else None
      case _ => Replay(p, events[1..], stack)
  }

  /** No state write, and every action and guard finds the machine in `state`. */
  predicate Quiet(events: seq<Event>, state: State) {
    forall e :: e in events ==> !e.Wrote? && ((e.Action? || e.Guard?) ==> e.seen == state)
  }

  /** The entry functions called, in order. */
  function Visits(events: seq<Event>): seq<Node> {
    if events == [] then []
    else (if events[0].Visited? then [events[0].node] else []) + Visits(events[1..])
  }

  /** A walk along initial and choice edges that ends in a leaf. */
  ghost predicate Chain(m: Machine, nodes: seq<Node>) {
    && nodes != []
    && (forall i :: 0 <= i < |nodes| ==> nodes[i] < |m.nodes|)
    && (forall i :: 0 < i < |nodes| ==> nodes[i] in Successors(m, nodes[i - 1]))
    && m.nodes[nodes[|nodes| - 1]].Leaf?
  }

  lemma {:induction false} ReplayAppend(p: Parents, a: seq<Event>, b: seq<Event>, stack: seq<Node>)
    ensures var mid := Replay(p, a, stack);
            Replay(p, a + b, stack) == if mid.None? then None else Replay(p, b, mid.value)
  {
    if a == [] {
      assert a + b == b;
    } else {
      assert (a + b)[1..] == a[1..] + b;
      match a[0]
      case Arrived(n) => ReplayAppend(p, a[1..], b, stack + [n]);
      case Left(n) => if stack != [] { ReplayAppend(p, a[1..], b, stack[..|stack| - 1]); }
      case _ => ReplayAppend(p, a[1..], b, stack);
    }
  }

  lemma {:induction false} VisitsAppend(a: seq<Event>, b: seq<Event>)
    ensures Visits(a + b) == Visits(a) + Visits(b)
  {
    if a == [] {
      assert a + b == b;
    } else {
      assert (a + b)[1..] == a[1..] + b;
      VisitsAppend(a[1..], b);
    }
  }

  /** No node occurs twice on a chain: the edges never go round in a circle. */
  lemma {:induction false} ChainDistinct(m: Machine, nodes: seq<Node>, i: nat, j: nat)
    requires WellFormed(m) && Chain(m, nodes) && i < j < |nodes|
    ensures nodes[i] != nodes[j]
    ensures EnterRank(m)[nodes[j]] < EnterRank(m)[nodes[i]]
    decreases j
  {
    SuccessorLower(m, nodes[j - 1], nodes[j]);
    if i < j - 1 {
      ChainDistinct(m, nodes, i, j - 1);
    }
  }

  // ----- Straight-line statements -----

  function EventOf(env: Env, op: Op, state: State): Event {
    match op
    case Act(name) => Action(name, env.id, env.signal, state)
    case SetState(leaf) => Wrote(leaf)
    case Arrive(n) => Arrived(n)
    case Leave(n) => Left(n)
    case Visit(n) => Visited(n)
  }

  function EventsOf(env: Env, ops: seq<Op>, state: State): seq<Event> {
    if ops == [] then [] else [EventOf(env, ops[0], state)] + EventsOf(env, ops[1..], state)
  }

  /** Entry, exit and transition statements: no state write, no entry function. */
  predicate Plain(ops: seq<Op>) {
    forall op :: op in ops ==> !op.SetState? && !op.Visit?
  }

  /** The part of a step that does not write the state: its events and where the stack ends. */
  ghost predicate Moves(p: Parents, events: seq<Event>, state: State, from: seq<Node>, to: seq<Node>) {
    && Quiet(events, state)
    && Replay(p, events, from) == Some(to)
    && Visits(events) == []
  }

  lemma {:induction false} StepsEvents(env: Env, ops: seq<Op>, c: Conf)
    requires Plain(ops)
    ensures Steps(env, ops, c) == Conf(c.log + EventsOf(env, ops, c.state), c.state)
    ensures Quiet(EventsOf(env, ops, c.state), c.state)
    ensures Visits(EventsOf(env, ops, c.state)) == []
  {
    if ops == [] {
      assert c.log + [] == c.log;
    } else {
      var e := EventOf(env, ops[0], c.state);
      assert ops[0] in ops;
      assert Step(env, ops[0], c) == Conf(c.log + [e], c.state);
      StepsEvents(env, ops[1..], Conf(c.log + [e], c.state));
      LogCons(c.log, [e], EventsOf(env, ops[1..], c.state));
      QuietAppend([e], EventsOf(env, ops[1..], c.state), c.state);
    }
  }

  /** A label, then straight-line statements. */
  lemma StepsVisit(env: Env, n: Node, ops: seq<Op>, c: Conf)
    requires Plain(ops)
    ensures Steps(env, [Visit(n)] + ops, c) == Conf(c.log + [Visited(n)] + EventsOf(env, ops, c.state), c.state)
    ensures Quiet(EventsOf(env, ops, c.state), c.state) && Visits(EventsOf(env, ops, c.state)) == []
  {
    StepsAppend(env, [Visit(n)], ops, c);
    StepsEvents(env, ops, Step(env, Visit(n), c));
  }

  lemma {:induction false} EventsAppend(env: Env, a: seq<Op>, b: seq<Op>, state: State)
    ensures EventsOf(env, a + b, state) == EventsOf(env, a, state) + EventsOf(env, b, state)
  {
    if a == [] {
      assert a + b == b;
    } else {
      assert (a + b)[1..] == a[1..] + b;
      EventsAppend(env, a[1..], b, state);
    }
  }

  /** Actions move nothing on the stack. */
  lemma {:induction false} ActsMove(p: Parents, env: Env, names: seq<Name>, state: State, stack: seq<Node>)
    ensures Plain(Acts(names))
    ensures Replay(p, EventsOf(env, Acts(names), state), stack) == Some(stack)
  {
    if names != [] {
      assert Acts(names)[1..] == Acts(names[1..]);
      ActsMove(p, env, names[1..], state, stack);
    }
  }

  lemma EntryMoves(m: Machine, env: Env, n: Node, state: State)
    requires WellFormed(m) && n < |m.nodes| && !m.nodes[n].Choice?
    ensures Plain(EntryOps(m, n))
    ensures Replay(ParentsOf(m), EventsOf(env, EntryOps(m, n), state), Above(ParentsOf(m), n))
         == Some(Path(ParentsOf(m), n))
  {
    var p := ParentsOf(m);
    AboveIsParentPath(p, n);
    ActsMove(p, env, m.nodes[n].entry, state, Path(p, n));
    EventsAppend(env, [Arrive(n)], Acts(m.nodes[n].entry), state);
    assert Above(p, n) + [n] == Path(p, n);
  }

  lemma ExitMoves(m: Machine, env: Env, n: Node, state: State)
    requires WellFormed(m) && n < |m.nodes| && !m.nodes[n].Choice?
    ensures Plain(ExitOps(m, n))
    ensures Replay(ParentsOf(m), EventsOf(env, ExitOps(m, n), state), Path(ParentsOf(m), n))
         == Some(Above(ParentsOf(m), n))
  {
    var p := ParentsOf(m);
    ActsMove(p, env, m.nodes[n].exit, state, Above(p, n));
    EventsAppend(env, [Leave(n)], Acts(m.nodes[n].exit), state);
  }

  /** A node on a path that is not its end is a state, with the path down to it as its own. */
  lemma ParentIsState(m: Machine, n: Node, i: nat)
    requires WellFormed(m) && n < |m.nodes| && i + 1 < |Path(ParentsOf(m), n)|
    ensures var p, path := ParentsOf(m), Path(ParentsOf(m), n);
            && !m.nodes[path[i]].Choice? && Path(p, path[i]) == path[..i + 1] && Above(p, path[i]) == path[..i]
  {
    var p, path := ParentsOf(m), Path(ParentsOf(m), n);
    ParentOnPath(p, n, i + 1);
    assert NodeWellFormed(m, path[i + 1]);
    PathOfMember(p, n, i);
    assert path[..i + 1][..i] == path[..i];
  }

  /** Entering a stretch of a path pushes exactly that stretch. */
  lemma {:induction false} EntryAllMoves(m: Machine, env: Env, n: Node, i: nat, j: nat, state: State)
    requires WellFormed(m) && n < |m.nodes| && i <= j < |Path(ParentsOf(m), n)|
    ensures var path := Path(ParentsOf(m), n);
            && Plain(EntryAll(m, path[i..j]))
            && Replay(ParentsOf(m), EventsOf(env, EntryAll(m, path[i..j]), state), path[..i]) == Some(path[..j])
    decreases j - i
  {
    var p := ParentsOf(m);
    var path := Path(p, n);
    if i < j {
      assert path[i..j][1..] == path[i + 1..j];
      var rest := EntryAll(m, path[i + 1..j]);
      EntryAllMoves(m, env, n, i + 1, j, state);
      ParentIsState(m, n, i);
      EntryMoves(m, env, path[i], state);
      EventsAppend(env, EntryOps(m, path[i]), rest, state);
      ReplayAppend(p, EventsOf(env, EntryOps(m, path[i]), state), EventsOf(env, rest, state), path[..i]);
    } else {
      assert path[i..j] == [];
    }
  }

  /**
   Exiting a stretch of a path pops exactly that stretch.  The path may end in a choice,
   which is not an active state: the stack then ends just above it.
   */
  lemma {:induction false} ExitAllMoves(m: Machine, env: Env, n: Node, i: nat, state: State)
    requires WellFormed(m) && n < |m.nodes| && i <= |Path(ParentsOf(m), n)|
    requires m.nodes[n].Choice? ==> i < |Path(ParentsOf(m), n)|
    ensures var path := Path(ParentsOf(m), n);
            && Plain(ExitAll(m, path[i..]))
            && Replay(ParentsOf(m), EventsOf(env, ExitAll(m, path[i..]), state), ActiveAt(m, n)) == Some(path[..i])
    decreases |Path(ParentsOf(m), n)| - i
  {
    var p := ParentsOf(m);
    var path := Path(p, n);
    if i == |path| {
      assert path[i..] == [] && path[..i] == path;
    } else {
      assert path[i..][1..] == path[i + 1..];
      var rest := ExitAll(m, path[i + 1..]);
      EventsAppend(env, rest, ExitOps(m, path[i]), state);
      if i == |path| - 1 && m.nodes[n].Choice? {
        assert rest == [] && ExitOps(m, path[i]) == [];
      } else {
        ExitAllMoves(m, env, n, i + 1, state);
        if i + 1 < |path| {
          ParentIsState(m, n, i);
        } else {
          assert path[..i + 1] == path;
        }
        ExitMoves(m, env, path[i], state);
        ReplayAppend(p, EventsOf(env, rest, state), EventsOf(env, ExitOps(m, path[i]), state), ActiveAt(m, n));
      }
    }
  }

  /** The active states while the configuration ends at `n`. */
  ghost function ActiveAt(m: Machine, n: Node): seq<Node>
    requires WellFormed(m) && n < |m.nodes|
  {
    if m.nodes[n].Choice? then Above(ParentsOf(m), n) else Path(ParentsOf(m), n)
  }

  // ----- Entering a node -----

  /**
   From `c` to `c'` the machine made `events`, then wrote `leaf` as its state: nothing before
   that wrote the state, the stack went from `from` to the path of `leaf`, and the entry
   functions called form a chain from `first` to `leaf`.
   */
  ghost predicate Enters(m: Machine, c: Conf, c': Conf, events: seq<Event>, from: seq<Node>, first: Node, leaf: Node)
    requires WellFormed(m)
  {
    && IsLeaf(m, leaf)
    && c' == Conf(c.log + events + [Wrote(leaf)], Some(leaf))
    && Quiet(events, c.state)
    && Replay(ParentsOf(m), events, from) == Some(Path(ParentsOf(m), leaf))
    && Chain(m, Visits(events)) && Visits(events)[0] == first && Visits(events)[|Visits(events)| - 1] == leaf
  }

  /** A label and some quiet events, then an entering that starts at one of its successors. */
  lemma EntersVia(m: Machine, n: Node, mid: seq<Event>, c: Conf, c1: Conf, c': Conf, events: seq<Event>,
                  s0: seq<Node>, s1: seq<Node>, first: Node, leaf: Node)
    requires WellFormed(m) && n < |m.nodes| && first in Successors(m, n)
    requires c1 == Conf(c.log + [Visited(n)] + mid, c.state)
    requires Moves(ParentsOf(m), mid, c.state, s0, s1)
    requires Enters(m, c1, c', events, s1, first, leaf)
    ensures Enters(m, c, c', [Visited(n)] + mid + events, s0, n, leaf)
  {
    var p := ParentsOf(m);
    var pre := [Visited(n)] + mid;
    ReplayAppend(p, [Visited(n)], mid, s0);
    ReplayAppend(p, pre, events, s0);
    VisitsAppend([Visited(n)], mid);
    VisitsAppend(pre, events);
    assert Visits([Visited(n)]) == [n];
    ChainCons(m, n, Visits(events));
    QuietAppend(pre, events, c.state);
    LogAppend(c.log, [Visited(n)], mid, events, [Wrote(leaf)]);
  }

  /** Quiet events, then an entering. */
  lemma EntersAfter(m: Machine, pre: seq<Event>, c: Conf, c': Conf, events: seq<Event>,
                    s0: seq<Node>, s1: seq<Node>, first: Node, leaf: Node)
    requires WellFormed(m)
    requires Moves(ParentsOf(m), pre, c.state, s0, s1)
    requires Enters(m, Conf(c.log + pre, c.state), c', events, s1, first, leaf)
    ensures Enters(m, c, c', pre + events, s0, first, leaf)
  {
    ReplayAppend(ParentsOf(m), pre, events, s0);
    VisitsAppend(pre, events);
    assert [] + Visits(events) == Visits(events);
    QuietAppend(pre, events, c.state);
    LogAppend(c.log, pre, [], events, [Wrote(leaf)]);
    assert c.log + pre + [] == c.log + pre && pre + [] == pre;
  }

  lemma QuietAppend(a: seq<Event>, b: seq<Event>, state: State)
    requires Quiet(a, state) && Quiet(b, state)
    ensures Quiet(a + b, state)
  {}

  lemma LogAppend(log: seq<Event>, a: seq<Event>, b: seq<Event>, c: seq<Event>, d: seq<Event>)
    ensures log + a + b + c + d == log + (a + b + c) + d
  {}

  lemma LogCons(log: seq<Event>, a: seq<Event>, b: seq<Event>)
    ensures log + a + b == log + (a + b)
  {}

  lemma ChainCons(m: Machine, n: Node, nodes: seq<Node>)
    requires Chain(m, nodes) && n < |m.nodes| && nodes[0] in Successors(m, n)
    ensures Chain(m, [n] + nodes)
  {}

  /** Entering any node ends in a leaf, with the stack at that leaf. */
  lemma {:induction false} EnterRun(m: Machine, env: Env, n: Node, c: Conf) returns (events: seq<Event>, leaf: Node)
    requires WellFormed(m) && n < |m.nodes|
    ensures Enters(m, c, Exec(env, FlatEnter(m, n), c), events, Above(ParentsOf(m), n), n, leaf)
    decreases EnterRank(m)[n], 1
  {
    match m.nodes[n]
    case Leaf(_, _, _) => leaf := n; events := EnterLeafRun(m, env, n, c);
    case Composite(_, _, _, _, _) => events, leaf := EnterCompositeRun(m, env, n, c);
    case Choice(_, _, _, _, _, _) => events, leaf := EnterChoiceRun(m, env, n, c);
  }

  lemma EnterLeafRun(m: Machine, env: Env, n: Node, c: Conf) returns (events: seq<Event>)
    requires WellFormed(m) && IsLeaf(m, n)
    ensures Enters(m, c, Exec(env, FlatEnter(m, n), c), events, Above(ParentsOf(m), n), n, n)
  {
    var p, ops := ParentsOf(m), EntryOps(m, n);
    var entry := EventsOf(env, ops, c.state);
    events := [Visited(n)] + entry;
    EntryMoves(m, env, n, c.state);
    StepsVisit(env, n, ops, c);
    StepsAppend(env, [Visit(n)] + ops, [SetState(n)], c);
    ReplayAppend(p, [Visited(n)], entry, Above(p, n));
    VisitsAppend([Visited(n)], entry);
    assert Visits([Visited(n)]) == [n];
    QuietAppend([Visited(n)], entry, c.state);
    assert c.log + [Visited(n)] + entry == c.log + events;
  }

  /** A composite's entry and initial transition reach the place of its target. */
  lemma InitialMoves(m: Machine, env: Env, n: Node, state: State)
    requires WellFormed(m) && n < |m.nodes| && m.nodes[n].Composite?
    ensures Plain(InitialOps(m, n))
    ensures Replay(ParentsOf(m), EventsOf(env, InitialOps(m, n), state), Above(ParentsOf(m), n))
         == Some(Above(ParentsOf(m), m.nodes[n].target))
  {
    var p, target := ParentsOf(m), m.nodes[n].target;
    assert NodeWellFormed(m, n);
    AboveLonger(p, n, target);
    var k, path := |Path(p, n)|, Path(p, target);
    assert Above(p, target)[k..] == path[k..|path| - 1] && path[..k] == Path(p, n);
    var a, b, d := EntryOps(m, n), Acts(m.nodes[n].initActions), EntryAll(m, Above(p, target)[k..]);
    EntryMoves(m, env, n, state);
    ActsMove(p, env, m.nodes[n].initActions, state, Path(p, n));
    EntryAllMoves(m, env, target, k, |path| - 1, state);
    ReplayThree(p, env, a, b, d, state, Above(p, n));
  }

  /** A transition's exits, actions and entries reach the place of its target. */
  lemma GoMoves(m: Machine, env: Env, cur: Node, source: Node, acts: seq<Name>, target: Node, state: State)
    requires WellFormed(m) && cur < |m.nodes| && source < |m.nodes| && target < |m.nodes|
    requires source in Path(ParentsOf(m), cur)
    ensures Plain(GoOps(m, cur, source, acts, target))
    ensures Replay(ParentsOf(m), EventsOf(env, GoOps(m, cur, source, acts, target), state), ActiveAt(m, cur))
         == Some(Above(ParentsOf(m), target))
  {
    var p, k := ParentsOf(m), Kept(ParentsOf(m), source, target);
    var from, path := Path(p, cur), Path(p, target);
    SourceShorter(p, cur, source);
    KeptIsActive(m, cur, source, target);
    assert from[..k] == path[..k] by {
      assert from[..|Path(p, source)|][..k] == from[..k];
    }
    assert Above(p, target)[k..] == path[k..|path| - 1];
    ExitAllMoves(m, env, cur, k, state);
    ActsMove(p, env, acts, state, path[..k]);
    EntryAllMoves(m, env, target, k, |path| - 1, state);
    ReplayThree(p, env, ExitAll(m, from[k..]), Acts(acts), EntryAll(m, Above(p, target)[k..]), state, ActiveAt(m, cur));
  }

  lemma ReplayThree(p: Parents, env: Env, a: seq<Op>, b: seq<Op>, d: seq<Op>, state: State, s0: seq<Node>)
    ensures var s1 := Replay(p, EventsOf(env, a, state), s0);
            var s2 := if s1.None? then None else Replay(p, EventsOf(env, b, state), s1.value);
            Replay(p, EventsOf(env, a + b + d, state), s0) ==
            if s2.None? then None else Replay(p, EventsOf(env, d, state), s2.value)
  {
    EventsAppend(env, a, b, state);
    EventsAppend(env, a + b, d, state);
    ReplayAppend(p, EventsOf(env, a, state), EventsOf(env, b, state), s0);
    ReplayAppend(p, EventsOf(env, a + b, state), EventsOf(env, d, state), s0);
  }

  lemma {:induction false} EnterCompositeRun(m: Machine, env: Env, n: Node, c: Conf)
    returns (events: seq<Event>, leaf: Node)
    requires WellFormed(m) && n < |m.nodes| && m.nodes[n].Composite?
    ensures Enters(m, c, Exec(env, FlatEnter(m, n), c), events, Above(ParentsOf(m), n), n, leaf)
    decreases EnterRank(m)[n], 0
  {
    var p, target, ops := ParentsOf(m), m.nodes[n].target, InitialOps(m, n);
    SuccessorLower(m, n, target);
    InitialMoves(m, env, n, c.state);
    var mid := EventsOf(env, ops, c.state);
    StepsVisit(env, n, ops, c);
    ExecPrepend(env, [Visit(n)] + ops, FlatEnter(m, target), c);
    var c1 := Conf(c.log + [Visited(n)] + mid, c.state);
    var rest, last := EnterRun(m, env, target, c1);
    EntersVia(m, n, mid, c, c1, Exec(env, FlatEnter(m, target), c1), rest, Above(p, n), Above(p, target), target, last);
    events, leaf := [Visited(n)] + mid + rest, last;
  }

  lemma {:induction false} EnterChoiceRun(m: Machine, env: Env, n: Node, c: Conf)
    returns (events: seq<Event>, leaf: Node)
    requires WellFormed(m) && n < |m.nodes| && m.nodes[n].Choice?
    ensures Enters(m, c, Exec(env, FlatEnter(m, n), c), events, Above(ParentsOf(m), n), n, leaf)
    decreases EnterRank(m)[n], 0
  {
    var d, yes := m.nodes[n], env.answer(c.log + [Visited(n)], m.nodes[n].guard);
    ExecEnterChoice(env, m, n, c);
    SuccessorLower(m, n, d.thenTarget);
    SuccessorLower(m, n, d.elseTarget);
    if yes {
      events, leaf := BranchRun(m, env, n, yes, d.thenActions, d.thenTarget, c);
    } else {
      events, leaf := BranchRun(m, env, n, yes, d.elseActions, d.elseTarget, c);
    }
  }

  /** A choice whose guard has answered takes that branch. */
  lemma {:induction false} BranchRun(m: Machine, env: Env, n: Node, yes: bool, acts: seq<Name>, target: Node, c: Conf)
    returns (events: seq<Event>, leaf: Node)
    requires WellFormed(m) && n < |m.nodes| && m.nodes[n].Choice?
    requires target in Successors(m, n) && target < |m.nodes|
    ensures var asked := Guard(m.nodes[n].guard, env.id, env.signal, c.state, yes);
            var c1 := Conf(c.log + [Visited(n)] + [asked], c.state);
            Enters(m, c, Exec(env, FlatGo(m, n, n, acts, target), c1), events, Above(ParentsOf(m), n), n, leaf)
    decreases EnterRank(m)[target], 3
  {
    var asked := [Guard(m.nodes[n].guard, env.id, env.signal, c.state, yes)];
    var c1 := Conf(c.log + [Visited(n)] + asked, c.state);
    var rest, last := GoRun(m, env, n, n, acts, target, c1);
    var above := Above(ParentsOf(m), n);
    EntersVia(m, n, asked, c, c1, Exec(env, FlatGo(m, n, n, acts, target), c1), rest, above, above, target, last);
    events, leaf := [Visited(n)] + asked + rest, last;
  }

  /** An external transition leaves the stack at the leaf it ends in. */
  lemma {:induction false} GoRun(m: Machine, env: Env, cur: Node, source: Node, acts: seq<Name>, target: Node, c: Conf)
    returns (events: seq<Event>, leaf: Node)
    requires WellFormed(m) && cur < |m.nodes| && source < |m.nodes| && target < |m.nodes|
    requires source in Path(ParentsOf(m), cur)
    ensures Enters(m, c, Exec(env, FlatGo(m, cur, source, acts, target), c), events, ActiveAt(m, cur), target, leaf)
    decreases EnterRank(m)[target], 2
  {
    var ops := GoOps(m, cur, source, acts, target);
    GoMoves(m, env, cur, source, acts, target, c.state);
    StepsEvents(env, ops, c);
    ExecPrepend(env, ops, FlatEnter(m, target), c);
    var pre := EventsOf(env, ops, c.state);
    var c1 := Conf(c.log + pre, c.state);
    var rest, last := EnterRun(m, env, target, c1);
    EntersAfter(m, pre, c, Exec(env, FlatEnter(m, target), c1), rest,
                ActiveAt(m, cur), Above(ParentsOf(m), target), target, last);
    events, leaf := pre + rest, last;
  }

  /** A choice is nobody's parent, so what a transition out of it keeps lies strictly above it. */
  lemma KeptIsActive(m: Machine, cur: Node, source: Node, target: Node)
    requires WellFormed(m) && cur < |m.nodes| && source < |m.nodes| && target < |m.nodes|
    requires source in Path(ParentsOf(m), cur)
    ensures m.nodes[cur].Choice? ==> Kept(ParentsOf(m), source, target) < |Path(ParentsOf(m), cur)|
  {
    var p, k := ParentsOf(m), Kept(ParentsOf(m), source, target);
    SourceShorter(p, cur, source);
    if k == |Path(p, cur)| {
      assert Path(p, source) == Path(p, cur);
      assert Path(p, target)[k - 1] == Path(p, target)[..k][k - 1] == cur;
      ParentIsState(m, target, k - 1);
    }
  }

  // ----- Steps and runs -----

  /** What one signal step does, seen from the old leaf; `external` says whether it left it. */
  ghost predicate Stepped(m: Machine, c: Conf, c': Conf, external: bool, leaf: Node, events: seq<Event>, next: Node)
    requires WellFormed(m) && leaf < |m.nodes|
  {
    var p := ParentsOf(m);
    && IsLeaf(m, next) && c'.state == Some(next)
    && Quiet(events, c.state)
    && Replay(p, events, Path(p, leaf)) == Some(Path(p, next))
    && c'.log == c.log + events + (if external then [Wrote(next)] else [])
    && (if external then Chain(m, Visits(events)) else next == leaf && Visits(events) == [])
  }

  /** A transition without its guard. */
  lemma BodyStep(m: Machine, env: Env, leaf: Node, source: Node, t: Transition, c: Conf)
    returns (events: seq<Event>, next: Node)
    requires WellFormed(m) && IsLeaf(m, leaf) && source in Path(ParentsOf(m), leaf) && c.state == Some(leaf)
    requires t.guard.None? && (t.target.Some? ==> t.target.value < |m.nodes|)
    ensures Stepped(m, c, Exec(env, FlatTransition(m, leaf, source, t), c), t.target.Some?, leaf, events, next)
  {
    if t.target.Some? {
      events, next := GoRun(m, env, leaf, source, t.actions, t.target.value, c);
    } else {
      next := leaf;
      events := EventsOf(env, Acts(t.actions), c.state);
      ActsMove(ParentsOf(m), env, t.actions, c.state, Path(ParentsOf(m), leaf));
      StepsEvents(env, Acts(t.actions), c);
    }
  }

  /** A step after a guard has been asked. */
  lemma AskedStep(m: Machine, asked: Event, c: Conf, c': Conf, external: bool, leaf: Node, events: seq<Event>, next: Node)
    requires WellFormed(m) && leaf < |m.nodes| && asked.Guard? && asked.seen == c.state
    requires Stepped(m, c.(log := c.log + [asked]), c', external, leaf, events, next)
    ensures Stepped(m, c, c', external, leaf, [asked] + events, next)
  {
    assert (c.log + [asked]) + events == c.log + ([asked] + events);
    VisitsAppend([asked], events);
    ReplayAppend(ParentsOf(m), [asked], events, Path(ParentsOf(m), leaf));
  }

  /** The step of a signal takes an external transition. */
  ghost predicate GoesExternal(m: Machine, env: Env, leaf: Node, s: Signal, c: Conf)
    requires WellFormed(m) && leaf < |m.nodes| && s in m.signals
  {
    var path := Path(ParentsOf(m), leaf);
    InheritedOnPath(m, s, path, None);
    var source := Inherited(m, s, path, None);
    && source.Some?
    && var t := Lookup(m.signals[s], source.value).value;
       && t.target.Some?
       && (t.guard.None? || env.answer(c.log, t.guard.value))
  }

  /**
   One signal, delivered in `leaf`.  If it takes an external transition, the state is written
   exactly once, as the last event; every action and guard before that sees the old state; and
   the stack goes from the path of the old leaf to the path of the new one.  Otherwise the state
   is never written and no entry function is called.
   */
  lemma SignalStep(m: Machine, env: Env, leaf: Node, s: Signal, c: Conf) returns (events: seq<Event>, next: Node)
    requires WellFormed(m) && IsLeaf(m, leaf) && s in m.signals && c.state == Some(leaf)
    ensures Stepped(m, c, Exec(env, FlatSignal(m, leaf, s), c), GoesExternal(m, env, leaf, s, c), leaf, events, next)
  {
    var path := Path(ParentsOf(m), leaf);
    InheritedOnPath(m, s, path, None);
    events, next := [], leaf;
    match Inherited(m, s, path, None)
    case None => assert c.log + [] + [] == c.log;
    case Some(source) =>
      LookupInRange(m, s, m.signals[s], 0, source);
      var t := Lookup(m.signals[s], source).value;
      if t.guard.None? {
        events, next := BodyStep(m, env, leaf, source, t, c);
      } else {
        var body := FlatTransition(m, leaf, source, t.(guard := None));
        ExecBranch(env, t.guard.value, body, Prog([], Stop), c);
        var yes := env.answer(c.log, t.guard.value);
        var asked := Guard(t.guard.value, env.id, env.signal, c.state, yes);
        var c1 := c.(log := c.log + [asked]);
        if yes {
          events, next := BodyStep(m, env, leaf, source, t.(guard := None), c1);
        } else {
          assert c1.log + [] + [] == c1.log;
        }
        AskedStep(m, asked, c, Exec(env, FlatSignal(m, leaf, s), c), yes && t.target.Some?, leaf, events, next);
        events := [asked] + events;
      }
  }

  /** The initial transition takes the empty stack to the path of the leaf it ends in. */
  lemma InitStep(m: Machine, env: Env, c: Conf) returns (events: seq<Event>, leaf: Node)
    requires WellFormed(m)
    ensures Enters(m, c, Exec(env, FlatInit(m), c), events, [], m.initTarget, leaf)
  {
    var p := ParentsOf(m);
    var path := Path(p, m.initTarget);
    assert path[0..|path| - 1] == Above(p, m.initTarget) && path[..0] == [];
    var acts, entries := Acts(m.initActions), EntryAll(m, Above(p, m.initTarget));
    ActsMove(p, env, m.initActions, c.state, []);
    EntryAllMoves(m, env, m.initTarget, 0, |path| - 1, c.state);
    EventsAppend(env, acts, entries, c.state);
    ReplayAppend(p, EventsOf(env, acts, c.state), EventsOf(env, entries, c.state), []);
    StepsEvents(env, acts + entries, c);
    ExecPrepend(env, acts + entries, FlatEnter(m, m.initTarget), c);
    var pre := EventsOf(env, acts + entries, c.state);
    var c1 := Conf(c.log + pre, c.state);
    var rest, last := EnterRun(m, env, m.initTarget, c1);
    EntersAfter(m, pre, c, Exec(env, FlatEnter(m, m.initTarget), c1), rest, [], Above(p, m.initTarget), m.initTarget, last);
    events, leaf := pre + rest, last;
  }

  /** The configuration after `Init` and a sequence of signals. */
  ghost function After(m: Machine, id: int, answer: (seq<Event>, Name) -> bool, signals: seq<Signal>): (c: Conf)
    requires WellFormed(m) && forall s :: s in signals ==> s in m.signals
    ensures c.state.Some? && IsLeaf(m, c.state.value)
    ensures Replay(ParentsOf(m), c.log, []) == Some(Path(ParentsOf(m), c.state.value))
    decreases |signals|
  {
    if signals == [] then
      var c0 := Conf([], None);
      var env := Env(id, INITIAL_TRANSITION, answer);
      InitBrackets(m, env);
      Exec(env, FlatInit(m), c0)
    else
      var s := signals[|signals| - 1];
      assert s in signals;
      var c := After(m, id, answer, signals[..|signals| - 1]);
      SignalBrackets(m, Env(id, s, answer), s, c);
      Exec(Env(id, s, answer), FlatSignal(m, c.state.value, s), c)
  }

  lemma InitBrackets(m: Machine, env: Env)
    requires WellFormed(m)
    ensures var c := Exec(env, FlatInit(m), Conf([], None));
            && c.state.Some? && IsLeaf(m, c.state.value)
            && Replay(ParentsOf(m), c.log, []) == Some(Path(ParentsOf(m), c.state.value))
  {
    var events, leaf := InitStep(m, env, Conf([], None));
    assert [] + events + [Wrote(leaf)] == events + [Wrote(leaf)];
    ReplayAppend(ParentsOf(m), events, [Wrote(leaf)], []);
  }

  lemma SignalBrackets(m: Machine, env: Env, s: Signal, c: Conf)
    requires WellFormed(m) && s in m.signals && c.state.Some? && IsLeaf(m, c.state.value)
    requires Replay(ParentsOf(m), c.log, []) == Some(Path(ParentsOf(m), c.state.value))
    ensures var c' := Exec(env, FlatSignal(m, c.state.value, s), c);
            && c'.state.Some? && IsLeaf(m, c'.state.value)
            && Replay(ParentsOf(m), c'.log, []) == Some(Path(ParentsOf(m), c'.state.value))
  {
    var p, leaf := ParentsOf(m), c.state.value;
    var events, next := SignalStep(m, env, leaf, s, c);
    var wrote := if GoesExternal(m, env, leaf, s, c) then [Wrote(next)] else [];
    ReplayAppend(p, c.log, events, []);
    ReplayAppend(p, c.log + events, wrote, []);
  }

  /**
   A log and a final state that the tables explain: the log falls into one piece for the initial
   transition and one for each signal, and each piece is what its signal does in the leaf the piece
   before it ended in.
   */
  ghost predicate RunsBy(m: Machine, id: int, answer: (seq<Event>, Name) -> bool, signals: seq<Signal>,
                         log: seq<Event>, state: State)
    requires WellFormed(m) && forall s :: s in signals ==> s in m.signals
    decreases |signals|
  {
    if signals == [] then Meaning.Started(m, Env(id, INITIAL_TRANSITION, answer), [], log, state)
    else
      var s := signals[|signals| - 1];
      assert s in signals;
      exists was, leaf: Node ::
        && RunsBy(m, id, answer, signals[..|signals| - 1], was, Some(leaf)) && leaf < |m.nodes|
        && Meaning.Reacted(m, Env(id, s, answer), leaf, s, was, log, state)
  }

  /** Every run is one the tables explain. */
  lemma {:induction false} RunMeans(m: Machine, id: int, answer: (seq<Event>, Name) -> bool, signals: seq<Signal>)
    requires WellFormed(m) && forall s :: s in signals ==> s in m.signals
    ensures var c := After(m, id, answer, signals); RunsBy(m, id, answer, signals, c.log, c.state)
    decreases |signals|
  {
    if signals == [] {
      Meaning.InitMeans(m, Env(id, INITIAL_TRANSITION, answer), Conf([], None));
    } else {
      var s, before := signals[|signals| - 1], signals[..|signals| - 1];
      assert s in signals;
      var c := After(m, id, answer, before);
      RunMeans(m, id, answer, before);
      Meaning.StepMeans(m, Env(id, s, answer), c.state.value, s, c);
      assert RunsBy(m, id, answer, before, c.log, Some(c.state.value));
    }
  }

  /** Whatever the guards answer, a fresh instance driven by the runtime does the run `After` describes. */
  method Drive(m: Machine, id: int, answer: (seq<Event>, Name) -> bool, signals: seq<Signal>)
    returns (log: seq<Event>, state: State)
    requires WellFormed(m) && forall s :: s in signals ==> s in m.signals
    ensures Conf(log, state) == After(m, id, answer, signals)
    ensures RunsBy(m, id, answer, signals, log, state)
  {
    var h := new Handlers(answer);
    var sm := new StateMachine(m);
    var ok := sm.Init(id, h);
    for i := 0 to |signals|
      invariant !sm.core.running && sm.core.id == id
      invariant Conf(h.log, sm.core.state) == After(m, id, answer, signals[..i])
    {
      assert signals[..i + 1][..i] == signals[..i];
      assert forall s :: s in signals[..i + 1] ==> s in signals;
      ok := sm.SendSignal(signals[i], h);
    }
    assert signals[..|signals|] == signals;
    log, state := h.log, sm.core.state;
    assert RunsBy(m, id, answer, signals, log, state) by {
      RunMeans(m, id, answer, signals);
    }
  }
}
