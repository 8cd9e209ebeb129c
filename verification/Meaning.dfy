/**
 The calls of a step, told from the machine's own tables: which transition a signal takes, and which
 actions and guards are called in which order, given what the guards answered.  The definitions here
 share nothing with the flattened programs but the paths.
 */
module Meaning {
  import opened Wrappers
  import opened Hierarchy
  import opened Flat

  /** A call to the owner. */
  datatype Call = Did(name: Name) | Asked(name: Name, answer: bool)

  /** The calls among the events of a log. */
  function Calls(events: seq<Event>): seq<Call> {
    if events == [] then []
    else
      var rest := Calls(events[1..]);
      match events[0]
      case Action(name, _, _, _) => [Did(name)] + rest
      case Guard(name, _, _, _, answer) => [Asked(name, answer)] + rest
      case _ => rest
  }

  // ----- The tables -----

  /** The entry actions of a node; a choice has none. */
  function EntryOf(m: Machine, n: Node): seq<Name> {
    if n < |m.nodes| && !m.nodes[n].Choice? then m.nodes[n].entry else []
  }

  function ExitOf(m: Machine, n: Node): seq<Name> {
    if n < |m.nodes| && !m.nodes[n].Choice? then m.nodes[n].exit else []
  }

  /** The entry actions of part of a path, outermost node first. */
  function Entries(m: Machine, nodes: seq<Node>): seq<Name> {
    if nodes == [] then [] else EntryOf(m, nodes[0]) + Entries(m, nodes[1..])
  }

  /** The exit actions of part of a path, innermost node first. */
  function Exits(m: Machine, nodes: seq<Node>): seq<Name> {
    if nodes == [] then [] else Exits(m, nodes[1..]) + ExitOf(m, nodes[0])
  }

  /** `calls` begins with the actions `names`. */
  predicate Begins(names: seq<Name>, calls: seq<Call>) {
    |names| <= |calls| && forall i :: 0 <= i < |names| ==> calls[i] == Did(names[i])
  }

  /** `calls` is the actions `names` and nothing more. */
  predicate Just(names: seq<Name>, calls: seq<Call>) {
    Begins(names, calls) && |calls| == |names|
  }

  /** Entering `n` makes `calls` and ends in `leaf`. */
  ghost predicate EntersBy(m: Machine, n: Node, calls: seq<Call>, leaf: Node)
    requires WellFormed(m) && n < |m.nodes|
    decreases EnterRank(m)[n], 0
  {
    var p := ParentsOf(m);
    match m.nodes[n]
    case Leaf(_, entry, _) => leaf == n && Just(entry, calls)
    case Composite(_, entry, _, initActions, target) =>
      SuccessorLower(m, n, target);
      assert NodeWellFormed(m, n);
      AboveLonger(p, n, target);
      var names := entry + initActions + Entries(m, Above(p, target)[|Path(p, n)|..]);
      Begins(names, calls) && EntersBy(m, target, calls[|names|..], leaf)
    case Choice(_, guard, thenActions, thenTarget, elseActions, elseTarget) =>
      SuccessorLower(m, n, thenTarget);
      SuccessorLower(m, n, elseTarget);
      && calls != [] && calls[0].Asked? && calls[0].name == guard
      && if calls[0].answer then GoesBy(m, n, n, thenActions, thenTarget, calls[1..], leaf)
         else GoesBy(m, n, n, elseActions, elseTarget, calls[1..], leaf)
  }

  /** Going from `source`, while `cur` is the innermost node, to `target` makes `calls` and ends in `leaf`. */
  ghost predicate GoesBy(m: Machine, cur: Node, source: Node, actions: seq<Name>, target: Node,
                         calls: seq<Call>, leaf: Node)
    requires WellFormed(m) && cur < |m.nodes| && source < |m.nodes| && target < |m.nodes|
    requires source in Path(ParentsOf(m), cur)
    decreases EnterRank(m)[target], 1
  {
    var p := ParentsOf(m);
    var from, to, k := Path(p, cur), Above(p, target), Kept(p, source, target);
    SourceShorter(p, cur, source);
    var names := Exits(m, from[k..]) + actions + Entries(m, to[k..]);
    Begins(names, calls) && EntersBy(m, target, calls[|names|..], leaf)
  }

  /** Transition `t` of `source`, in `leaf`, makes `calls` and ends in `next`. */
  ghost predicate TakesBy(m: Machine, leaf: Node, source: Node, t: Transition, calls: seq<Call>, next: Node)
    requires WellFormed(m) && leaf < |m.nodes| && source in Path(ParentsOf(m), leaf)
    requires t.target.Some? ==> t.target.value < |m.nodes|
  {
    if t.target.None? then Just(t.actions, calls) && next == leaf
    else GoesBy(m, leaf, source, t.actions, t.target.value, calls, next)
  }

  /** Entry `i` of the list is the first with source `n`. */
  predicate FirstOf(list: seq<(Node, Transition)>, n: Node, i: nat) {
    i < |list| && list[i].0 == n && forall j :: 0 <= j < i ==> list[j].0 != n
  }

  /** `n` is the source of some transition. */
  predicate Handles(list: seq<(Node, Transition)>, n: Node) {
    exists i :: 0 <= i < |list| && list[i].0 == n
  }

  /** `path[k]` is the innermost node of a path with a transition. */
  predicate Innermost(list: seq<(Node, Transition)>, path: seq<Node>, k: nat) {
    k < |path| && Handles(list, path[k]) && forall j :: k < j < |path| ==> !Handles(list, path[j])
  }

  /**
   What a signal does in `leaf`: nothing if no state of the path has a transition on it; otherwise the
   first transition of the innermost state that has one is the only one tried, and a false guard ends it.
   */
  ghost predicate ReactsBy(m: Machine, leaf: Node, s: Signal, calls: seq<Call>, next: Node)
    requires WellFormed(m) && leaf < |m.nodes| && s in m.signals
  {
    var path, list := Path(ParentsOf(m), leaf), m.signals[s];
    || ((forall n :: n in path ==> !Handles(list, n)) && calls == [] && next == leaf)
    || exists k: nat, i: nat :: Innermost(list, path, k) && FirstOf(list, path[k], i)
         && TriesBy(m, leaf, path[k], list[i].1, calls, next)
  }

  ghost predicate TriesBy(m: Machine, leaf: Node, source: Node, t: Transition, calls: seq<Call>, next: Node)
    requires WellFormed(m) && leaf < |m.nodes|
  {
    && source in Path(ParentsOf(m), leaf) && (t.target.Some? ==> t.target.value < |m.nodes|)
    && if t.guard.None? then TakesBy(m, leaf, source, t, calls, next)
       else
         && calls != [] && calls[0].Asked? && calls[0].name == t.guard.value
         && if calls[0].answer then TakesBy(m, leaf, source, t, calls[1..], next)
            else calls[1..] == [] && next == leaf
  }

  /** The initial transition. */
  ghost predicate StartsBy(m: Machine, calls: seq<Call>, leaf: Node)
    requires WellFormed(m)
  {
    var names := m.initActions + Entries(m, Above(ParentsOf(m), m.initTarget));
    Begins(names, calls) && EntersBy(m, m.initTarget, calls[|names|..], leaf)
  }

  /** A call carries the id and the signal of the step, and a guard gives the owner's answer on the history before it. */
  ghost predicate AnsweredAt(env: Env, log: seq<Event>, k: nat)
    requires k < |log|
  {
    match log[k]
    case Action(_, id, signal, _) => id == env.id && signal == env.signal
    case Guard(name, id, signal, _, answer) =>
      id == env.id && signal == env.signal && answer == env.answer(log[..k], name)
    case _ => true
  }

  ghost predicate Answered(env: Env, log: seq<Event>, from: nat) {
    forall k :: from <= k < |log| ==> AnsweredAt(env, log, k)
  }

  // ----- Programs and their calls -----

  /** The statements `ops` followed by `tail` can make `calls` and take the state from `before` to `after`. */
  ghost predicate Traces(ops: seq<Op>, tail: Tail, calls: seq<Call>, before: State, after: State)
    decreases tail, |ops|
  {
    if ops != [] then
      match ops[0]
      case Act(name) => calls != [] && calls[0] == Did(name) && Traces(ops[1..], tail, calls[1..], before, after)
      case SetState(leaf) => Traces(ops[1..], tail, calls, Some(leaf), after)
      case _ => Traces(ops[1..], tail, calls, before, after)
    else
      match tail
      case Stop => calls == [] && after == before
      case If(g, thn, els) =>
        && calls != [] && calls[0].Asked? && calls[0].name == g
        && if calls[0].answer then Traces(thn.ops, thn.tail, calls[1..], before, after)
           else Traces(els.ops, els.tail, calls[1..], before, after)
  }

  /** Every execution is a trace, with the answers the oracle gives. */
  lemma {:induction false} ExecTrace(env: Env, ops: seq<Op>, tail: Tail, c: Conf) returns (events: seq<Event>)
    ensures var c' := ExecTail(env, tail, Steps(env, ops, c));
            && c'.log == c.log + events && Traces(ops, tail, Calls(events), c.state, c'.state)
            && Answered(env, c'.log, |c.log|)
    decreases tail, |ops|
  {
    if ops != [] {
      var c1 := Step(env, ops[0], c);
      var e := c1.log[|c.log|];
      assert c1.log == c.log + [e];
      var rest := ExecTrace(env, ops[1..], tail, c1);
      events := [e] + rest;
      assert events[0] == e && events[1..] == rest;
      AnsweredMore(env, c.log, e, rest);
    } else if tail.If? {
      var yes := env.answer(c.log, tail.guard);
      var e := Guard(tail.guard, env.id, env.signal, c.state, yes);
      var next := if yes then tail.thn else tail.els;
      var rest := ExecTrace(env, next.ops, next.tail, Conf(c.log + [e], c.state));
      events := [e] + rest;
      assert events[0] == e && events[1..] == rest;
      AnsweredMore(env, c.log, e, rest);
    } else {
      events := [];
      assert c.log + [] == c.log;
    }
  }

  lemma AnsweredMore(env: Env, log: seq<Event>, e: Event, rest: seq<Event>)
    requires AnsweredAt(env, log + [e], |log|) && Answered(env, log + [e] + rest, |log| + 1)
    ensures log + [e] + rest == log + ([e] + rest)
    ensures Answered(env, log + ([e] + rest), |log|)
  {
    var all := log + ([e] + rest);
    assert all == log + [e] + rest;
    assert all[|log|] == e && all[..|log|] == log && (log + [e])[..|log|] == log;
    assert AnsweredAt(env, all, |log|);
  }

  // ----- What the statements of the flattened programs call -----

  /** Statements that call the actions `names` and do not set the state. */
  predicate Only(ops: seq<Op>, names: seq<Name>) {
    if ops == [] then names == []
    else if ops[0].Act? then names != [] && names[0] == ops[0].name && Only(ops[1..], names[1..])
    else !ops[0].SetState? && Only(ops[1..], names)
  }

  /** They are called before whatever follows them. */
  lemma {:induction false} OnlyFirst(ops: seq<Op>, names: seq<Name>, more: seq<Op>, tail: Tail,
                                     calls: seq<Call>, before: State, after: State)
    requires Only(ops, names) && Traces(ops + more, tail, calls, before, after)
    ensures Begins(names, calls) && Traces(more, tail, calls[|names|..], before, after)
  {
    if ops == [] {
      assert ops + more == more && calls[0..] == calls;
    } else {
      assert (ops + more)[1..] == ops[1..] + more;
      if ops[0].Act? {
        OnlyFirst(ops[1..], names[1..], more, tail, calls[1..], before, after);
        assert calls[1..][|names| - 1..] == calls[|names|..];
        assert forall i :: 0 < i < |names| ==> calls[i] == calls[1..][i - 1] && names[i] == names[1..][i - 1];
      } else {
        OnlyFirst(ops[1..], names, more, tail, calls, before, after);
      }
    }
  }

  lemma {:induction false} OnlyAppend(a: seq<Op>, x: seq<Name>, b: seq<Op>, y: seq<Name>)
    requires Only(a, x) && Only(b, y)
    ensures Only(a + b, x + y)
  {
    if a == [] {
      assert a + b == b && x + y == y;
    } else {
      assert (a + b)[1..] == a[1..] + b;
      if a[0].Act? {
        assert (x + y)[1..] == x[1..] + y;
        OnlyAppend(a[1..], x[1..], b, y);
      } else {
        OnlyAppend(a[1..], x, b, y);
      }
    }
  }

  lemma OnlyThree(a: seq<Op>, x: seq<Name>, b: seq<Op>, y: seq<Name>, c: seq<Op>, z: seq<Name>)
    requires Only(a, x) && Only(b, y) && Only(c, z)
    ensures Only(a + b + c, x + y + z)
  {
    OnlyAppend(a, x, b, y);
    OnlyAppend(a + b, x + y, c, z);
  }

  /** A label calls nothing. */
  lemma OnlyLabel(op: Op, ops: seq<Op>, names: seq<Name>)
    requires !op.Act? && !op.SetState? && Only(ops, names)
    ensures Only([op] + ops, names)
  {
    assert ([op] + ops)[1..] == ops;
  }

  lemma {:induction false} ActsOnly(names: seq<Name>)
    ensures Only(Acts(names), names)
  {
    if names != [] {
      var rest := Acts(names[1..]);
      ActsOnly(names[1..]);
      assert ([Act(names[0])] + rest)[1..] == rest;
    }
  }

  lemma EntryOnly(m: Machine, n: Node)
    ensures Only(EntryOps(m, n), EntryOf(m, n))
  {
    if IsState(m, n) {
      ActsOnly(m.nodes[n].entry);
      OnlyLabel(Arrive(n), Acts(m.nodes[n].entry), m.nodes[n].entry);
    }
  }

  lemma ExitOnly(m: Machine, n: Node)
    ensures Only(ExitOps(m, n), ExitOf(m, n))
  {
    if IsState(m, n) {
      ActsOnly(m.nodes[n].exit);
      OnlyLabel(Leave(n), Acts(m.nodes[n].exit), m.nodes[n].exit);
    }
  }

  lemma {:induction false} EntriesOnly(m: Machine, nodes: seq<Node>)
    ensures Only(EntryAll(m, nodes), Entries(m, nodes))
  {
    if nodes != [] {
      EntriesOnly(m, nodes[1..]);
      EntryOnly(m, nodes[0]);
      OnlyAppend(EntryOps(m, nodes[0]), EntryOf(m, nodes[0]), EntryAll(m, nodes[1..]), Entries(m, nodes[1..]));
    }
  }

  lemma {:induction false} ExitsOnly(m: Machine, nodes: seq<Node>)
    ensures Only(ExitAll(m, nodes), Exits(m, nodes))
  {
    if nodes != [] {
      ExitsOnly(m, nodes[1..]);
      ExitOnly(m, nodes[0]);
      OnlyAppend(ExitAll(m, nodes[1..]), Exits(m, nodes[1..]), ExitOps(m, nodes[0]), ExitOf(m, nodes[0]));
    }
  }

  // ----- The meaning of the flattened programs -----

  ghost predicate ProgTraces(prog: Prog, calls: seq<Call>, before: State, after: State) {
    Traces(prog.ops, prog.tail, calls, before, after)
  }

  lemma PrependFirst(ops: seq<Op>, names: seq<Name>, prog: Prog, calls: seq<Call>, before: State, after: State)
    requires Only(ops, names) && ProgTraces(Prepend(ops, prog), calls, before, after)
    ensures Begins(names, calls) && ProgTraces(prog, calls[|names|..], before, after)
  {
    OnlyFirst(ops, names, prog.ops, prog.tail, calls, before, after);
  }

  lemma {:induction false} EnterMeans(m: Machine, n: Node, calls: seq<Call>, before: State, after: State)
    requires WellFormed(m) && n < |m.nodes| && ProgTraces(FlatEnter(m, n), calls, before, after)
    ensures after.Some? && EntersBy(m, n, calls, after.value)
    decreases EnterRank(m)[n], 0
  {
    match m.nodes[n]
    case Leaf(_, _, _) => LeafMeans(m, n, calls, before, after);
    case Composite(_, _, _, _, target) =>
      SuccessorLower(m, n, target);
      var names := CompositeNames(m, n, target);
      CompositeFirst(m, n, target, calls, before, after);
      EnterMeans(m, target, calls[|names|..], before, after);
    case Choice(_, guard, thenActs, thenTarget, elseActs, elseTarget) =>
      SuccessorLower(m, n, thenTarget);
      SuccessorLower(m, n, elseTarget);
      ChoiceFirst(m, n, calls, before, after);
      if calls[0].answer {
        GoMeans(m, n, n, thenActs, thenTarget, calls[1..], before, after);
      } else {
        GoMeans(m, n, n, elseActs, elseTarget, calls[1..], before, after);
      }
  }

  lemma LeafMeans(m: Machine, n: Node, calls: seq<Call>, before: State, after: State)
    requires WellFormed(m) && n < |m.nodes| && m.nodes[n].Leaf? && ProgTraces(FlatEnter(m, n), calls, before, after)
    ensures after == Some(n) && EntersBy(m, n, calls, n)
  {
    var entry, ops, last := m.nodes[n].entry, [Visit(n)] + EntryOps(m, n), [SetState(n)];
    EntryOnly(m, n);
    OnlyLabel(Visit(n), EntryOps(m, n), entry);
    assert last[1..] == [];
    OnlyFirst(ops, entry, last, Stop, calls, before, after);
  }

  lemma AskFirst(n: Node, guard: Name, thn: Prog, els: Prog, calls: seq<Call>, before: State, after: State)
    requires Traces([Visit(n)], If(guard, thn, els), calls, before, after)
    ensures calls != [] && calls[0].Asked? && calls[0].name == guard
    ensures ProgTraces(if calls[0].answer then thn else els, calls[1..], before, after)
  {
    assert [Visit(n)][1..] == [];
    assert Traces([], If(guard, thn, els), calls, before, after);
  }

  lemma ChoiceFirst(m: Machine, n: Node, calls: seq<Call>, before: State, after: State)
    requires WellFormed(m) && n < |m.nodes| && m.nodes[n].Choice? && ProgTraces(FlatEnter(m, n), calls, before, after)
    ensures var c := m.nodes[n];
            && c.thenTarget < |m.nodes| && c.elseTarget < |m.nodes|
            && calls != [] && calls[0].Asked? && calls[0].name == c.guard
            && if calls[0].answer then ProgTraces(FlatGo(m, n, n, c.thenActions, c.thenTarget), calls[1..], before, after)
               else ProgTraces(FlatGo(m, n, n, c.elseActions, c.elseTarget), calls[1..], before, after)
  {
    var c := m.nodes[n];
    SuccessorLower(m, n, c.thenTarget);
    SuccessorLower(m, n, c.elseTarget);
    AskFirst(n, c.guard, FlatGo(m, n, n, c.thenActions, c.thenTarget), FlatGo(m, n, n, c.elseActions, c.elseTarget),
             calls, before, after);
  }

  /** The actions of a composite's entry and initial transition. */
  ghost function CompositeNames(m: Machine, n: Node, target: Node): seq<Name>
    requires WellFormed(m) && n < |m.nodes| && m.nodes[n].Composite? && target == m.nodes[n].target
  {
    var p := ParentsOf(m);
    assert NodeWellFormed(m, n);
    AboveLonger(p, n, target);
    m.nodes[n].entry + m.nodes[n].initActions + Entries(m, Above(p, target)[|Path(p, n)|..])
  }

  lemma CompositeFirst(m: Machine, n: Node, target: Node, calls: seq<Call>, before: State, after: State)
    requires WellFormed(m) && n < |m.nodes| && m.nodes[n].Composite? && target == m.nodes[n].target
    requires ProgTraces(FlatEnter(m, n), calls, before, after)
    ensures target < |m.nodes|
    ensures var names := CompositeNames(m, n, target);
            Begins(names, calls) && ProgTraces(FlatEnter(m, target), calls[|names|..], before, after)
  {
    assert NodeWellFormed(m, n);
    SuccessorLower(m, n, target);
    CompositeOnly(m, n, target);
    PrependFirst([Visit(n)] + InitialOps(m, n), CompositeNames(m, n, target), FlatEnter(m, target), calls, before, after);
  }

  lemma CompositeOnly(m: Machine, n: Node, target: Node)
    requires WellFormed(m) && n < |m.nodes| && m.nodes[n].Composite? && target == m.nodes[n].target
    ensures Only([Visit(n)] + InitialOps(m, n), CompositeNames(m, n, target))
  {
    var p, node := ParentsOf(m), m.nodes[n];
    assert NodeWellFormed(m, n);
    AboveLonger(p, n, target);
    var down := Above(p, target)[|Path(p, n)|..];
    EntryOnly(m, n);
    ActsOnly(node.initActions);
    EntriesOnly(m, down);
    OnlyThree(EntryOps(m, n), node.entry, Acts(node.initActions), node.initActions, EntryAll(m, down), Entries(m, down));
    OnlyLabel(Visit(n), InitialOps(m, n), CompositeNames(m, n, target));
  }

  lemma GoOnly(m: Machine, cur: Node, source: Node, actions: seq<Name>, target: Node)
    requires WellFormed(m) && cur < |m.nodes| && source < |m.nodes| && target < |m.nodes|
    requires source in Path(ParentsOf(m), cur)
    ensures var p := ParentsOf(m);
            var from, to, k := Path(p, cur), Above(p, target), Kept(p, source, target);
            && k <= |from| && k <= |to|
            && Only(GoOps(m, cur, source, actions, target), Exits(m, from[k..]) + actions + Entries(m, to[k..]))
  {
    var p := ParentsOf(m);
    var from, to, k := Path(p, cur), Above(p, target), Kept(p, source, target);
    SourceShorter(p, cur, source);
    ExitsOnly(m, from[k..]);
    ActsOnly(actions);
    EntriesOnly(m, to[k..]);
    OnlyThree(ExitAll(m, from[k..]), Exits(m, from[k..]), Acts(actions), actions, EntryAll(m, to[k..]), Entries(m, to[k..]));
  }

  lemma {:induction false} GoMeans(m: Machine, cur: Node, source: Node, actions: seq<Name>, target: Node,
                                   calls: seq<Call>, before: State, after: State)
    requires WellFormed(m) && cur < |m.nodes| && source < |m.nodes| && target < |m.nodes|
    requires source in Path(ParentsOf(m), cur)
    requires ProgTraces(FlatGo(m, cur, source, actions, target), calls, before, after)
    ensures after.Some? && GoesBy(m, cur, source, actions, target, calls, after.value)
    decreases EnterRank(m)[target], 1
  {
    var p := ParentsOf(m);
    var from, to, k := Path(p, cur), Above(p, target), Kept(p, source, target);
    GoOnly(m, cur, source, actions, target);
    var names := Exits(m, from[k..]) + actions + Entries(m, to[k..]);
    PrependFirst(GoOps(m, cur, source, actions, target), names, FlatEnter(m, target), calls, before, after);
    EnterMeans(m, target, calls[|names|..], before, after);
  }

  // ----- Which transition is taken -----

  lemma {:induction false} LookupMeans(list: seq<(Node, Transition)>, n: Node) returns (i: nat)
    ensures Lookup(list, n).Some? <==> Handles(list, n)
    ensures Lookup(list, n).Some? ==> FirstOf(list, n, i) && Lookup(list, n).value == list[i].1
  {
    i := 0;
    if list != [] && list[0].0 != n {
      var j := LookupMeans(list[1..], n);
      i := j + 1;
      if Handles(list, n) {
        var k :| 0 <= k < |list| && list[k].0 == n;
        assert list[1..][k - 1].0 == n;
      }
      if Lookup(list, n).Some? {
        assert list[1..][j] == list[i];
        forall k | 0 <= k < i
          ensures list[k].0 != n
        {
          assert k > 0 ==> list[1..][k - 1] == list[k];
        }
      }
    } else if list != [] {
      assert list[0].0 == n;
    }
  }

  /** The inherited handler is the innermost one. */
  lemma {:induction false} InheritedMeans(m: Machine, s: Signal, path: seq<Node>, sofar: Option<Node>) returns (k: nat)
    requires s in m.signals
    ensures var h, list := Inherited(m, s, path, sofar), m.signals[s];
            if forall n :: n in path ==> !Handles(list, n) then h == sofar
            else Innermost(list, path, k) && h == Some(path[k])
  {
    k := 0;
    var list := m.signals[s];
    if path != [] {
      var _ := LookupMeans(list, path[0]);
      var j := InheritedMeans(m, s, path[1..], if Lookup(list, path[0]).Some? then Some(path[0]) else sofar);
      if n :| n in path[1..] && Handles(list, n) {
        assert n in path;
        k := j + 1;
        assert path[1..][j] == path[k];
        forall i | k < i < |path|
          ensures !Handles(list, path[i])
        {
          assert path[1..][i - 1] == path[i];
        }
      } else {
        forall i | 0 < i < |path|
          ensures !Handles(list, path[i])
        {
          assert path[1..][i - 1] == path[i];
        }
        assert forall n :: n in path ==> n == path[0] || n in path[1..];
      }
    }
  }

  lemma TakeMeans(m: Machine, leaf: Node, source: Node, t: Transition, calls: seq<Call>, before: State, after: State)
    requires WellFormed(m) && leaf < |m.nodes| && source in Path(ParentsOf(m), leaf) && before == Some(leaf)
    requires t.target.Some? ==> t.target.value < |m.nodes|
    requires ProgTraces(FlatTransition(m, leaf, source, t), calls, before, after)
    ensures after.Some? && TriesBy(m, leaf, source, t, calls, after.value)
  {
    var rest := if t.guard.None? then calls else calls[1..];
    if t.guard.None? || calls[0].answer {
      if t.target.Some? {
        GoMeans(m, leaf, source, t.actions, t.target.value, rest, before, after);
      } else {
        ActsOnly(t.actions);
        assert Acts(t.actions) + [] == Acts(t.actions);
        OnlyFirst(Acts(t.actions), t.actions, [], Stop, rest, before, after);
      }
    } else {
      assert Traces([], Stop, rest, before, after);
    }
  }

  lemma SignalMeans(m: Machine, leaf: Node, s: Signal, calls: seq<Call>, after: State)
    requires WellFormed(m) && leaf < |m.nodes| && s in m.signals
    requires ProgTraces(FlatSignal(m, leaf, s), calls, Some(leaf), after)
    ensures after.Some? && ReactsBy(m, leaf, s, calls, after.value)
  {
    var path, list := Path(ParentsOf(m), leaf), m.signals[s];
    InheritedOnPath(m, s, path, None);
    var k := InheritedMeans(m, s, path, None);
    if exists n :: n in path && Handles(list, n) {
      var source := path[k];
      var i := LookupMeans(list, source);
      LookupInRange(m, s, list, 0, source);
      TakeMeans(m, leaf, source, list[i].1, calls, Some(leaf), after);
    }
  }

  // ----- Steps -----

  /** From `was` on, the log is what signal `s` does in `leaf`, and the step ends in `state`. */
  ghost predicate Reacted(m: Machine, env: Env, leaf: Node, s: Signal, was: seq<Event>, log: seq<Event>, state: State)
    requires WellFormed(m) && leaf < |m.nodes| && s in m.signals
  {
    && was <= log && state.Some?
    && ReactsBy(m, leaf, s, Calls(log[|was|..]), state.value)
    && Answered(env, log, |was|)
  }

  /** From `was` on, the log is what the initial transition does. */
  ghost predicate Started(m: Machine, env: Env, was: seq<Event>, log: seq<Event>, state: State)
    requires WellFormed(m)
  {
    was <= log && state.Some? && StartsBy(m, Calls(log[|was|..]), state.value) && Answered(env, log, |was|)
  }

  /**
   One signal: the events it adds to the log are the calls the tables say, the state it ends in is the
   one they say, and each guard answered what the owner answers on the history before it.
   */
  lemma StepMeans(m: Machine, env: Env, leaf: Node, s: Signal, c: Conf)
    requires WellFormed(m) && leaf < |m.nodes| && s in m.signals && c.state == Some(leaf)
    ensures var c' := Exec(env, FlatSignal(m, leaf, s), c);
            Reacted(m, env, leaf, s, c.log, c'.log, c'.state)
  {
    var prog := FlatSignal(m, leaf, s);
    var events := ExecTrace(env, prog.ops, prog.tail, c);
    SignalMeans(m, leaf, s, Calls(events), Exec(env, prog, c).state);
    assert (c.log + events)[|c.log|..] == events;
  }

  /** The same for the initial transition. */
  lemma InitMeans(m: Machine, env: Env, c: Conf)
    requires WellFormed(m)
    ensures var c' := Exec(env, FlatInit(m), c);
            Started(m, env, c.log, c'.log, c'.state)
  {
    var prog, down := FlatInit(m), Above(ParentsOf(m), m.initTarget);
    var events := ExecTrace(env, prog.ops, prog.tail, c);
    ActsOnly(m.initActions);
    EntriesOnly(m, down);
    OnlyAppend(Acts(m.initActions), m.initActions, EntryAll(m, down), Entries(m, down));
    var names, after := m.initActions + Entries(m, down), Exec(env, prog, c).state;
    PrependFirst(Acts(m.initActions) + EntryAll(m, down), names, FlatEnter(m, m.initTarget), Calls(events), c.state, after);
    EnterMeans(m, m.initTarget, Calls(events)[|names|..], c.state, after);
    assert (c.log + events)[|c.log|..] == events;
  }
}
