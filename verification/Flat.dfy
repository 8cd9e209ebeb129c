/**
 State machines and their flattened form.

 A `Machine` is what `fpp_state_machine!` reads: states and choices with their parent,
 transitions listed by signal.  The reference compiler flattens it: one program per
 (leaf, signal) pair with every exit and entry action spelled out.  This module gives
 the flattened programs, built from root-to-node paths and their common prefixes, and
 what it means to execute one.
 */
module Flat {
  import opened Wrappers
  import opened Hierarchy

  type Name = string

  /** Signals are numbered from 1; 0 stands for the initial transition. */
  type Signal = int
  const INITIAL_TRANSITION: Signal := 0

  datatype NodeDef =
    | Leaf(parent: Option<Node>, entry: seq<Name>, exit: seq<Name>)
    | Composite(parent: Option<Node>, entry: seq<Name>, exit: seq<Name>, initActions: seq<Name>, target: Node)
    | Choice(parent: Option<Node>, guard: Name,
             thenActions: seq<Name>, thenTarget: Node, elseActions: seq<Name>, elseTarget: Node)

  /** Without a target nothing is left or entered. */
  datatype Transition = Transition(guard: Option<Name>, actions: seq<Name>, target: Option<Node>)

  datatype Machine = Machine(
    nodes: seq<NodeDef>,
    signals: map<Signal, seq<(Node, Transition)>>,
    initActions: seq<Name>,
    initTarget: Node)

  function ParentsOf(m: Machine): (p: Parents)
    ensures |p| == |m.nodes|
    ensures forall n :: 0 <= n < |p| ==> p[n] == m.nodes[n].parent
  {
    seq(|m.nodes|, n requires 0 <= n < |m.nodes| => m.nodes[n].parent)
  }

  /** The transition of `n` in a signal's list: the first entry with that source. */
  function Lookup(list: seq<(Node, Transition)>, n: Node): Option<Transition> {
    if list == [] then None
    else if list[0].0 == n then Some(list[0].1)
    else Lookup(list[1..], n)
  }

  // ----- Well-formed machines -----

  /** The nodes entered directly from inside the entry function of `n`. */
  ghost function Successors(m: Machine, n: Node): set<Node>
    requires n < |m.nodes|
  {
    match m.nodes[n]
    case Leaf(_, _, _) => {}
    case Composite(_, _, _, _, target) => {target}
    case Choice(_, _, _, thenTarget, _, elseTarget) => {thenTarget, elseTarget}
  }

  ghost predicate EnterRanked(m: Machine, rank: seq<nat>) {
    && |rank| == |m.nodes|
    && forall n :: 0 <= n < |m.nodes| ==> EnterRankedAt(m, rank, n)
  }

  ghost predicate EnterRankedAt(m: Machine, rank: seq<nat>, n: Node)
    requires |rank| == |m.nodes| && n < |m.nodes|
  {
    forall t :: t in Successors(m, n) ==> t < |m.nodes| && rank[t] < rank[n]
  }

  /** No node has a choice as parent, and a composite's initial transition goes to a strict descendant. */
  ghost predicate NodeWellFormed(m: Machine, n: Node)
    requires Forest(ParentsOf(m)) && n < |m.nodes|
  {
    var p, d := ParentsOf(m), m.nodes[n];
    && (d.parent.Some? ==> d.parent.value < |m.nodes| && !m.nodes[d.parent.value].Choice?)
    && (d.Composite? ==> d.target < |m.nodes| && n in Above(p, d.target))
  }

  ghost predicate WellFormed(m: Machine) {
    && Forest(ParentsOf(m))
    && (forall n :: 0 <= n < |m.nodes| ==> NodeWellFormed(m, n))
    // initial and choice edges stay inside the machine and never go round in a circle
    && (exists rank :: EnterRanked(m, rank))
    && m.initTarget < |m.nodes|
    && (forall s, i :: s in m.signals && 0 <= i < |m.signals[s]| && m.signals[s][i].1.target.Some? ==>
                         m.signals[s][i].1.target.value < |m.nodes|)
  }

  ghost function EnterRank(m: Machine): (rank: seq<nat>)
    requires WellFormed(m)
    ensures EnterRanked(m, rank)
  {
    var rank :| EnterRanked(m, rank);
    rank
  }

  lemma SuccessorLower(m: Machine, n: Node, t: Node)
    requires WellFormed(m) && n < |m.nodes| && t in Successors(m, n)
    ensures t < |m.nodes| && EnterRank(m)[t] < EnterRank(m)[n]
  {
    var rank := EnterRank(m);
    assert EnterRankedAt(m, rank, n);
  }

  ghost predicate IsLeaf(m: Machine, n: Node) {
    n < |m.nodes| && m.nodes[n].Leaf?
  }

  lemma LookupInRange(m: Machine, s: Signal, list: seq<(Node, Transition)>, from: nat, n: Node)
    requires WellFormed(m) && s in m.signals && from <= |m.signals[s]| && list == m.signals[s][from..]
    ensures var t := Lookup(list, n); t.Some? && t.value.target.Some? ==> t.value.target.value < |m.nodes|
    decreases |list|
  {
    if list != [] && list[0].0 != n {
      LookupInRange(m, s, list[1..], from + 1, n);
    } else if list != [] {
      assert list[0] == m.signals[s][from];
    }
  }

  // ----- Flattened programs -----

  /**
   One statement.  `Arrive`, `Leave` and `Visit` are labels: they mark where the spelled
   out actions of a state begin and where an entry function starts, and call nothing.
   */
  datatype Op =
    | Act(name: Name)
    | SetState(leaf: Node)
    | Arrive(state: Node)
    | Leave(state: Node)
    | Visit(node: Node)

  /** Statements, then either the end or a two-way branch on a guard. */
  datatype Prog = Prog(ops: seq<Op>, tail: Tail)
  datatype Tail = Stop | If(guard: Name, thn: Prog, els: Prog)

  function Prepend(ops: seq<Op>, prog: Prog): Prog {
    prog.(ops := ops + prog.ops)
  }

  /** One call per name, in order. */
  function Acts(names: seq<Name>): seq<Op> {
    if names == [] then [] else [Act(names[0])] + Acts(names[1..])
  }

  predicate IsState(m: Machine, n: Node) {
    n < |m.nodes| && !m.nodes[n].Choice?
  }

  function EntryOps(m: Machine, n: Node): seq<Op> {
    if IsState(m, n) then [Arrive(n)] + Acts(m.nodes[n].entry) else []
  }

  function ExitOps(m: Machine, n: Node): seq<Op> {
    if IsState(m, n) then [Leave(n)] + Acts(m.nodes[n].exit) else []
  }

  /** Entry statements of a stretch of nodes, in order. */
  function EntryAll(m: Machine, nodes: seq<Node>): seq<Op> {
    if nodes == [] then [] else EntryOps(m, nodes[0]) + EntryAll(m, nodes[1..])
  }

  /** Exit statements of a stretch of nodes, last node first. */
  function ExitAll(m: Machine, nodes: seq<Node>): seq<Op> {
    if nodes == [] then [] else ExitAll(m, nodes[1..]) + ExitOps(m, nodes[0])
  }

  /** A composite's entry and initial transition, up to its target. */
  ghost function InitialOps(m: Machine, n: Node): seq<Op>
    requires WellFormed(m) && n < |m.nodes| && m.nodes[n].Composite?
  {
    var p, target := ParentsOf(m), m.nodes[n].target;
    assert NodeWellFormed(m, n);
    AboveLonger(p, n, target);
    EntryOps(m, n) + Acts(m.nodes[n].initActions) + EntryAll(m, Above(p, target)[|Path(p, n)|..])
  }

  /** A transition's exits, actions and entries, up to its target. */
  ghost function GoOps(m: Machine, cur: Node, source: Node, acts: seq<Name>, target: Node): seq<Op>
    requires WellFormed(m) && cur < |m.nodes| && source < |m.nodes| && target < |m.nodes|
    requires source in Path(ParentsOf(m), cur)
  {
    var p := ParentsOf(m);
    var k := Kept(p, source, target);
    SourceShorter(p, cur, source);
    ExitAll(m, Path(p, cur)[k..]) + Acts(acts) + EntryAll(m, Above(p, target)[k..])
  }

  /** The entry function of a node, with the functions it calls spelled out. */
  ghost function FlatEnter(m: Machine, n: Node): Prog
    requires WellFormed(m) && n < |m.nodes|
    decreases EnterRank(m)[n], 0
  {
    match m.nodes[n]
    case Leaf(_, _, _) =>
      Prog([Visit(n)] + EntryOps(m, n) + [SetState(n)], Stop)
    case Composite(_, _, _, _, target) =>
      SuccessorLower(m, n, target);
      Prepend([Visit(n)] + InitialOps(m, n), FlatEnter(m, target))
    case Choice(_, guard, thenActs, thenTarget, elseActs, elseTarget) =>
      SuccessorLower(m, n, thenTarget);
      SuccessorLower(m, n, elseTarget);
      Prog([Visit(n)], If(guard, FlatGo(m, n, n, thenActs, thenTarget), FlatGo(m, n, n, elseActs, elseTarget)))
  }

  /** A transition from `source` to `target` taken while the configuration ends at `cur`. */
  ghost function FlatGo(m: Machine, cur: Node, source: Node, acts: seq<Name>, target: Node): Prog
    requires WellFormed(m) && cur < |m.nodes| && source < |m.nodes| && target < |m.nodes|
    requires source in Path(ParentsOf(m), cur)
    decreases EnterRank(m)[target], 1
  {
    Prepend(GoOps(m, cur, source, acts, target), FlatEnter(m, target))
  }

  /** The handler a leaf ends up with: handlers are inherited down the path, inner ones override. */
  ghost function Inherited(m: Machine, s: Signal, path: seq<Node>, sofar: Option<Node>): Option<Node>
    requires s in m.signals
  {
    if path == [] then sofar
    else Inherited(m, s, path[1..], if Lookup(m.signals[s], path[0]).Some? then Some(path[0]) else sofar)
  }

  /** The program of one (leaf, signal) pair. */
  ghost function FlatSignal(m: Machine, leaf: Node, s: Signal): Prog
    requires WellFormed(m) && leaf < |m.nodes| && s in m.signals
  {
    var path := Path(ParentsOf(m), leaf);
    InheritedOnPath(m, s, path, None);
    match Inherited(m, s, path, None)
    case None => Prog([], Stop)
    case Some(source) =>
      LookupInRange(m, s, m.signals[s], 0, source);
      FlatTransition(m, leaf, source, Lookup(m.signals[s], source).value)
  }

  /** A transition of `source` as it reads in the program of `leaf`: a false guard skips everything. */
  ghost function FlatTransition(m: Machine, leaf: Node, source: Node, t: Transition): Prog
    requires WellFormed(m) && leaf < |m.nodes| && source in Path(ParentsOf(m), leaf)
    requires t.target.Some? ==> t.target.value < |m.nodes|
  {
    var body := if t.target.None? then Prog(Acts(t.actions), Stop)
                else FlatGo(m, leaf, source, t.actions, t.target.value);
    if t.guard.None? then body else Prog([], If(t.guard.value, body, Prog([], Stop)))
  }

  /** The program of the initial transition. */
  ghost function FlatInit(m: Machine): Prog
    requires WellFormed(m)
  {
    Prepend(Acts(m.initActions) + EntryAll(m, Above(ParentsOf(m), m.initTarget)), FlatEnter(m, m.initTarget))
  }

  lemma AboveLonger(p: Parents, n: Node, target: Node)
    requires Forest(p) && n < |p| && target < |p| && n in Above(p, target)
    ensures |Path(p, n)| <= |Above(p, target)|
    ensures Above(p, target)[..|Path(p, n)|] == Path(p, n)
  {
    var i :| 0 <= i < |Above(p, target)| && Above(p, target)[i] == n;
    PathOfMember(p, target, i);
    assert Above(p, target)[..i + 1] == Path(p, target)[..i + 1];
  }

  lemma SourceShorter(p: Parents, cur: Node, source: Node)
    requires Forest(p) && cur < |p| && source < |p| && source in Path(p, cur)
    ensures |Path(p, source)| <= |Path(p, cur)|
    ensures Path(p, cur)[..|Path(p, source)|] == Path(p, source)
  {
    var i :| 0 <= i < |Path(p, cur)| && Path(p, cur)[i] == source;
    PathOfMember(p, cur, i);
  }

  lemma {:induction false} InheritedOnPath(m: Machine, s: Signal, path: seq<Node>, sofar: Option<Node>)
    requires s in m.signals
    requires sofar.Some? ==> Lookup(m.signals[s], sofar.value).Some?
    ensures var h := Inherited(m, s, path, sofar);
            && (h.Some? ==> Lookup(m.signals[s], h.value).Some?)
            && (h.Some? && h != sofar ==> h.value in path)
  {
    if path != [] {
      InheritedOnPath(m, s, path[1..], if Lookup(m.signals[s], path[0]).Some? then Some(path[0]) else sofar);
    }
  }

  // ----- Execution -----

  type State = Option<Node>

  /** What an execution leaves behind: the calls made, in order, and the labels passed. */
  datatype Event =
    | Action(name: Name, id: int, signal: Signal, seen: State)
    | Guard(name: Name, id: int, signal: Signal, seen: State, result: bool)
    | Wrote(leaf: Node)
    | Arrived(state: Node)
    | Left(state: Node)
    | Visited(node: Node)

  /**
   The surroundings of a step: the state machine id, the signal, and the owner's guards.
   A guard may answer anything that depends on its name and on everything that happened before.
   */
  datatype Env = Env(id: int, signal: Signal, answer: (seq<Event>, Name) -> bool)

  datatype Conf = Conf(log: seq<Event>, state: State)

  function Step(env: Env, op: Op, c: Conf): Conf {
    match op
    case Act(name) => c.(log := c.log + [Action(name, env.id, env.signal, c.state)])
    case SetState(leaf) => Conf(c.log + [Wrote(leaf)], Some(leaf))
    case Arrive(n) => c.(log := c.log + [Arrived(n)])
    case Leave(n) => c.(log := c.log + [Left(n)])
    case Visit(n) => c.(log := c.log + [Visited(n)])
  }

  function Steps(env: Env, ops: seq<Op>, c: Conf): Conf {
    if ops == [] then c else Steps(env, ops[1..], Step(env, ops[0], c))
  }

  function Exec(env: Env, prog: Prog, c: Conf): Conf
    decreases prog
  {
    ExecTail(env, prog.tail, Steps(env, prog.ops, c))
  }

  function ExecTail(env: Env, tail: Tail, c: Conf): Conf
    decreases tail
  {
    match tail
    case Stop => c
    case If(g, thn, els) =>
      var yes := env.answer(c.log, g);
      var c' := c.(log := c.log + [Guard(g, env.id, env.signal, c.state, yes)]);
      if yes then Exec(env, thn, c') else Exec(env, els, c')
  }

  lemma {:induction false} StepsAppend(env: Env, a: seq<Op>, b: seq<Op>, c: Conf)
    ensures Steps(env, a + b, c) == Steps(env, b, Steps(env, a, c))
  {
    if a == [] {
      assert a + b == b;
    } else {
      assert (a + b)[1..] == a[1..] + b;
      StepsAppend(env, a[1..], b, Step(env, a[0], c));
    }
  }

  lemma ExecPrepend(env: Env, ops: seq<Op>, prog: Prog, c: Conf)
    ensures Exec(env, Prepend(ops, prog), c) == Exec(env, prog, Steps(env, ops, c))
  {
    StepsAppend(env, ops, prog.ops, c);
  }

  /** Executing a leaf's entry function: label, entry actions, state update. */
  lemma ExecEnterLeaf(env: Env, m: Machine, n: Node, c: Conf)
    requires WellFormed(m) && n < |m.nodes| && m.nodes[n].Leaf?
    ensures Exec(env, FlatEnter(m, n), c) == Step(env, SetState(n), Steps(env, EntryOps(m, n), Step(env, Visit(n), c)))
  {
    StepsAppend(env, [Visit(n)], EntryOps(m, n), c);
    StepsAppend(env, [Visit(n)] + EntryOps(m, n), [SetState(n)], c);
  }

  /** Executing a composite's entry function: label, entry actions, initial transition. */
  lemma ExecEnterComposite(env: Env, m: Machine, n: Node, c: Conf)
    requires WellFormed(m) && n < |m.nodes| && m.nodes[n].Composite?
    ensures var p, target := ParentsOf(m), m.nodes[n].target;
            && target < |m.nodes| && |Path(p, n)| <= |Above(p, target)|
            && EnterRank(m)[target] < EnterRank(m)[n]
            && Exec(env, FlatEnter(m, n), c) ==
               Exec(env, FlatEnter(m, target),
                    Steps(env, EntryAll(m, Above(p, target)[|Path(p, n)|..]),
                          Steps(env, Acts(m.nodes[n].initActions),
                                Steps(env, EntryOps(m, n), Step(env, Visit(n), c)))))
  {
    var p, target := ParentsOf(m), m.nodes[n].target;
    SuccessorLower(m, n, target);
    assert NodeWellFormed(m, n);
    AboveLonger(p, n, target);
    var a, b, d := EntryOps(m, n), Acts(m.nodes[n].initActions), EntryAll(m, Above(p, target)[|Path(p, n)|..]);
    var c1 := Step(env, Visit(n), c);
    ExecPrepend(env, [Visit(n)] + InitialOps(m, n), FlatEnter(m, target), c);
    StepsAppend(env, [Visit(n)], InitialOps(m, n), c);
    StepsAppend(env, a + b, d, c1);
    StepsAppend(env, a, b, c1);
  }

  /** What executing a flattened transition comes to. */
  lemma ExecGo(env: Env, m: Machine, cur: Node, source: Node, acts: seq<Name>, target: Node, c: Conf)
    requires WellFormed(m) && cur < |m.nodes| && source < |m.nodes| && target < |m.nodes|
    requires source in Path(ParentsOf(m), cur)
    ensures var p, k := ParentsOf(m), Kept(ParentsOf(m), source, target);
            && k <= |Path(p, cur)| && k <= |Above(p, target)|
            && Exec(env, FlatGo(m, cur, source, acts, target), c) ==
               Exec(env, FlatEnter(m, target),
                    Steps(env, EntryAll(m, Above(p, target)[k..]),
                          Steps(env, Acts(acts), Steps(env, ExitAll(m, Path(p, cur)[k..]), c))))
  {
    var p, k := ParentsOf(m), Kept(ParentsOf(m), source, target);
    SourceShorter(p, cur, source);
    var a, b, d := ExitAll(m, Path(p, cur)[k..]), Acts(acts), EntryAll(m, Above(p, target)[k..]);
    StepsAppend(env, a, b, c);
    StepsAppend(env, a + b, d, c);
    ExecPrepend(env, a + b + d, FlatEnter(m, target), c);
  }

  /** Executing the initial transition: actions, entries, target. */
  lemma ExecInit(env: Env, m: Machine, c: Conf)
    requires WellFormed(m)
    ensures Exec(env, FlatInit(m), c) ==
            Exec(env, FlatEnter(m, m.initTarget),
                 Steps(env, EntryAll(m, Above(ParentsOf(m), m.initTarget)), Steps(env, Acts(m.initActions), c)))
  {
    var a, b := Acts(m.initActions), EntryAll(m, Above(ParentsOf(m), m.initTarget));
    StepsAppend(env, a, b, c);
    ExecPrepend(env, a + b, FlatEnter(m, m.initTarget), c);
  }

  /** Executing a branch: the guard is asked, then exactly one side runs. */
  lemma ExecBranch(env: Env, guard: Name, thn: Prog, els: Prog, c: Conf)
    ensures var yes := env.answer(c.log, guard);
            var c' := Conf(c.log + [Guard(guard, env.id, env.signal, c.state, yes)], c.state);
            Exec(env, Prog([], If(guard, thn, els)), c) == Exec(env, if yes then thn else els, c')
  {}

  /** Executing a choice's entry function: label, then one of its two transitions. */
  lemma ExecEnterChoice(env: Env, m: Machine, n: Node, c: Conf)
    requires WellFormed(m) && n < |m.nodes| && m.nodes[n].Choice?
    ensures m.nodes[n].thenTarget < |m.nodes| && m.nodes[n].elseTarget < |m.nodes|
    ensures var d, yes := m.nodes[n], env.answer(c.log + [Visited(n)], m.nodes[n].guard);
            var c' := Conf(c.log + [Visited(n)] + [Guard(d.guard, env.id, env.signal, c.state, yes)], c.state);
            var thn := FlatGo(m, n, n, d.thenActions, d.thenTarget);
            var els := FlatGo(m, n, n, d.elseActions, d.elseTarget);
            Exec(env, FlatEnter(m, n), c) == Exec(env, if yes then thn else els, c')
  {
    var d := m.nodes[n];
    SuccessorLower(m, n, d.thenTarget);
    SuccessorLower(m, n, d.elseTarget);
    ExecVisitBranch(env, n, d.guard, FlatGo(m, n, n, d.thenActions, d.thenTarget),
                    FlatGo(m, n, n, d.elseActions, d.elseTarget), c);
  }

  lemma ExecVisitBranch(env: Env, n: Node, guard: Name, thn: Prog, els: Prog, c: Conf)
    ensures var yes := env.answer(c.log + [Visited(n)], guard);
            var c' := Conf(c.log + [Visited(n)] + [Guard(guard, env.id, env.signal, c.state, yes)], c.state);
            Exec(env, Prog([Visit(n)], If(guard, thn, els)), c) == Exec(env, if yes then thn else els, c')
  {
    ExecPrepend(env, [Visit(n)], Prog([], If(guard, thn, els)), c);
    ExecBranch(env, guard, thn, els, Conf(c.log + [Visited(n)], c.state));
  }

  /** Entering level `i` of a path, then the levels below it. */
  lemma EntryPeel(env: Env, m: Machine, path: seq<Node>, i: nat, c: Conf)
    requires i < |path|
    ensures Steps(env, EntryAll(m, path[i..]), c) ==
            Steps(env, EntryAll(m, path[i + 1..]), Steps(env, EntryOps(m, path[i]), c))
  {
    assert path[i..][1..] == path[i + 1..];
    StepsAppend(env, EntryOps(m, path[i]), EntryAll(m, path[i + 1..]), c);
  }

  /** Entering the levels of a path from `i` on, one by one. */
  ghost function EnterFrom(env: Env, m: Machine, path: seq<Node>, i: nat, c: Conf): Conf
    decreases |path| - i
  {
    if i >= |path| then c else EnterFrom(env, m, path, i + 1, Steps(env, EntryOps(m, path[i]), c))
  }

  lemma {:induction false} EnterFromIs(env: Env, m: Machine, path: seq<Node>, i: nat, c: Conf)
    requires i <= |path|
    ensures EnterFrom(env, m, path, i, c) == Steps(env, EntryAll(m, path[i..]), c)
    decreases |path| - i
  {
    if i < |path| {
      EntryPeel(env, m, path, i, c);
      EnterFromIs(env, m, path, i + 1, Steps(env, EntryOps(m, path[i]), c));
    }
  }

  /** Exiting the levels of a path down to `i`, one by one. */
  ghost function ExitTo(env: Env, m: Machine, path: seq<Node>, i: nat, c: Conf): Conf
    decreases |path| - i, 1
  {
    if i >= |path| then c else ExitAt(env, m, path, i, c)
  }

  /** Exiting the levels below `i`, then `i`. */
  ghost function ExitAt(env: Env, m: Machine, path: seq<Node>, i: nat, c: Conf): Conf
    requires i < |path|
    decreases |path| - i, 0
  {
    Steps(env, ExitOps(m, path[i]), ExitTo(env, m, path, i + 1, c))
  }

  lemma {:induction false} ExitToIs(env: Env, m: Machine, path: seq<Node>, i: nat, c: Conf)
    requires i <= |path|
    ensures ExitTo(env, m, path, i, c) == Steps(env, ExitAll(m, path[i..]), c)
    decreases |path| - i
  {
    if i < |path| {
      assert path[i..][1..] == path[i + 1..];
      ExitToIs(env, m, path, i + 1, c);
      assert ExitTo(env, m, path, i, c) == ExitAt(env, m, path, i, c);
      StepsAppend(env, ExitAll(m, path[i + 1..]), ExitOps(m, path[i]), c);
    }
  }
}
