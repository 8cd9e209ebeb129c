/**
 The runtime of a state machine instance.  It keeps the hierarchy as a parent table and
 walks it on every step.  Each method is proved to do exactly what the flattened program
 of `Flat` does: the same calls in the same order, the same labels, the same final state.
 */
module Engine {
  import opened Wrappers
  import opened Hierarchy
  import opened Flat
  import Meaning

  /** The owner of the machine: its actions and guards, with everything that happened to it. */
  class Handlers {
    const answer: (seq<Event>, Name) -> bool
    var log: seq<Event>

    constructor (answer: (seq<Event>, Name) -> bool)
      ensures this.answer == answer && log == []
    {
      this.answer := answer;
      log := [];
    }

    method Note(e: Event)
      modifies this
      ensures log == old(log) + [e]
    {
      log := log + [e];
    }

    method Ask(guard: Name, id: int, signal: Signal, seen: State) returns (yes: bool)
      modifies this
      ensures yes == answer(old(log), guard)
      ensures log == old(log) + [Guard(guard, id, signal, seen, yes)]
    {
      yes := answer(log, guard);
      log := log + [Guard(guard, id, signal, seen, yes)];
    }
  }

  /** The mutable part of an instance; there is no current state before `Init`. */
  class SmCore {
    var id: int
    var state: State
    var running: bool

    constructor ()
      ensures id == 0 && state.None? && !running
    {
      id, state, running := 0, None, false;
    }

    /** Mark a step as running; it fails if one is running already. */
    method BeginRun() returns (ok: bool)
      modifies this`running
      ensures running && (ok <==> !old(running))
    {
      ok := !running;
      running := true;
    }

    method EndRun()
      modifies this`running
      ensures !running
    {
      running := false;
    }
  }

  class StateMachine {
    const m: Machine
    const core: SmCore

    constructor (m: Machine)
      ensures this.m == m && fresh(core)
      ensures core.id == 0 && core.state.None? && !core.running
    {
      this.m := m;
      core := new SmCore();
    }

    ghost function Now(h: Handlers): Conf
      reads h, core
    {
      Conf(h.log, core.state)
    }

    ghost function EnvOf(h: Handlers, signal: Signal): Env
      reads core
    {
      Env(core.id, signal, h.answer)
    }

    method RunActions(names: seq<Name>, h: Handlers, signal: Signal)
      modifies h
      ensures Now(h) == Steps(EnvOf(h, signal), Acts(names), old(Now(h)))
    {
      ghost var env := EnvOf(h, signal);
      ghost var end := Steps(env, Acts(names), Now(h));
      assert names[0..] == names;
      for i := 0 to |names|
        invariant Steps(env, Acts(names[i..]), Now(h)) == end
      {
        assert names[i..][1..] == names[i + 1..];
        assert Acts(names[i..])[1..] == Acts(names[i + 1..]);
        h.Note(Action(names[i], core.id, signal, core.state));
      }
    }

    /** A state's entry actions; a choice has none. */
    method Entry(n: Node, h: Handlers, signal: Signal)
      requires n < |m.nodes|
      modifies h
      ensures Now(h) == Steps(EnvOf(h, signal), EntryOps(m, n), old(Now(h)))
    {
      if !m.nodes[n].Choice? {
        StepsAppend(EnvOf(h, signal), [Arrive(n)], Acts(m.nodes[n].entry), Now(h));
        h.Note(Arrived(n));
        RunActions(m.nodes[n].entry, h, signal);
      }
    }

    /** A state's exit actions; a choice has none. */
    method Exit(n: Node, h: Handlers, signal: Signal)
      requires n < |m.nodes|
      modifies h
      ensures Now(h) == Steps(EnvOf(h, signal), ExitOps(m, n), old(Now(h)))
    {
      if !m.nodes[n].Choice? {
        StepsAppend(EnvOf(h, signal), [Leave(n)], Acts(m.nodes[n].exit), Now(h));
        h.Note(Left(n));
        RunActions(m.nodes[n].exit, h, signal);
      }
    }

    /** Exit node `n` of `path`; the nodes below it have been exited. */
    method ExitLevel(n: Node, ghost path: seq<Node>, ghost i: nat, ghost c0: Conf, h: Handlers, signal: Signal)
      requires 0 < i <= |path| && path[i - 1] == n && n < |m.nodes|
      requires Now(h) == ExitTo(EnvOf(h, signal), m, path, i, c0)
      modifies h
      ensures Now(h) == ExitTo(EnvOf(h, signal), m, path, i - 1, c0)
    {
      ghost var env := EnvOf(h, signal);
      Exit(n, h, signal);
      assert ExitTo(env, m, path, i - 1, c0) == ExitAt(env, m, path, i - 1, c0);
    }

    /** The exit walk, down to level `k` of `path`, where `stop` is. */
    method ExitDownTo(from: Node, stop: Option<Node>, ghost k: nat, h: Handlers, signal: Signal)
      requires WellFormed(m) && from < |m.nodes| && StopsAt(ParentsOf(m), from, stop, k)
      modifies h
      ensures Now(h) == ExitTo(EnvOf(h, signal), m, Path(ParentsOf(m), from), k, old(Now(h)))
    {
      ghost var path, c0 := Path(ParentsOf(m), from), Now(h);
      ghost var i, env := |path|, EnvOf(h, signal);
      var cur: Option<Node> := Some(from);
      while cur.Some?
        invariant k <= i <= |path| && cur == LastOf(path, i)
        invariant EnvOf(h, signal) == env
        invariant Now(h) == ExitTo(env, m, path, i, c0)
        decreases i
      {
        StopLevel(m, from, path, stop, k, i);
        if cur == stop {
          return;
        }
        ExitLevel(cur.value, path, i, c0, h, signal);
        cur := m.nodes[cur.value].parent;
        i := i - 1;
      }
      assert stop.None?; // the closing assert of the source
    }

    /** Exit `from` and its ancestors up to, not including, `stop`. */
    method ForEachExit(from: Node, stop: Option<Node>, h: Handlers, signal: Signal)
      requires WellFormed(m) && from < |m.nodes|
      requires stop.Some? ==> stop.value in Path(ParentsOf(m), from)
      modifies h
      ensures stop.Some? ==> |Path(ParentsOf(m), stop.value)| <= |Path(ParentsOf(m), from)|
      ensures var k := if stop.None? then 0 else |Path(ParentsOf(m), stop.value)|;
              Now(h) == Steps(EnvOf(h, signal), ExitAll(m, Path(ParentsOf(m), from)[k..]), old(Now(h)))
    {
      ghost var k := if stop.None? then 0 else |Path(ParentsOf(m), stop.value)|;
      LevelOfStop(ParentsOf(m), from, stop);
      ExitToIs(EnvOf(h, signal), m, Path(ParentsOf(m), from), k, Now(h));
      ExitDownTo(from, stop, k, h, signal);
    }

    /** Enter the ancestor of `target` at one level. */
    method EnterLevel(level: nat, targetDepth: nat, target: Node, h: Handlers, signal: Signal)
      requires WellFormed(m) && target < |m.nodes|
      requires targetDepth == |Path(ParentsOf(m), target)| && level < targetDepth - 1
      modifies h
      ensures Now(h) == Steps(EnvOf(h, signal), EntryOps(m, Above(ParentsOf(m), target)[level]), old(Now(h)))
    {
      var n := Climb(ParentsOf(m), target, targetDepth - 1 - level);
      Entry(n, h, signal);
    }

    /** Enter the ancestors of `target` at the levels above `startDepth`, outermost first. */
    method EnterLevels(startDepth: nat, target: Node, h: Handlers, signal: Signal)
      requires WellFormed(m) && target < |m.nodes|
      requires startDepth <= |Above(ParentsOf(m), target)|
      modifies h
      ensures Now(h) == Steps(EnvOf(h, signal), EntryAll(m, Above(ParentsOf(m), target)[startDepth..]), old(Now(h)))
    {
      ghost var env, path := EnvOf(h, signal), Above(ParentsOf(m), target);
      EnterFromIs(env, m, path, startDepth, Now(h));
      ghost var end := EnterFrom(env, m, path, startDepth, Now(h));
      var targetDepth := Depth(ParentsOf(m), target);
      for level := startDepth to targetDepth - 1
        invariant EnterFrom(env, m, path, level, Now(h)) == end
      {
        EnterLevel(level, targetDepth, target, h, signal);
      }
    }

    /** Enter the proper ancestors of `target` strictly below `start`, outermost first. */
    method ForEachEntry(start: Option<Node>, target: Node, h: Handlers, signal: Signal)
      requires WellFormed(m) && target < |m.nodes|
      requires start.Some? ==> start.value < |m.nodes| && start.value in Above(ParentsOf(m), target)
      modifies h
      ensures start.Some? ==> |Path(ParentsOf(m), start.value)| <= |Above(ParentsOf(m), target)|
      ensures var k := if start.None? then 0 else |Path(ParentsOf(m), start.value)|;
              Now(h) == Steps(EnvOf(h, signal), EntryAll(m, Above(ParentsOf(m), target)[k..]), old(Now(h)))
    {
      var startDepth := 0;
      if start.Some? {
        AboveLonger(ParentsOf(m), start.value, target);
        startDepth := Depth(ParentsOf(m), start.value);
      }
      EnterLevels(startDepth, target, h, signal);
    }

    /** The entry function of a node. */
    method Enter(n: Node, h: Handlers, signal: Signal)
      requires WellFormed(m) && n < |m.nodes|
      modifies h, core`state
      ensures Now(h) == Exec(EnvOf(h, signal), FlatEnter(m, n), old(Now(h)))
      decreases EnterRank(m)[n], 1
    {
      match m.nodes[n]
      case Leaf(_, _, _) => EnterLeaf(n, h, signal);
      case Composite(_, _, _, _, _) => EnterComposite(n, h, signal);
      case Choice(_, _, _, _, _, _) => EnterChoice(n, h, signal);
    }

    /** A leaf runs its entry actions and becomes the current state. */
    method EnterLeaf(n: Node, h: Handlers, signal: Signal)
      requires WellFormed(m) && n < |m.nodes| && m.nodes[n].Leaf?
      modifies h, core`state
      ensures Now(h) == Exec(EnvOf(h, signal), FlatEnter(m, n), old(Now(h)))
    {
      ExecEnterLeaf(EnvOf(h, signal), m, n, Now(h));
      h.Note(Visited(n));
      Entry(n, h, signal);
      h.Note(Wrote(n));
      core.state := Some(n);
    }

    /** A composite runs its entry actions, then its initial transition. */
    method EnterComposite(n: Node, h: Handlers, signal: Signal)
      requires WellFormed(m) && n < |m.nodes| && m.nodes[n].Composite?
      modifies h, core`state
      ensures Now(h) == Exec(EnvOf(h, signal), FlatEnter(m, n), old(Now(h)))
      decreases EnterRank(m)[n], 0
    {
      ghost var env, c0 := EnvOf(h, signal), Now(h);
      var target := m.nodes[n].target;
      SuccessorLower(m, n, target);
      assert NodeWellFormed(m, n);
      h.Note(Visited(n));
      assert Now(h) == Step(env, Visit(n), c0);
      Entry(n, h, signal);
      RunActions(m.nodes[n].initActions, h, signal);
      ForEachEntry(Some(n), target, h, signal);
      Enter(target, h, signal);
      ExecEnterComposite(env, m, n, c0);
    }

    /** Entering a choice: one guard call selects where to go on. */
    method EnterChoice(n: Node, h: Handlers, signal: Signal)
      requires WellFormed(m) && n < |m.nodes| && m.nodes[n].Choice?
      modifies h, core`state
      ensures Now(h) == Exec(EnvOf(h, signal), FlatEnter(m, n), old(Now(h)))
      decreases EnterRank(m)[n], 0
    {
      ghost var env, c0 := EnvOf(h, signal), Now(h);
      var d := m.nodes[n];
      SuccessorLower(m, n, d.thenTarget);
      SuccessorLower(m, n, d.elseTarget);
      h.Note(Visited(n));
      var yes := h.Ask(d.guard, core.id, signal, core.state);
      assert Now(h) == Conf(c0.log + [Visited(n)] + [Guard(d.guard, env.id, signal, c0.state, yes)], c0.state);
      if yes {
        Go(n, n, d.thenActions, d.thenTarget, h, signal);
      } else {
        Go(n, n, d.elseActions, d.elseTarget, h, signal);
      }
      ExecEnterChoice(env, m, n, c0);
    }

    /** Leave the source side for the target, with the transition's actions in between. */
    method Go(cur: Node, source: Node, acts: seq<Name>, target: Node, h: Handlers, signal: Signal)
      requires WellFormed(m) && cur < |m.nodes| && source < |m.nodes| && target < |m.nodes|
      requires source in Path(ParentsOf(m), cur)
      modifies h, core`state
      ensures Now(h) == Exec(EnvOf(h, signal), FlatGo(m, cur, source, acts, target), old(Now(h)))
      decreases EnterRank(m)[target], 2
    {
      var p := ParentsOf(m);
      ExecGo(EnvOf(h, signal), m, cur, source, acts, target, Now(h));
      StopIsKept(p, cur, source, target);
      var stop := Lca(p, source, target);
      ForEachExit(cur, stop, h, signal);
      RunActions(acts, h, signal);
      ForEachEntry(stop, target, h, signal);
      Enter(target, h, signal);
    }

    /** Record the id and run the initial transition; it fails inside another step. */
    method Init(id: int, h: Handlers) returns (ok: bool)
      requires WellFormed(m)
      modifies h, core
      ensures ok <==> !old(core.running)
      ensures ok ==> !core.running && core.id == id
      ensures ok ==> Now(h) == Exec(Env(id, INITIAL_TRANSITION, h.answer), FlatInit(m), old(Now(h)))
      ensures ok ==> Meaning.Started(m, Env(id, INITIAL_TRANSITION, h.answer), old(h.log), h.log, core.state)
    {
      ok := core.BeginRun();
      if !ok {
        return;
      }
      core.id := id;
      Meaning.InitMeans(m, EnvOf(h, INITIAL_TRANSITION), Now(h));
      ghost var p := ParentsOf(m);
      var signal := INITIAL_TRANSITION;
      ExecInit(EnvOf(h, signal), m, Now(h));
      RunActions(m.initActions, h, signal);
      assert Above(p, m.initTarget)[0..] == Above(p, m.initTarget);
      ForEachEntry(None, m.initTarget, h, signal);
      Enter(m.initTarget, h, signal);
      core.EndRun();
    }

    /** Take `source`'s transition if its guard holds. */
    method Take(leaf: Node, source: Node, t: Transition, h: Handlers, signal: Signal)
      requires WellFormed(m) && leaf < |m.nodes| && source in Path(ParentsOf(m), leaf)
      requires t.target.Some? ==> t.target.value < |m.nodes|
      modifies h, core`state
      ensures Now(h) == Exec(EnvOf(h, signal), FlatTransition(m, leaf, source, t), old(Now(h)))
    {
      var yes := true;
      if t.guard.Some? {
        ghost var body := FlatTransition(m, leaf, source, t.(guard := None));
        ExecBranch(EnvOf(h, signal), t.guard.value, body, Prog([], Stop), Now(h));
        yes := h.Ask(t.guard.value, core.id, signal, core.state);
      }
      if yes {
        if t.target.None? {
          RunActions(t.actions, h, signal);
        } else {
          Go(leaf, source, t.actions, t.target.value, h, signal);
        }
      }
    }

    /**
     Ask the states of the leaf's path, starting at the leaf, for a transition on `s`; the first that has
     one decides, whether or not its guard lets it be taken.
     */
    method React(leaf: Node, s: Signal, h: Handlers)
      requires WellFormed(m) && s in m.signals && core.state == Some(leaf) && IsLeaf(m, leaf)
      modifies h, core`state
      ensures Now(h) == Exec(EnvOf(h, s), FlatSignal(m, leaf, s), old(Now(h)))
      ensures Meaning.Reacted(m, EnvOf(h, s), leaf, s, old(h.log), h.log, core.state)
    {
      ghost var p, c0 := ParentsOf(m), Now(h);
      Meaning.StepMeans(m, EnvOf(h, s), leaf, s, c0);
      ghost var path := Path(p, leaf);
      ghost var i := |path|;
      var cur: Node := leaf;
      InheritedOnPath(m, s, path, None);
      while true
        invariant 0 < i <= |path| && cur == path[i - 1]
        invariant forall j :: i <= j < |path| ==> Lookup(m.signals[s], path[j]).None?
        invariant Now(h) == c0
        decreases i
      {
        InnermostWins(m, s, path, None, i - 1);
        ParentOnPath(p, leaf, i - 1);
        var t := Lookup(m.signals[s], cur);
        if t.Some? {
          LookupInRange(m, s, m.signals[s], 0, cur);
          assert Inherited(m, s, path, None) == Some(cur);
          Take(leaf, cur, t.value, h, s);
          break;
        }
        if m.nodes[cur].parent.None? {
          break;
        }
        cur := m.nodes[cur].parent.value;
        i := i - 1;
      }
    }

    /** Deliver a signal; it fails before `Init` and inside another step. */
    method SendSignal(s: Signal, h: Handlers) returns (ok: bool)
      requires WellFormed(m) && s in m.signals && (core.state.Some? ==> IsLeaf(m, core.state.value))
      modifies h, core
      ensures ok <==> !old(core.running) && old(core.state).Some?
      ensures ok ==> !core.running && core.id == old(core.id)
      ensures ok ==> Now(h) == Exec(EnvOf(h, s), FlatSignal(m, old(core.state).value, s), old(Now(h)))
      ensures ok ==> Meaning.Reacted(m, EnvOf(h, s), old(core.state).value, s, old(h.log), h.log, core.state)
    {
      ok := core.BeginRun();
      if !ok || core.state.None? {
        return false;
      }
      React(core.state.value, s, h);
      core.EndRun();
    }
  }

  /** The node `Lca` returns ends the kept levels on both paths. */
  lemma StopIsKept(p: Parents, cur: Node, source: Node, target: Node)
    requires Forest(p) && cur < |p| && source < |p| && target < |p| && source in Path(p, cur)
    ensures var stop, k := LastOf(Path(p, source), Kept(p, source, target)), Kept(p, source, target);
            stop.Some? ==> stop.value < |p| && stop.value in Path(p, cur) && stop.value in Above(p, target)
                           && |Path(p, stop.value)| == k
  {
    var k := Kept(p, source, target);
    if k > 0 {
      SourceShorter(p, cur, source);
      KeptCovers(p, source, target, k - 1);
      PathOfMember(p, source, k - 1);
      assert Path(p, cur)[k - 1] == Path(p, cur)[..|Path(p, source)|][k - 1];
    }
  }

  /** `stop` is the node at level `k` of the path of `from`, and no node at level 0. */
  ghost predicate StopsAt(p: Parents, from: Node, stop: Option<Node>, k: nat)
    requires Forest(p) && from < |p|
  {
    k <= |Path(p, from)| && stop == LastOf(Path(p, from), k)
  }

  lemma LevelOfStop(p: Parents, from: Node, stop: Option<Node>)
    requires Forest(p) && from < |p| && (stop.Some? ==> stop.value in Path(p, from))
    ensures stop.Some? ==> stop.value < |p| && StopsAt(p, from, stop, |Path(p, stop.value)|)
    ensures stop.None? ==> StopsAt(p, from, stop, 0)
  {
    if stop.Some? {
      var j :| 0 <= j < |Path(p, from)| && Path(p, from)[j] == stop.value;
      PathOfMember(p, from, j);
    }
  }

  /** Walking up from level `i`, the walk is at `stop` exactly at its level. */
  lemma StopLevel(m: Machine, from: Node, path: seq<Node>, stop: Option<Node>, k: nat, i: nat)
    requires WellFormed(m) && from < |m.nodes| && path == Path(ParentsOf(m), from)
    requires StopsAt(ParentsOf(m), from, stop, k) && k <= i && 0 < i <= |path|
    ensures var n := path[i - 1];
            n < |m.nodes| && m.nodes[n].parent == LastOf(path, i - 1) && (stop == Some(n) <==> i == k)
  {
    var p := ParentsOf(m);
    ParentOnPath(p, from, i - 1);
    PathOfMember(p, from, i - 1);
    if k > 0 {
      PathOfMember(p, from, k - 1);
    }
  }

  /** The innermost node of a path with a handler is the one the leaf inherits from. */
  lemma {:induction false} InnermostWins(m: Machine, s: Signal, path: seq<Node>, sofar: Option<Node>, i: nat)
    requires s in m.signals && i < |path|
    requires forall j :: i < j < |path| ==> Lookup(m.signals[s], path[j]).None?
    ensures Lookup(m.signals[s], path[i]).Some? ==> Inherited(m, s, path, sofar) == Some(path[i])
    ensures i == 0 && Lookup(m.signals[s], path[i]).None? ==> Inherited(m, s, path, sofar) == sofar
  {
    var next := if Lookup(m.signals[s], path[0]).Some? then Some(path[0]) else sofar;
    if i > 0 {
      InnermostWins(m, s, path[1..], next, i - 1);
    } else if |path| > 1 {
      InnermostWins(m, s, path[1..], next, 0);
    }
  }
}
