/**
 Include resolution: `include` specifiers are replaced by the members of the included file,
 at every level of a translation unit.
 */
module Include {
  import opened Wrappers

  type Path = string
  type Text = string

  /** The seven member levels. */
  datatype Level = Modules | Components | Topologies | PacketSets | Packets | Machines | States

  /** A member with members of its own, an include specifier, or anything else. */
  datatype Member =
    | Spec(file: string)
    | Nested(level: Level, head: string, members: seq<Member>)
    | Leaf(text: string)

  /** The definitions whose members the resolver of a level descends into. */
  predicate Admits(level: Level, child: Level) {
    match level
    case Modules => child == Modules || child == Components || child == Topologies || child == Machines
    case Components => child == Machines
    case Topologies => child == PacketSets
    case PacketSets => child == Packets
    case Packets => false
    case Machines => child == States
    case States => child == States
  }

  /**
   The file system and the parser: `join` gives the path an include names in the directory of
   the including file, `canon` its canonical form, `content` the files there are.
   */
  datatype Env = Env(join: (Path, string) -> Path, canon: Path -> Path, content: map<Path, Text>,
                     parse: (Level, Text) -> Option<seq<Member>>)

  datatype Problem = Cycle | Unreadable | Unparsable

  function Files(stack: seq<Path>): set<Path> {
    set c | c in stack
  }

  /** How many files are not on the stack. */
  function Free(e: Env, stack: seq<Path>): nat {
    |e.content.Keys - Files(stack)|
  }

  lemma FreeShrinks(e: Env, stack: seq<Path>, c: Path)
    requires c in e.content && c !in stack
    ensures Free(e, stack + [c]) + 1 == Free(e, stack)
  {
    assert e.content.Keys - Files(stack) == (e.content.Keys - Files(stack + [c])) + {c};
  }

  /** What stands in the way of the file `target`, looked at before its members are resolved. */
  function Obstacle(e: Env, level: Level, target: Path, stack: seq<Path>): Option<Problem> {
    var c := e.canon(target);
    if c in stack then Some(Cycle)
    else if c !in e.content then Some(Unreadable)
    else if e.parse(level, e.content[c]).None? then Some(Unparsable)
    else None
  }

  /** The members of a file without obstacles. */
  function Parsed(e: Env, level: Level, target: Path): (ms: seq<Member>)
    requires e.canon(target) in e.content && e.parse(level, e.content[e.canon(target)]).Some?
  {
    e.parse(level, e.content[e.canon(target)]).value
  }

  // ---- What the resolver computes ----

  type Outcome = Result<seq<Member>, Problem>

  function Load(e: Env, level: Level, target: Path, stack: seq<Path>): Outcome
    decreases Free(e, stack), 0
  {
    var problem := Obstacle(e, level, target, stack);
    if problem.Some? then Err(problem.value)
    else
      var c, ms := e.canon(target), Parsed(e, level, target);
      FreeShrinks(e, stack, c);
      Resolve(e, level, target, ms, |ms|, stack + [c])
  }

  function One(e: Env, level: Level, from: Path, m: Member, stack: seq<Path>): Outcome
    decreases Free(e, stack), 1, m
  {
    match m
    case Spec(file) => Load(e, level, e.join(from, file), stack)
    case Nested(child, head, ms) =>
      if !Admits(level, child) then Ok([m])
      else
        var r := Resolve(e, child, from, ms, |ms|, stack);
        if r.Err? then r else Ok([Nested(child, head, r.value)])
    case Leaf(_) => Ok([m])
  }

  /** The first `n` members, spliced; the first failure ends it. */
  function Resolve(e: Env, level: Level, from: Path, ms: seq<Member>, n: nat, stack: seq<Path>): Outcome
    requires n <= |ms|
    decreases Free(e, stack), 1, ms, n
  {
    if n == 0 then Ok([])
    else
      var r := Resolve(e, level, from, ms, n - 1, stack);
      if r.Err? then r
      else
        var s := One(e, level, from, ms[n - 1], stack);
        if s.Err? then s else Ok(r.value + s.value)
  }

  // ---- The declarative expansion ----

  /** The grammar's nesting of definitions: where one with members of its own may stand. */
  const NESTING: set<(Level, Level)> :=
    {(Modules, Modules), (Modules, Components), (Modules, Topologies), (Modules, Machines),
     (Components, Machines), (Topologies, PacketSets), (PacketSets, Packets), (Machines, States), (States, States)}

  /** The resolvers descend into every nested definition, and into nothing else. */
  lemma AdmitsNesting(level: Level, child: Level)
    ensures Admits(level, child) <==> (level, child) in NESTING
  {}

  /** Splicing without a stack, through at most `fuel` nested includes. */
  function ExpandOne(e: Env, level: Level, from: Path, m: Member, fuel: nat): Option<seq<Member>>
    decreases fuel, m
  {
    match m
    case Spec(file) =>
      var target := e.join(from, file);
      if fuel == 0 || e.canon(target) !in e.content then None
      else
        var ms := e.parse(level, e.content[e.canon(target)]);
        if ms.None? then None else Expand(e, level, target, ms.value, |ms.value|, fuel - 1)
    case Nested(child, head, ms) =>
      if (level, child) !in NESTING then Some([m])
      else
        var r := Expand(e, child, from, ms, |ms|, fuel);
        if r.None? then None else Some([Nested(child, head, r.value)])
    case Leaf(_) => Some([m])
  }

  function Expand(e: Env, level: Level, from: Path, ms: seq<Member>, n: nat, fuel: nat): Option<seq<Member>>
    requires n <= |ms|
    decreases fuel, ms, n
  {
    if n == 0 then Some([])
    else
      var r, x := Expand(e, level, from, ms, n - 1, fuel), ExpandOne(e, level, from, ms[n - 1], fuel);
      if r.None? || x.None? then None else Some(r.value + x.value)
  }

  lemma {:induction false} OneExpands(e: Env, level: Level, from: Path, m: Member, stack: seq<Path>, fuel: nat)
    requires One(e, level, from, m, stack).Ok? && fuel >= Free(e, stack)
    ensures ExpandOne(e, level, from, m, fuel) == Some(One(e, level, from, m, stack).value)
    decreases fuel, m
  {
    match m
    case Spec(file) =>
      var target := e.join(from, file);
      var c, ms := e.canon(target), Parsed(e, level, target);
      FreeShrinks(e, stack, c);
      ResolveExpands(e, level, target, ms, |ms|, stack + [c], fuel - 1);
    case Nested(child, _, ms) =>
      AdmitsNesting(level, child);
      if Admits(level, child) {
        ResolveExpands(e, child, from, ms, |ms|, stack, fuel);
      }
    case Leaf(_) =>
  }

  /** A successful resolution is the in-order splice, whatever the fuel above the number of files not yet open. */
  lemma {:induction false} ResolveExpands(e: Env, level: Level, from: Path, ms: seq<Member>, n: nat,
                                          stack: seq<Path>, fuel: nat)
    requires n <= |ms| && Resolve(e, level, from, ms, n, stack).Ok? && fuel >= Free(e, stack)
    ensures Expand(e, level, from, ms, n, fuel) == Some(Resolve(e, level, from, ms, n, stack).value)
    decreases fuel, ms, n
  {
    if n > 0 {
      ResolveExpands(e, level, from, ms, n - 1, stack, fuel);
      OneExpands(e, level, from, ms[n - 1], stack, fuel);
    }
  }

  // ---- No include specifier is left ----

  /** Definitions stand only where the grammar of their level puts them. */
  ghost predicate Typed(level: Level, m: Member)
    decreases m
  {
    m.Nested? ==> (level, m.level) in NESTING && forall i :: 0 <= i < |m.members| ==> Typed(m.level, m.members[i])
  }

  ghost predicate AllTyped(level: Level, ms: seq<Member>) {
    forall i :: 0 <= i < |ms| ==> Typed(level, ms[i])
  }

  ghost predicate ParsesTyped(e: Env) {
    forall level, text :: e.parse(level, text).Some? ==> AllTyped(level, e.parse(level, text).value)
  }

  /** No include specifier here or at any level below. */
  ghost predicate Closed(m: Member) {
    !m.Spec? && (m.Nested? ==> forall i :: 0 <= i < |m.members| ==> Closed(m.members[i]))
  }

  ghost predicate AllClosed(ms: seq<Member>) {
    forall i :: 0 <= i < |ms| ==> Closed(ms[i])
  }

  ghost predicate Clean(level: Level, r: Outcome) {
    r.Ok? ==> AllTyped(level, r.value) && AllClosed(r.value)
  }

  lemma {:induction false} OneLeavesNone(e: Env, level: Level, from: Path, m: Member, stack: seq<Path>)
    requires ParsesTyped(e) && Typed(level, m)
    ensures Clean(level, One(e, level, from, m, stack))
    decreases Free(e, stack), m
  {
    match m
    case Spec(file) =>
      var target := e.join(from, file);
      if Obstacle(e, level, target, stack).None? {
        var c, ms := e.canon(target), Parsed(e, level, target);
        FreeShrinks(e, stack, c);
        ResolveLeavesNone(e, level, target, ms, |ms|, stack + [c]);
      }
    case Nested(child, _, ms) =>
      AdmitsNesting(level, child);
      ResolveLeavesNone(e, child, from, ms, |ms|, stack);
    case Leaf(_) =>
  }

  lemma {:induction false} ResolveLeavesNone(e: Env, level: Level, from: Path, ms: seq<Member>, n: nat, stack: seq<Path>)
    requires n <= |ms| && ParsesTyped(e) && AllTyped(level, ms)
    ensures Clean(level, Resolve(e, level, from, ms, n, stack))
    decreases Free(e, stack), ms, n
  {
    if n > 0 {
      ResolveLeavesNone(e, level, from, ms, n - 1, stack);
      OneLeavesNone(e, level, from, ms[n - 1], stack);
    }
  }

  // ---- When resolution fails ----

  /** An include of `file` at level `l` stands somewhere in `m`, without following includes. */
  ghost predicate Names(level: Level, m: Member, l: Level, file: string)
    decreases m
  {
    match m
    case Spec(f) => l == level && f == file
    case Nested(child, _, ms) => (level, child) in NESTING && exists i :: 0 <= i < |ms| && Names(child, ms[i], l, file)
    case Leaf(_) => false
  }

  /** A chain of includes, each with the level it stands at. */
  type Trail = seq<(Level, string)>

  /** The chain starts in `m` of the file `from`, passes through files without obstacles and ends at `problem`. */
  ghost predicate Leads(e: Env, level: Level, from: Path, m: Member, stack: seq<Path>, trail: Trail, problem: Problem)
    decreases |trail|, 1
  {
    trail != [] && Names(level, m, trail[0].0, trail[0].1)
    && Onward(e, trail[0].0, e.join(from, trail[0].1), stack, trail, problem)
  }

  ghost predicate Onward(e: Env, level: Level, target: Path, stack: seq<Path>, trail: Trail, problem: Problem)
    requires trail != []
    decreases |trail|, 0
  {
    if |trail| == 1 then Obstacle(e, level, target, stack) == Some(problem)
    else (Obstacle(e, level, target, stack).None?
          && exists i :: 0 <= i < |Parsed(e, level, target)|
               && Leads(e, level, target, Parsed(e, level, target)[i], stack + [e.canon(target)], trail[1..], problem))
  }

  lemma {:induction false} BlameOne(e: Env, level: Level, from: Path, m: Member, stack: seq<Path>) returns (trail: Trail)
    requires One(e, level, from, m, stack).Err?
    ensures Leads(e, level, from, m, stack, trail, One(e, level, from, m, stack).error)
    decreases Free(e, stack), 1, m
  {
    match m
    case Spec(file) =>
      trail := BlameLoad(e, level, e.join(from, file), stack, file);
    case Nested(child, _, ms) =>
      AdmitsNesting(level, child);
      var i;
      i, trail := Blame(e, child, from, ms, |ms|, stack);
  }

  lemma {:induction false} BlameLoad(e: Env, level: Level, target: Path, stack: seq<Path>, file: string) returns (trail: Trail)
    requires Load(e, level, target, stack).Err?
    ensures trail != [] && trail[0] == (level, file)
    ensures Onward(e, level, target, stack, trail, Load(e, level, target, stack).error)
    decreases Free(e, stack), 0
  {
    trail := [(level, file)];
    if Obstacle(e, level, target, stack).None? {
      var c, ms := e.canon(target), Parsed(e, level, target);
      FreeShrinks(e, stack, c);
      var i, rest := Blame(e, level, target, ms, |ms|, stack + [c]);
      trail := [(level, file)] + rest;
      assert trail[1..] == rest;
    }
  }

  lemma {:induction false} Blame(e: Env, level: Level, from: Path, ms: seq<Member>, n: nat, stack: seq<Path>)
    returns (i: nat, trail: Trail)
    requires n <= |ms| && Resolve(e, level, from, ms, n, stack).Err?
    ensures i < n && Leads(e, level, from, ms[i], stack, trail, Resolve(e, level, from, ms, n, stack).error)
    decreases Free(e, stack), 1, ms, n
  {
    if Resolve(e, level, from, ms, n - 1, stack).Err? {
      i, trail := Blame(e, level, from, ms, n - 1, stack);
    } else {
      i := n - 1;
      trail := BlameOne(e, level, from, ms[i], stack);
    }
  }

  lemma {:induction false} FailureSpreads(e: Env, level: Level, from: Path, ms: seq<Member>, n: nat, stack: seq<Path>, i: nat)
    requires i < n <= |ms| && One(e, level, from, ms[i], stack).Err?
    ensures Resolve(e, level, from, ms, n, stack).Err?
  {
    if i < n - 1 {
      FailureSpreads(e, level, from, ms, n - 1, stack, i);
    }
  }

  lemma {:induction false} LeadsFails(e: Env, level: Level, from: Path, m: Member, stack: seq<Path>, trail: Trail, problem: Problem)
    requires Leads(e, level, from, m, stack, trail, problem)
    ensures One(e, level, from, m, stack).Err?
    decreases |trail|, m
  {
    match m
    case Spec(file) =>
      var target := e.join(from, file);
      if |trail| > 1 {
        var ms, open := Parsed(e, level, target), stack + [e.canon(target)];
        var i :| 0 <= i < |ms| && Leads(e, level, target, ms[i], open, trail[1..], problem);
        LeadsFails(e, level, target, ms[i], open, trail[1..], problem);
        FailureSpreads(e, level, target, ms, |ms|, open, i);
      }
    case Nested(child, _, ms) =>
      AdmitsNesting(level, child);
      var i :| 0 <= i < |ms| && Names(child, ms[i], trail[0].0, trail[0].1);
      LeadsFails(e, child, from, ms[i], stack, trail, problem);
      FailureSpreads(e, child, from, ms, |ms|, stack, i);
  }

  /** Some chain of includes from these members ends at `problem`. */
  ghost predicate Reaches(e: Env, level: Level, from: Path, ms: seq<Member>, stack: seq<Path>, problem: Problem) {
    exists i, trail :: 0 <= i < |ms| && Leads(e, level, from, ms[i], stack, trail, problem)
  }

  /** Resolution fails exactly when a chain of includes reaches a problem, and it reports one that is reached. */
  lemma FailsIffReaches(e: Env, level: Level, from: Path, ms: seq<Member>, stack: seq<Path>)
    ensures var r := Resolve(e, level, from, ms, |ms|, stack);
            && (r.Err? ==> Reaches(e, level, from, ms, stack, r.error))
            && (r.Err? <==> exists problem :: Reaches(e, level, from, ms, stack, problem))
  {
    var r := Resolve(e, level, from, ms, |ms|, stack);
    if r.Err? {
      var i, trail := Blame(e, level, from, ms, |ms|, stack);
      assert Reaches(e, level, from, ms, stack, r.error);
    }
    if problem :| Reaches(e, level, from, ms, stack, problem) {
      var i, trail :| 0 <= i < |ms| && Leads(e, level, from, ms[i], stack, trail, problem);
      LeadsFails(e, level, from, ms[i], stack, trail, problem);
      FailureSpreads(e, level, from, ms, |ms|, stack, i);
    }
  }

  /** When everything that is reached can be read and parsed, resolution fails exactly when a chain revisits a file on it. */
  lemma FailsIffCycle(e: Env, level: Level, from: Path, ms: seq<Member>, stack: seq<Path>)
    requires !Reaches(e, level, from, ms, stack, Unreadable) && !Reaches(e, level, from, ms, stack, Unparsable)
    ensures Resolve(e, level, from, ms, |ms|, stack).Err? <==> Reaches(e, level, from, ms, stack, Cycle)
    ensures Resolve(e, level, from, ms, |ms|, stack).Err? ==> Resolve(e, level, from, ms, |ms|, stack) == Err(Cycle)
  {
    FailsIffReaches(e, level, from, ms, stack);
    var r := Resolve(e, level, from, ms, |ms|, stack);
    assert r.Err? ==> r.error == Cycle;
  }

  // ---- A file included more than once ----

  /** The files opened by a successful resolution. */
  ghost function LoadOpens(e: Env, level: Level, target: Path, stack: seq<Path>): set<Path>
    requires Load(e, level, target, stack).Ok?
    decreases Free(e, stack), 0
  {
    var c, ms := e.canon(target), Parsed(e, level, target);
    FreeShrinks(e, stack, c);
    {c} + Opens(e, level, target, ms, |ms|, stack + [c])
  }

  ghost function OneOpens(e: Env, level: Level, from: Path, m: Member, stack: seq<Path>): set<Path>
    requires One(e, level, from, m, stack).Ok?
    decreases Free(e, stack), 1, m
  {
    match m
    case Spec(file) => LoadOpens(e, level, e.join(from, file), stack)
    case Nested(child, _, ms) => if Admits(level, child) then Opens(e, child, from, ms, |ms|, stack) else {}
    case Leaf(_) => {}
  }

  ghost function Opens(e: Env, level: Level, from: Path, ms: seq<Member>, n: nat, stack: seq<Path>): set<Path>
    requires n <= |ms| && Resolve(e, level, from, ms, n, stack).Ok?
    decreases Free(e, stack), 1, ms, n
  {
    if n == 0 then {}
    else Opens(e, level, from, ms, n - 1, stack) + OneOpens(e, level, from, ms[n - 1], stack)
  }

  /** Resolution under a second stack, compared with a successful one under a first. */
  ghost predicate Agrees(r: seq<Member>, opens: set<Path>, stack: seq<Path>, again: Outcome) {
    if opens !! Files(stack) then again == Ok(r) else again == Err(Cycle)
  }

  lemma {:induction false} LoadAgrees(e: Env, level: Level, target: Path, s1: seq<Path>, s2: seq<Path>)
    requires Load(e, level, target, s1).Ok?
    ensures LoadOpens(e, level, target, s1) !! Files(s1)
    ensures Agrees(Load(e, level, target, s1).value, LoadOpens(e, level, target, s1), s2, Load(e, level, target, s2))
    decreases Free(e, s1), 0
  {
    var c, ms := e.canon(target), Parsed(e, level, target);
    FreeShrinks(e, s1, c);
    ResolveAgrees(e, level, target, ms, |ms|, s1 + [c], s2 + [c]);
    assert Files(s1 + [c]) == Files(s1) + {c};
    assert Files(s2 + [c]) == Files(s2) + {c};
  }

  lemma {:induction false} OneAgrees(e: Env, level: Level, from: Path, m: Member, s1: seq<Path>, s2: seq<Path>)
    requires One(e, level, from, m, s1).Ok?
    ensures OneOpens(e, level, from, m, s1) !! Files(s1)
    ensures Agrees(One(e, level, from, m, s1).value, OneOpens(e, level, from, m, s1), s2, One(e, level, from, m, s2))
    decreases Free(e, s1), 1, m
  {
    match m
    case Spec(file) => LoadAgrees(e, level, e.join(from, file), s1, s2);
    case Nested(child, _, ms) =>
      if Admits(level, child) {
        ResolveAgrees(e, child, from, ms, |ms|, s1, s2);
      }
    case Leaf(_) =>
  }

  /**
   What resolves in one place resolves to the same members in every other, however deep in other
   files, unless a file it opens is open there already; then the error is the cycle.
   */
  lemma {:induction false} ResolveAgrees(e: Env, level: Level, from: Path, ms: seq<Member>, n: nat,
                                         s1: seq<Path>, s2: seq<Path>)
    requires n <= |ms| && Resolve(e, level, from, ms, n, s1).Ok?
    ensures Opens(e, level, from, ms, n, s1) !! Files(s1)
    ensures Agrees(Resolve(e, level, from, ms, n, s1).value, Opens(e, level, from, ms, n, s1), s2,
                   Resolve(e, level, from, ms, n, s2))
    decreases Free(e, s1), 1, ms, n
  {
    if n > 0 {
      ResolveAgrees(e, level, from, ms, n - 1, s1, s2);
      OneAgrees(e, level, from, ms[n - 1], s1, s2);
    }
  }

  /** The first `n` members start with the splice of the first `i`. */
  lemma {:induction false} SplicedAfter(e: Env, level: Level, from: Path, ms: seq<Member>, i: nat, n: nat, stack: seq<Path>)
    returns (rest: seq<Member>)
    requires i <= n <= |ms| && Resolve(e, level, from, ms, n, stack).Ok?
    ensures Resolve(e, level, from, ms, i, stack).Ok?
    ensures Resolve(e, level, from, ms, n, stack).value == Resolve(e, level, from, ms, i, stack).value + rest
  {
    if i == n {
      rest := [];
    } else {
      var more := SplicedAfter(e, level, from, ms, i, n - 1, stack);
      rest := more + One(e, level, from, ms[n - 1], stack).value;
    }
  }

  /**
   Including at position `j` a file that was already included at position `i` is no error, and its
   members are spliced at both places, with what the members before, between bring.
   */
  lemma IncludedTwice(e: Env, level: Level, from: Path, ms: seq<Member>, i: nat, j: nat, file: string, stack: seq<Path>)
    returns (between: seq<Member>)
    requires i < j < |ms| && ms[i] == ms[j] == Spec(file) && Resolve(e, level, from, ms, j, stack).Ok?
    ensures Load(e, level, e.join(from, file), stack).Ok? && Resolve(e, level, from, ms, i, stack).Ok?
    ensures var once := Load(e, level, e.join(from, file), stack).value;
            Resolve(e, level, from, ms, j + 1, stack)
            == Ok(Resolve(e, level, from, ms, i, stack).value + once + between + once)
  {
    between := SplicedAfter(e, level, from, ms, i + 1, j, stack);
  }

  // ---- The resolver ----

  class Resolver {
    const env: Env
    var stack: seq<Path>

    constructor (env: Env, path: Path)
      ensures this.env == env && stack == [env.canon(path)]
    {
      this.env := env;
      stack := [env.canon(path)];
    }

    method LoadIncluded(level: Level, from: Path, file: string) returns (r: Outcome)
      modifies this
      ensures r == Load(env, level, env.join(from, file), old(stack))
      ensures r.Ok? ==> stack == old(stack)
      decreases Free(env, stack), 0
    {
      var target := env.join(from, file);
      var canon := env.canon(target);
      if canon in stack {
        return Err(Cycle);
      }
      if canon !in env.content {
        return Err(Unreadable);
      }
      var members := env.parse(level, env.content[canon]);
      if members.None? {
        return Err(Unparsable);
      }
      FreeShrinks(env, stack, canon);
      stack := stack + [canon];
      r := ResolveMembers(level, target, members.value);
      if r.Ok? {
        stack := stack[..|stack| - 1];
      }
    }

    method ResolveMember(level: Level, from: Path, m: Member) returns (r: Outcome)
      modifies this
      ensures r == One(env, level, from, m, old(stack))
      ensures r.Ok? ==> stack == old(stack)
      decreases Free(env, stack), 1, m
    {
      match m {
        case Spec(file) =>
          r := LoadIncluded(level, from, file);
        case Nested(child, head, ms) =>
          if !Admits(level, child) {
            return Ok([m]);
          }
          r := ResolveMembers(child, from, ms);
          if r.Ok? {
            r := Ok([Nested(child, head, r.value)]);
          }
        case Leaf(_) =>
          r := Ok([m]);
      }
    }

    /** The loop of the member resolvers, of which the code has one for each level. */
    method ResolveMembers(level: Level, from: Path, members: seq<Member>) returns (r: Outcome)
      modifies this
      ensures r == Resolve(env, level, from, members, |members|, old(stack))
      ensures r.Ok? ==> stack == old(stack)
      decreases Free(env, stack), 1, members
    {
      var out: seq<Member> := [];
      for i := 0 to |members|
        invariant stack == old(stack)
        invariant Resolve(env, level, from, members, i, stack) == Ok(out)
      {
        r := ResolveMember(level, from, members[i]);
        if r.Err? {
          Stops(env, level, from, members, i, |members|, old(stack));
          return;
        }
        out := out + r.value;
      }
      r := Ok(out);
    }
  }

  /** A whole translation unit; its own file is open from the start. */
  method ParseWithIncludes(env: Env, path: Path, text: Text) returns (r: Outcome)
    ensures var ms := env.parse(Modules, text);
            r == if ms.None? then Err(Unparsable)
                 else Resolve(env, Modules, path, ms.value, |ms.value|, [env.canon(path)])
  {
    var ms := env.parse(Modules, text);
    if ms.None? {
      return Err(Unparsable);
    }
    var resolver := new Resolver(env, path);
    r := resolver.ResolveMembers(Modules, path, ms.value);
  }

  /** The first failure is the result. */
  lemma {:induction false} Stops(e: Env, level: Level, from: Path, ms: seq<Member>, i: nat, n: nat, stack: seq<Path>)
    requires i < n <= |ms| && Resolve(e, level, from, ms, i, stack).Ok? && One(e, level, from, ms[i], stack).Err?
    ensures Resolve(e, level, from, ms, n, stack) == One(e, level, from, ms[i], stack)
  {
    if i < n - 1 {
      Stops(e, level, from, ms, i, n - 1, stack);
    }
  }
}
