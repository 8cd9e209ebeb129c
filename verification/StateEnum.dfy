/** The implicit `State` enum that every state machine with members is given before analysis. */
module StateEnum {
  import opened Wrappers

  datatype State = State(name: string, children: seq<State>)

  datatype Kind = U8 | U16 | U32

  datatype Constant = Constant(id: nat, name: string)

  datatype Enum = Enum(id: nat, name: string, typeId: nat, kind: Kind, constants: seq<Constant>)

  /** `ids` are the node ids inside a member; the pass does not look at them. */
  datatype MachineMember =
    | DefState(ids: seq<nat>, state: State)
    | DefEnum(enum: Enum)
    | OtherMember(ids: seq<nat>)

  datatype Machine = Machine(id: nat, members: Option<seq<MachineMember>>)

  datatype Member =
    | DefModule(id: nat, members: seq<Member>)
    | DefComponent(id: nat, parts: seq<Part>)
    | DefMachine(machine: Machine)
    | Other(ids: seq<nat>)

  datatype Part = PartMachine(machine: Machine) | OtherPart(ids: seq<nat>)

  const UNINITIALIZED := "__FPRIME_UNINITIALIZED"
  const STATE := "State"

  // ---- The leaf states ----

  /** `path.join("_")` */
  function Joined(path: seq<string>): string {
    if path == [] then ""
    else if |path| == 1 then path[0]
    else Joined(path[..|path| - 1]) + "_" + path[|path| - 1]
  }

  /** One name stands for itself; otherwise an underscore stands between any two parts. */
  lemma {:induction false} JoinedIs(a: seq<string>, b: seq<string>)
    requires a != [] && b != []
    ensures |a| == 1 ==> Joined(a) == a[0]
    ensures Joined(a + b) == Joined(a) + "_" + Joined(b)
  {
    var last := b[|b| - 1];
    assert (a + b)[..|a + b| - 1] == a + b[..|b| - 1];
    if |b| == 1 {
      assert a + b[..0] == a;
    } else {
      JoinedIs(a, b[..|b| - 1]);
    }
  }

  /** The names of the leaves of a state found at `path`, in order of definition. */
  function LeavesOf(s: State, path: seq<string>): seq<string>
    decreases s, 1
  {
    if s.children == [] then [Joined(path + [s.name])]
    else Leaves(s.children, |s.children|, path + [s.name])
  }

  function Leaves(ss: seq<State>, n: nat, path: seq<string>): seq<string>
    requires n <= |ss|
    decreases ss, n
  {
    if n == 0 then [] else Leaves(ss, n - 1, path) + LeavesOf(ss[n - 1], path)
  }

  /** `trail` names a state without substates, from `s` down. */
  ghost predicate IsLeaf(s: State, trail: seq<string>) {
    && trail != [] && trail[0] == s.name
    && if s.children == [] then |trail| == 1
       else exists i :: 0 <= i < |s.children| && IsLeaf(s.children[i], trail[1..])
  }

  lemma {:induction false} LeafOfSound(s: State, path: seq<string>, name: string) returns (trail: seq<string>)
    requires name in LeavesOf(s, path)
    ensures IsLeaf(s, trail) && name == Joined(path + trail)
    decreases s, 1
  {
    if s.children == [] {
      trail := [s.name];
    } else {
      var i, rest := LeavesSound(s.children, |s.children|, path + [s.name], name);
      trail := [s.name] + rest;
      assert trail[1..] == rest;
      assert path + trail == path + [s.name] + rest;
    }
  }

  lemma {:induction false} LeavesSound(ss: seq<State>, n: nat, path: seq<string>, name: string)
    returns (i: nat, trail: seq<string>)
    requires n <= |ss| && name in Leaves(ss, n, path)
    ensures i < n && IsLeaf(ss[i], trail) && name == Joined(path + trail)
    decreases ss, n
  {
    if name in Leaves(ss, n - 1, path) {
      i, trail := LeavesSound(ss, n - 1, path, name);
    } else {
      i := n - 1;
      trail := LeafOfSound(ss[i], path, name);
    }
  }

  lemma {:induction false} LeafOfComplete(s: State, path: seq<string>, trail: seq<string>)
    requires IsLeaf(s, trail)
    ensures Joined(path + trail) in LeavesOf(s, path)
    decreases s, 1
  {
    if s.children == [] {
      assert trail == [s.name];
    } else {
      var i :| 0 <= i < |s.children| && IsLeaf(s.children[i], trail[1..]);
      LeavesComplete(s.children, |s.children|, path + [s.name], i, trail[1..]);
      assert path + trail == path + [s.name] + trail[1..];
    }
  }

  lemma {:induction false} LeavesComplete(ss: seq<State>, n: nat, path: seq<string>, i: nat, trail: seq<string>)
    requires i < n <= |ss| && IsLeaf(ss[i], trail)
    ensures Joined(path + trail) in Leaves(ss, n, path)
    decreases ss, n
  {
    if i == n - 1 {
      LeafOfComplete(ss[i], path, trail);
    } else {
      LeavesComplete(ss, n - 1, path, i, trail);
    }
  }

  // ---- Sorting ----

  /** The order of strings by their characters. */
  predicate Le(a: string, b: string) {
    if a == [] then true
    else if b == [] then false
    else a[0] < b[0] || (a[0] == b[0] && Le(a[1..], b[1..]))
  }

  lemma {:induction false} LeTotal(a: string, b: string)
    ensures Le(a, b) || Le(b, a)
  {
    if a != [] && b != [] && a[0] == b[0] {
      LeTotal(a[1..], b[1..]);
    }
  }

  lemma {:induction false} LeTransitive(a: string, b: string, c: string)
    requires Le(a, b) && Le(b, c)
    ensures Le(a, c)
  {
    if a != [] && b != [] && c != [] && a[0] == b[0] == c[0] {
      LeTransitive(a[1..], b[1..], c[1..]);
    }
  }

  /** `a` and `b` agree before position `k`, where `a` has the smaller character. */
  predicate SmallerAt(a: string, b: string, k: nat) {
    k < |a| && k < |b| && a[k] < b[k] && forall i :: 0 <= i < k ==> a[i] == b[i]
  }

  /** `a` is a prefix of `b`, or smaller where they first differ. */
  ghost predicate InOrder(a: string, b: string) {
    a <= b || exists k: nat :: SmallerAt(a, b, k)
  }

  lemma {:induction false} LeInOrder(a: string, b: string)
    requires Le(a, b)
    ensures InOrder(a, b)
  {
    if a != [] {
      if a[0] < b[0] {
        assert SmallerAt(a, b, 0);
      } else {
        LeInOrder(a[1..], b[1..]);
        assert a == [a[0]] + a[1..] && b == [b[0]] + b[1..];
        if k: nat :| SmallerAt(a[1..], b[1..], k) {
          assert SmallerAt(a, b, k + 1) by {
            assert forall i :: 0 < i < k + 1 ==> a[i] == a[1..][i - 1] == b[1..][i - 1] == b[i];
          }
        }
      }
    }
  }

  lemma {:induction false} SmallerLe(a: string, b: string, k: nat)
    requires SmallerAt(a, b, k)
    ensures Le(a, b) && !Le(b, a)
  {
    if k > 0 {
      SmallerLe(a[1..], b[1..], k - 1);
    }
  }

  lemma {:induction false} PrefixLe(a: string, b: string)
    requires a <= b
    ensures Le(a, b)
  {
    if a != [] {
      PrefixLe(a[1..], b[1..]);
    }
  }

  /** The order of strings is lexicographic. */
  lemma LeIsInOrder(a: string, b: string)
    ensures Le(a, b) <==> InOrder(a, b)
  {
    if Le(a, b) {
      LeInOrder(a, b);
    }
    if a <= b {
      PrefixLe(a, b);
    }
    if k: nat :| SmallerAt(a, b, k) {
      SmallerLe(a, b, k);
    }
  }

  ghost predicate Below(x: string, s: seq<string>) {
    forall i :: 0 <= i < |s| ==> Le(x, s[i])
  }

  ghost predicate Sorted(s: seq<string>) {
    s == [] || (Below(s[0], s[1..]) && Sorted(s[1..]))
  }

  function Insert(x: string, s: seq<string>): (r: seq<string>)
    ensures multiset(r) == multiset{x} + multiset(s)
  {
    if s == [] then [x]
    else if Le(x, s[0]) then [x] + s
    else
      assert s == [s[0]] + s[1..];
      [s[0]] + Insert(x, s[1..])
  }

  /** `leaves.sort()` */
  function Sort(s: seq<string>): (r: seq<string>)
    ensures multiset(r) == multiset(s)
  {
    if s == [] then []
    else
      assert s == [s[0]] + s[1..];
      Insert(s[0], Sort(s[1..]))
  }

  lemma {:induction false} InsertSorts(x: string, s: seq<string>)
    requires Sorted(s)
    ensures Sorted(Insert(x, s))
  {
    var r := Insert(x, s);
    if s == [] {
      assert r[1..] == [];
    } else if Le(x, s[0]) {
      assert r[1..] == s;
      forall i | 0 <= i < |s|
        ensures Le(x, s[i])
      {
        if i > 0 {
          assert s[i] == s[1..][i - 1];
          LeTransitive(x, s[0], s[i]);
        }
      }
    } else {
      InsertSorts(x, s[1..]);
      LeTotal(x, s[0]);
      assert r[1..] == Insert(x, s[1..]);
      forall i | 0 <= i < |r[1..]|
        ensures Le(s[0], r[1..][i])
      {
        assert r[1..][i] in multiset(r[1..]);
        if r[1..][i] != x {
          assert r[1..][i] in s[1..];
        }
      }
    }
  }

  lemma {:induction false} SortSorts(s: seq<string>)
    ensures Sorted(Sort(s))
  {
    if s != [] {
      SortSorts(s[1..]);
      InsertSorts(s[0], Sort(s[1..]));
    }
  }

  // ---- The enum ----

  function KindFor(n: nat): Kind {
    if n <= 0xFF then U8 else if n <= 0xFFFF then U16 else U32
  }

  function Largest(kind: Kind): nat {
    match kind
    case U8 => 0xFF
    case U16 => 0xFFFF
    case U32 => 0xFFFF_FFFF
  }

  predicate Fits(i: nat, kind: Kind) { i <= Largest(kind) }

  /** The discriminants 0 to n - 1 fit the representation exactly when there are no more than 2^32 of them. */
  lemma DiscriminantsFit(n: nat)
    ensures (forall i: nat :: i < n ==> Fits(i, KindFor(n))) <==> n <= 0x1_0000_0000
  {
    if n > 0x1_0000_0000 {
      assert !Fits(0x1_0000_0000, KindFor(n));
    }
  }

  /** The representation is the smallest that holds the number of constants, if any does. */
  lemma KindIsSmallest(n: nat, kind: Kind)
    requires n <= Largest(kind)
    ensures n <= Largest(KindFor(n)) <= Largest(kind)
  {}

  function Constants(names: seq<string>, n: nat, id: nat): (cs: seq<Constant>)
    requires n <= |names|
    ensures |cs| == n
    ensures forall i :: 0 <= i < n ==> cs[i] == Constant(id + i, names[i])
  {
    if n == 0 then [] else Constants(names, n - 1, id) + [Constant(id + n - 1, names[n - 1])]
  }

  /** The leaves of all states of a machine, in order of definition. */
  function LeafNames(ms: seq<MachineMember>, n: nat): seq<string>
    requires n <= |ms|
  {
    if n == 0 then []
    else LeafNames(ms, n - 1) + if ms[n - 1].DefState? then LeavesOf(ms[n - 1].state, []) else []
  }

  function Build(leaves: seq<string>, id: nat): Enum {
    var names := [UNINITIALIZED] + Sort(leaves);
    Enum(id + |names| + 1, STATE, id + |names|, KindFor(|names|), Constants(names, |names|, id))
  }

  predicate HasState(ms: seq<MachineMember>) {
    exists i :: 0 <= i < |ms| && ms[i].DefEnum? && ms[i].enum.name == STATE
  }

  function MachineAfter(m: Machine, id: nat): (Machine, nat) {
    if m.members.None? || HasState(m.members.value) then (m, id)
    else
      var ms := m.members.value;
      var e := Build(LeafNames(ms, |ms|), id);
      (m.(members := Some(ms + [DefEnum(e)])), e.id + 1)
  }

  /** The name of constant `i`. */
  function NameAt(e: Enum, i: nat): string
    requires i < |e.constants|
  {
    e.constants[i].name
  }

  ghost predicate IsLeafName(ms: seq<MachineMember>, name: string) {
    exists i, trail :: 0 <= i < |ms| && ms[i].DefState? && IsLeaf(ms[i].state, trail) && name == Joined(trail)
  }

  lemma {:induction false} LeafNamesSound(ms: seq<MachineMember>, n: nat, name: string)
    requires n <= |ms| && name in LeafNames(ms, n)
    ensures IsLeafName(ms, name)
  {
    if name in LeafNames(ms, n - 1) {
      LeafNamesSound(ms, n - 1, name);
    } else {
      var trail := LeafOfSound(ms[n - 1].state, [], name);
      assert [] + trail == trail;
    }
  }

  lemma {:induction false} LeafNamesComplete(ms: seq<MachineMember>, n: nat, i: nat, trail: seq<string>)
    requires i < n <= |ms| && ms[i].DefState? && IsLeaf(ms[i].state, trail)
    ensures Joined(trail) in LeafNames(ms, n)
  {
    if i < n - 1 {
      LeafNamesComplete(ms, n - 1, i, trail);
    } else {
      LeafOfComplete(ms[i].state, [], trail);
      assert [] + trail == trail;
    }
  }

  /** The constants of `e` after the first are the sorted names of the states of `ms` without substates. */
  ghost predicate ListsLeaves(e: Enum, ms: seq<MachineMember>, names: seq<string>) {
    && |e.constants| == |names| + 1
    && NameAt(e, 0) == UNINITIALIZED
    && (forall i :: 0 <= i < |names| ==> NameAt(e, i + 1) == names[i])
    && Sorted(names) && multiset(names) == multiset(LeafNames(ms, |ms|))
    && (forall name :: name in names <==> IsLeafName(ms, name))
  }

  lemma SameElements(a: seq<string>, b: seq<string>, x: string)
    requires multiset(a) == multiset(b)
    ensures x in a <==> x in b
  {
    assert x in a <==> x in multiset(a);
    assert x in b <==> x in multiset(b);
  }

  /** What a machine that has members and no `State` enum is given. */
  lemma StateEnumIs(m: Machine, id: nat)
    requires m.members.Some? && !HasState(m.members.value)
    ensures var ms := m.members.value;
            var after := MachineAfter(m, id).0.members;
            && after.Some? && |after.value| == |ms| + 1 && after.value[..|ms|] == ms
            && after.value[|ms|].DefEnum? && after.value[|ms|].enum.name == STATE
            && ListsLeaves(after.value[|ms|].enum, ms, Sort(LeafNames(ms, |ms|)))
  {
    var ms := m.members.value;
    var leaves := LeafNames(ms, |ms|);
    SortSorts(leaves);
    forall name
      ensures name in Sort(leaves) <==> IsLeafName(ms, name)
    {
      SameElements(Sort(leaves), leaves, name);
      if name in leaves {
        LeafNamesSound(ms, |ms|, name);
      }
      if IsLeafName(ms, name) {
        var i, trail :| 0 <= i < |ms| && ms[i].DefState? && IsLeaf(ms[i].state, trail) && name == Joined(trail);
        LeafNamesComplete(ms, |ms|, i, trail);
      }
    }
  }

  // ---- When the constants are distinct ----

  predicate NoRepeat(s: seq<string>) {
    s == [] || (s[0] !in s[1..] && NoRepeat(s[1..]))
  }

  ghost predicate AtMostOnce(s: seq<string>) {
    forall x :: multiset(s)[x] <= 1
  }

  lemma {:induction false} NoRepeatCounts(s: seq<string>)
    ensures NoRepeat(s) <==> AtMostOnce(s)
  {
    if s != [] {
      var head, rest := s[0], s[1..];
      NoRepeatCounts(rest);
      assert s == [head] + rest;
      assert multiset(s) == multiset{head} + multiset(rest);
      assert head in rest <==> multiset(rest)[head] >= 1;
      if AtMostOnce(s) {
        assert multiset(s)[head] <= 1;
        forall x
          ensures multiset(rest)[x] <= 1
        {
          assert multiset(s)[x] <= 1;
        }
      }
    }
  }

  function ConstantNames(cs: seq<Constant>): (names: seq<string>)
    ensures |names| == |cs| && forall i :: 0 <= i < |cs| ==> names[i] == cs[i].name
  {
    if cs == [] then [] else [cs[0].name] + ConstantNames(cs[1..])
  }

  /** How many leaf states of `s`, found at `path`, have the joined path `name`. */
  function Joining(s: State, path: seq<string>, name: string): nat
    decreases s, 1
  {
    if s.children == [] then (if Joined(path + [s.name]) == name then 1 else 0)
    else JoiningOf(s.children, |s.children|, path + [s.name], name)
  }

  function JoiningOf(ss: seq<State>, n: nat, path: seq<string>, name: string): nat
    requires n <= |ss|
    decreases ss, n
  {
    if n == 0 then 0 else JoiningOf(ss, n - 1, path, name) + Joining(ss[n - 1], path, name)
  }

  /** How many leaf states of a machine have the joined path `name`. */
  function LeavesNamed(ms: seq<MachineMember>, n: nat, name: string): nat
    requires n <= |ms|
  {
    if n == 0 then 0
    else LeavesNamed(ms, n - 1, name) + if ms[n - 1].DefState? then Joining(ms[n - 1].state, [], name) else 0
  }

  lemma {:induction false} JoiningCounts(s: State, path: seq<string>, name: string)
    ensures multiset(LeavesOf(s, path))[name] == Joining(s, path, name)
    decreases s, 1
  {
    if s.children != [] {
      JoiningOfCounts(s.children, |s.children|, path + [s.name], name);
    }
  }

  lemma {:induction false} JoiningOfCounts(ss: seq<State>, n: nat, path: seq<string>, name: string)
    requires n <= |ss|
    ensures multiset(Leaves(ss, n, path))[name] == JoiningOf(ss, n, path, name)
    decreases ss, n
  {
    if n > 0 {
      JoiningOfCounts(ss, n - 1, path, name);
      JoiningCounts(ss[n - 1], path, name);
    }
  }

  lemma {:induction false} LeavesNamedCounts(ms: seq<MachineMember>, n: nat, name: string)
    requires n <= |ms|
    ensures multiset(LeafNames(ms, n))[name] == LeavesNamed(ms, n, name)
  {
    if n > 0 {
      LeavesNamedCounts(ms, n - 1, name);
      if ms[n - 1].DefState? {
        JoiningCounts(ms[n - 1].state, [], name);
      }
    }
  }

  /** No two leaf states of the machine join to one name, and none to that of the uninitialized constant. */
  ghost predicate JoinsApart(ms: seq<MachineMember>) {
    && (forall name :: LeavesNamed(ms, |ms|, name) <= 1)
    && LeavesNamed(ms, |ms|, UNINITIALIZED) == 0
  }

  lemma ApartIff(ms: seq<MachineMember>)
    ensures JoinsApart(ms)
            <==> AtMostOnce(LeafNames(ms, |ms|)) && multiset(LeafNames(ms, |ms|))[UNINITIALIZED] == 0
  {
    var leaves := LeafNames(ms, |ms|);
    LeavesNamedCounts(ms, |ms|, UNINITIALIZED);
    if AtMostOnce(leaves) {
      forall name
        ensures LeavesNamed(ms, |ms|, name) <= 1
      {
        LeavesNamedCounts(ms, |ms|, name);
        assert multiset(leaves)[name] <= 1;
      }
    }
    if JoinsApart(ms) {
      forall name
        ensures multiset(leaves)[name] <= 1
      {
        LeavesNamedCounts(ms, |ms|, name);
        assert LeavesNamed(ms, |ms|, name) <= 1;
      }
    }
  }

  lemma NamesDistinct(leaves: seq<string>, id: nat)
    ensures NoRepeat(ConstantNames(Build(leaves, id).constants))
            <==> AtMostOnce(leaves) && multiset(leaves)[UNINITIALIZED] == 0
  {
    var sorted := Sort(leaves);
    assert ConstantNames(Build(leaves, id).constants) == [UNINITIALIZED] + sorted;
    assert ([UNINITIALIZED] + sorted)[1..] == sorted;
    assert UNINITIALIZED in sorted <==> multiset(sorted)[UNINITIALIZED] > 0;
    NoRepeatCounts(sorted);
  }

  /** The constants of the enum a machine is given have distinct names exactly when its leaf states join apart. */
  lemma DistinctIff(m: Machine, id: nat)
    requires m.members.Some? && !HasState(m.members.value)
    ensures var ms := m.members.value;
            var after := MachineAfter(m, id).0.members;
            && after.Some? && |after.value| == |ms| + 1 && after.value[|ms|].DefEnum?
            && (NoRepeat(ConstantNames(after.value[|ms|].enum.constants)) <==> JoinsApart(ms))
  {
    var ms := m.members.value;
    NamesDistinct(LeafNames(ms, |ms|), id);
    ApartIff(ms);
  }

  /** Two states whose paths differ can be joined to one name. */
  lemma NamesCollide()
    ensures var a, ab := State("A", [State("B", [])]), State("A_B", []);
            var ms := [DefState([], a), DefState([], ab)];
            LeafNames(ms, 2) == ["A_B", "A_B"] && !JoinsApart(ms)
  {
    var b, ab := State("B", []), State("A_B", []);
    var a := State("A", [b]);
    var ms := [DefState([], a), DefState([], ab)];
    assert Joined(["A"]) == "A";
    assert ["A", "B"][..1] == ["A"];
    assert [] + ["A"] == ["A"] && ["A"] + ["B"] == ["A", "B"] && [] + ["A_B"] == ["A_B"];
    assert Joined(["A", "B"]) == "A_B";
    assert LeavesOf(b, ["A"]) == ["A_B"];
    assert Leaves([b], 1, ["A"]) == ["A_B"];
    assert LeavesOf(a, []) == ["A_B"];
    assert LeavesOf(ab, []) == ["A_B"];
    assert LeafNames(ms, 0) == [];
    assert LeafNames(ms, 1) == ["A_B"];
    assert LeafNames(ms, 2) == ["A_B", "A_B"];
    LeavesNamedCounts(ms, 2, "A_B");
    assert LeavesNamed(ms, |ms|, "A_B") == 2;
  }

  // ---- The whole unit ----

  function PartAfter(p: Part, id: nat): (Part, nat) {
    match p
    case PartMachine(m) => var r := MachineAfter(m, id); (PartMachine(r.0), r.1)
    case OtherPart(_) => (p, id)
  }

  function PartsAfter(ps: seq<Part>, n: nat, id: nat): (r: (seq<Part>, nat))
    requires n <= |ps|
    ensures |r.0| == n
  {
    if n == 0 then ([], id)
    else
      var before := PartsAfter(ps, n - 1, id);
      var last := PartAfter(ps[n - 1], before.1);
      (before.0 + [last.0], last.1)
  }

  function MemberAfter(m: Member, id: nat): (Member, nat)
    decreases m, 1
  {
    match m
    case DefModule(node, ms) => var r := MembersAfter(ms, |ms|, id); (DefModule(node, r.0), r.1)
    case DefComponent(node, ps) => var r := PartsAfter(ps, |ps|, id); (DefComponent(node, r.0), r.1)
    case DefMachine(sm) => var r := MachineAfter(sm, id); (DefMachine(r.0), r.1)
    case Other(_) => (m, id)
  }

  function MembersAfter(ms: seq<Member>, n: nat, id: nat): (r: (seq<Member>, nat))
    requires n <= |ms|
    ensures |r.0| == n
    decreases ms, n
  {
    if n == 0 then ([], id)
    else
      var before := MembersAfter(ms, n - 1, id);
      var last := MemberAfter(ms[n - 1], before.1);
      (before.0 + [last.0], last.1)
  }

  // ---- What the pass adds, told from the unit ----

  /** How many of the constants 1 to `n - 1` have the name `name`. */
  function Occurs(cs: seq<Constant>, n: nat, name: string): nat
    requires n <= |cs|
  {
    if n <= 1 then 0 else Occurs(cs, n - 1, name) + if cs[n - 1].name == name then 1 else 0
  }

  ghost predicate Ascends(cs: seq<Constant>) {
    forall i, j :: 0 < i < j < |cs| ==> InOrder(cs[i].name, cs[j].name)
  }

  /** Every name is that of as many constants as there are leaf states with it. */
  ghost predicate Covers(cs: seq<Constant>, ms: seq<MachineMember>) {
    forall name :: Occurs(cs, |cs|, name) == LeavesNamed(ms, |ms|, name)
  }

  /**
   A `State` enum for the machine members `ms`: the uninitialized constant, then the joined paths of the
   leaf states, in order and each as often as there are leaf states with it, in the smallest type.
   */
  ghost predicate StateEnumOf(e: Enum, ms: seq<MachineMember>) {
    && e.name == "State"
    && e.constants != [] && e.constants[0].name == "__FPRIME_UNINITIALIZED"
    && Ascends(e.constants) && Covers(e.constants, ms)
    && e.kind == if |e.constants| < 0x100 then U8 else if |e.constants| < 0x1_0000 then U16 else U32
  }

  /** `after` is `before` with a `State` enum at the end, if `before` has members and no such enum among them. */
  ghost predicate MachineExtends(before: Machine, after: Machine) {
    if before.members.None? || (exists m :: m in before.members.value && m.DefEnum? && m.enum.name == "State")
    then after == before
    else
      && after.id == before.id && after.members.Some?
      && var ms, rs := before.members.value, after.members.value;
         && |rs| == |ms| + 1 && rs[..|ms|] == ms
         && rs[|ms|].DefEnum? && StateEnumOf(rs[|ms|].enum, ms)
  }

  ghost predicate PartExtends(before: Part, after: Part) {
    if before.PartMachine? then after.PartMachine? && MachineExtends(before.machine, after.machine)
    else after == before
  }

  /** `after` is `before` with every machine in it, at any depth, extended, and nothing else changed. */
  ghost predicate Extends(before: Member, after: Member)
    decreases before
  {
    match before
    case DefModule(id, ms) =>
      && after.DefModule? && after.id == id && |after.members| == |ms|
      && forall i :: 0 <= i < |ms| ==> Extends(ms[i], after.members[i])
    case DefComponent(id, ps) =>
      && after.DefComponent? && after.id == id && |after.parts| == |ps|
      && forall i :: 0 <= i < |ps| ==> PartExtends(ps[i], after.parts[i])
    case DefMachine(m) => after.DefMachine? && MachineExtends(m, after.machine)
    case Other(_) => after == before
  }

  /** The constants after the first are named `names`. */
  ghost predicate Named(cs: seq<Constant>, names: seq<string>) {
    |cs| == |names| + 1 && forall i :: 0 < i < |cs| ==> cs[i].name == names[i - 1]
  }

  lemma {:induction false} OccursCounts(cs: seq<Constant>, names: seq<string>, n: nat, name: string)
    requires Named(cs, names) && n <= |names|
    ensures Occurs(cs, n + 1, name) == multiset(names[..n])[name]
  {
    if n > 0 {
      OccursCounts(cs, names, n - 1, name);
      assert names[..n] == names[..n - 1] + [names[n - 1]];
    }
  }

  lemma {:induction false} SortedAt(s: seq<string>, i: nat, j: nat)
    requires Sorted(s) && i < j < |s|
    ensures Le(s[i], s[j])
  {
    if i == 0 {
      assert s[j] == s[1..][j - 1];
    } else {
      SortedAt(s[1..], i - 1, j - 1);
    }
  }

  lemma SortedAscends(cs: seq<Constant>, names: seq<string>)
    requires Named(cs, names) && Sorted(names)
    ensures Ascends(cs)
  {
    forall i, j | 0 < i < j < |cs|
      ensures InOrder(cs[i].name, cs[j].name)
    {
      SortedAt(names, i - 1, j - 1);
      LeIsInOrder(names[i - 1], names[j - 1]);
    }
  }

  lemma LeavesCovered(cs: seq<Constant>, names: seq<string>, ms: seq<MachineMember>)
    requires Named(cs, names) && multiset(names) == multiset(LeafNames(ms, |ms|))
    ensures Covers(cs, ms)
  {
    forall name
      ensures Occurs(cs, |cs|, name) == LeavesNamed(ms, |ms|, name)
    {
      OccursCounts(cs, names, |names|, name);
      assert names[..|names|] == names;
      LeavesNamedCounts(ms, |ms|, name);
    }
  }

  lemma BuildIs(ms: seq<MachineMember>, id: nat)
    ensures StateEnumOf(Build(LeafNames(ms, |ms|), id), ms)
  {
    var leaves := LeafNames(ms, |ms|);
    var cs, names := Build(leaves, id).constants, Sort(leaves);
    SortSorts(leaves);
    assert Named(cs, names);
    SortedAscends(cs, names);
    LeavesCovered(cs, names, ms);
  }

  lemma MachineExtended(m: Machine, id: nat)
    ensures MachineExtends(m, MachineAfter(m, id).0)
  {
    if m.members.Some? {
      var ms := m.members.value;
      BuildIs(ms, id);
      if HasState(ms) {
        var i :| 0 <= i < |ms| && ms[i].DefEnum? && ms[i].enum.name == STATE;
        assert ms[i] in ms;
      }
    }
  }

  lemma {:induction false} PartsExtended(ps: seq<Part>, n: nat, id: nat)
    requires n <= |ps|
    ensures forall i :: 0 <= i < n ==> PartExtends(ps[i], PartsAfter(ps, n, id).0[i])
  {
    if n > 0 {
      var before := PartsAfter(ps, n - 1, id);
      PartsExtended(ps, n - 1, id);
      if ps[n - 1].PartMachine? {
        MachineExtended(ps[n - 1].machine, before.1);
      }
    }
  }

  lemma {:induction false} MemberExtended(m: Member, id: nat)
    ensures Extends(m, MemberAfter(m, id).0)
    decreases m, 1
  {
    match m
    case DefModule(_, ms) => MembersExtended(ms, |ms|, id);
    case DefComponent(_, ps) => PartsExtended(ps, |ps|, id);
    case DefMachine(sm) => MachineExtended(sm, id);
    case Other(_) =>
  }

  /** The pass extends every machine of the unit and changes nothing else. */
  lemma {:induction false} MembersExtended(ms: seq<Member>, n: nat, id: nat)
    requires n <= |ms|
    ensures forall i :: 0 <= i < n ==> Extends(ms[i], MembersAfter(ms, n, id).0[i])
    decreases ms, n
  {
    if n > 0 {
      var before := MembersAfter(ms, n - 1, id);
      MembersExtended(ms, n - 1, id);
      MemberExtended(ms[n - 1], before.1);
    }
  }

  // ---- Ids ----

  function Is(id: nat, x: nat): nat { if id == x then 1 else 0 }

  /** How many nodes of a list, an enum, a machine, a member have the id `x`. */
  function Count(ids: seq<nat>, n: nat, x: nat): nat
    requires n <= |ids|
  {
    if n == 0 then 0 else Count(ids, n - 1, x) + Is(ids[n - 1], x)
  }

  function ConstantsCount(cs: seq<Constant>, n: nat, x: nat): nat
    requires n <= |cs|
  {
    if n == 0 then 0 else ConstantsCount(cs, n - 1, x) + Is(cs[n - 1].id, x)
  }

  function EnumCount(e: Enum, x: nat): nat {
    ConstantsCount(e.constants, |e.constants|, x) + Is(e.typeId, x) + Is(e.id, x)
  }

  function MachineMembersCount(ms: seq<MachineMember>, n: nat, x: nat): nat
    requires n <= |ms|
  {
    if n == 0 then 0
    else
      var m := ms[n - 1];
      MachineMembersCount(ms, n - 1, x) + if m.DefEnum? then EnumCount(m.enum, x) else Count(m.ids, |m.ids|, x)
  }

  function MachineCount(m: Machine, x: nat): nat {
    Is(m.id, x) + if m.members.None? then 0 else MachineMembersCount(m.members.value, |m.members.value|, x)
  }

  function PartCount(p: Part, x: nat): nat {
    if p.PartMachine? then MachineCount(p.machine, x) else Count(p.ids, |p.ids|, x)
  }

  function PartsCount(ps: seq<Part>, n: nat, x: nat): nat
    requires n <= |ps|
  {
    if n == 0 then 0 else PartsCount(ps, n - 1, x) + PartCount(ps[n - 1], x)
  }

  function MemberCount(m: Member, x: nat): nat
    decreases m, 1
  {
    match m
    case DefModule(node, ms) => Is(node, x) + MembersCount(ms, |ms|, x)
    case DefComponent(node, ps) => Is(node, x) + PartsCount(ps, |ps|, x)
    case DefMachine(sm) => MachineCount(sm, x)
    case Other(ids) => Count(ids, |ids|, x)
  }

  function MembersCount(ms: seq<Member>, n: nat, x: nat): nat
    requires n <= |ms|
    decreases ms, n
  {
    if n == 0 then 0 else MembersCount(ms, n - 1, x) + MemberCount(ms[n - 1], x)
  }

  /** One new node has the id `x` if it is among those given out, from `id` up to `next`; none has it otherwise. */
  ghost predicate Gives(before: nat, after: nat, x: nat, id: nat, next: nat) {
    id <= next && after == before + if id <= x < next then 1 else 0
  }

  lemma {:induction false} ConstantsGive(names: seq<string>, cs: seq<Constant>, n: nat, id: nat, x: nat)
    requires n <= |names| && n <= |cs| && forall i :: 0 <= i < n ==> cs[i] == Constant(id + i, names[i])
    ensures ConstantsCount(cs, n, x) == if id <= x < id + n then 1 else 0
  {
    if n > 0 {
      ConstantsGive(names, cs, n - 1, id, x);
    }
  }

  lemma BuildGives(leaves: seq<string>, id: nat, x: nat)
    ensures Gives(0, EnumCount(Build(leaves, id), x), x, id, Build(leaves, id).id + 1)
  {
    var names := [UNINITIALIZED] + Sort(leaves);
    ConstantsGive(names, Build(leaves, id).constants, |names|, id, x);
  }

  lemma {:induction false} MachineMembersCountAt(a: seq<MachineMember>, b: seq<MachineMember>, n: nat, x: nat)
    requires n <= |a| && n <= |b| && forall i :: 0 <= i < n ==> a[i] == b[i]
    ensures MachineMembersCount(a, n, x) == MachineMembersCount(b, n, x)
  {
    if n > 0 {
      MachineMembersCountAt(a, b, n - 1, x);
    }
  }

  lemma MachineGives(m: Machine, id: nat, x: nat)
    ensures Gives(MachineCount(m, x), MachineCount(MachineAfter(m, id).0, x), x, id, MachineAfter(m, id).1)
  {
    if m.members.Some? && !HasState(m.members.value) {
      var ms := m.members.value;
      var e := Build(LeafNames(ms, |ms|), id);
      BuildGives(LeafNames(ms, |ms|), id, x);
      MachineMembersCountAt(ms, ms + [DefEnum(e)], |ms|, x);
    }
  }

  lemma {:induction false} PartsCountAt(a: seq<Part>, b: seq<Part>, n: nat, x: nat)
    requires n <= |a| && n <= |b| && forall i :: 0 <= i < n ==> a[i] == b[i]
    ensures PartsCount(a, n, x) == PartsCount(b, n, x)
  {
    if n > 0 {
      PartsCountAt(a, b, n - 1, x);
    }
  }

  lemma {:induction false} MembersCountAt(a: seq<Member>, b: seq<Member>, n: nat, x: nat)
    requires n <= |a| && n <= |b| && forall i :: 0 <= i < n ==> a[i] == b[i]
    ensures MembersCount(a, n, x) == MembersCount(b, n, x)
  {
    if n > 0 {
      MembersCountAt(a, b, n - 1, x);
    }
  }

  lemma {:induction false} PartsGive(ps: seq<Part>, n: nat, id: nat, x: nat)
    requires n <= |ps|
    ensures Gives(PartsCount(ps, n, x), PartsCount(PartsAfter(ps, n, id).0, n, x), x, id, PartsAfter(ps, n, id).1)
  {
    if n > 0 {
      var before := PartsAfter(ps, n - 1, id);
      PartsGive(ps, n - 1, id, x);
      if ps[n - 1].PartMachine? {
        MachineGives(ps[n - 1].machine, before.1, x);
      }
      PartsCountAt(before.0, PartsAfter(ps, n, id).0, n - 1, x);
    }
  }

  lemma {:induction false} MemberGives(m: Member, id: nat, x: nat)
    ensures Gives(MemberCount(m, x), MemberCount(MemberAfter(m, id).0, x), x, id, MemberAfter(m, id).1)
    decreases m, 1
  {
    match m
    case DefModule(node, ms) => MembersGive(ms, |ms|, id, x);
    case DefComponent(node, ps) => PartsGive(ps, |ps|, id, x);
    case DefMachine(sm) => MachineGives(sm, id, x);
    case Other(_) =>
  }

  /** Over a whole unit every id from `id` up to the new next id goes to exactly one new node, and no other id to any. */
  lemma {:induction false} MembersGive(ms: seq<Member>, n: nat, id: nat, x: nat)
    requires n <= |ms|
    ensures Gives(MembersCount(ms, n, x), MembersCount(MembersAfter(ms, n, id).0, n, x), x, id, MembersAfter(ms, n, id).1)
    decreases ms, n
  {
    if n > 0 {
      var before := MembersAfter(ms, n - 1, id);
      MembersGive(ms, n - 1, id, x);
      MemberGives(ms[n - 1], before.1, x);
      MembersCountAt(before.0, MembersAfter(ms, n, id).0, n - 1, x);
    }
  }

  // ---- Applying the pass again ----

  lemma MachineSettles(m: Machine, id: nat, again: nat)
    ensures MachineAfter(MachineAfter(m, id).0, again) == (MachineAfter(m, id).0, again)
  {
    if m.members.Some? && !HasState(m.members.value) {
      var after := MachineAfter(m, id).0.members.value;
      assert after[|after| - 1].DefEnum? && after[|after| - 1].enum.name == STATE;
    }
  }

  lemma {:induction false} PartsSettle(ps: seq<Part>, qs: seq<Part>, n: nat, id: nat, again: nat)
    requires n <= |ps| && n <= |qs| && forall i :: 0 <= i < n ==> qs[i] == PartsAfter(ps, n, id).0[i]
    ensures PartsAfter(qs, n, again) == (PartsAfter(ps, n, id).0, again)
  {
    if n > 0 {
      var before := PartsAfter(ps, n - 1, id);
      assert forall i :: 0 <= i < n - 1 ==> before.0[i] == PartsAfter(ps, n, id).0[i];
      PartsSettle(ps, qs, n - 1, id, again);
      if ps[n - 1].PartMachine? {
        MachineSettles(ps[n - 1].machine, before.1, again);
      }
    }
  }

  lemma {:induction false} MemberSettles(m: Member, id: nat, again: nat)
    ensures MemberAfter(MemberAfter(m, id).0, again) == (MemberAfter(m, id).0, again)
    decreases m, 1
  {
    match m
    case DefModule(_, ms) => MembersSettle(ms, MembersAfter(ms, |ms|, id).0, |ms|, id, again);
    case DefComponent(_, ps) => PartsSettle(ps, PartsAfter(ps, |ps|, id).0, |ps|, id, again);
    case DefMachine(sm) => MachineSettles(sm, id, again);
    case Other(_) =>
  }

  lemma {:induction false} MembersSettle(ms: seq<Member>, rs: seq<Member>, n: nat, id: nat, again: nat)
    requires n <= |ms| && n <= |rs| && forall i :: 0 <= i < n ==> rs[i] == MembersAfter(ms, n, id).0[i]
    ensures MembersAfter(rs, n, again) == (MembersAfter(ms, n, id).0, again)
    decreases ms, n
  {
    if n > 0 {
      var before := MembersAfter(ms, n - 1, id);
      assert forall i :: 0 <= i < n - 1 ==> before.0[i] == MembersAfter(ms, n, id).0[i];
      MembersSettle(ms, rs, n - 1, id, again);
      MemberSettles(ms[n - 1], before.1, again);
    }
  }

  /** Applying the pass to its own result changes nothing and gives out no id. */
  lemma SecondApplication(ms: seq<Member>, id: nat, again: nat)
    ensures MembersAfter(MembersAfter(ms, |ms|, id).0, |ms|, again) == (MembersAfter(ms, |ms|, id).0, again)
  {
    MembersSettle(ms, MembersAfter(ms, |ms|, id).0, |ms|, id, again);
  }

  // ---- The pass ----

  class Pass {
    var nextId: nat
    var path: seq<string>
    var leaves: seq<string>

    constructor (nextId: nat)
      ensures this.nextId == nextId && path == [] && leaves == []
    {
      this.nextId, path, leaves := nextId, [], [];
    }

    /** Push the names of the leaves of `state`; the path is as before when it returns. */
    method CollectLeaves(state: State)
      modifies `path, `leaves
      ensures path == old(path) && leaves == old(leaves) + LeavesOf(state, old(path))
      decreases state
    {
      path := path + [state.name];
      ghost var here, start := path, leaves;
      if state.children == [] {
        leaves := leaves + [Joined(path)];
      } else {
        for i := 0 to |state.children|
          invariant path == here && leaves == start + Leaves(state.children, i, here)
        {
          CollectLeaves(state.children[i]);
        }
      }
      path := path[..|path| - 1];
    }

    method MakeConstant(name: string) returns (c: Constant)
      modifies `nextId
      ensures c == Constant(old(nextId), name) && nextId == old(nextId) + 1
    {
      c := Constant(nextId, name);
      nextId := nextId + 1;
    }

    method MakeEnum(sorted: seq<string>) returns (e: Enum)
      modifies `nextId
      ensures var names := [UNINITIALIZED] + sorted;
              e == Enum(old(nextId) + |names| + 1, STATE, old(nextId) + |names|, KindFor(|names|),
                        Constants(names, |names|, old(nextId)))
      ensures nextId == e.id + 1
    {
      ghost var names, id := [UNINITIALIZED] + sorted, nextId;
      var first := MakeConstant(UNINITIALIZED);
      var constants := [first];
      for i := 0 to |sorted|
        invariant nextId == id + i + 1 && constants == Constants(names, i + 1, id)
      {
        var c := MakeConstant(sorted[i]);
        constants := constants + [c];
      }
      var n := |sorted| + 1;
      var kind := if n <= 0xFF then U8 else if n <= 0xFFFF then U16 else U32;
      var typeId := nextId;
      nextId := nextId + 1;
      var enumId := nextId;
      nextId := nextId + 1;
      e := Enum(enumId, STATE, typeId, kind, constants);
    }

    method StateMachine(m: Machine) returns (r: Machine)
      requires path == []
      modifies this
      ensures (r, nextId) == MachineAfter(m, old(nextId)) && path == []
    {
      if m.members.None? || HasState(m.members.value) {
        return m;
      }
      var ms := m.members.value;
      leaves := [];
      for i := 0 to |ms|
        invariant path == [] && nextId == old(nextId) && leaves == LeafNames(ms, i)
      {
        if ms[i].DefState? {
          CollectLeaves(ms[i].state);
        }
      }
      leaves := Sort(leaves);
      var e := MakeEnum(leaves);
      r := m.(members := Some(ms + [DefEnum(e)]));
    }

    method Parts(ps: seq<Part>) returns (r: seq<Part>)
      requires path == []
      modifies this
      ensures (r, nextId) == PartsAfter(ps, |ps|, old(nextId)) && path == []
    {
      r := [];
      for i := 0 to |ps|
        invariant path == [] && (r, nextId) == PartsAfter(ps, i, old(nextId))
      {
        var p := ps[i];
        if p.PartMachine? {
          var m := StateMachine(p.machine);
          p := PartMachine(m);
        }
        r := r + [p];
      }
    }

    method ModuleMember(m: Member) returns (r: Member)
      requires path == []
      modifies this
      ensures (r, nextId) == MemberAfter(m, old(nextId)) && path == []
      decreases m, 1
    {
      match m {
        case DefModule(node, ms) =>
          var after := AddStateEnums(ms);
          r := DefModule(node, after);
        case DefComponent(node, ps) =>
          var after := Parts(ps);
          r := DefComponent(node, after);
        case DefMachine(sm) =>
          var after := StateMachine(sm);
          r := DefMachine(after);
        case Other(_) =>
          r := m;
      }
    }

    /** Add the enum to every state machine of a unit, or of a module in it. */
    method AddStateEnums(ms: seq<Member>) returns (r: seq<Member>)
      requires path == []
      modifies this
      ensures (r, nextId) == MembersAfter(ms, |ms|, old(nextId)) && path == []
      decreases ms
    {
      r := [];
      for i := 0 to |ms|
        invariant path == [] && (r, nextId) == MembersAfter(ms, i, old(nextId))
      {
        var m := ModuleMember(ms[i]);
        r := r + [m];
      }
    }
  }
}
