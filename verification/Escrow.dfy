/**
 The buffer escrow: a slab of slots with a free list and generation-tagged tokens.
 Against a plain map from tokens to buffers it is shown to behave the same over every
 history of deposits and claims, including the wrap-around of the 32-bit generations.
 A failed assert stops the program, so `None` stands for it.
 */
module Escrow {
  import opened Wrappers

  const WORD: nat := 0x1_0000_0000

  /** A token in its two halves; on the wire it is the `u64` `[generation: u32][slot index: u32]`. */
  datatype Token = Token(generation: nat, index: nat)

  predicate InRange(t: Token) { t.generation < WORD && t.index < WORD }

  function ToU64(t: Token): nat { t.generation * WORD + t.index }

  function FromU64(raw: nat): Token { Token(raw / WORD, raw % WORD) }

  /** Tokens and 64-bit values correspond one to one. */
  lemma TokenBits(t: Token, raw: nat)
    requires InRange(t) && raw < WORD * WORD
    ensures ToU64(t) < WORD * WORD && FromU64(ToU64(t)) == t
    ensures InRange(FromU64(raw)) && ToU64(FromU64(raw)) == raw
  {
    assert WORD * WORD == 0x1_0000_0000_0000_0000;
  }

  datatype Slot<B> = Slot(generation: nat, buffer: Option<B>)
  datatype State<B> = State(slots: seq<Slot<B>>, free: seq<nat>)

  /** `u32::wrapping_add(1)` */
  function Next(generation: nat): nat {
    if generation + 1 == WORD then 0 else generation + 1
  }

  function Held<B>(slots: seq<Slot<B>>): nat {
    if slots == [] then 0
    else Held(slots[..|slots| - 1]) + (if slots[|slots| - 1].buffer.Some? then 1 else 0)
  }

  predicate NoDuplicates(free: seq<nat>) {
    free == [] || (free[|free| - 1] !in free[..|free| - 1] && NoDuplicates(free[..|free| - 1]))
  }

  /** Slot `i` is on the free list exactly when it exists and is empty; generations fit 32 bits. */
  ghost predicate SlotInv<B>(s: State<B>, i: nat) {
    && (i in s.free <==> i < |s.slots| && s.slots[i].buffer.None?)
    && (i < |s.slots| ==> s.slots[i].generation < WORD)
  }

  /** The free list holds each empty slot exactly once. */
  ghost predicate Inv<B>(s: State<B>) {
    && |s.slots| <= WORD
    && NoDuplicates(s.free)
    && (forall i: nat :: SlotInv(s, i))
    && |s.free| + Held(s.slots) == |s.slots|
  }

  /** The plain map the escrow stands for. */
  ghost function Live<B>(s: State<B>): (live: map<Token, B>)
    requires Inv(s)
  {
    map t: Token | t in TokenSet(s) :: s.slots[t.index].buffer.value
  }

  ghost function TokenSet<B>(s: State<B>): (tokens: set<Token>)
    requires Inv(s)
    ensures forall t :: t in tokens <==> IsLive(s, t)
  {
    set i | 0 <= i < |s.slots| && s.slots[i].buffer.Some? :: Token(s.slots[i].generation, i)
  }

  /** The three asserts of `claim`. */
  predicate IsLive<B>(s: State<B>, t: Token) {
    && t.index < |s.slots|
    && s.slots[t.index].generation == t.generation
    && s.slots[t.index].buffer.Some?
  }

  /** Where the next deposit goes. */
  function NextIndex<B>(s: State<B>): (i: nat)
    requires Inv(s)
    ensures SlotInv(s, i) && (s.free != [] ==> i in s.free && i < |s.slots|)
  {
    var i := if s.free == [] then |s.slots| else s.free[|s.free| - 1];
    assert SlotInv(s, i);
    i
  }

  function NextToken<B>(s: State<B>): Token
    requires Inv(s) && NextIndex(s) < WORD
  {
    if s.free == [] then Token(0, |s.slots|)
    else Token(s.slots[NextIndex(s)].generation, NextIndex(s))
  }

  function AfterDeposit<B>(s: State<B>, b: B): State<B>
    requires Inv(s)
  {
    if s.free == [] then s.(slots := s.slots + [Slot(0, Some(b))])
    else State(s.slots[NextIndex(s) := s.slots[NextIndex(s)].(buffer := Some(b))], s.free[..|s.free| - 1])
  }

  function AfterClaim<B>(s: State<B>, t: Token): State<B>
    requires IsLive(s, t)
  {
    var i := t.index;
    State(s.slots[i := Slot(Next(s.slots[i].generation), None)], s.free + [i])
  }

  lemma {:induction false} HeldUpdate<B>(slots: seq<Slot<B>>, i: nat, slot: Slot<B>)
    requires i < |slots|
    ensures Held(slots[i := slot]) + (if slots[i].buffer.Some? then 1 else 0)
         == Held(slots) + (if slot.buffer.Some? then 1 else 0)
  {
    var n := |slots| - 1;
    if i < n {
      HeldUpdate(slots[..n], i, slot);
      assert slots[i := slot][..n] == slots[..n][i := slot];
    } else {
      assert slots[i := slot][..n] == slots[..n];
    }
  }

  /** What is live after a deposit, token by token. */
  lemma DepositLive<B>(s: State<B>, b: B, u: Token)
    requires Inv(s) && NextIndex(s) < WORD
    ensures var s', t := AfterDeposit(s, b), NextToken(s);
            && !IsLive(s, t) && (IsLive(s', u) <==> IsLive(s, u) || u == t)
            && (IsLive(s', u) ==> s'.slots[u.index].buffer == if u == t then Some(b) else s.slots[u.index].buffer)
  {
    assert SlotInv(s, NextToken(s).index);
  }

  /** A deposit adds one entry under a token that was not live. */
  lemma DepositRefines<B>(s: State<B>, b: B)
    requires Inv(s) && NextIndex(s) < WORD
    ensures Inv(AfterDeposit(s, b))
    ensures NextToken(s) !in Live(s)
    ensures Live(AfterDeposit(s, b)) == Live(s)[NextToken(s) := b]
    ensures Held(AfterDeposit(s, b).slots) == Held(s.slots) + 1
  {
    DepositKeeps(s, b);
    var before, t := Live(s), NextToken(s);
    var after := Live(AfterDeposit(s, b));
    forall u: Token
      ensures u in after <==> u in before || u == t
      ensures u in after ==> after[u] == if u == t then b else before[u]
    {
      DepositLive(s, b, u);
    }
    DepositLive(s, b, t);
    assert after == before[t := b];
  }

  lemma DepositKeeps<B>(s: State<B>, b: B)
    requires Inv(s) && NextIndex(s) < WORD
    ensures Inv(AfterDeposit(s, b))
    ensures Held(AfterDeposit(s, b).slots) == Held(s.slots) + 1
  {
    var s', n := AfterDeposit(s, b), NextIndex(s);
    if s.free == [] {
      assert s'.slots[..|s'.slots| - 1] == s.slots;
    } else {
      HeldUpdate(s.slots, n, s.slots[n].(buffer := Some(b)));
      assert s.free == s'.free + [n];
    }
    forall i: nat ensures SlotInv(s', i) {
      assert SlotInv(s, i);
    }
  }

  /** A claim of a live token removes exactly that entry and returns its buffer. */
  lemma ClaimRefines<B>(s: State<B>, t: Token)
    requires Inv(s) && IsLive(s, t)
    ensures t in Live(s) && s.slots[t.index].buffer == Some(Live(s)[t])
    ensures Inv(AfterClaim(s, t))
    ensures Live(AfterClaim(s, t)) == Live(s) - {t}
    ensures Held(s.slots) == Held(AfterClaim(s, t).slots) + 1
  {
    ClaimKeeps(s, t);
    var s' := AfterClaim(s, t);
    forall u: Token
      ensures IsLive(s', u) <==> IsLive(s, u) && u != t
    {}
    assert Live(s').Keys == Live(s).Keys - {t};
  }

  lemma ClaimKeeps<B>(s: State<B>, t: Token)
    requires Inv(s) && IsLive(s, t)
    ensures Inv(AfterClaim(s, t))
    ensures Held(s.slots) == Held(AfterClaim(s, t).slots) + 1
  {
    var s', i := AfterClaim(s, t), t.index;
    HeldUpdate(s.slots, i, s'.slots[i]);
    assert SlotInv(s, i);
    assert s'.free[..|s'.free| - 1] == s.free;
    forall k: nat ensures SlotInv(s', k) {
      assert SlotInv(s, k);
    }
  }

  // ----- The class -----

  class BufferEscrow<B> {
    var slots: seq<Slot<B>>
    var free: seq<nat>

    constructor ()
      ensures S() == State([], []) && Inv(S())
    {
      slots, free := [], [];
    }

    ghost function S(): State<B>
      reads this
    {
      State(slots, free)
    }

    /** Deposit a buffer; `slots` never outgrows the 32-bit index of a token. */
    method Deposit(b: B) returns (raw: nat)
      requires Inv(S()) && (free == [] ==> |slots| < WORD)
      modifies this
      ensures S() == AfterDeposit(old(S()), b) && raw < WORD * WORD && FromU64(raw) == NextToken(old(S()))
      ensures var t := FromU64(raw);
              Inv(S()) && t !in Live(old(S())) && Live(S()) == Live(old(S()))[t := b]
    {
      DepositRefines(S(), b);
      TokenBits(NextToken(S()), 0);
      var index: nat;
      if free != [] {
        index := free[|free| - 1];
        free := free[..|free| - 1];
        assert slots[index].buffer.None?; // the assert of the source
        slots := slots[index := slots[index].(buffer := Some(b))];
      } else {
        slots := slots + [Slot(0, Some(b))];
        index := |slots| - 1;
      }
      raw := ToU64(Token(slots[index].generation, index));
    }

    /** Claim a token; `None` exactly when one of the three asserts fails. */
    method Claim(raw: nat) returns (b: Option<B>)
      requires Inv(S())
      modifies this
      ensures Inv(S())
      ensures b.Some? <==> FromU64(raw) in Live(old(S()))
      ensures b.Some? ==> b.value == Live(old(S()))[FromU64(raw)] && Live(S()) == Live(old(S())) - {FromU64(raw)}
      ensures S() == if b.Some? then AfterClaim(old(S()), FromU64(raw)) else old(S())
    {
      var t := FromU64(raw);
      if t.index >= |slots| || slots[t.index].generation != t.generation || slots[t.index].buffer.None? {
        return None;
      }
      ClaimRefines(S(), t);
      b := slots[t.index].buffer;
      slots := slots[t.index := Slot(Next(t.generation), None)];
      free := free + [t.index];
    }

    /** Number of buffers held. */
    method Len() returns (n: nat)
      ensures n == Held(slots)
    {
      n := 0;
      for i := 0 to |slots|
        invariant n == Held(slots[..i])
      {
        assert slots[..i + 1][..i] == slots[..i];
        if slots[i].buffer.Some? {
          n := n + 1;
        }
      }
      assert slots[..|slots|] == slots;
    }
  }

  // ----- Histories -----

  datatype Event<B> = Deposited(token: Token, buffer: B) | Claimed(token: Token, buffer: B)

  /**
   The state after a history, `None` if the history cannot happen: a deposit returns the
   token the escrow issues, a claim passes the asserts and returns the buffer it finds.
   */
  ghost function After<B>(h: seq<Event<B>>): (s: Option<State<B>>)
    ensures s.Some? ==> Inv(s.value)
  {
    if h == [] then Some(State([], []))
    else
      match After(h[..|h| - 1])
      case None => None
      case Some(s) =>
        match h[|h| - 1]
        case Deposited(t, b) =>
          if NextIndex(s) < WORD && t == NextToken(s) then DepositRefines(s, b); Some(AfterDeposit(s, b)) else None
        case Claimed(t, b) =>
          if IsLive(s, t) && s.slots[t.index].buffer == Some(b) then ClaimRefines(s, t); Some(AfterClaim(s, t)) else None
  }

  /** What a plain map does with the same history. */
  ghost function MapAfter<B>(h: seq<Event<B>>): map<Token, B> {
    if h == [] then map[]
    else
      match h[|h| - 1]
      case Deposited(t, b) => MapAfter(h[..|h| - 1])[t := b]
      case Claimed(t, _) => MapAfter(h[..|h| - 1]) - {t}
  }

  /** How many buffers are out after a history: deposits minus claims. */
  ghost function Balance<B>(h: seq<Event<B>>): int {
    if h == [] then 0 else Balance(h[..|h| - 1]) + (if h[|h| - 1].Deposited? then 1 else -1)
  }

  /** The largest number of buffers held at once. */
  ghost function Peak<B>(h: seq<Event<B>>): int {
    if h == [] then 0
    else if Balance(h) > Peak(h[..|h| - 1]) then Balance(h) else Peak(h[..|h| - 1])
  }

  /**
   Over every history the escrow holds what the map holds, as many buffers as deposits
   minus claims, and exactly as many slots as buffers were ever held at once.
   */
  lemma {:induction false} HistoryRefines<B>(h: seq<Event<B>>)
    requires After(h).Some?
    ensures var s := After(h).value;
            && Live(s) == MapAfter(h)
            && Held(s.slots) == Balance(h)
            && |s.slots| == Peak(h)
  {
    if h == [] {
      var s: State<B> := State([], []);
      assert Live(s) == map[];
    } else {
      var before := h[..|h| - 1];
      HistoryRefines(before);
      var s := After(before).value;
      match h[|h| - 1]
      case Deposited(t, b) => DepositRefines(s, b);
      case Claimed(t, b) => ClaimRefines(s, t);
    }
  }

  /** Claims of slot `i` in a history. */
  ghost function Claims<B>(h: seq<Event<B>>, i: nat): nat {
    if h == [] then 0
    else Claims(h[..|h| - 1], i) + (if h[|h| - 1].Claimed? && h[|h| - 1].token.index == i then 1 else 0)
  }

  ghost function Deposits<B>(h: seq<Event<B>>, i: nat): nat {
    if h == [] then 0
    else Deposits(h[..|h| - 1], i) + (if h[|h| - 1].Deposited? && h[|h| - 1].token.index == i then 1 else 0)
  }

  /** A slot's generation counts its claims modulo 2^32, and it is full when deposits are one ahead. */
  lemma {:induction false} SlotCounts<B>(h: seq<Event<B>>, i: nat)
    requires After(h).Some?
    ensures Counted(After(h).value, i, Deposits(h, i), Claims(h, i))
  {
    if h != [] {
      var before := h[..|h| - 1];
      SlotCounts(before, i);
      match h[|h| - 1]
      case Deposited(t, b) => DepositSlot(After(before).value, b, i);
      case Claimed(t, b) => ClaimSlot(After(before).value, t, i);
    }
  }

  /** Slot `i` after so many deposits into it and claims of it. */
  ghost predicate Counted<B>(s: State<B>, i: nat, deposits: nat, claims: nat) {
    if i < |s.slots| then
      && s.slots[i].generation == Wrapped(claims)
      && deposits == claims + (if s.slots[i].buffer.Some? then 1 else 0)
    else deposits == 0 && claims == 0
  }

  /** What a deposit does to slot `i`. */
  lemma DepositSlot<B>(s: State<B>, b: B, i: nat)
    requires Inv(s) && NextIndex(s) < WORD
    ensures var s', t := AfterDeposit(s, b), NextToken(s);
            if i == t.index then
              && i < |s'.slots| && s'.slots[i] == Slot(t.generation, Some(b))
              && (if i < |s.slots| then s.slots[i] == Slot(t.generation, None) else t.generation == 0)
            else (i < |s'.slots| <==> i < |s.slots|) && (i < |s.slots| ==> s'.slots[i] == s.slots[i])
  {}

  /** What a claim does to slot `i`. */
  lemma ClaimSlot<B>(s: State<B>, t: Token, i: nat)
    requires IsLive(s, t)
    ensures var s' := AfterClaim(s, t);
            && |s'.slots| == |s.slots|
            && (i == t.index ==> s'.slots[i] == Slot(Next(s.slots[i].generation), None))
            && (i != t.index && i < |s.slots| ==> s'.slots[i] == s.slots[i])
  {}

  /** A count kept with wrap-around. */
  ghost function Wrapped(n: nat): nat {
    if n == 0 then 0 else Next(Wrapped(n - 1))
  }

  lemma {:induction false} WrappedIsModulo(n: nat)
    ensures Wrapped(n) == n % WORD
  {
    if n > 0 {
      WrappedIsModulo(n - 1);
      WrapStep(n - 1);
    }
  }

  lemma WrapStep(n: nat)
    ensures (n + 1) % WORD == Next(n % WORD)
  {}

  /** Equal wrapped counts of different numbers are a multiple of 2^32 apart. */
  lemma WrappedGap(a: nat, b: nat)
    requires a < b && Wrapped(a) == Wrapped(b)
    ensures TurnsBetween(a, b)
  {
    WrappedIsModulo(a);
    WrappedIsModulo(b);
  }

  /** From `a` to `b` the count grows by a positive multiple of 2^32. */
  predicate TurnsBetween(a: nat, b: nat) {
    a < b && (b - a) % WORD == 0
  }

  lemma {:induction false} CountsGrow<B>(h: seq<Event<B>>, i: nat, j: nat, k: nat)
    requires j <= k <= |h|
    ensures Claims(h[..j], i) <= Claims(h[..k], i) && Deposits(h[..j], i) <= Deposits(h[..k], i)
    decreases k
  {
    if j < k {
      assert h[..k][..k - 1] == h[..k - 1];
      CountsGrow(h, i, j, k - 1);
    }
  }

  lemma {:induction false} PrefixHappens<B>(h: seq<Event<B>>, k: nat)
    requires After(h).Some? && k <= |h|
    ensures After(h[..k]).Some?
    decreases |h|
  {
    if k == |h| {
      assert h[..k] == h;
    } else {
      PrefixHappens(h[..|h| - 1], k);
      assert h[..|h| - 1][..k] == h[..k];
    }
  }

  /** At a deposit, the slot has been emptied as often as it was filled, and the token says so. */
  lemma DepositToken<B>(h: seq<Event<B>>, k: nat)
    requires After(h).Some? && k < |h| && h[k].Deposited?
    ensures var i := h[k].token.index;
            && Deposits(h[..k], i) == Claims(h[..k], i)
            && Deposits(h[..k + 1], i) == Deposits(h[..k], i) + 1
            && h[k].token.generation == Wrapped(Claims(h[..k], i))
  {
    PrefixHappens(h, k);
    PrefixHappens(h, k + 1);
    assert h[..k + 1][..k] == h[..k] && h[..k + 1][k] == h[k];
    SlotCounts(h[..k], h[k].token.index);
    DepositSlot(After(h[..k]).value, h[k].buffer, h[k].token.index);
  }

  /** Two deposits of one token: the slot was claimed in between, to the same wrapped count. */
  lemma ReissueCounts<B>(h: seq<Event<B>>, i: nat, j: nat, k: nat)
    requires After(h).Some? && j < k < |h|
    requires h[j].Deposited? && h[k].Deposited? && h[j].token == h[k].token && h[j].token.index == i
    ensures Claims(h[..j], i) < Claims(h[..k], i)
    ensures Wrapped(Claims(h[..j], i)) == Wrapped(Claims(h[..k], i))
  {
    DepositToken(h, j);
    DepositToken(h, k);
    CountsGrow(h, i, j + 1, k);
  }

  /**
   A token value comes back only after its slot has been claimed a positive multiple of
   2^32 times since it was issued.
   */
  lemma Reissue<B>(h: seq<Event<B>>, j: nat, k: nat)
    requires After(h).Some? && j < k < |h|
    requires h[j].Deposited? && h[k].Deposited? && h[j].token == h[k].token
    ensures TurnsBetween(Claims(h[..j], h[j].token.index), Claims(h[..k], h[j].token.index))
  {
    ReissueCounts(h, h[j].token.index, j, k);
    WrappedGap(Claims(h[..j], h[j].token.index), Claims(h[..k], h[j].token.index));
  }
}
