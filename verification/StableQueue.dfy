/** The message queue as its users see it: highest priority first, oldest first within a priority. */
module StableQueue {
  import opened Wire

  datatype Message = Message(priority: nat, bytes: seq<Byte>)

  /** The oldest message of highest priority among the first `n`. */
  function BestOf(queue: seq<Message>, n: nat): (k: nat)
    requires 0 < n <= |queue|
    ensures k < n
    ensures forall j :: 0 <= j < n ==> queue[j].priority <= queue[k].priority
    ensures forall j :: 0 <= j < k ==> queue[j].priority < queue[k].priority
  {
    if n == 1 then 0
    else
      var k := BestOf(queue, n - 1);
      if queue[n - 1].priority > queue[k].priority then n - 1 else k
  }

  /** The queue in order of arrival; the next message out is the oldest of highest priority. */
  function Best(queue: seq<Message>): (k: nat)
    requires queue != []
    ensures k < |queue|
    ensures forall j :: 0 <= j < |queue| ==> queue[j].priority <= queue[k].priority
    ensures forall j :: 0 <= j < k ==> queue[j].priority < queue[k].priority
  {
    BestOf(queue, |queue|)
  }

  lemma BestIsUnique(queue: seq<Message>, k: nat)
    requires k < |queue|
    requires forall j :: 0 <= j < |queue| ==> queue[j].priority <= queue[k].priority
    requires forall j :: 0 <= j < k ==> queue[j].priority < queue[k].priority
    ensures k == Best(queue)
  {
    var b := Best(queue);
    assert queue[b].priority == queue[k].priority;
  }

  /** The first `n` elements of `s`, less the one at `k`. */
  function WithoutOf<T>(s: seq<T>, k: nat, n: nat): (r: seq<T>)
    requires n <= |s|
    ensures |r| == if k < n then n - 1 else n
  {
    if n == 0 then [] else if n - 1 == k then WithoutOf(s, k, n - 1) else WithoutOf(s, k, n - 1) + [s[n - 1]]
  }

  /** `s` with the element at `k` removed. */
  function Without<T>(s: seq<T>, k: nat): (r: seq<T>)
    requires k < |s|
    ensures |r| == |s| - 1
  {
    WithoutOf(s, k, |s|)
  }

  /** Position `i` of what is left was position `Shift(i, k)`. */
  function Shift(i: nat, k: nat): nat { if i < k then i else i + 1 }

  lemma {:induction false} WithoutOfAt<T>(s: seq<T>, k: nat, n: nat, i: nat)
    requires n <= |s| && i < |WithoutOf(s, k, n)|
    ensures WithoutOf(s, k, n)[i] == s[Shift(i, k)]
  {
    if i < |WithoutOf(s, k, n - 1)| {
      WithoutOfAt(s, k, n - 1, i);
    }
  }

  lemma WithoutAt<T>(s: seq<T>, k: nat, i: nat)
    requires k < |s| && i < |s| - 1
    ensures Without(s, k)[i] == s[Shift(i, k)]
  {
    WithoutOfAt(s, k, |s|, i);
  }

  lemma WithoutIs<T>(s: seq<T>, k: nat)
    requires k < |s|
    ensures Without(s, k) == s[..k] + s[k + 1..]
  {
    forall i | 0 <= i < |s| - 1
      ensures Without(s, k)[i] == (s[..k] + s[k + 1..])[i]
    {
      WithoutAt(s, k, i);
    }
  }

  lemma WithoutAppend<T>(a: seq<T>, b: seq<T>, k: nat)
    requires k < |a|
    ensures Without(a + b, k) == Without(a, k) + b
  {
    forall i | 0 <= i < |a + b| - 1
      ensures Without(a + b, k)[i] == (Without(a, k) + b)[i]
    {
      WithoutAt(a + b, k, i);
      if i < |a| - 1 {
        WithoutAt(a, k, i);
      }
    }
  }
}
