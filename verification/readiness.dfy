/** The three-valued readiness of job inputs and the law that joins them
    (src/input.rs, `JobInputStatus` and `combine`). */
module Readiness {

  /** Whether an input can be handed to a job now, later, or never. */
  datatype JobInputStatus =
    | Ready  // the input is available
    | Wait   // not available yet; the job should be polled again
    | Fail   // not available and never will be

  /** The position of a status in the chain Ready < Wait < Fail. This is the
      reference order that `Combine` is checked against. */
  function Severity(s: JobInputStatus): nat
  {
    match s
    case Ready => 0
    case Wait => 1
    case Fail => 2
  }

  /** Joins the statuses of two inputs: a failure of either fails the pair, the pair is
      ready only when both are, and anything else waits. */
  function Combine(a: JobInputStatus, b: JobInputStatus): (r: JobInputStatus)
    ensures r == Fail <==> a == Fail || b == Fail
    ensures r == Ready <==> a == Ready && b == Ready
    ensures r == Wait <==> a != Fail && b != Fail && (a == Wait || b == Wait)
  {
    match (a, b)
    case (Fail, _) | (_, Fail) => Fail
    case (Ready, Ready) => Ready
    case _ => Wait
  }

  /** `Combine` is the least upper bound in the chain Ready < Wait < Fail. */
  lemma CombineIsJoin(a: JobInputStatus, b: JobInputStatus)
    ensures Severity(Combine(a, b)) == if Severity(a) < Severity(b) then Severity(b) else Severity(a)
  {
  }

  /** `Fail` absorbs every status. */
  lemma CombineFailAbsorbs(a: JobInputStatus)
    ensures Combine(Fail, a) == Fail && Combine(a, Fail) == Fail
  {
  }

  /** `Ready` is the identity of `Combine`. */
  lemma CombineReadyIdentity(a: JobInputStatus)
    ensures Combine(Ready, a) == a && Combine(a, Ready) == a
  {
  }

  lemma CombineCommutative(a: JobInputStatus, b: JobInputStatus)
    ensures Combine(a, b) == Combine(b, a)
  {
  }

  lemma CombineAssociative(a: JobInputStatus, b: JobInputStatus, c: JobInputStatus)
    ensures Combine(Combine(a, b), c) == Combine(a, Combine(b, c))
  {
  }

  lemma CombineIdempotent(a: JobInputStatus)
    ensures Combine(a, a) == a
  {
  }

  /** The status of a tuple of inputs with member statuses `ss`: `combine` folded from the
      left, starting at `Ready`. A tuple fails when some member fails, is ready when every
      member is ready (so the empty tuple is ready), and waits otherwise. */
  function FoldStatus(ss: seq<JobInputStatus>): (r: JobInputStatus)
    ensures r == Fail <==> Fail in ss
    ensures r == Ready <==> forall i :: 0 <= i < |ss| ==> ss[i] == Ready
    ensures r == Wait <==> Fail !in ss && Wait in ss
  {
    if |ss| == 0 then Ready
    else
      var init, last := ss[..|ss| - 1], ss[|ss| - 1];
      assert ss == init + [last];
      Combine(FoldStatus(init), last)
  }

  /** A pair of inputs has the combined status of its two members. */
  lemma FoldStatusPair(x: JobInputStatus, y: JobInputStatus)
    ensures FoldStatus([x, y]) == Combine(x, y)
  {
    assert [x, y][..1] == [x];
  }

  /** Folding a concatenation combines the folds of the parts: a tuple may be split into
      sub-tuples anywhere without changing its status. */
  lemma {:induction false} FoldStatusAppend(a: seq<JobInputStatus>, b: seq<JobInputStatus>)
    ensures FoldStatus(a + b) == Combine(FoldStatus(a), FoldStatus(b))
  {
    if |b| == 0 {
      assert a + b == a;
    } else {
      var init, last := b[..|b| - 1], b[|b| - 1];
      assert a + b == (a + init) + [last];
      assert (a + b)[..|a + b| - 1] == a + init;
      FoldStatusAppend(a, init);
      CombineAssociative(FoldStatus(a), FoldStatus(init), last);
    }
  }

  /** A tuple of two sub-tuples folds like the tuple of all their members. */
  lemma FoldStatusNested(sa: seq<JobInputStatus>, sb: seq<JobInputStatus>)
    ensures FoldStatus([FoldStatus(sa), FoldStatus(sb)]) == FoldStatus(sa + sb)
  {
    FoldStatusPair(FoldStatus(sa), FoldStatus(sb));
    FoldStatusAppend(sa, sb);
  }

  /** The order of the members does not matter: permuted statuses fold to the same status. */
  lemma FoldStatusPermutation(a: seq<JobInputStatus>, b: seq<JobInputStatus>)
    requires multiset(a) == multiset(b)
    ensures FoldStatus(a) == FoldStatus(b)
  {
    assert Fail in a <==> Fail in multiset(a);
    assert Fail in b <==> Fail in multiset(b);
    assert Wait in a <==> Wait in multiset(a);
    assert Wait in b <==> Wait in multiset(b);
  }
}
