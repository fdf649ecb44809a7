/**
 The arithmetic of `merge_segments`: neighbours that describe one mapping are joined.
 */
module VmMerge {
  import opened VmAreas
  import opened VmUnmap

  /** The list with areas `p` and `p + 1` joined. */
  function Joined(L: seq<Area>, p: nat): seq<Area>
    requires p + 1 < |L|
  {
    L[..p] + [L[p].(end := L[p + 1].end)] + L[p + 2..]
  }

  /** No two neighbours that meet at or above `s` could be joined, up to place `p`. */
  predicate MergedUpTo(L: seq<Area>, s: int, p: nat)
  {
    forall q :: 0 <= q < p && q + 1 < |L| && L[q + 1].start >= s ==> !Mergeable(L[q], L[q + 1])
  }

  /** No two neighbours could be joined that meet at or above `s` with the first beginning below `e`. */
  predicate Merged(L: seq<Area>, s: int, e: int)
  {
    forall q :: 0 <= q && q + 1 < |L| && L[q + 1].start >= s && L[q].start < e ==> !Mergeable(L[q], L[q + 1])
  }

  lemma JoinedView(L: seq<Area>, p: nat, x: int)
    requires Ordered(L) && p + 1 < |L| && Mergeable(L[p], L[p + 1])
    ensures View(Joined(L, p), x) == View(L, x)
  {
    assert Fine(L[p]) && Fine(L[p + 1]);
    hide View;
    ViewMerged(L[p], L[p + 1], x);
    ViewChange(L[..p], [L[p], L[p + 1]], [L[p].(end := L[p + 1].end)], L[p + 2..], x);
    assert L[..p] + [L[p], L[p + 1]] + L[p + 2..] == L;
  }

  lemma JoinedSums(L: seq<Area>, p: nat)
    requires Ordered(L) && p + 1 < |L| && Mergeable(L[p], L[p + 1])
    ensures Total(Joined(L, p)) == Total(L) && Locked(Joined(L, p)) == Locked(L)
  {
    assert Fine(L[p]) && Fine(L[p + 1]);
    hide Total, Locked;
    SumsMerged(L[p], L[p + 1]);
    SumsChange(L[..p], [L[p], L[p + 1]], [L[p].(end := L[p + 1].end)], L[p + 2..]);
    assert L[..p] + [L[p], L[p + 1]] + L[p + 2..] == L;
  }

  lemma JoinedOrdered(L: seq<Area>, p: nat, s: int)
    requires Ordered(L) && p + 1 < |L| && MergedUpTo(L, s, p) && L[p].end <= L[p + 1].end
    ensures Ordered(Joined(L, p)) && MergedUpTo(Joined(L, p), s, p)
  {
    var N := Joined(L, p);
    forall i | 0 <= i < |N| ensures Fine(N[i]) {
      assert Fine(L[if i <= p then i else i + 1]) && Fine(L[p + 1]);
    }
    forall i, j | 0 <= i < j < |N| ensures N[i].end <= N[j].start {
      var i', j' := if i < p then i else i + 1, if j <= p then j else j + 1;
      assert L[i'].end <= L[j'].start;
    }
    forall q | 0 <= q < p && N[q + 1].start >= s ensures !Mergeable(N[q], N[q + 1]) {
      assert !Mergeable(L[q], L[q + 1]);
    }
  }

  lemma MergeStart(L: seq<Area>, s: int, i: nat)
    requires Ordered(L) && EndsFrom(L, s, i)
    ensures MergedUpTo(L, s, if i == 0 then 0 else i - 1)
  {
    forall r | 0 <= r < i ensures L[r].start < s {
      assert Fine(L[r]);
    }
  }

  lemma MergeEnd(L: seq<Area>, s: int, e: int, p: nat)
    requires Ordered(L) && MergedUpTo(L, s, p) && (p + 1 < |L| ==> L[p].start >= e)
    ensures Merged(L, s, e)
  {
    forall q | p <= q < |L| && p + 1 < |L| ensures L[q].start >= e {
      if p < q {
        assert L[p].end <= L[q].start && Fine(L[p]);
      }
    }
  }
}
