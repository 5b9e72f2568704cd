/**
 * Ordered filter-and-project over a sequence: the shape shared by every
 * list the audit builds with `append` inside a `for` loop or with a list
 * comprehension carrying an `if` guard.
 */
module Selection {

  /** The projections of the elements of `xs` that `keep` accepts, in order. */
  function Select<A, B>(xs: seq<A>, keep: A -> bool, proj: A -> B): (ys: seq<B>)
    ensures |ys| <= |xs|
  {
    if xs == [] then []
    else
      var n := |xs| - 1;
      Select(xs[..n], keep, proj) + (if keep(xs[n]) then [proj(xs[n])] else [])
  }

  /** Selecting from a sequence with one more element. */
  lemma SelectSnoc<A, B>(xs: seq<A>, x: A, keep: A -> bool, proj: A -> B)
    ensures Select(xs + [x], keep, proj) == Select(xs, keep, proj) + (if keep(x) then [proj(x)] else [])
  {
    assert (xs + [x])[..|xs|] == xs;
  }

  /** Every selected value has any property that the projection of an accepted element has. */
  lemma {:induction false} SelectAll<A, B>(xs: seq<A>, keep: A -> bool, proj: A -> B, p: B -> bool)
    requires forall x :: keep(x) ==> p(proj(x))
    ensures forall k :: 0 <= k < |Select(xs, keep, proj)| ==> p(Select(xs, keep, proj)[k])
  {
    if xs != [] {
      SelectAll(xs[..|xs| - 1], keep, proj, p);
    }
  }

  /**
   * `idx` lists, in strictly increasing order, exactly the positions of `xs`
   * whose element `keep` accepts, and `ys[k]` is the projection of the
   * element at position `idx[k]`.
   */
  ghost predicate IsSelection<A, B>(xs: seq<A>, ys: seq<B>, keep: A -> bool, proj: A -> B, idx: seq<nat>)
  {
    && |idx| == |ys|
    && (forall k :: 0 <= k < |idx| ==> idx[k] < |xs| && keep(xs[idx[k]]) && ys[k] == proj(xs[idx[k]]))
    && (forall k, l :: 0 <= k < l < |idx| ==> idx[k] < idx[l])
    && (forall i :: 0 <= i < |xs| && keep(xs[i]) ==> i in idx)
  }

  /** `Select` keeps exactly the accepted elements, in their original order. */
  lemma {:induction false} SelectIndices<A, B>(xs: seq<A>, keep: A -> bool, proj: A -> B) returns (idx: seq<nat>)
    ensures IsSelection(xs, Select(xs, keep, proj), keep, proj, idx)
  {
    if xs == [] {
      idx := [];
    } else {
      var n := |xs| - 1;
      var pre := SelectIndices(xs[..n], keep, proj);
      var ys := Select(xs, keep, proj);
      assert xs[..n] + [xs[n]] == xs;
      if keep(xs[n]) {
        idx := pre + [n];
        assert ys == Select(xs[..n], keep, proj) + [proj(xs[n])];
      } else {
        idx := pre;
        assert ys == Select(xs[..n], keep, proj);
      }
      forall i | 0 <= i < |xs| && keep(xs[i])
        ensures i in idx
      {
        if i < n {
          assert xs[..n][i] == xs[i];
        }
      }
    }
  }

  /** A selection whose last element is accepted ends with that element's index. */
  lemma SelectionDropKept<A, B>(xs: seq<A>, ys: seq<B>, keep: A -> bool, proj: A -> B, idx: seq<nat>)
    requires IsSelection(xs, ys, keep, proj, idx) && xs != [] && keep(xs[|xs| - 1])
    ensures |idx| > 0 && idx[|idx| - 1] == |xs| - 1
    ensures IsSelection(xs[..|xs| - 1], ys[..|ys| - 1], keep, proj, idx[..|idx| - 1])
    ensures ys == ys[..|ys| - 1] + [proj(xs[|xs| - 1])]
  {
    var n := |xs| - 1;
    assert n in idx;
    var m := |idx| - 1;
    assert idx[m] < |xs|;
    assert forall k :: 0 <= k < m ==> idx[k] < idx[m];
    var j :| 0 <= j < |idx| && idx[j] == n;
    assert idx[m] == n;
    var idx', ys' := idx[..m], ys[..m];
    forall k | 0 <= k < m
      ensures idx'[k] < n
    {
      assert idx[k] < idx[m];
    }
    forall i | 0 <= i < n && keep(xs[..n][i])
      ensures i in idx'
    {
      assert xs[..n][i] == xs[i];
      var k :| 0 <= k < |idx| && idx[k] == i;
      assert idx'[k] == i;
    }
    assert ys == ys' + [ys[m]];
  }

  /** A selection whose last element is rejected is a selection of the prefix. */
  lemma SelectionDropSkipped<A, B>(xs: seq<A>, ys: seq<B>, keep: A -> bool, proj: A -> B, idx: seq<nat>)
    requires IsSelection(xs, ys, keep, proj, idx) && xs != [] && !keep(xs[|xs| - 1])
    ensures IsSelection(xs[..|xs| - 1], ys, keep, proj, idx)
  {
    var n := |xs| - 1;
    forall k | 0 <= k < |idx|
      ensures idx[k] < n
    {
      assert keep(xs[idx[k]]);
    }
    forall i | 0 <= i < n && keep(xs[..n][i])
      ensures i in idx
    {
      assert xs[..n][i] == xs[i];
    }
  }

  /**
   * The characterisation is complete: any sequence that selects the accepted
   * elements in order, through some index list, is `Select`'s result.
   */
  lemma {:induction false} SelectionIsUnique<A, B>(xs: seq<A>, ys: seq<B>, keep: A -> bool, proj: A -> B, idx: seq<nat>)
    requires IsSelection(xs, ys, keep, proj, idx)
    ensures ys == Select(xs, keep, proj)
  {
    if xs != [] {
      var n := |xs| - 1;
      if keep(xs[n]) {
        SelectionDropKept(xs, ys, keep, proj, idx);
        SelectionIsUnique(xs[..n], ys[..|ys| - 1], keep, proj, idx[..|idx| - 1]);
      } else {
        SelectionDropSkipped(xs, ys, keep, proj, idx);
        SelectionIsUnique(xs[..n], ys, keep, proj, idx);
      }
    }
  }
}
