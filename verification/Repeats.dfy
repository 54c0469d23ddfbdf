/** Lists accepted one element after the other, each possibly more than once. */
module Repeats {

  function Copies<T>(x: T, n: nat): (r: seq<T>)
    ensures |r| == n && forall i :: 0 <= i < n ==> r[i] == x
  {
    seq(n, i => x)
  }

  /** Each element as often as its count says, repeats directly behind the first. */
  function Flatten<T>(xs: seq<T>, counts: seq<nat>): seq<T>
    requires |xs| == |counts|
  {
    if xs == [] then []
    else
      var n := |xs| - 1;
      Flatten(xs[..n], counts[..n]) + Copies(xs[n], counts[n])
  }

  function Total(counts: seq<nat>): nat {
    if counts == [] then 0 else Total(counts[..|counts| - 1]) + counts[|counts| - 1]
  }

  /**
   What was accepted of a list whose first `k` elements are confirmed: each of those at least once,
   the one after them any number of times, the others not at all.
   */
  ghost predicate Delivered<T>(accepted: seq<T>, written: seq<T>, k: nat, counts: seq<nat>) {
    && k <= |written| == |counts|
    && accepted == Flatten(written, counts)
    && (forall i :: 0 <= i < k ==> counts[i] >= 1)
    && (forall i :: k < i < |counts| ==> counts[i] == 0)
  }

  /** The first unconfirmed element has been accepted already. */
  predicate HeadHeld(counts: seq<nat>, k: nat) { k < |counts| && counts[k] > 0 }

  /** Some element was accepted more than once. */
  predicate Twice(counts: seq<nat>) { exists i :: 0 <= i < |counts| && counts[i] >= 2 }

  lemma {:induction false} FlattenSize<T>(xs: seq<T>, counts: seq<nat>)
    requires |xs| == |counts|
    ensures |Flatten(xs, counts)| == Total(counts)
  {
    if xs != [] { FlattenSize(xs[..|xs| - 1], counts[..|xs| - 1]); }
  }

  /** Nothing is lost: elements that are equal are accepted at least as often as they are confirmed. */
  lemma {:induction false} NoneMissing<T>(written: seq<T>, counts: seq<nat>, k: nat)
    requires k <= |written| == |counts| && forall i :: 0 <= i < k ==> counts[i] >= 1
    ensures multiset(written[..k]) <= multiset(Flatten(written, counts))
  {
    if written != [] {
      var n := |written| - 1;
      if k == |written| {
        NoneMissing(written[..n], counts[..n], n);
        assert written[..k] == written[..n][..n] + [written[n]];
        assert written[n] in multiset(Copies(written[n], counts[n])) by { assert Copies(written[n], counts[n])[0] == written[n]; }
      } else {
        NoneMissing(written[..n], counts[..n], k);
        assert written[..n][..k] == written[..k];
      }
    }
  }

  lemma {:induction false} FlattenOnce<T>(xs: seq<T>, counts: seq<nat>)
    requires |xs| == |counts| && forall i :: 0 <= i < |counts| ==> counts[i] == 1
    ensures Flatten(xs, counts) == xs
  {
    if xs != [] {
      var n := |xs| - 1;
      FlattenOnce(xs[..n], counts[..n]);
      assert Copies(xs[n], 1) == [xs[n]];
      assert xs == xs[..n] + [xs[n]];
    }
  }

  lemma {:induction false} FlattenZeros<T>(xs: seq<T>, counts: seq<nat>, k: nat)
    requires k <= |xs| == |counts| && forall i :: k <= i < |counts| ==> counts[i] == 0
    ensures Flatten(xs, counts) == Flatten(xs[..k], counts[..k])
    ensures Total(counts) == Total(counts[..k])
    decreases |xs|
  {
    if k == |xs| {
      assert xs[..k] == xs && counts[..k] == counts;
    } else {
      var n := |xs| - 1;
      FlattenZeros(xs[..n], counts[..n], k);
      assert xs[..n][..k] == xs[..k] && counts[..n][..k] == counts[..k];
      assert Copies(xs[n], 0) == [];
    }
  }

  lemma OneMoreCopy<T>(x: T, n: nat)
    ensures Copies(x, n + 1) == Copies(x, n) + [x]
  {
  }

  lemma Nothing<T>(written: seq<T>)
    requires written == []
    ensures Delivered([], written, 0, []) && Total([]) == 0
  {
  }

  lemma AppendDelivered<T>(accepted: seq<T>, written: seq<T>, k: nat, counts: seq<nat>, x: T)
    requires Delivered(accepted, written, k, counts)
    ensures Delivered(accepted, written + [x], k, counts + [0]) && Total(counts + [0]) == Total(counts)
  {
    assert (written + [x])[..|written|] == written && (counts + [0])[..|counts|] == counts;
    assert Copies(x, 0) == [];
  }

  /** The first unconfirmed element is accepted once more. */
  lemma Accept<T>(accepted: seq<T>, written: seq<T>, k: nat, counts: seq<nat>)
    requires Delivered(accepted, written, k, counts) && k < |written|
    ensures var counts' := counts[k := counts[k] + 1];
            Delivered(accepted + [written[k]], written, k, counts') && Total(counts') == Total(counts) + 1
  {
    var counts' := counts[k := counts[k] + 1];
    FlattenZeros(written, counts, k + 1);
    FlattenZeros(written, counts', k + 1);
    var w, c, c' := written[..k + 1], counts[..k + 1], counts'[..k + 1];
    assert w[..k] == written[..k] && c[..k] == c'[..k];
    OneMoreCopy(written[k], counts[k]);
    assert Flatten(w, c') == Flatten(w[..k], c[..k]) + (Copies(written[k], counts[k]) + [written[k]]);
  }

  /** Once accepted, it can be confirmed. */
  lemma Confirm<T>(accepted: seq<T>, written: seq<T>, k: nat, counts: seq<nat>)
    requires Delivered(accepted, written, k, counts) && HeadHeld(counts, k)
    ensures Delivered(accepted, written, k + 1, counts)
  {
  }

  /** The next elements are accepted and confirmed one after the other. */
  lemma {:induction false} AcceptAll<T>(accepted: seq<T>, written: seq<T>, k: nat, counts: seq<nat>, done: seq<T>) returns (counts': seq<nat>)
    requires Delivered(accepted, written, k, counts) && k + |done| <= |written| && written[k..k + |done|] == done
    ensures Delivered(accepted + done, written, k + |done|, counts') && Total(counts') == Total(counts) + |done|
    ensures forall i :: k + |done| <= i < |counts| && i != k ==> counts'[i] == 0
    ensures done == [] ==> counts' == counts
    decreases |done|
  {
    if done == [] {
      counts' := counts;
      assert accepted + [] == accepted;
    } else {
      var mid := counts[k := counts[k] + 1];
      assert done[0] == written[k];
      Accept(accepted, written, k, counts);
      Confirm(accepted + [written[k]], written, k, mid);
      counts' := AcceptAll(accepted + [written[k]], written, k + 1, mid, done[1..]);
      assert accepted + done == (accepted + [written[k]]) + done[1..];
    }
  }

  lemma {:induction false} TotalBounds(counts: seq<nat>, k: nat)
    requires k <= |counts| && forall i :: 0 <= i < k ==> counts[i] >= 1
    requires forall i :: k < i < |counts| ==> counts[i] == 0
    ensures var held := if HeadHeld(counts, k) then 1 else 0;
            Total(counts) >= k + held && (Twice(counts) <==> Total(counts) > k + held)
    decreases |counts|
  {
    if counts != [] {
      var n := |counts| - 1;
      var init := counts[..n];
      assert forall i :: 0 <= i < n ==> init[i] == counts[i];
      TotalBounds(init, if k == |counts| then n else k);
      assert Twice(counts) <==> Twice(init) || counts[n] >= 2 by {
        if i :| 0 <= i < n && init[i] >= 2 { assert counts[i] >= 2; }
      }
    }
  }

  /** With nothing accepted twice, accepted are exactly the confirmed elements and perhaps the one after them. */
  lemma OnceEach<T>(accepted: seq<T>, written: seq<T>, k: nat, counts: seq<nat>)
    requires Delivered(accepted, written, k, counts) && !Twice(counts)
    ensures accepted == if HeadHeld(counts, k) then written[..k + 1] else written[..k]
  {
    var n := if HeadHeld(counts, k) then k + 1 else k;
    assert forall i :: 0 <= i < |counts| ==> counts[i] < 2;
    FlattenZeros(written, counts, n);
    FlattenOnce(written[..n], counts[..n]);
  }

  /** One receiver's account: what it accepted, whether the first unconfirmed element is among it, and how many repeats there were. */
  ghost predicate Account<T>(accepted: seq<T>, written: seq<T>, k: nat, counts: seq<nat>, held: bool, repeats: nat) {
    && Delivered(accepted, written, k, counts)
    && held == HeadHeld(counts, k)
    && Total(counts) == k + (if held then 1 else 0) + repeats
  }

  /** The next elements are accepted and confirmed, and perhaps one more is accepted but not confirmed. */
  lemma AccountMore<T>(accepted: seq<T>, written: seq<T>, k: nat, counts: seq<nat>, held: bool, repeats: nat, done: seq<T>, extra: bool)
    returns (counts': seq<nat>)
    requires Account(accepted, written, k, counts, held, repeats)
    requires k + |done| + (if extra then 1 else 0) <= |written| && written[k..k + |done|] == done
    ensures Account(accepted + done + (if extra then [written[k + |done|]] else []), written, k + |done|, counts',
                    extra || (done == [] && held), repeats + if held && (extra || done != []) then 1 else 0)
  {
    hide Flatten, Total;
    var n := k + |done|;
    counts' := AcceptAll(accepted, written, k, counts, done);
    if extra {
      Accept(accepted + done, written, n, counts');
      counts' := counts'[n := counts'[n] + 1];
    } else {
      assert accepted + done + [] == accepted + done;
    }
  }

  lemma AccountAppend<T>(accepted: seq<T>, written: seq<T>, k: nat, counts: seq<nat>, held: bool, repeats: nat, x: T)
    requires Account(accepted, written, k, counts, held, repeats)
    ensures Account(accepted, written + [x], k, counts + [0], held, repeats)
  {
    hide Flatten, Total;
    AppendDelivered(accepted, written, k, counts, x);
  }

  /**
   Delivered, with `held` for the first unconfirmed element; when nothing was accepted twice, that
   is exactly the confirmed elements, and the one after them if it is held.
   */
  ghost predicate Accepted<T>(accepted: seq<T>, written: seq<T>, k: nat, counts: seq<nat>, held: bool) {
    && Delivered(accepted, written, k, counts) && held == HeadHeld(counts, k)
    && (!Twice(counts) ==> accepted == if held then written[..k + 1] else written[..k])
  }

  lemma AccountCovers<T>(accepted: seq<T>, written: seq<T>, k: nat, counts: seq<nat>, held: bool, repeats: nat)
    requires Account(accepted, written, k, counts, held, repeats)
    ensures k <= |written| && multiset(written[..k]) <= multiset(accepted)
  {
    NoneMissing(written, counts, k);
  }

  lemma NothingYet<T>()
    ensures Account<T>([], [], 0, [], false, 0)
  {
  }

  /** Something was accepted twice exactly when there was a repeat; otherwise exactly the confirmed, and perhaps the one after them, were accepted. */
  lemma AccountMeans<T>(accepted: seq<T>, written: seq<T>, k: nat, counts: seq<nat>, held: bool, repeats: nat)
    requires Account(accepted, written, k, counts, held, repeats)
    ensures Accepted(accepted, written, k, counts, held) && (Twice(counts) <==> repeats > 0)
    ensures |accepted| == k + (if held then 1 else 0) + repeats
  {
    FlattenSize(written, counts);
    TotalBounds(counts, k);
    if !Twice(counts) { OnceEach(accepted, written, k, counts); }
  }
}
