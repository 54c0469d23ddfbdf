/** The paginated listing of coordination signals. */
module Signals {
  import opened Wrappers

  /** A page reply: the object form carries the total, the bare-array form does not; or the request or its parsing failed. */
  datatype Reply<S> = Wrapped(results: seq<S>, total: int) | Flat(items: seq<S>) | Failed

  /** What the server answers to each page number, from 1 on. */
  type Server<S> = nat -> Reply<S>

  const PAGE_SIZE := 100

  /** The signals of a reply. */
  function Items<S>(r: Reply<S>): seq<S>
    requires !r.Failed?
  {
    if r.Wrapped? then r.results else r.items
  }

  /** The total a reply reports; a bare array counts as its own total. */
  function Total<S>(r: Reply<S>): int
    requires !r.Failed?
  {
    if r.Wrapped? then r.total else |r.items|
  }

  /** The signals of the first n pages together. */
  function Upto<S>(server: Server<S>, n: nat): seq<S> {
    if n == 0 then [] else Upto(server, n - 1) + if server(n).Failed? then [] else Items(server(n))
  }

  /** The listing ends with page n: it is empty, or the reported total is reached. */
  predicate Ends<S>(server: Server<S>, n: nat) {
    !server(n).Failed? && (|Items(server(n))| == 0 || |Upto(server, n)| >= Total(server(n)))
  }

  /** Page n, asked for in turn, would fail or end the listing. */
  predicate Stops<S>(server: Server<S>, n: nat) { n >= 1 && (server(n).Failed? || Ends(server, n)) }

  /** Pages up to n have been asked for, all but the last without failure or end, and r is the outcome. */
  predicate Listing<S(==)>(server: Server<S>, n: nat, r: Option<seq<S>>) {
    && n >= 1
    && (forall p :: 1 <= p < n ==> !server(p).Failed? && !Ends(server, p))
    && (if server(n).Failed? then r == None else Ends(server, n) && r == Some(Upto(server, n)))
  }

  class Client<S(==)> {
    var errors: nat
    var listed: nat

    constructor ()
      ensures errors == 0 && listed == 0
    {
      errors, listed := 0, 0;
    }

    /** One signal page after the other, for a server with a page that fails or ends the listing. */
    method ListSignals(server: Server<S>) returns (r: Option<seq<S>>)
      requires exists n: nat :: Stops(server, n)
      modifies this
      ensures exists n :: Listing(server, n, r)
      ensures if r.None? then errors == old(errors) + 1 && listed == old(listed)
              else errors == old(errors) && listed == old(listed) + 1
    {
      ghost var last: nat :| Stops(server, last);
      var all: seq<S> := [];
      var page := 1;
      while true
        invariant 1 <= page <= last
        invariant all == Upto(server, page - 1)
        invariant forall p :: 1 <= p < page ==> !server(p).Failed? && !Ends(server, p)
        invariant errors == old(errors) && listed == old(listed)
        decreases last - page
      {
        var body := server(page);
        if body.Failed? {
          errors := errors + 1;
          assert Listing(server, page, None);
          return None;
        }
        var signals, total := Items(body), Total(body);
        all := all + signals;
        if |signals| == 0 || |all| >= total {
          assert Listing(server, page, Some(all));
          break;
        }
        page := page + 1;
      }
      listed := listed + 1;
      r := Some(all);
    }
  }

  /** Exactly when the listing has an outcome at all: when some page stops it. */
  lemma {:induction false} ListingExistsIff<S>(server: Server<S>)
    ensures (exists n: nat, r :: Listing(server, n, r)) <==> exists n: nat :: Stops(server, n)
  {
    hide Ends, Upto;
    if n: nat, r :| Listing(server, n, r) { assert Stops(server, n); }
    if n: nat :| Stops(server, n) {
      var m := FirstStop(server, n);
      forall p | 1 <= p < m ensures !server(p).Failed? && !Ends(server, p) { assert !Stops(server, p); }
      assert Listing(server, m, if server(m).Failed? then None else Some(Upto(server, m)));
    }
  }

  lemma {:induction false} FirstStop<S>(server: Server<S>, n: nat) returns (m: nat)
    requires Stops(server, n)
    ensures Stops(server, m) && forall p :: 1 <= p < m ==> !Stops(server, p)
    decreases n
  {
    hide Ends;
    m := n;
    if p :| 1 <= p < n && Stops(server, p) { m := FirstStop(server, p); }
  }

  /** Some page stops the listing whenever the totals the server reports have a bound. */
  lemma BoundedTotalsStop<S>(server: Server<S>, bound: nat)
    requires forall p :: p >= 1 && !server(p).Failed? ==> Total(server(p)) <= bound
    ensures exists n: nat :: Stops(server, n)
  {
    hide Upto;
    if forall n: nat :: !Stops(server, n) { EveryPageAdds(server, bound + 1); }
    assert Stops(server, bound + 1) || exists n: nat :: Stops(server, n);
  }

  /** A page that does not stop the listing adds at least one signal. */
  lemma {:induction false} EveryPageAdds<S>(server: Server<S>, n: nat)
    requires forall p :: 1 <= p <= n ==> !Stops(server, p)
    ensures |Upto(server, n)| >= n
  {
    if n > 0 {
      EveryPageAdds(server, n - 1);
      assert !Stops(server, n);
    }
  }

  /** The outcome and the number of requests are determined by the server. */
  lemma ListingUnique<S>(server: Server<S>, n: nat, r: Option<seq<S>>, n': nat, r': Option<seq<S>>)
    requires Listing(server, n, r) && Listing(server, n', r')
    ensures n == n' && r == r'
  {
    hide Ends, Upto;
    assert server(n).Failed? || Ends(server, n);
    assert server(n').Failed? || Ends(server, n');
  }

  // ---------------------------------------------------------------- against a fixed list

  function Min(a: nat, b: nat): nat { if a <= b then a else b }

  /** The p-th page of a list, p from 1 on. */
  function PageOf<S>(l: seq<S>, p: nat): seq<S>
    requires p >= 1
  {
    l[Min(PAGE_SIZE * (p - 1), |l|)..Min(PAGE_SIZE * p, |l|)]
  }

  ghost predicate Serves<S>(server: Server<S>, l: seq<S>) {
    forall p :: p >= 1 ==> server(p) == Wrapped(PageOf(l, p), |l|)
  }

  ghost predicate ServesFlat<S>(server: Server<S>, l: seq<S>) {
    forall p :: p >= 1 ==> server(p) == Flat(PageOf(l, p))
  }

  lemma PagesJoin<S>(l: seq<S>, n: nat)
    requires n >= 1
    ensures l[..Min(PAGE_SIZE * (n - 1), |l|)] + PageOf(l, n) == l[..Min(PAGE_SIZE * n, |l|)]
  {
    var a, b := Min(PAGE_SIZE * (n - 1), |l|), Min(PAGE_SIZE * n, |l|);
    assert l[..a] + l[a..b] == l[..b];
  }

  lemma {:induction false} UptoPages<S>(server: Server<S>, l: seq<S>, n: nat)
    requires Serves(server, l)
    ensures Upto(server, n) == l[..Min(PAGE_SIZE * n, |l|)]
  {
    hide PageOf;
    if n > 0 {
      UptoPages(server, l, n - 1);
      assert server(n) == Wrapped(PageOf(l, n), |l|);
      PagesJoin(l, n);
    }
  }

  /** Against a fixed list the client returns exactly that list, and asks for each of its pages once: one page at least. */
  lemma Reassembles<S>(server: Server<S>, l: seq<S>, n: nat, r: Option<seq<S>>)
    requires Serves(server, l) && Listing(server, n, r)
    ensures r == Some(l)
    ensures n == if l == [] then 1 else (|l| + PAGE_SIZE - 1) / PAGE_SIZE
  {
    hide Upto;
    assert server(n) == Wrapped(PageOf(l, n), |l|);
    UptoPages(server, l, n);
    if n > 1 {
      assert !Ends(server, n - 1);
      assert server(n - 1) == Wrapped(PageOf(l, n - 1), |l|);
      UptoPages(server, l, n - 1);
    }
    if |PageOf(l, n)| == 0 { assert PAGE_SIZE * (n - 1) >= |l|; }
    assert l[..|l|] == l;
  }

  /**
   A server that answers with bare arrays is asked once only, because each page counts as its own
   total: the list is complete exactly when it fits one page.
   */
  lemma BareArraysStopAtOnePage<S>(server: Server<S>, l: seq<S>, n: nat, r: Option<seq<S>>)
    requires ServesFlat(server, l) && Listing(server, n, r)
    ensures n == 1 && r == Some(l[..Min(PAGE_SIZE, |l|)])
    ensures r == Some(l) <==> |l| <= PAGE_SIZE
  {
    hide Upto, Ends, ServesFlat;
    FirstPage(server, l);
    assert l[..|l|] == l;
  }

  lemma FirstPage<S>(server: Server<S>, l: seq<S>)
    requires ServesFlat(server, l)
    ensures !server(1).Failed? && Ends(server, 1) && Upto(server, 1) == l[..Min(PAGE_SIZE, |l|)]
  {
    assert server(1) == Flat(PageOf(l, 1));
    assert Upto(server, 0) == [];
    assert PageOf(l, 1) == l[..Min(PAGE_SIZE, |l|)];
    assert Upto(server, 1) == [] + PageOf(l, 1);
  }
}
