/** The fan-out engine: which agent gets which ticket. */
module Fanout {
  import opened GoStrings
  import opened Sorting

  datatype Ticket = Ticket(id: string, title: string, description: string, owner: string, priority: int)

  /** The part of an agent profile that matching reads. */
  datatype Profile = Profile(keywords: seq<string>)

  datatype Assignment = Assignment(ticketID: string, agentID: string, title: string, description: string, priority: int, reason: string)

  const FALLBACK := "cursor-parent"

  // ---------------------------------------------------------------- the order of strings

  /** The order `<=` of Go strings. */
  predicate LexLeq(a: string, b: string) {
    if a == "" then true
    else if b == "" then false
    else if a[0] != b[0] then a[0] < b[0]
    else LexLeq(a[1..], b[1..])
  }

  lemma {:induction false} LexTotal(a: string, b: string)
    ensures LexLeq(a, b) || LexLeq(b, a)
    ensures LexLeq(a, b) && LexLeq(b, a) ==> a == b
  {
    if a != "" && b != "" {
      LexTotal(a[1..], b[1..]);
      assert a == [a[0]] + a[1..] && b == [b[0]] + b[1..];
    }
  }

  lemma {:induction false} LexTransitive(a: string, b: string, c: string)
    requires LexLeq(a, b) && LexLeq(b, c)
    ensures LexLeq(a, c)
  {
    if a != "" && b != "" && c != "" && a[0] == b[0] == c[0] {
      LexTransitive(a[1..], b[1..], c[1..]);
    }
  }

  // ---------------------------------------------------------------- matching

  function Text(lower: string -> string, t: Ticket): string { lower(t.title + " " + t.description) }

  /** The number of keywords the text contains. */
  function KeywordScore(text: string, keywords: seq<string>): nat {
    if keywords == [] then 0
    else KeywordScore(text, keywords[..|keywords| - 1]) + if Contains(text, keywords[|keywords| - 1]) then 1 else 0
  }

  /**
   The agent for a text: the least id among those of highest score, or the fallback when no agent
   scores at all.
   */
  predicate IsMatch(profiles: map<string, Profile>, text: string, agent: string) {
    if exists id :: id in profiles && KeywordScore(text, profiles[id].keywords) > 0 then
      && agent in profiles
      && KeywordScore(text, profiles[agent].keywords) > 0
      && forall id :: id in profiles ==>
           var s, best := KeywordScore(text, profiles[id].keywords), KeywordScore(text, profiles[agent].keywords);
           s < best || (s == best && LexLeq(agent, id))
    else agent == FALLBACK
  }

  /** There is only one such agent, so that the order in which the profiles are visited cannot matter. */
  lemma MatchUnique(profiles: map<string, Profile>, text: string, agent: string, agent': string)
    requires IsMatch(profiles, text, agent) && IsMatch(profiles, text, agent')
    ensures agent == agent'
  {
    hide KeywordScore, LexLeq;
    LexTotal(agent, agent');
  }

  datatype Scored = Scored(id: string, score: int)

  /** Higher scores first, then smaller ids. */
  function BestFirst(): (leq: (Scored, Scored) -> bool)
    ensures forall a, b :: leq(a, b) <==> a.score > b.score || (a.score == b.score && LexLeq(a.id, b.id))
  {
    (a: Scored, b: Scored) => a.score > b.score || (a.score == b.score && LexLeq(a.id, b.id))
  }

  lemma BestFirstOrders()
    ensures Orders(BestFirst())
  {
    hide LexLeq;
    var leq := BestFirst();
    forall a, b ensures leq(a, b) || leq(b, a) { LexTotal(a.id, b.id); }
    forall a, b, c | leq(a, b) && leq(b, c) ensures leq(a, c) {
      if a.score == c.score { LexTransitive(a.id, b.id, c.id); }
    }
  }

  function HighestFirst(): (leq: (Ticket, Ticket) -> bool)
    ensures Orders(leq)
    ensures forall a, b :: leq(a, b) <==> a.priority >= b.priority
  {
    (a: Ticket, b: Ticket) => a.priority >= b.priority
  }

  function Unowned(tickets: seq<Ticket>): seq<Ticket> {
    if tickets == [] then []
    else
      var n := |tickets| - 1;
      Unowned(tickets[..n]) + if tickets[n].owner == "" then [tickets[n]] else []
  }

  function AssignmentOf(t: Ticket, agent: string): Assignment {
    Assignment(t.id, agent, t.title, t.description, t.priority, "keyword match for " + agent)
  }

  class Engine {
    const profiles: map<string, Profile>

    constructor (profiles: map<string, Profile>)
      ensures this.profiles == profiles
    {
      this.profiles := profiles;
    }

    method Score(text: string, keywords: seq<string>) returns (s: nat)
      ensures s == KeywordScore(text, keywords)
    {
      s := 0;
      for i := 0 to |keywords|
        invariant s == KeywordScore(text, keywords[..i])
      {
        assert keywords[..i + 1][..i] == keywords[..i];
        if Contains(text, keywords[i]) { s := s + 1; }
      }
      assert keywords[..|keywords|] == keywords;
    }

    /** The scores of all agents, in whatever order the map yields them. */
    method Scores(text: string) returns (scores: seq<Scored>)
      ensures forall k :: 0 <= k < |scores| ==>
                scores[k].id in profiles && scores[k].score == KeywordScore(text, profiles[scores[k].id].keywords)
      ensures forall id :: id in profiles ==> exists k :: 0 <= k < |scores| && scores[k].id == id
    {
      hide KeywordScore;
      scores := [];
      var todo := profiles.Keys;
      while todo != {}
        invariant todo <= profiles.Keys
        invariant forall k :: 0 <= k < |scores| ==>
                    scores[k].id in profiles && scores[k].score == KeywordScore(text, profiles[scores[k].id].keywords)
        invariant forall id :: id in profiles && id !in todo ==> exists k :: 0 <= k < |scores| && scores[k].id == id
        decreases |todo|
      {
        var id :| id in todo;
        var s := Score(text, profiles[id].keywords);
        ghost var was := scores;
        scores := scores + [Scored(id, s)];
        assert scores[|was|].id == id;
        assert forall k :: 0 <= k < |was| ==> scores[k] == was[k];
        todo := todo - {id};
      }
    }

    method MatchAgent(lower: string -> string, t: Ticket) returns (agent: string)
      ensures IsMatch(profiles, Text(lower, t), agent)
    {
      hide KeywordScore, LexLeq, Orders;
      var text := lower(t.title + " " + t.description);
      var found := Scores(text);
      BestFirstOrders();
      var scores := SortBy(found, BestFirst());
      SameMembers(scores, found);
      forall k | 0 <= k < |scores|
        ensures scores[k].id in profiles && scores[k].score == KeywordScore(text, profiles[scores[k].id].keywords)
      {
        assert scores[k] in found;
      }
      forall id | id in profiles
        ensures exists k :: 0 <= k < |scores| && scores[k].id == id && (k == 0 || BestFirst()(scores[0], scores[k]))
      {
        var k :| 0 <= k < |found| && found[k].id == id;
        assert found[k] in scores;
        var j :| 0 <= j < |scores| && scores[j] == found[k];
      }
      if |scores| > 0 && scores[0].score > 0 {
        LexTotal(scores[0].id, scores[0].id);
        return scores[0].id;
      }
      agent := FALLBACK;
    }

    /** Exactly the unowned tickets, highest priority first, each for the agent its text matches. */
    method AssignTickets(lower: string -> string, tickets: seq<Ticket>) returns (assignments: seq<Assignment>)
      ensures exists order :: InOrder(order, tickets) && Assigns(profiles, lower, order, assignments)
    {
      hide IsMatch, InOrder;
      assignments := [];
      if |tickets| == 0 {
        NoTickets();
        assert Assigns(profiles, lower, [], assignments);
        return;
      }
      var unassigned := [];
      for i := 0 to |tickets|
        invariant unassigned == Unowned(tickets[..i])
      {
        assert tickets[..i + 1][..i] == tickets[..i];
        if tickets[i].owner == "" { unassigned := unassigned + [tickets[i]]; }
      }
      assert tickets[..|tickets|] == tickets;
      unassigned := SortBy(unassigned, HighestFirst());
      IsInOrder(unassigned, tickets);
      for i := 0 to |unassigned|
        invariant Assigns(profiles, lower, unassigned[..i], assignments)
      {
        var t := unassigned[i];
        var agent := MatchAgent(lower, t);
        assignments := assignments + [Assignment(t.id, agent, t.title, t.description, t.priority, "keyword match for " + agent)];
        assert unassigned[..i + 1] == unassigned[..i] + [t];
      }
      assert unassigned[..|unassigned|] == unassigned;
    }
  }

  /** The unowned tickets, highest priority first. */
  ghost predicate InOrder(order: seq<Ticket>, tickets: seq<Ticket>) {
    Permutes(order, Unowned(tickets)) && Sorted(order, HighestFirst())
  }

  /** Each ticket, in order, for the agent its text matches. */
  predicate Assigns(profiles: map<string, Profile>, lower: string -> string, order: seq<Ticket>, assignments: seq<Assignment>) {
    |assignments| == |order| && forall i :: 0 <= i < |order| ==>
      && assignments[i] == AssignmentOf(order[i], assignments[i].agentID)
      && IsMatch(profiles, Text(lower, order[i]), assignments[i].agentID)
  }

  lemma NoTickets()
    ensures InOrder([], [])
  {
  }

  lemma IsInOrder(order: seq<Ticket>, tickets: seq<Ticket>)
    requires Permutes(order, Unowned(tickets)) && Sorted(order, HighestFirst())
    ensures InOrder(order, tickets)
  {
  }

  lemma {:induction false} UnownedMeans(tickets: seq<Ticket>, t: Ticket)
    ensures multiset(Unowned(tickets))[t] == if t.owner == "" then multiset(tickets)[t] else 0
  {
    if tickets != [] {
      var n := |tickets| - 1;
      UnownedMeans(tickets[..n], t);
      LastOut(tickets);
      var kept := Unowned(tickets[..n]);
      if tickets[n].owner == "" {
        assert multiset(kept + [tickets[n]]) == multiset(kept) + multiset{tickets[n]};
      } else {
        assert Unowned(tickets) == kept;
      }
    }
  }

  /** The agent matched to a text. */
  ghost function MatchOf(profiles: map<string, Profile>, text: string): string {
    if agent :| IsMatch(profiles, text, agent) then agent else FALLBACK
  }

  /** The assignment of a ticket. */
  ghost function Assigned(profiles: map<string, Profile>, lower: string -> string, t: Ticket): Assignment {
    AssignmentOf(t, MatchOf(profiles, Text(lower, t)))
  }

  ghost function AllAssigned(profiles: map<string, Profile>, lower: string -> string, ts: seq<Ticket>): (r: seq<Assignment>)
    ensures |r| == |ts| && forall i :: 0 <= i < |ts| ==> r[i] == Assigned(profiles, lower, ts[i])
  {
    seq(|ts|, i requires 0 <= i < |ts| => Assigned(profiles, lower, ts[i]))
  }

  lemma AssignsAll(profiles: map<string, Profile>, lower: string -> string, order: seq<Ticket>, r: seq<Assignment>)
    requires Assigns(profiles, lower, order, r)
    ensures r == AllAssigned(profiles, lower, order)
  {
    hide IsMatch, Text;
    forall i | 0 <= i < |order| ensures r[i] == Assigned(profiles, lower, order[i]) {
      MatchUnique(profiles, Text(lower, order[i]), r[i].agentID, MatchOf(profiles, Text(lower, order[i])));
    }
  }

  /** Permuted tickets have permuted assignments. */
  lemma {:induction false} AssignedPermutes(profiles: map<string, Profile>, lower: string -> string, a: seq<Ticket>, b: seq<Ticket>)
    requires multiset(a) == multiset(b)
    ensures multiset(AllAssigned(profiles, lower, a)) == multiset(AllAssigned(profiles, lower, b))
    decreases |a|
  {
    hide Assigned, AllAssigned;
    SameMembers(a, b);
    if a != [] {
      var n := |a| - 1;
      assert a[n] in b;
      var k :| 0 <= k < |b| && b[k] == a[n];
      var rest := b[..k] + b[k + 1..];
      LastOut(a);
      OneOut(b, k);
      Cancel(multiset(a[..n]), multiset(rest), a[n]);
      AssignedPermutes(profiles, lower, a[..n], rest);
      AssignedWithout(profiles, lower, a, n);
      AssignedWithout(profiles, lower, b, k);
      assert a[..n] + a[n + 1..] == a[..n];
    } else {
      assert b == [];
    }
  }

  /** The assignments without one ticket, and that ticket's. */
  lemma AssignedWithout(profiles: map<string, Profile>, lower: string -> string, ts: seq<Ticket>, k: nat)
    requires k < |ts|
    ensures multiset(AllAssigned(profiles, lower, ts)) ==
            multiset(AllAssigned(profiles, lower, ts[..k] + ts[k + 1..])) + multiset{Assigned(profiles, lower, ts[k])}
  {
    hide Assigned, AllAssigned;
    var r := AllAssigned(profiles, lower, ts);
    assert r[..k] + r[k + 1..] == AllAssigned(profiles, lower, ts[..k] + ts[k + 1..]);
    OneOut(r, k);
  }

  lemma Cancel<T>(p: multiset<T>, q: multiset<T>, x: T)
    requires p + multiset{x} == q + multiset{x}
    ensures p == q
  {
    assert p == (p + multiset{x}) - multiset{x};
  }

  lemma LastOut<T>(xs: seq<T>)
    requires xs != []
    ensures multiset(xs) == multiset(xs[..|xs| - 1]) + multiset{xs[|xs| - 1]}
  {
    assert xs == xs[..|xs| - 1] + [xs[|xs| - 1]];
  }

  lemma OneOut<T>(xs: seq<T>, k: nat)
    requires k < |xs|
    ensures multiset(xs) == multiset(xs[..k] + xs[k + 1..]) + multiset{xs[k]}
  {
    assert xs == xs[..k] + [xs[k]] + xs[k + 1..];
  }

  /** Two runs make the same assignments, each as often, however the sort breaks ties. */
  lemma AssignmentsAgree(profiles: map<string, Profile>, lower: string -> string, tickets: seq<Ticket>,
                         order: seq<Ticket>, r: seq<Assignment>, order': seq<Ticket>, r': seq<Assignment>)
    requires InOrder(order, tickets) && Assigns(profiles, lower, order, r)
    requires InOrder(order', tickets) && Assigns(profiles, lower, order', r')
    ensures Permutes(r, r')
  {
    hide IsMatch, Text, Sorted;
    AssignsAll(profiles, lower, order, r);
    AssignsAll(profiles, lower, order', r');
    AssignedPermutes(profiles, lower, order, order');
  }
}
