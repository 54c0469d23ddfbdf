/** Round-robin distribution of a sprint's open tickets. */
module Distribute {
  import opened Wrappers

  datatype Status = Backlog | Ready | OtherStatus(name: string)

  datatype Ticket = Ticket(id: string, status: Status)

  datatype Assignment = Assignment(ticketID: string, agentID: string)

  datatype Outcome = Refused(text: string) | Distributed(sprintID: string, count: nat, assignments: seq<Assignment>)

  // ---------------------------------------------------------------- the distribution as a function

  predicate IsOpen(t: Ticket) { t.status == Backlog || t.status == Ready }

  function OpenTickets(tickets: seq<Ticket>): seq<Ticket> {
    if tickets == [] then []
    else OpenTickets(tickets[..|tickets| - 1]) + if IsOpen(tickets[|tickets| - 1]) then [tickets[|tickets| - 1]] else []
  }

  /** The agent whose turn it is. */
  function Turn(agents: seq<string>, i: nat): string
    requires agents != []
  {
    agents[i % |agents|]
  }

  /** The i-th open ticket goes to agent i modulo the number of agents; nothing without agents. */
  function RoundRobin(agents: seq<string>, open: seq<Ticket>): (r: seq<Assignment>)
    ensures |r| == if agents == [] then 0 else |open|
  {
    if agents == [] then [] else seq(|open|, i requires 0 <= i < |open| => Assignment(open[i].id, Turn(agents, i)))
  }

  /** The owners after the assignments, in order; a ticket that is no longer stored is passed over. */
  function Owners(owner: map<string, string>, assignments: seq<Assignment>): map<string, string> {
    if assignments == [] then owner
    else
      var n := |assignments| - 1;
      var before := Owners(owner, assignments[..n]);
      if assignments[n].ticketID in before then before[assignments[n].ticketID := assignments[n].agentID] else before
  }

  lemma NothingDistributed(agents: seq<string>, open: seq<Ticket>, owner: map<string, string>)
    requires agents == [] || open == []
    ensures RoundRobin(agents, open) == [] && Owners(owner, []) == owner
  {
  }

  lemma NoTickets(tickets: seq<Ticket>)
    ensures OpenTickets(tickets[..0]) == []
  {
  }

  lemma OneMoreTicket(tickets: seq<Ticket>, k: nat)
    requires k < |tickets|
    ensures OpenTickets(tickets[..k + 1]) == OpenTickets(tickets[..k]) + if IsOpen(tickets[k]) then [tickets[k]] else []
  {
    assert tickets[..k + 1][..k] == tickets[..k];
  }

  lemma OneMoreTurn(agents: seq<string>, open: seq<Ticket>, t: Ticket)
    requires agents != []
    ensures RoundRobin(agents, open + [t]) == RoundRobin(agents, open) + [Assignment(t.id, Turn(agents, |open|))]
  {
  }

  lemma OneMoreOwner(owner: map<string, string>, assignments: seq<Assignment>, a: Assignment)
    ensures var before := Owners(owner, assignments);
            Owners(owner, assignments + [a]) == if a.ticketID in before then before[a.ticketID := a.agentID] else before
  {
    assert (assignments + [a])[..|assignments|] == assignments;
  }

  // ---------------------------------------------------------------- the tool

  class Store {
    var owner: map<string, string>

    constructor (owner: map<string, string>)
      ensures this.owner == owner
    {
      this.owner := owner;
    }

    method AssignTicket(id: string, agent: string) returns (ok: bool)
      modifies this
      ensures ok <==> id in old(owner)
      ensures owner == if ok then old(owner)[id := agent] else old(owner)
    {
      ok := id in owner;
      if ok { owner := owner[id := agent]; }
    }
  }

  /** `agents` and `tickets` are the store's two listings, none when the store fails. */
  method SprintDistribute(store: Store, sprintID: string, agents: Option<seq<string>>, tickets: Option<seq<Ticket>>) returns (out: Outcome)
    modifies store
    ensures out.Refused? <==> sprintID == "" || agents.None? || tickets.None?
    ensures out.Refused? ==> store.owner == old(store.owner)
    ensures out.Distributed? ==>
              var r := RoundRobin(agents.value, OpenTickets(tickets.value));
              out == Distributed(sprintID, |r|, r) && store.owner == Owners(old(store.owner), r)
  {
    if sprintID == "" { return Refused("sprint_id is required"); }
    if agents.None? { return Refused("error listing agents"); }
    if tickets.None? { return Refused("error listing tickets"); }
    hide RoundRobin, Owners, Turn, OpenTickets;
    var ids, ts := agents.value, tickets.value;
    NothingDistributed(ids, [], store.owner);
    NoTickets(ts);
    var assignments: seq<Assignment> := [];
    var agentIdx := 0;
    for k := 0 to |ts|
      invariant assignments == RoundRobin(ids, OpenTickets(ts[..k]))
      invariant ids != [] ==> agentIdx == |OpenTickets(ts[..k])|
      invariant store.owner == Owners(old(store.owner), assignments)
    {
      var t := ts[k];
      OneMoreTicket(ts, k);
      if t.status != Backlog && t.status != Ready { continue; }
      if |ids| == 0 {
        NothingDistributed(ids, OpenTickets(ts), store.owner);
        NothingDistributed(ids, OpenTickets(ts[..k]), store.owner);
        break;
      }
      var a := Turn(ids, agentIdx);
      OneMoreTurn(ids, OpenTickets(ts[..k]), t);
      OneMoreOwner(old(store.owner), assignments, Assignment(t.id, a));
      assignments := assignments + [Assignment(t.id, a)];
      var ok := store.AssignTicket(t.id, a);
      agentIdx := agentIdx + 1;
    }
    assert ts[..|ts|] == ts;
    out := Distributed(sprintID, |assignments|, assignments);
  }

  // ---------------------------------------------------------------- fairness

  /** How many of the first k turns fall on place j of n. */
  function Turns(k: nat, n: nat, j: nat): nat
    requires n > 0
  {
    if k == 0 then 0 else Turns(k - 1, n, j) + if (k - 1) % n == j then 1 else 0
  }

  lemma NextTurn(k: nat, n: nat)
    requires n > 0
    ensures if k % n + 1 == n then (k + 1) / n == k / n + 1 && (k + 1) % n == 0
            else (k + 1) / n == k / n && (k + 1) % n == k % n + 1
  {
    var q, r := k / n, k % n;
    assert k == q * n + r;
    if r + 1 == n {
      assert k + 1 == (q + 1) * n;
      Divide(k + 1, n, q + 1, 0);
    } else {
      Divide(k + 1, n, q, r + 1);
    }
  }

  lemma Divide(k: nat, n: nat, q: nat, r: nat)
    requires r < n && k == q * n + r
    ensures k / n == q && k % n == r
  {
    var q', r' := k / n, k % n;
    assert k == q' * n + r';
    if q' > q { Apart(q', q, n); }
    if q > q' { Apart(q, q', n); }
  }

  lemma Apart(a: nat, b: nat, n: nat)
    requires a > b
    ensures a * n >= b * n + n
    decreases a
  {
    assert a * n == (a - 1) * n + n;
    if a - 1 > b { Apart(a - 1, b, n); }
  }

  lemma {:induction false} TurnsClosed(k: nat, n: nat, j: nat)
    requires j < n
    ensures Turns(k, n, j) == k / n + if j < k % n then 1 else 0
  {
    if k == 0 {
      Divide(0, n, 0, 0);
    } else {
      TurnsClosed(k - 1, n, j);
      NextTurn(k - 1, n);
    }
  }

  /** The number of assignments to an agent. */
  function Load(assignments: seq<Assignment>, agent: string): nat {
    if assignments == [] then 0
    else Load(assignments[..|assignments| - 1], agent) + if assignments[|assignments| - 1].agentID == agent then 1 else 0
  }

  lemma {:induction false} LoadIsTurns(agents: seq<string>, open: seq<Ticket>, j: nat)
    requires j < |agents| && forall i, k :: 0 <= i < k < |agents| ==> agents[i] != agents[k]
    ensures Load(RoundRobin(agents, open), agents[j]) == Turns(|open|, |agents|, j)
    decreases |open|
  {
    if open != [] {
      var n := |open| - 1;
      LoadIsTurns(agents, open[..n], j);
      var r := RoundRobin(agents, open);
      assert r[..n] == RoundRobin(agents, open[..n]);
      assert r[n].agentID == agents[n % |agents|];
    }
  }

  /**
   Fairness: with n agents of different ids and k open tickets there are k assignments, in ticket
   order, and agent j gets k / n of them, plus one if j < k mod n.
   */
  lemma Fairness(agents: seq<string>, open: seq<Ticket>, j: nat)
    requires j < |agents| && forall i, k :: 0 <= i < k < |agents| ==> agents[i] != agents[k]
    ensures var r, k, n := RoundRobin(agents, open), |open|, |agents|;
            && |r| == k && (forall i :: 0 <= i < k ==> r[i].ticketID == open[i].id)
            && Load(r, agents[j]) == k / n + if j < k % n then 1 else 0
  {
    LoadIsTurns(agents, open, j);
    TurnsClosed(|open|, |agents|, j);
  }

  /** Hence no agent gets two tickets more than another. */
  lemma Balanced(agents: seq<string>, open: seq<Ticket>, i: nat, j: nat)
    requires i < |agents| && j < |agents| && forall i, k :: 0 <= i < k < |agents| ==> agents[i] != agents[k]
    ensures Load(RoundRobin(agents, open), agents[i]) <= Load(RoundRobin(agents, open), agents[j]) + 1
  {
    Fairness(agents, open, i);
    Fairness(agents, open, j);
  }

  // ---------------------------------------------------------------- the store

  lemma {:induction false} OpenAreTickets(tickets: seq<Ticket>)
    ensures forall t :: t in OpenTickets(tickets) <==> t in tickets && IsOpen(t)
  {
    if tickets != [] {
      var n := |tickets| - 1;
      OpenAreTickets(tickets[..n]);
      assert tickets == tickets[..n] + [tickets[n]];
    }
  }

  /** Only assigned tickets change hands, no ticket appears or disappears, and with different ids each ticket is owned as assigned. */
  lemma {:induction false} OwnersMean(owner: map<string, string>, r: seq<Assignment>)
    ensures Owners(owner, r).Keys == owner.Keys
    ensures forall id :: id in owner && (forall i :: 0 <= i < |r| ==> r[i].ticketID != id) ==> Owners(owner, r)[id] == owner[id]
    ensures (forall i, k :: 0 <= i < k < |r| ==> r[i].ticketID != r[k].ticketID) ==>
              forall i :: 0 <= i < |r| && r[i].ticketID in owner ==> Owners(owner, r)[r[i].ticketID] == r[i].agentID
  {
    if r != [] {
      var n := |r| - 1;
      OwnersMean(owner, r[..n]);
      assert forall i :: 0 <= i < n ==> r[..n][i] == r[i];
    }
  }
}
