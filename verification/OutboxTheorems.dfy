/** Delivery, spending and liveness of the outbox over every history of appends and flushes. */
module OutboxTheorems {
  import opened Wrappers
  import opened Capsules
  import opened Breakers
  import opened Outbox
  import opened Repeats

  // ---------------------------------------------------------------- the file

  function Text(box: Box): string { if box.pending.Some? then box.pending.value else "" }

  predicate WholeLines(s: string) { s != "" ==> s[|s| - 1] == '\n' }

  lemma {:induction false} LineEndStable(s: string, t: string, i: nat)
    requires i < |s| && WholeLines(s)
    ensures LineEnd(s + t, i) == LineEnd(s, i)
    ensures (s + t)[i..LineEnd(s, i)] == s[i..LineEnd(s, i)]
    decreases |s| - i
  {
    if s[i] != '\n' && i + 1 < |s| { LineEndStable(s, t, i + 1); }
  }

  lemma {:induction false} LineEndOfLine(s: string, i: nat)
    requires i < |s| && forall k :: i <= k < |s| - 1 ==> s[k] != '\n'
    ensures LineEnd(s, i) == |s|
    decreases |s| - i
  {
    if i + 1 < |s| { LineEndOfLine(s, i + 1); }
  }

  lemma RemainingOne(s: string, i: nat, decode: Decoder, c: OutboxCapsule)
    requires i < |s| && LineEnd(s, i) == |s| && ReadLine(s[i..|s|], decode) == Holds(c)
    ensures Remaining(s, i, decode) == [c]
  {
    hide ReadLine, LineEnd;
    assert Remaining(s, |s|, decode) == [];
  }

  lemma LastLine(s: string, line: string, decode: Decoder, c: OutboxCapsule)
    requires '\n' !in line && ReadLine(line + "\n", decode) == Holds(c)
    ensures Remaining(s + (line + "\n"), |s|, decode) == [c]
  {
    hide ReadLine, Remaining, LineEnd;
    var t := line + "\n";
    var all := s + t;
    forall k | |s| <= k < |all| - 1 ensures all[k] != '\n' { assert all[k] == line[k - |s|]; }
    LineEndOfLine(all, |s|);
    assert all[|s|..|all|] == t;
    RemainingOne(all, |s|, decode, c);
  }

  /** Appending a line that holds `c` to a file of whole lines adds `c` at the end. */
  lemma {:induction false} RemainingAppend(s: string, line: string, i: nat, decode: Decoder, c: OutboxCapsule)
    requires i <= |s| && WholeLines(s) && '\n' !in line
    requires ReadLine(line + "\n", decode) == Holds(c)
    ensures Remaining(s + (line + "\n"), i, decode) == Remaining(s, i, decode) + [c]
    decreases |s| - i
  {
    if i == |s| {
      LastLine(s, line, decode, c);
    } else {
      LineEndStable(s, line + "\n", i);
      RemainingAppend(s, line, LineEnd(s, i), decode, c);
    }
  }

  // ---------------------------------------------------------------- one flush

  /** Every cursor write of the flush succeeds. */
  ghost predicate CursorSafe(seams: Seams) { forall k :: seams.cursorSaved(k) }

  /**
   Between `f` and `t` Mem0 accepted the capsules `done`, the next ones of those pending before,
   and the cursor moved past them. If a cursor write was lost it accepted one more, which is still
   counted as pending.
   */
  ghost predicate Delivers(before: seq<OutboxCapsule>, after: seq<OutboxCapsule>, f: Flush, t: Flush, done: seq<OutboxCapsule>, lost: bool) {
    && t.box.pending == f.box.pending
    && before == done + after
    && t.report.flushed == f.report.flushed + |done| + (if lost then 1 else 0)
    && (!lost ==> t.box.pushed == f.box.pushed + done)
    && (lost ==> after != [] && t.err == Some(CursorError) && t.box.pushed == f.box.pushed + done + [after[0]])
  }

  /** The outcomes of one push: nothing accepted; accepted and confirmed; accepted but not confirmed. */
  lemma PushOutcomes(seams: Seams, f: Flush, c: OutboxCapsule, start: nat, end: nat)
    requires seams.client.Some?
    ensures var t := PushOne(seams, f, c, start, end);
            && t.box.pending == f.box.pending
            && (t.err.None? ==> t.box.pushed == f.box.pushed + [c] && t.box.cursor == end)
            && (|| (t.box.pushed == f.box.pushed && t.report.flushed == f.report.flushed
                    && (t.box.cursor == f.box.cursor || t.box.cursor == start))
                || (t.box.pushed == f.box.pushed + [c] && t.report.flushed == f.report.flushed + 1 && t.box.cursor == end)
                || (t.box.pushed == f.box.pushed + [c] && t.report.flushed == f.report.flushed + 1
                    && t.box.cursor == f.box.cursor && t.err == Some(CursorError) && !CursorSafe(seams)))
  {
  }

  lemma {:induction false} BatchDelivers(seams: Seams, s: string, at: nat, room: int, f: Flush)
    returns (done: seq<OutboxCapsule>, lost: bool)
    requires seams.client.Some? && f.err.None?
    requires Remaining(s, f.box.cursor, seams.decode) == Remaining(s, at, seams.decode)
    ensures var t := Batch(seams, s, at, room, f);
            Delivers(Remaining(s, f.box.cursor, seams.decode), Remaining(s, t.box.cursor, seams.decode), f, t, done, lost)
    ensures CursorSafe(seams) ==> !lost
    decreases |s| - at
  {
    hide ReadLine, PushOne;
    if room <= 0 || at >= |s| {
      done, lost := [], false;
    } else {
      var end := LineEnd(s, at);
      var line := ReadLine(s[at..end], seams.decode);
      var g := OneLine(seams, line, at, end, f);
      if line.Holds? {
        done, lost := LineDelivers(seams, s, at, end, f, line.capsule);
        if g.err.None? {
          var more, lost' := BatchDelivers(seams, s, end, room - 1, g);
          var t := Batch(seams, s, end, room - 1, g);
          DeliversTransitive(Remaining(s, f.box.cursor, seams.decode), Remaining(s, g.box.cursor, seams.decode),
                             Remaining(s, t.box.cursor, seams.decode), f, g, t, done, more, lost');
          done, lost := done + more, lost';
        }
      } else {
        done, lost := BatchDelivers(seams, s, end, room, g);
      }
    }
  }

  lemma LineDelivers(seams: Seams, s: string, at: nat, end: nat, f: Flush, c: OutboxCapsule)
    returns (done: seq<OutboxCapsule>, lost: bool)
    requires seams.client.Some?
    requires Remaining(s, at, seams.decode) == [c] + Remaining(s, end, seams.decode)
    requires Remaining(s, f.box.cursor, seams.decode) == Remaining(s, at, seams.decode)
    ensures var g := PushOne(seams, f, c, at, end);
            && Delivers(Remaining(s, f.box.cursor, seams.decode), Remaining(s, g.box.cursor, seams.decode), f, g, done, lost)
            && (CursorSafe(seams) ==> !lost)
            && (g.err.None? ==> !lost && g.box.cursor == end)
  {
    hide Remaining, PushOne;
    PushOutcomes(seams, f, c, at, end);
    var g := PushOne(seams, f, c, at, end);
    if g.box.pushed == f.box.pushed {
      done, lost := [], false;
    } else if Remaining(s, g.box.cursor, seams.decode) == Remaining(s, end, seams.decode) {
      done, lost := [c], false;
    } else {
      done, lost := [], true;
      assert f.box.pushed + [] == f.box.pushed;
    }
  }

  lemma DeliversTransitive(r: seq<OutboxCapsule>, r': seq<OutboxCapsule>, r'': seq<OutboxCapsule>,
                           f: Flush, g: Flush, t: Flush, a: seq<OutboxCapsule>, b: seq<OutboxCapsule>, lost: bool)
    requires Delivers(r, r', f, g, a, false) && Delivers(r', r'', g, t, b, lost)
    ensures Delivers(r, r'', f, t, a + b, lost)
  {
    assert a + (b + r'') == (a + b) + r'';
    assert (f.box.pushed + a) + b == f.box.pushed + (a + b);
  }

  lemma GateKeeps(seams: Seams, box: Box)
    ensures var (g, err) := Gate(seams, box);
            g.pending == box.pending && g.cursor == box.cursor && g.pushed == box.pushed && g.spent == box.spent
  {
  }

  /** The capsules still to be delivered. */
  function Pending(box: Box, decode: Decoder): seq<OutboxCapsule> { Remaining(Text(box), box.cursor, decode) }

  /** One flush delivers the next capsules in file order and moves the cursor past what it confirmed. */
  lemma FlushDelivers(seams: Seams, box: Box) returns (done: seq<OutboxCapsule>, lost: bool)
    ensures var t := FlushOf(seams, box);
            Delivers(Pending(box, seams.decode), Pending(t.box, seams.decode), Flush(box, NO_REPORT, None), t, done, lost)
    ensures CursorSafe(seams) ==> !lost
  {
    hide Batch, Remaining;
    done, lost := [], false;
    var (gated, err) := Gate(seams, box);
    GateKeeps(seams, box);
    if seams.client.Some? && err.None? && gated.pending.Some? {
      done, lost := BatchDelivers(seams, Text(box), gated.cursor, seams.Limit(), Flush(gated, NO_REPORT, None));
    }
  }

  // ---------------------------------------------------------------- histories

  /** The wire format: one capsule per line, read back as it was written. */
  datatype Codec = Codec(encode: OutboxCapsule -> string, decode: Decoder) {
    ghost predicate Valid() {
      forall c :: '\n' !in encode(c) && ReadLine(encode(c) + "\n", decode) == Holds(c)
    }
  }

  datatype Step = Append(capsule: OutboxCapsule) | Drain(seams: Seams)

  function Play(codec: Codec, box: Box, steps: seq<Step>): Box
    decreases steps
  {
    if steps == [] then box
    else Play(codec, Next(codec, box, steps[0]), steps[1..])
  }

  function Appended(steps: seq<Step>): seq<OutboxCapsule> {
    if steps == [] then []
    else (if steps[0].Append? then [steps[0].capsule] else []) + Appended(steps[1..])
  }

  ghost predicate SameFormat(codec: Codec, steps: seq<Step>) {
    codec.Valid() && forall i :: 0 <= i < |steps| && steps[i].Drain? ==> steps[i].seams.decode == codec.decode
  }

  ghost predicate NoLostSave(steps: seq<Step>) {
    forall i :: 0 <= i < |steps| && steps[i].Drain? ==> CursorSafe(steps[i].seams)
  }

  /** How many flushes may have lost a cursor write. */
  ghost function LossyFlushes(steps: seq<Step>): nat
    decreases steps
  {
    if steps == [] then 0
    else (if steps[0].Drain? && !CursorSafe(steps[0].seams) then 1 else 0) + LossyFlushes(steps[1..])
  }

  /**
   `written` is everything appended so far. What Mem0 has accepted is `written` up to what is still
   pending, in order, each capsule `counts` times, repeats directly behind the first; the capsule
   at the cursor may have been accepted as well. `lost` is the surplus, one for each push whose
   cursor write was lost.
   */
  ghost predicate Accounted(codec: Codec, box: Box, written: seq<OutboxCapsule>, counts: seq<nat>, lost: nat) {
    && WholeLines(Text(box)) && box.cursor <= |Text(box)|
    && Balanced(Pending(box, codec.decode), box.pushed, written, counts, lost)
  }

  ghost predicate Balanced(rest: seq<OutboxCapsule>, pushed: seq<OutboxCapsule>, written: seq<OutboxCapsule>, counts: seq<nat>, lost: nat) {
    && |rest| <= |written| && written[|written| - |rest|..] == rest
    && Delivered(pushed, written, |written| - |rest|, counts)
    && Total(counts) == |written| - |rest| + lost
  }

  lemma BalancedAppend(rest: seq<OutboxCapsule>, pushed: seq<OutboxCapsule>, written: seq<OutboxCapsule>, counts: seq<nat>, lost: nat, c: OutboxCapsule)
    requires Balanced(rest, pushed, written, counts, lost)
    ensures Balanced(rest + [c], pushed, written + [c], counts + [0], lost)
  {
    hide Delivered, Total;
    AppendDelivered(pushed, written, |written| - |rest|, counts, c);
  }

  lemma AppendAccounted(codec: Codec, box: Box, written: seq<OutboxCapsule>, counts: seq<nat>, lost: nat, c: OutboxCapsule)
    requires codec.Valid() && Accounted(codec, box, written, counts, lost)
    ensures Accounted(codec, AppendLine(box, codec.encode(c)), written + [c], counts + [0], lost)
  {
    hide ReadLine, Remaining, Balanced;
    RemainingAppend(Text(box), codec.encode(c), box.cursor, codec.decode, c);
    assert Text(AppendLine(box, codec.encode(c))) == Text(box) + (codec.encode(c) + "\n");
    BalancedAppend(Pending(box, codec.decode), box.pushed, written, counts, lost, c);
  }

  lemma OneLineCursor(seams: Seams, line: Line, at: nat, end: nat, f: Flush, n: nat)
    requires seams.client.Some? && f.box.cursor <= n && at <= n && end <= n
    ensures OneLine(seams, line, at, end, f).box.cursor <= n
  {
  }

  lemma {:induction false} BatchCursor(seams: Seams, s: string, at: nat, room: int, f: Flush)
    requires seams.client.Some? && f.box.cursor <= |s| && at <= |s|
    ensures Batch(seams, s, at, room, f).box.cursor <= |s|
    decreases |s| - at
  {
    hide ReadLine, OneLine;
    if room > 0 && at < |s| && f.err.None? {
      var end := LineEnd(s, at);
      var line := ReadLine(s[at..end], seams.decode);
      OneLineCursor(seams, line, at, end, f, |s|);
      BatchCursor(seams, s, end, if line.Holds? then room - 1 else room, OneLine(seams, line, at, end, f));
    }
  }

  lemma FlushCursor(seams: Seams, box: Box)
    requires box.cursor <= |Text(box)|
    ensures FlushOf(seams, box).box.cursor <= |Text(box)|
  {
    var (gated, err) := Gate(seams, box);
    GateKeeps(seams, box);
    if seams.client.Some? && err.None? && gated.pending.Some? {
      BatchCursor(seams, Text(box), gated.cursor, seams.Limit(), Flush(gated, NO_REPORT, None));
    }
  }

  /** The accounting only needs to know what was delivered. */
  lemma DeliveryBalanced(r: seq<OutboxCapsule>, r': seq<OutboxCapsule>, f: Flush, t: Flush, written: seq<OutboxCapsule>,
                         counts: seq<nat>, n: nat, done: seq<OutboxCapsule>, lost: bool) returns (counts': seq<nat>)
    requires Balanced(r, f.box.pushed, written, counts, n) && Delivers(r, r', f, t, done, lost)
    ensures Balanced(r', t.box.pushed, written, counts', n + if lost then 1 else 0)
  {
    hide Delivered, Total;
    var k := |written| - |r|;
    assert written == written[..k] + (done + r');
    assert written[k..k + |done|] == done;
    counts' := AcceptAll(f.box.pushed, written, k, counts, done);
    if lost {
      assert written[k + |done|] == r'[0];
      Accept(f.box.pushed + done, written, k + |done|, counts');
      counts' := counts'[k + |done| := counts'[k + |done|] + 1];
    }
  }

  lemma FlushAccounted(codec: Codec, box: Box, written: seq<OutboxCapsule>, counts: seq<nat>, n: nat, seams: Seams)
    returns (counts': seq<nat>, n': nat)
    requires Accounted(codec, box, written, counts, n) && seams.decode == codec.decode
    ensures Accounted(codec, FlushOf(seams, box).box, written, counts', n')
    ensures n <= n' <= n + 1
    ensures CursorSafe(seams) ==> n' == n
  {
    hide Balanced, FlushOf, Remaining;
    var done, lost := FlushDelivers(seams, box);
    FlushCursor(seams, box);
    var t := FlushOf(seams, box);
    counts' := DeliveryBalanced(Pending(box, codec.decode), Pending(t.box, codec.decode), Flush(box, NO_REPORT, None), t, written, counts, n, done, lost);
    n' := n + if lost then 1 else 0;
  }

  function Next(codec: Codec, box: Box, step: Step): Box {
    match step
    case Append(c) => AppendLine(box, codec.encode(c))
    case Drain(seams) => FlushOf(seams, box).box
  }

  lemma StepAccounted(codec: Codec, box: Box, step: Step, written: seq<OutboxCapsule>, counts: seq<nat>, lost: nat)
    returns (counts': seq<nat>, lost': nat)
    requires SameFormat(codec, [step]) && Accounted(codec, box, written, counts, lost)
    ensures Accounted(codec, Next(codec, box, step), written + Appended([step]), counts', lost')
    ensures lost <= lost' <= lost + LossyFlushes([step])
  {
    hide FlushOf, Accounted, CursorSafe;
    assert [step][1..] == [];
    assert LossyFlushes([step][1..]) == 0;
    match step
    case Append(c) =>
      AppendAccounted(codec, box, written, counts, lost, c);
      counts', lost' := counts + [0], lost;
      assert Appended([step]) == [c];
    case Drain(seams) =>
      assert [step][0].seams.decode == codec.decode;
      counts', lost' := FlushAccounted(codec, box, written, counts, lost, seams);
      assert Appended([step]) == [] && written + [] == written;
  }

  lemma StepsUnfold(codec: Codec, box: Box, steps: seq<Step>)
    ensures steps == [] ==> Play(codec, box, steps) == box && Appended(steps) == [] && LossyFlushes(steps) == 0
    ensures steps != [] ==>
              && Play(codec, box, steps) == Play(codec, Next(codec, box, steps[0]), steps[1..])
              && Appended(steps) == Appended([steps[0]]) + Appended(steps[1..])
              && LossyFlushes(steps) == LossyFlushes([steps[0]]) + LossyFlushes(steps[1..])
  {
    hide Next, CursorSafe;
    if steps != [] {
      assert [steps[0]][1..] == [] && LossyFlushes([steps[0]][1..]) == 0 && Appended([steps[0]][1..]) == [];
    }
  }

  lemma {:induction false} HistoryAccounted(codec: Codec, box: Box, steps: seq<Step>, written: seq<OutboxCapsule>, counts: seq<nat>, lost: nat)
    returns (counts': seq<nat>, lost': nat)
    requires SameFormat(codec, steps) && Accounted(codec, box, written, counts, lost)
    ensures Accounted(codec, Play(codec, box, steps), written + Appended(steps), counts', lost')
    ensures lost <= lost' <= lost + LossyFlushes(steps)
    decreases steps
  {
    hide Next, Accounted, CursorSafe, Appended, LossyFlushes, Play;
    StepsUnfold(codec, box, steps);
    if steps == [] {
      counts', lost' := counts, lost;
      assert written + [] == written;
    } else {
      var first, rest := steps[0], steps[1..];
      assert [first][1..] == [];
      var now, mid := StepAccounted(codec, box, first, written, counts, lost);
      counts', lost' := HistoryAccounted(codec, Next(codec, box, first), rest, written + Appended([first]), now, mid);
      assert (written + Appended([first])) + Appended(rest) == written + Appended(steps);
    }
  }

  predicate Fresh(box: Box) { box.pending == None && box.cursor == 0 && box.pushed == [] }

  lemma FreshAccounted(codec: Codec, box: Box)
    requires Fresh(box)
    ensures Accounted(codec, box, [], [], 0)
  {
  }

  /**
   At least once, in order. Over every interleaving of appends and flushes, with rate limits, push
   errors, lost cursor writes, breaker, budget and ledger failures anywhere, what Mem0 has accepted
   is what was appended before the pending rest, in order, each capsule at least once and repeats
   directly behind the first; besides, the first pending capsule may have been accepted. There is
   at most one repeat for each flush that can lose a cursor write.
   */
  lemma AtLeastOnce(codec: Codec, box: Box, steps: seq<Step>) returns (counts: seq<nat>)
    requires SameFormat(codec, steps) && Fresh(box)
    ensures var t := Play(codec, box, steps);
            var rest, written := Pending(t, codec.decode), Appended(steps);
            && |rest| <= |written| && written[|written| - |rest|..] == rest
            && Delivered(t.pushed, written, |written| - |rest|, counts)
            && |written| <= |t.pushed| + |rest| <= |written| + LossyFlushes(steps)
            && multiset(written[..|written| - |rest|]) <= multiset(t.pushed)
  {
    hide Play, Pending, Appended, Balanced, SameFormat, Fresh, LossyFlushes;
    FreshAccounted(codec, box);
    var lost;
    counts, lost := HistoryAccounted(codec, box, steps, [], [], 0);
    assert [] + Appended(steps) == Appended(steps);
    var t := Play(codec, box, steps);
    BalanceMeans(Pending(t, codec.decode), t.pushed, Appended(steps), counts, lost);
  }

  lemma BalanceMeans(rest: seq<OutboxCapsule>, pushed: seq<OutboxCapsule>, written: seq<OutboxCapsule>, counts: seq<nat>, lost: nat)
    requires Balanced(rest, pushed, written, counts, lost)
    ensures |rest| <= |written| && written[|written| - |rest|..] == rest
    ensures Delivered(pushed, written, |written| - |rest|, counts) && |pushed| + |rest| == |written| + lost
    ensures multiset(written[..|written| - |rest|]) <= multiset(pushed)
  {
    FlattenSize(written, counts);
    NoneMissing(written, counts, |written| - |rest|);
  }

  /**
   Exactly once, in order: without lost cursor writes, what Mem0 has accepted followed by what is
   pending is what was appended.
   */
  lemma ExactlyOnceInOrder(codec: Codec, box: Box, steps: seq<Step>)
    requires SameFormat(codec, steps) && NoLostSave(steps) && Fresh(box)
    ensures var t := Play(codec, box, steps);
            t.pushed + Pending(t, codec.decode) == Appended(steps)
  {
    hide Play, Remaining, Appended, Delivered, CursorSafe;
    var counts := AtLeastOnce(codec, box, steps);
    NoneLossy(steps);
    var t, written := Play(codec, box, steps), Appended(steps);
    var k := |written| - |Pending(t, codec.decode)|;
    AllOnce(t.pushed, written, k, counts);
    assert written == written[..k] + written[k..];
  }

  lemma {:induction false} NoneLossy(steps: seq<Step>)
    requires NoLostSave(steps)
    ensures LossyFlushes(steps) == 0
    decreases steps
  {
    hide CursorSafe;
    if steps != [] { NoneLossy(steps[1..]); }
  }

  lemma AllOnce(pushed: seq<OutboxCapsule>, written: seq<OutboxCapsule>, k: nat, counts: seq<nat>)
    requires Delivered(pushed, written, k, counts) && |pushed| == k
    ensures pushed == written[..k]
  {
    FlattenSize(written, counts);
    TotalBounds(counts, k);
    OnceEach(pushed, written, k, counts);
  }

  // ---------------------------------------------------------------- progress

  /** Nothing goes wrong: pushes are accepted, and cursor and ledger writes succeed. */
  ghost predicate Healthy(seams: Seams) {
    && seams.client.Some? && (forall k, c :: seams.client.value(k, c) == Pushed)
    && CursorSafe(seams) && (forall k :: seams.ledgerWorks(k))
  }

  /** The ledger after one more capsule. */
  function Charge(seams: Seams, spent: real): real {
    if seams.BudgetGateActive() then spent + seams.budget.value.costPerCapsule else spent
  }

  /** An active budget stops the flush after the push that brings the ledger here. */
  predicate Exhausted(seams: Seams, spent: real) {
    seams.BudgetGateActive() && spent >= seams.budget.value.Ceiling()
  }

  /** How many of n capsules move before the budget stops the flush. */
  function Moves(seams: Seams, spent: real, n: nat): (m: nat)
    ensures m <= n
    decreases n
  {
    if n == 0 then 0
    else if Exhausted(seams, Charge(seams, spent)) then 1
    else 1 + Moves(seams, Charge(seams, spent), n - 1)
  }

  /** The ledger after n capsules. */
  function LedgerAfter(seams: Seams, spent: real, n: nat): real
    decreases n
  {
    if n == 0 then spent else LedgerAfter(seams, Charge(seams, spent), n - 1)
  }

  lemma HealthyPush(seams: Seams, f: Flush, c: OutboxCapsule, start: nat, end: nat)
    requires Healthy(seams) && f.err.None?
    ensures var t := PushOne(seams, f, c, start, end);
            && t.report.flushed == f.report.flushed + 1 && t.box.spent == Charge(seams, f.box.spent)
            && t.err == if Exhausted(seams, t.box.spent) then Some(BudgetFrozen) else None
  {
  }

  lemma {:induction false} HealthyBatch(seams: Seams, s: string, at: nat, room: int, f: Flush)
    requires Healthy(seams) && seams.client.Some? && f.err.None? && room >= 0
    ensures var t := Batch(seams, s, at, room, f);
            var rest := Remaining(s, at, seams.decode);
            var n := if |rest| < room then |rest| else room;
            var m := Moves(seams, f.box.spent, n);
            && t.report.flushed == f.report.flushed + m
            && t.err == if m > 0 && Exhausted(seams, LedgerAfter(seams, f.box.spent, m)) then Some(BudgetFrozen) else None
    decreases |s| - at
  {
    hide ReadLine, PushOne, Exhausted, Charge, Healthy;
    if room > 0 && at < |s| {
      var end := LineEnd(s, at);
      var line := ReadLine(s[at..end], seams.decode);
      var g := OneLine(seams, line, at, end, f);
      if line.Holds? { HealthyPush(seams, f, line.capsule, at, end); }
      if g.err.None? { HealthyBatch(seams, s, end, if line.Holds? then room - 1 else room, g); }
    }
  }

  /**
   A healthy flush that passes the gates, whatever the breaker and the budget are, moves as many
   capsules as the batch has room for, or all that are pending, or as many as the budget allows.
   */
  lemma HealthyFlushProgress(seams: Seams, box: Box)
    requires Healthy(seams) && Gate(seams, box).1.None?
    ensures var t := FlushOf(seams, box);
            var rest := Pending(box, seams.decode);
            var m := Moves(seams, box.spent, if |rest| < seams.Limit() then |rest| else seams.Limit());
            && t.report.flushed == m
            && t.err == (if m > 0 && Exhausted(seams, LedgerAfter(seams, box.spent, m)) then Some(BudgetFrozen) else None)
            && t.box.pushed == box.pushed + rest[..m]
            && Pending(t.box, seams.decode) == rest[m..]
  {
    HealthyIsSafe(seams);
    hide Batch, Gate, Healthy, Remaining, Moves;
    GateKeeps(seams, box);
    var gated := Gate(seams, box).0;
    NothingWithout(seams, box);
    if box.pending.Some? {
      HealthyBatch(seams, Text(box), box.cursor, seams.Limit(), Flush(gated, NO_REPORT, None));
    }
    var done, lost := FlushDelivers(seams, box);
  }

  lemma HealthyIsSafe(seams: Seams)
    requires Healthy(seams)
    ensures CursorSafe(seams) && seams.client.Some?
  {
  }

  /** An absent file has nothing pending. */
  lemma NothingWithout(seams: Seams, box: Box)
    ensures box.pending.None? ==> Pending(box, seams.decode) == []
    ensures Moves(seams, box.spent, 0) == 0
  {
  }

  /** The gates are passed when the breaker grants the request and an active budget has room left. */
  lemma GatesPassed(seams: Seams, box: Box)
    requires Healthy(seams)
    ensures Gate(seams, box).1.None? <==>
            && (box.breaker.Some? ==> Allowed(box.breaker.value, seams.now).0)
            && (seams.BudgetGateActive() && seams.budget.value.Ceiling() > 0.0 ==> box.spent < seams.budget.value.Ceiling())
  {
    hide Allowed;
  }

  /** With room for n capsules under the ceiling, or without a budget, all n of them move. */
  lemma {:induction false} RoomMovesAll(seams: Seams, spent: real, n: nat)
    requires seams.BudgetGateActive() ==>
               seams.budget.value.costPerCapsule >= 0.0 &&
               spent + n as real * seams.budget.value.costPerCapsule < seams.budget.value.Ceiling()
    ensures Moves(seams, spent, n) == n && (n > 0 ==> !Exhausted(seams, LedgerAfter(seams, spent, n)))
    decreases n
  {
    if n > 0 {
      if seams.BudgetGateActive() { CostStep(n, seams.budget.value.costPerCapsule); }
      RoomMovesAll(seams, Charge(seams, spent), n - 1);
    }
  }

  lemma CostStep(n: nat, cost: real)
    requires n > 0 && cost >= 0.0
    ensures n as real * cost == cost + (n - 1) as real * cost && (n - 1) as real * cost >= 0.0
  {
    assert n as real == 1.0 + (n - 1) as real;
  }

  // ---------------------------------------------------------------- spending

  /** The ledger charges at most one capsule price per accepted capsule, and stops at the ceiling. */
  ghost predicate Charged(b: Budget, f: Flush, t: Flush) {
    && |f.box.pushed| <= |t.box.pushed|
    && f.box.spent <= t.box.spent <= f.box.spent + (|t.box.pushed| - |f.box.pushed|) as real * b.costPerCapsule
    && (f.box.spent < b.Ceiling() ==> t.box.spent < b.Ceiling() + b.costPerCapsule)
    && (f.box.spent < b.Ceiling() && t.err.None? ==> t.box.spent < b.Ceiling())
  }

  lemma PushCharges(seams: Seams, f: Flush, c: OutboxCapsule, start: nat, end: nat)
    requires seams.client.Some? && seams.budget.Some? && seams.budget.value.costPerCapsule >= 0.0
    requires f.err.None?
    ensures Charged(seams.budget.value, f, PushOne(seams, f, c, start, end))
  {
    var t := PushOne(seams, f, c, start, end);
    var n := |t.box.pushed| - |f.box.pushed|;
    assert n == 0 || n == 1;
    assert n as real * seams.budget.value.costPerCapsule == if n == 0 then 0.0 else seams.budget.value.costPerCapsule;
  }

  lemma ChargesTransitive(b: Budget, f: Flush, g: Flush, t: Flush)
    requires Charged(b, f, g) && Charged(b, g, t) && g.err.None?
    ensures Charged(b, f, t)
  {
    var m, n := (|g.box.pushed| - |f.box.pushed|) as real, (|t.box.pushed| - |g.box.pushed|) as real;
    assert (|t.box.pushed| - |f.box.pushed|) as real == m + n;
    assert (m + n) * b.costPerCapsule == m * b.costPerCapsule + n * b.costPerCapsule;
  }

  lemma {:induction false} BatchCharges(seams: Seams, s: string, at: nat, room: int, f: Flush)
    requires seams.client.Some? && seams.budget.Some? && seams.budget.value.costPerCapsule >= 0.0
    requires f.err.None?
    ensures Charged(seams.budget.value, f, Batch(seams, s, at, room, f))
    decreases |s| - at
  {
    if room > 0 && at < |s| {
      var end := LineEnd(s, at);
      var line := ReadLine(s[at..end], seams.decode);
      var g := OneLine(seams, line, at, end, f);
      if line.Holds? { PushCharges(seams, f, line.capsule, at, end); }
      if g.err.None? {
        var left := if line.Holds? then room - 1 else room;
        BatchCharges(seams, s, end, left, g);
        ChargesTransitive(seams.budget.value, f, g, Batch(seams, s, end, left, g));
      }
    }
  }

  /**
   Under an active budget with a positive ceiling a flush pushes nothing once the ceiling is
   reached, overshoots it by less than one capsule price, and never charges the ledger more than
   the capsules Mem0 accepted.
   */
  lemma BudgetHolds(seams: Seams, box: Box)
    requires seams.BudgetGateActive() && seams.budget.value.costPerCapsule >= 0.0 && seams.budget.value.Ceiling() > 0.0
    ensures var b := seams.budget.value;
            var t := FlushOf(seams, box);
            && (box.spent >= b.Ceiling() ==> t.box.pushed == box.pushed && t.box.spent == box.spent)
            && (box.spent < b.Ceiling() ==> t.box.spent < b.Ceiling() + b.costPerCapsule)
            && box.spent <= t.box.spent <= box.spent + t.report.flushed as real * b.costPerCapsule
  {
    hide Batch, Remaining;
    var b := seams.budget.value;
    var (gated, err) := Gate(seams, box);
    GateKeeps(seams, box);
    if seams.client.Some? && err.None? && gated.pending.Some? {
      var f := Flush(gated, NO_REPORT, None);
      BatchCharges(seams, Text(box), gated.cursor, seams.Limit(), f);
      var done, lost := BatchDelivers(seams, Text(box), gated.cursor, seams.Limit(), f);
    }
  }

  // ---------------------------------------------------------------- the stuck probe

  /** The breaker is half open with its only probe already given out. */
  predicate ProbeOut(box: Box) {
    box.breaker.Some? && box.breaker.value.state == HalfOpen && box.breaker.value.probeIssued
  }

  /** From then on no flush does anything, whatever the time and whatever is pending. */
  lemma {:induction false} StuckForever(codec: Codec, box: Box, steps: seq<Step>)
    requires ProbeOut(box)
    requires forall i :: 0 <= i < |steps| && steps[i].Drain? ==> steps[i].seams.client.Some?
    ensures var t := Play(codec, box, steps);
            t.pushed == box.pushed && t.cursor == box.cursor && ProbeOut(t)
    decreases steps
  {
    if steps != [] {
      match steps[0]
      case Append(c) => StuckForever(codec, AppendLine(box, codec.encode(c)), steps[1..]);
      case Drain(seams) =>
        assert FlushOf(seams, box) == Flush(box, NO_REPORT, Some(BreakerOpen));
        StuckForever(codec, FlushOf(seams, box).box, steps[1..]);
    }
  }

  /** What one push does to the breaker: a rate limit reopens it, a success closes it, nothing else touches it. */
  lemma PushAnswers(seams: Seams, f: Flush, c: OutboxCapsule, start: nat, end: nat)
    requires seams.client.Some? && f.box.breaker.Some?
    ensures var t := PushOne(seams, f, c, start, end);
            && t.box.breaker.Some?
            && (seams.client.value(f.box.pushes, c).PushError? ==> t.err.Some? && t.box.breaker == f.box.breaker)
            && (!seams.client.value(f.box.pushes, c).PushError? ==> t.box.breaker.value.state != HalfOpen)
  {
    hide Backoff;
  }

  lemma {:induction false} BatchAnswers(seams: Seams, s: string, at: nat, room: int, f: Flush)
    requires seams.client.Some? && f.err.None? && ProbeOut(f.box) && room > 0
    ensures var t := Batch(seams, s, at, room, f);
            var rest := Remaining(s, at, seams.decode);
            && (rest == [] ==> ProbeOut(t.box))
            && (rest != [] ==> (ProbeOut(t.box) <==> seams.client.value(f.box.pushes, rest[0]).PushError?))
    decreases |s| - at
  {
    hide ReadLine, PushOne;
    if at < |s| {
      var end := LineEnd(s, at);
      var line := ReadLine(s[at..end], seams.decode);
      var g := OneLine(seams, line, at, end, f);
      if line.Holds? {
        PushAnswers(seams, f, line.capsule, at, end);
        if g.err.None? { ClosedNeverProbes(seams, s, end, room - 1, g); }
      } else {
        BatchAnswers(seams, s, end, room, g);
      }
    }
  }

  lemma {:induction false} ClosedNeverProbes(seams: Seams, s: string, at: nat, room: int, f: Flush)
    requires seams.client.Some? && !ProbeOut(f.box)
    requires f.box.breaker.Some? && f.box.breaker.value.state != HalfOpen
    ensures !ProbeOut(Batch(seams, s, at, room, f).box)
    decreases |s| - at
  {
    hide ReadLine, PushOne;
    if room > 0 && at < |s| && f.err.None? {
      var end := LineEnd(s, at);
      var line := ReadLine(s[at..end], seams.decode);
      if line.Holds? { PushAnswers(seams, f, line.capsule, at, end); }
      ClosedNeverProbes(seams, s, end, if line.Holds? then room - 1 else room, OneLine(seams, line, at, end, f));
    }
  }

  /** The gate takes the probe of an open breaker whose hold has run out. */
  lemma GateProbes(seams: Seams, box: Box)
    requires box.breaker.Some? && box.breaker.value.state == Open && Allowed(box.breaker.value, seams.now).0
    ensures ProbeOut(Gate(seams, box).0) && Gate(seams, box).0.pushes == box.pushes
  {
  }

  /**
   Exactly when a flush that takes the probe leaves the breaker stuck: it records no outcome, which
   happens when the budget gate stops it, when no capsule is pending, or when the first push fails
   with anything but a rate limit. A rate limit reopens the breaker and a success closes it.
   */
  lemma ProbeStuckIff(seams: Seams, box: Box)
    requires seams.client.Some? && box.breaker.Some? && Consistent(box.breaker.value)
    requires box.breaker.value.state == Open && Allowed(box.breaker.value, seams.now).0
    ensures var rest := Pending(box, seams.decode);
            ProbeOut(FlushOf(seams, box).box) <==>
              || Gate(seams, box).1.Some?
              || rest == []
              || seams.client.value(box.pushes, rest[0]).PushError?
  {
    hide Batch, Remaining, Consistent;
    GateKeeps(seams, box);
    GateProbes(seams, box);
    NothingWithout(seams, box);
    var (gated, err) := Gate(seams, box);
    if err.None? && gated.pending.Some? {
      BatchAnswers(seams, Text(box), gated.cursor, seams.Limit(), Flush(gated, NO_REPORT, None));
    }
  }
}
