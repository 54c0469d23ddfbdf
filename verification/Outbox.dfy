/** The append-only outbox and its cursor-based flusher. */
module Outbox {
  import opened Wrappers
  import opened Capsules
  import opened GoStrings
  import opened Breakers

  // ---------------------------------------------------------------- reading the pending file

  /** Just past the newline that ends the line starting at `i`, or the end of the file. */
  function LineEnd(s: string, i: nat): (e: nat)
    requires i < |s|
    ensures i < e <= |s|
    decreases |s| - i
  {
    if s[i] == '\n' || i + 1 == |s| then i + 1 else LineEnd(s, i + 1)
  }

  datatype Line = Blank | Corrupt | Holds(capsule: OutboxCapsule)

  type Decoder = string -> Option<OutboxCapsule>

  function ReadLine(line: string, decode: Decoder): Line {
    var t := TrimSpace(line);
    if t == "" then Blank
    else
      match decode(t)
      case None => Corrupt
      case Some(c) => Holds(c)
  }

  /** The capsules the file holds from offset `i` on. */
  function Remaining(s: string, i: nat, decode: Decoder): seq<OutboxCapsule>
    decreases |s| - i
  {
    if i >= |s| then []
    else
      var e := LineEnd(s, i);
      var rest := Remaining(s, e, decode);
      match ReadLine(s[i..e], decode)
      case Holds(c) => [c] + rest
      case _ => rest
  }

  // ---------------------------------------------------------------- flushing

  datatype PushResult = Pushed | RateLimited(retryAfter: int) | PushError(message: string)

  datatype Budget = Budget(usdMax: real, freezeRatio: real, costPerCapsule: real) {
    function Ceiling(): real { if usdMax <= 0.0 then 0.0 else usdMax * freezeRatio }

    /** The pre-batch test for `batch` more capsules. */
    predicate ShouldFreeze(spent: real, batch: int) {
      var n := if batch < 0 then 0 else batch;
      usdMax > 0.0 && usdMax * freezeRatio > 0.0 && spent + n as real * costPerCapsule >= usdMax * freezeRatio
    }
  }

  /**
   What the flusher is handed. The k-th push, the k-th cursor write and the k-th ledger operation
   may each go differently.
   */
  datatype Seams = Seams(
    decode: Decoder,
    client: Option<(nat, OutboxCapsule) -> PushResult>,
    cursorSaved: nat -> bool,
    ledgerWorks: nat -> bool,
    now: nat -> int,
    batchSize: int,
    budget: Option<Budget>,
    hasLedger: bool) {

    predicate BudgetGateActive() { budget.Some? && hasLedger && budget.value.usdMax > 0.0 }

    function Limit(): int { if batchSize <= 0 then 100 else batchSize }
  }

  /** Everything that outlives a flush: the files, what Mem0 has accepted, and the breaker. */
  datatype Box = Box(
    pending: Option<string>,
    cursor: nat,
    pushed: seq<OutboxCapsule>,
    spent: real,
    breaker: Option<Breaker>,
    pushes: nat,
    saves: nat,
    ledgerOps: nat)

  datatype FlushError =
    | NoClient | BreakerOpen | LedgerError | BudgetFrozen | CursorError | RateLimitedError | PushFailed(message: string)

  datatype Report = Report(flushed: nat, skipped: nat, retryAfter: int)

  datatype Flush = Flush(box: Box, report: Report, err: Option<FlushError>)

  function Told(breaker: Option<Breaker>, e: Event, now: nat -> int): Option<Breaker> {
    if breaker.Some? then Some(After(breaker.value, e, now)) else None
  }

  function SaveCursor(seams: Seams, box: Box, offset: nat): (bool, Box) {
    var ok := seams.cursorSaved(box.saves);
    (ok, box.(saves := box.saves + 1, cursor := if ok then offset else box.cursor))
  }

  /** The ledger entry for one accepted capsule under an active budget. */
  function Bill(seams: Seams, box: Box): (Option<FlushError>, Box) {
    if !seams.BudgetGateActive() then (None, box)
    else
      var counted := box.(ledgerOps := box.ledgerOps + 1);
      if !seams.ledgerWorks(box.ledgerOps) then (Some(LedgerError), counted)
      else
        var spent := box.spent + seams.budget.value.costPerCapsule;
        (if spent >= seams.budget.value.Ceiling() then Some(BudgetFrozen) else None, counted.(spent := spent))
  }

  /** Pushing one capsule that ends at offset `end` and starts at `start`. */
  function PushOne(seams: Seams, f: Flush, c: OutboxCapsule, start: nat, end: nat): Flush
    requires seams.client.Some?
  {
    var box := f.box.(pushes := f.box.pushes + 1);
    match seams.client.value(f.box.pushes, c)
    case RateLimited(after) =>
      var (ok, saved) := SaveCursor(seams, box.(breaker := Told(box.breaker, FailureEvent, seams.now)), start);
      if ok then Flush(saved, f.report.(retryAfter := after), Some(RateLimitedError))
      else Flush(saved, f.report, Some(CursorError))
    case PushError(message) => Flush(box, f.report, Some(PushFailed(message)))
    case Pushed =>
      var accepted := box.(pushed := box.pushed + [c], breaker := Told(box.breaker, SuccessEvent, seams.now));
      var report := f.report.(flushed := f.report.flushed + 1);
      var (ok, saved) := SaveCursor(seams, accepted, end);
      if !ok then Flush(saved, report, Some(CursorError))
      else
        var (err, billed) := Bill(seams, saved);
        Flush(billed, report, err)
  }

  /** What one line between two offsets does to a flush. */
  function OneLine(seams: Seams, line: Line, start: nat, end: nat, f: Flush): Flush
    requires seams.client.Some?
  {
    match line
    case Blank => f
    case Corrupt => f.(report := f.report.(skipped := f.report.skipped + 1))
    case Holds(c) => PushOne(seams, f, c, start, end)
  }

  /** The batch loop from offset `at`, with room for `room` more capsules. */
  function Batch(seams: Seams, s: string, at: nat, room: int, f: Flush): Flush
    requires seams.client.Some?
    decreases |s| - at
  {
    if room <= 0 || at >= |s| || f.err.Some? then f
    else
      var end := LineEnd(s, at);
      var line := ReadLine(s[at..end], seams.decode);
      Batch(seams, s, end, if line.Holds? then room - 1 else room, OneLine(seams, line, at, end, f))
  }

  const NO_REPORT := Report(0, 0, 0)

  /** The gates in front of the batch: breaker, then budget. */
  function Gate(seams: Seams, box: Box): (Box, Option<FlushError>) {
    var (allowed, asked) :=
      if box.breaker.None? then (true, box)
      else
        var (ok, b) := Allowed(box.breaker.value, seams.now);
        (ok, box.(breaker := Some(b)));
    if !allowed then (asked, Some(BreakerOpen))
    else if !seams.BudgetGateActive() then (asked, None)
    else
      var read := asked.(ledgerOps := asked.ledgerOps + 1);
      if !seams.ledgerWorks(asked.ledgerOps) then (read, Some(LedgerError))
      else if seams.budget.value.ShouldFreeze(asked.spent, 0) then (read, Some(BudgetFrozen))
      else (read, None)
  }

  function FlushOf(seams: Seams, box: Box): Flush {
    if seams.client.None? then Flush(box, NO_REPORT, Some(NoClient))
    else
      var (gated, err) := Gate(seams, box);
      if err.Some? || gated.pending.None? then Flush(gated, NO_REPORT, err)
      else Batch(seams, gated.pending.value, gated.cursor, seams.Limit(), Flush(gated, NO_REPORT, None))
  }

  /** Appending one encoded line. */
  function AppendLine(box: Box, line: string): Box {
    box.(pending := Some((if box.pending.Some? then box.pending.value else "") + line + "\n"))
  }

  // ---------------------------------------------------------------- the object

  class Flusher {
    const seams: Seams
    const breaker: CircuitBreaker?
    var pending: Option<string>
    var cursor: nat
    ghost var pushed: seq<OutboxCapsule>
    var spent: real
    var pushes: nat
    var saves: nat
    var ledgerOps: nat

    constructor (seams: Seams, breaker: CircuitBreaker?, pending: Option<string>, cursor: nat, spent: real)
      ensures this.seams == seams && this.breaker == breaker
      ensures Value() == Box(pending, cursor, [], spent, if breaker == null then None else Some(breaker.Value()), 0, 0, 0)
    {
      this.seams, this.breaker := seams, breaker;
      this.pending, this.cursor, this.pushed, this.spent := pending, cursor, [], spent;
      pushes, saves, ledgerOps := 0, 0, 0;
    }

    ghost function Value(): Box
      reads this, breaker
    {
      Box(pending, cursor, pushed, spent, if breaker == null then None else Some(breaker.Value()), pushes, saves, ledgerOps)
    }

    ghost predicate Valid()
      reads breaker
    {
      breaker != null ==> breaker.now == seams.now && ValidConfig(breaker.cfg)
    }

    method Append(line: string)
      modifies this
      ensures Value() == AppendLine(old(Value()), line)
    {
      var before := if pending.Some? then pending.value else "";
      pending := Some(before + line + "\n");
    }

    method WriteCursor(offset: nat) returns (ok: bool)
      modifies this
      ensures (ok, Value()) == SaveCursor(seams, old(Value()), offset)
    {
      ok := seams.cursorSaved(saves);
      saves := saves + 1;
      if ok { cursor := offset; }
    }

    /** One push with its bookkeeping: breaker, cursor, ledger. */
    method PushCapsule(c: OutboxCapsule, start: nat, end: nat, given: Report) returns (report: Report, err: Option<FlushError>)
      requires Valid() && seams.client.Some?
      modifies this, breaker
      ensures Flush(Value(), report, err) == PushOne(seams, Flush(old(Value()), given, None), c, start, end)
      ensures pending == old(pending)
    {
      hide Failed, Succeeded, Bill;
      report, err := given, None;
      var result := seams.client.value(pushes, c);
      pushes := pushes + 1;
      match result
      case RateLimited(after) =>
        if breaker != null { breaker.RecordFailure(); }
        var ok := WriteCursor(start);
        if !ok { return report, Some(CursorError); }
        return report.(retryAfter := after), Some(RateLimitedError);
      case PushError(message) =>
        return report, Some(PushFailed(message));
      case Pushed =>
        if breaker != null { breaker.RecordSuccess(); }
        pushed := pushed + [c];
        report := report.(flushed := report.flushed + 1);
        var ok := WriteCursor(end);
        if !ok { return report, Some(CursorError); }
        err := BillOne();
    }

    method BillOne() returns (err: Option<FlushError>)
      requires Valid()
      modifies this`ledgerOps, this`spent
      ensures (err, Value()) == Bill(seams, old(Value()))
    {
      err := None;
      if seams.BudgetGateActive() {
        var works := seams.ledgerWorks(ledgerOps);
        ledgerOps := ledgerOps + 1;
        if !works { return Some(LedgerError); }
        spent := spent + seams.budget.value.costPerCapsule;
        if spent >= seams.budget.value.Ceiling() { return Some(BudgetFrozen); }
      }
    }

    /** Breaker first, then budget. */
    method PassGates() returns (err: Option<FlushError>)
      requires Valid()
      modifies this, breaker
      ensures (Value(), err) == Gate(seams, old(Value()))
    {
      if breaker != null {
        var allowed := breaker.Allow();
        if !allowed { return Some(BreakerOpen); }
      }
      if seams.BudgetGateActive() {
        var works := seams.ledgerWorks(ledgerOps);
        ledgerOps := ledgerOps + 1;
        if !works { return Some(LedgerError); }
        if seams.budget.value.ShouldFreeze(spent, 0) { return Some(BudgetFrozen); }
      }
      err := None;
    }

    method ProcessLine(line: Line, start: nat, end: nat, given: Report) returns (report: Report, err: Option<FlushError>)
      requires Valid() && seams.client.Some?
      modifies this, breaker
      ensures Flush(Value(), report, err) == OneLine(seams, line, start, end, Flush(old(Value()), given, None))
    {
      report, err := given, None;
      match line
      case Blank =>
      case Corrupt => report := given.(skipped := given.skipped + 1);
      case Holds(c) => report, err := PushCapsule(c, start, end, given);
    }

    method RunBatch(s: string, limit: int) returns (report: Report, err: Option<FlushError>)
      requires Valid() && seams.client.Some?
      modifies this, breaker
      ensures Flush(Value(), report, err) ==
              Batch(seams, s, old(cursor), limit, Flush(old(Value()), NO_REPORT, None))
    {
      report, err := NO_REPORT, None;
      var offset, room := cursor, limit;
      ghost var final := Batch(seams, s, cursor, limit, Flush(Value(), NO_REPORT, None));
      while room > 0 && offset < |s|
        invariant err.None?
        invariant Batch(seams, s, offset, room, Flush(Value(), report, err)) == final
        decreases |s| - offset
      {
        var end := LineEnd(s, offset);
        var line := ReadLine(s[offset..end], seams.decode);
        report, err := ProcessLine(line, offset, end, report);
        if err.Some? { return; }
        room := if line.Holds? then room - 1 else room;
        offset := end;
      }
    }

    method FlushOnce() returns (report: Report, err: Option<FlushError>)
      requires Valid()
      modifies this, breaker
      ensures Flush(Value(), report, err) == FlushOf(seams, old(Value()))
    {
      report := NO_REPORT;
      if seams.client.None? { return report, Some(NoClient); }
      err := PassGates();
      if err.Some? || pending.None? { return; }
      report, err := RunBatch(pending.value, seams.Limit());
    }
  }
}
