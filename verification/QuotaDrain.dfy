/** The drainer that copies the outbox to a managed and an OSS backend. */
module QuotaDrain {
  import opened Wrappers
  import opened Capsules
  import opened Outbox

  type Pusher = (nat, OutboxCapsule) -> Option<string>

  /** The k-th push to a backend and the k-th cursor write may each go differently. */
  datatype Backends = Backends(
    decode: Decoder,
    managed: Option<Pusher>,
    oss: Option<Pusher>,
    cursorSaved: nat -> bool,
    batchSize: int) {

    function Limit(): int { if batchSize > 0 then batchSize else 100 }
  }

  /** The pending file, the drainer's own cursor, and what each backend has accepted. */
  datatype Store = Store(
    pending: Option<string>,
    cursor: nat,
    managed: seq<OutboxCapsule>,
    oss: seq<OutboxCapsule>,
    managedCalls: nat,
    ossCalls: nat,
    saves: nat)

  datatype DrainError = PusherMissing | ManagedFailed(message: string) | OssFailed(message: string) | CursorLost

  datatype Drained = Drained(store: Store, drained: nat, skipped: nat, err: Option<DrainError>)

  function FileOf(st: Store): string { if st.pending.Some? then st.pending.value else "" }

  /** Managed first, then OSS, then the cursor. */
  function PushBoth(b: Backends, d: Drained, c: OutboxCapsule, end: nat): Drained
    requires b.managed.Some? && b.oss.Some?
  {
    var st := d.store.(managedCalls := d.store.managedCalls + 1);
    match b.managed.value(d.store.managedCalls, c)
    case Some(e) => d.(store := st, err := Some(ManagedFailed(e)))
    case None =>
      var st := st.(managed := st.managed + [c], ossCalls := st.ossCalls + 1);
      match b.oss.value(d.store.ossCalls, c)
      case Some(e) => d.(store := st, err := Some(OssFailed(e)))
      case None =>
        var st := st.(oss := st.oss + [c], saves := st.saves + 1);
        if b.cursorSaved(d.store.saves)
        then d.(store := st.(cursor := end), drained := d.drained + 1)
        else d.(store := st, drained := d.drained + 1, err := Some(CursorLost))
  }

  function DrainLine(b: Backends, line: Line, end: nat, d: Drained): Drained
    requires b.managed.Some? && b.oss.Some?
  {
    match line
    case Blank => d
    case Corrupt => d.(skipped := d.skipped + 1)
    case Holds(c) => PushBoth(b, d, c, end)
  }

  function DrainBatch(b: Backends, s: string, at: nat, room: int, d: Drained): Drained
    requires b.managed.Some? && b.oss.Some?
    decreases |s| - at
  {
    if room <= 0 || at >= |s| || d.err.Some? then d
    else
      var end := LineEnd(s, at);
      var line := ReadLine(s[at..end], b.decode);
      DrainBatch(b, s, end, if line.Holds? then room - 1 else room, DrainLine(b, line, end, d))
  }

  function DrainOf(b: Backends, st: Store): Drained {
    if b.managed.None? || b.oss.None? then Drained(st, 0, 0, Some(PusherMissing))
    else if st.pending.None? then Drained(st, 0, 0, None)
    else DrainBatch(b, st.pending.value, st.cursor, b.Limit(), Drained(st, 0, 0, None))
  }

  function Corrupts(s: string, i: nat, decode: Decoder): nat
    decreases |s| - i
  {
    if i >= |s| then 0
    else
      var e := LineEnd(s, i);
      (if ReadLine(s[i..e], decode).Corrupt? then 1 else 0) + Corrupts(s, e, decode)
  }

  class QuotaDrainer {
    const backends: Backends
    var pending: Option<string>
    var cursor: nat
    ghost var managed: seq<OutboxCapsule>
    ghost var oss: seq<OutboxCapsule>
    var managedCalls: nat
    var ossCalls: nat
    var saves: nat

    constructor (backends: Backends, pending: Option<string>, cursor: nat)
      ensures this.backends == backends && Value() == Store(pending, cursor, [], [], 0, 0, 0)
    {
      this.backends, this.pending, this.cursor := backends, pending, cursor;
      managed, oss, managedCalls, ossCalls, saves := [], [], 0, 0, 0;
    }

    ghost function Value(): Store
      reads this
    {
      Store(pending, cursor, managed, oss, managedCalls, ossCalls, saves)
    }

    method PushCapsule(c: OutboxCapsule, end: nat, given: nat, ghost skipped: nat) returns (drained: nat, err: Option<DrainError>)
      requires backends.managed.Some? && backends.oss.Some?
      modifies this
      ensures Drained(Value(), drained, skipped, err) == PushBoth(backends, Drained(old(Value()), given, skipped, None), c, end)
    {
      drained := given;
      var e := backends.managed.value(managedCalls, c);
      managedCalls := managedCalls + 1;
      if e.Some? { return drained, Some(ManagedFailed(e.value)); }
      managed := managed + [c];
      e := backends.oss.value(ossCalls, c);
      ossCalls := ossCalls + 1;
      if e.Some? { return drained, Some(OssFailed(e.value)); }
      oss := oss + [c];
      drained := drained + 1;
      var saved := backends.cursorSaved(saves);
      saves := saves + 1;
      if !saved { return drained, Some(CursorLost); }
      cursor := end;
      err := None;
    }

    method Drain() returns (drained: nat, skipped: nat, err: Option<DrainError>)
      modifies this
      ensures Drained(Value(), drained, skipped, err) == DrainOf(backends, old(Value()))
    {
      hide ReadLine, PushBoth;
      ghost var final := DrainOf(backends, Value());
      drained, skipped, err := 0, 0, None;
      if backends.managed.None? || backends.oss.None? { return 0, 0, Some(PusherMissing); }
      if pending.None? { return; }
      var s := pending.value;
      var offset, room := cursor, backends.Limit();
      while room > 0 && offset < |s|
        invariant err.None?
        invariant DrainBatch(backends, s, offset, room, Drained(Value(), drained, skipped, err)) == final
        decreases |s| - offset
      {
        var end := LineEnd(s, offset);
        var line := ReadLine(s[offset..end], backends.decode);
        if line.Corrupt? {
          skipped := skipped + 1;
        } else if line.Holds? {
          drained, err := PushCapsule(line.capsule, end, drained, skipped);
          if err.Some? { return; }
          room := room - 1;
        }
        offset := end;
      }
    }

    /** Counts what is pending without calling a backend; unlike Drain it is not limited to a batch. */
    method DryRun() returns (count: nat, skipped: nat)
      ensures count == |Remaining(FileOf(Value()), cursor, backends.decode)|
      ensures skipped == Corrupts(FileOf(Value()), cursor, backends.decode)
    {
      count, skipped := 0, 0;
      if pending.None? { return; }
      var s := pending.value;
      var offset := cursor;
      while offset < |s|
        invariant count + |Remaining(s, offset, backends.decode)| == |Remaining(s, cursor, backends.decode)|
        invariant skipped + Corrupts(s, offset, backends.decode) == Corrupts(s, cursor, backends.decode)
        decreases |s| - offset
      {
        var end := LineEnd(s, offset);
        var line := ReadLine(s[offset..end], backends.decode);
        if line.Corrupt? { skipped := skipped + 1; }
        if line.Holds? { count := count + 1; }
        offset := end;
      }
    }
  }
}
