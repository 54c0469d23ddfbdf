/** The provenance sync against a modelled Mem0 account. */
module ParitySync {
  import opened Wrappers
  import opened Parity

  datatype Record = Record(memory: string, metadata: Option<Metadata>)

  /** The service: whether it accepts the k-th call, and the unused ID it gives a new record. */
  datatype Service = Service(accepts: nat -> bool, newID: (nat, set<string>) -> string) {
    ghost predicate Fresh() { forall k, ids :: newID(k, ids) !in ids }
  }

  /** Constant texts of the written provenance, and the host the sync runs on. */
  datatype Site = Site(machine: string, project: string, version: string)

  datatype Account = Account(records: map<string, Record>, calls: nat)

  datatype SyncError = UpdateFailed(id: string) | AddFailed(sourceID: string)

  datatype Sync = Sync(account: Account, updated: nat, added: nat, err: Option<SyncError>)

  function ProvenanceMetadata(site: Site, e: Entry): Metadata {
    map[
      SourcePath := Str(NormalisePath(e.sourcePath)),
      SourceID := Str(e.sourceID),
      KindField := Str(e.kind),
      Project := Str(site.project),
      MachineField := Str(site.machine),
      Confidence := Printed("1"),
      ProvenanceVersion := Str(site.version),
      Fingerprint := Str(e.fingerprint)]
  }

  function MergeMetadata(existing: Option<Metadata>, overlay: Metadata): Metadata {
    (if existing.Some? then existing.value else map[]) + overlay
  }

  function RenderManifestMemory(e: Entry): string {
    if e.kind == "pattern" || e.snippet == "" then e.title else e.title + "\n\n" + e.snippet
  }

  function ByID(remote: seq<Remote>): map<string, Remote> {
    if remote == [] then map[] else ByID(remote[..|remote| - 1])[remote[|remote| - 1].id := remote[|remote| - 1]]
  }

  /** A PUT replaces text and metadata of an existing record; any other ID is refused. */
  function Put(svc: Service, a: Account, id: string, r: Record): (bool, Account) {
    var ok := svc.accepts(a.calls) && id in a.records;
    (ok, Account(if ok then a.records[id := r] else a.records, a.calls + 1))
  }

  function Post(svc: Service, a: Account, r: Record): (bool, Account) {
    var ok := svc.accepts(a.calls);
    (ok, Account(if ok then a.records[svc.newID(a.calls, a.records.Keys) := r] else a.records, a.calls + 1))
  }

  function UpdateStep(svc: Service, site: Site, byID: map<string, Remote>, m: Match, dry: bool, s: Sync): Sync {
    if m.note !in byID then s
    else if dry then s.(updated := s.updated + 1)
    else
      var item := byID[m.note];
      var (ok, a) := Put(svc, s.account, item.id, Record(item.memory, Some(MergeMetadata(item.metadata, ProvenanceMetadata(site, m.entry)))));
      if ok then s.(account := a, updated := s.updated + 1) else s.(account := a, err := Some(UpdateFailed(item.id)))
  }

  function UpdatePass(svc: Service, site: Site, byID: map<string, Remote>, ms: seq<Match>, dry: bool, s: Sync): Sync {
    if ms == [] || s.err.Some? then s
    else UpdatePass(svc, site, byID, ms[1..], dry, UpdateStep(svc, site, byID, ms[0], dry, s))
  }

  function AddStep(svc: Service, site: Site, e: Entry, dry: bool, s: Sync): Sync {
    if dry then s.(added := s.added + 1)
    else
      var (ok, a) := Post(svc, s.account, Record(RenderManifestMemory(e), Some(ProvenanceMetadata(site, e))));
      if ok then s.(account := a, added := s.added + 1) else s.(account := a, err := Some(AddFailed(e.sourceID)))
  }

  function AddPass(svc: Service, site: Site, es: seq<Entry>, dry: bool, s: Sync): Sync {
    if es == [] || s.err.Some? then s
    else AddPass(svc, site, es[1..], dry, AddStep(svc, site, es[0], dry, s))
  }

  function SyncOf(svc: Service, site: Site, report: Report, remote: seq<Remote>, dry: bool, a: Account): Sync {
    AddPass(svc, site, report.missing, dry,
            UpdatePass(svc, site, ByID(remote), report.content, dry, Sync(a, 0, 0, None)))
  }

  class Mem0Client {
    const svc: Service
    const site: Site
    var records: map<string, Record>
    var calls: nat

    constructor (svc: Service, site: Site, records: map<string, Record>)
      ensures this.svc == svc && this.site == site && Value() == Account(records, 0)
    {
      this.svc, this.site, this.records, calls := svc, site, records, 0;
    }

    ghost function Value(): Account
      reads this
    {
      Account(records, calls)
    }

    method UpdateMemory(id: string, r: Record) returns (ok: bool)
      modifies this
      ensures (ok, Value()) == Put(svc, old(Value()), id, r)
    {
      ok := svc.accepts(calls) && id in records;
      calls := calls + 1;
      if ok { records := records[id := r]; }
    }

    method AddMemory(r: Record) returns (ok: bool)
      modifies this
      ensures (ok, Value()) == Post(svc, old(Value()), r)
    {
      ok := svc.accepts(calls);
      if ok { records := records[svc.newID(calls, records.Keys) := r]; }
      calls := calls + 1;
    }

    /** On an error the counts say what was done before it; the code reports 0 added for a failed update. */
    method SyncParity(report: Report, remote: seq<Remote>, dryRun: bool) returns (updated: nat, added: nat, err: Option<SyncError>)
      modifies this
      ensures Sync(Value(), updated, added, err) == SyncOf(svc, site, report, remote, dryRun, old(Value()))
    {
      hide ProvenanceMetadata, MergeMetadata, RenderManifestMemory;
      ghost var a0 := Value();
      var byID: map<string, Remote> := map[];
      for i := 0 to |remote|
        invariant byID == ByID(remote[..i]) && Value() == a0
      {
        assert remote[..i + 1][..i] == remote[..i];
        byID := byID[remote[i].id := remote[i]];
      }
      assert remote[..|remote|] == remote;
      updated, added, err := 0, 0, None;
      ghost var mid := UpdatePass(svc, site, byID, report.content, dryRun, Sync(a0, 0, 0, None));
      for i := 0 to |report.content|
        invariant err.None? && added == 0
        invariant UpdatePass(svc, site, byID, report.content[i..], dryRun, Sync(Value(), updated, added, err)) == mid
      {
        var m := report.content[i];
        assert report.content[i..][1..] == report.content[i + 1..];
        if m.note !in byID { continue; }
        var item := byID[m.note];
        var metadata := MergeMetadata(item.metadata, ProvenanceMetadata(site, m.entry));
        if dryRun { updated := updated + 1; continue; }
        var ok := UpdateMemory(item.id, Record(item.memory, Some(metadata)));
        if !ok { return updated, 0, Some(UpdateFailed(item.id)); }
        updated := updated + 1;
      }
      for i := 0 to |report.missing|
        invariant err.None?
        invariant AddPass(svc, site, report.missing[i..], dryRun, Sync(Value(), updated, added, err)) ==
                  SyncOf(svc, site, report, remote, dryRun, a0)
      {
        var e := report.missing[i];
        assert report.missing[i..][1..] == report.missing[i + 1..];
        if dryRun { added := added + 1; continue; }
        var ok := AddMemory(Record(RenderManifestMemory(e), Some(ProvenanceMetadata(site, e))));
        if !ok { return updated, added, Some(AddFailed(e.sourceID)); }
        added := added + 1;
      }
    }
  }
}
