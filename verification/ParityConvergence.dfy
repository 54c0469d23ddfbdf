/** When one sync is enough: audit, sync, audit. */
module ParityConvergence {
  import opened Wrappers
  import opened Parity
  import opened ParitySync
  import opened ParityTheorems

  // ---------------------------------------------------------------- listings of the account

  /** `listing` shows every record of the account once, in some order. */
  ghost predicate Lists(listing: seq<Remote>, records: map<string, Record>) {
    && (forall i, j :: 0 <= i < j < |listing| ==> listing[i].id != listing[j].id)
    && (forall i :: 0 <= i < |listing| ==>
          listing[i].id in records && records[listing[i].id] == Record(listing[i].memory, listing[i].metadata))
    && (forall id :: id in records ==> exists i :: 0 <= i < |listing| && listing[i].id == id)
  }

  /** Some record of the account carries the key. */
  predicate Held(records: map<string, Record>, key: string) {
    exists id :: id in records && Carries(records[id].metadata, key)
  }

  lemma PresentIffHeld(listing: seq<Remote>, records: map<string, Record>, key: string)
    requires Lists(listing, records)
    ensures Present(listing, key) <==> Held(records, key)
  {
    hide Carries;
    if i :| 0 <= i < |listing| && Carries(listing[i].metadata, key) {
      assert listing[i].id in records;
    }
    if id :| id in records && Carries(records[id].metadata, key) {
      var i :| 0 <= i < |listing| && listing[i].id == id;
    }
  }

  lemma {:induction false} ByIDMeaning(remote: seq<Remote>)
    ensures forall id :: id in ByID(remote) ==> ByID(remote)[id].id == id && ByID(remote)[id] in remote
    ensures forall i :: 0 <= i < |remote| ==> remote[i].id in ByID(remote)
  {
    if remote != [] { ByIDMeaning(remote[..|remote| - 1]); }
  }

  // ---------------------------------------------------------------- the two passes

  function Patched(site: Site, byID: map<string, Remote>, m: Match): Record
    requires m.note in byID
  {
    Record(byID[m.note].memory, Some(MergeMetadata(byID[m.note].metadata, ProvenanceMetadata(site, m.entry))))
  }

  function NewRecord(site: Site, e: Entry): Record {
    Record(RenderManifestMemory(e), Some(ProvenanceMetadata(site, e)))
  }

  /** Every match names a known memory, and no two matches name the same. */
  predicate Resolvable(byID: map<string, Remote>, ms: seq<Match>) {
    && (forall i :: 0 <= i < |ms| ==> ms[i].note in byID && byID[ms[i].note].id == ms[i].note)
    && (forall i, j :: 0 <= i < j < |ms| ==> ms[i].note != ms[j].note)
  }

  predicate Named(ms: seq<Match>, id: string) { exists i :: 0 <= i < |ms| && ms[i].note == id }

  lemma {:induction false} UpdatePassEffect(svc: Service, site: Site, byID: map<string, Remote>, ms: seq<Match>, s: Sync)
    requires s.err.None? && Resolvable(byID, ms)
    ensures var t := UpdatePass(svc, site, byID, ms, false, s);
            t.err.None? ==>
              && t.updated == s.updated + |ms| && t.added == s.added
              && t.account.records.Keys == s.account.records.Keys
              && (forall id :: id in s.account.records && !Named(ms, id) ==> t.account.records[id] == s.account.records[id])
              && (forall i :: 0 <= i < |ms| ==> ms[i].note in t.account.records && t.account.records[ms[i].note] == Patched(site, byID, ms[i]))
    decreases ms
  {
    hide MergeMetadata, ProvenanceMetadata;
    if ms != [] {
      var u := UpdateStep(svc, site, byID, ms[0], false, s);
      if u.err.None? {
        var rest := ms[1..];
        assert forall i :: 0 <= i < |rest| ==> rest[i] == ms[i + 1];
        UpdatePassEffect(svc, site, byID, rest, u);
        assert !Named(rest, ms[0].note);
        assert forall id :: !Named(ms, id) ==> !Named(rest, id) && id != ms[0].note;
      } else {
        assert UpdatePass(svc, site, byID, ms[1..], false, u) == u;
      }
    }
  }

  predicate HasRecord(records: map<string, Record>, r: Record) {
    exists id :: id in records && records[id] == r
  }

  /** Everything in `before` is still there. */
  predicate Extends(before: map<string, Record>, after: map<string, Record>) {
    forall id :: id in before ==> id in after && after[id] == before[id]
  }

  /** Whatever is not in `before` was added for one of the entries. */
  predicate OnlyAdded(site: Site, es: seq<Entry>, before: map<string, Record>, after: map<string, Record>) {
    forall id :: id in after && id !in before ==> exists i :: 0 <= i < |es| && after[id] == NewRecord(site, es[i])
  }

  predicate AllAdded(site: Site, es: seq<Entry>, after: map<string, Record>) {
    forall i :: 0 <= i < |es| ==> HasRecord(after, NewRecord(site, es[i]))
  }

  lemma AddStepEffect(svc: Service, site: Site, e: Entry, s: Sync) returns (id: string)
    requires s.err.None? && svc.Fresh()
    ensures var u := AddStep(svc, site, e, false, s);
            u.err.None? ==>
              && u.added == s.added + 1 && u.updated == s.updated
              && id !in s.account.records && u.account.records == s.account.records[id := NewRecord(site, e)]
  {
    hide ProvenanceMetadata, RenderManifestMemory;
    id := svc.newID(s.account.calls, s.account.records.Keys);
  }

  lemma OneMoreAdded(site: Site, es: seq<Entry>, id: string, before: map<string, Record>, after: map<string, Record>)
    requires es != [] && id !in before
    requires var mid := before[id := NewRecord(site, es[0])];
             Extends(mid, after) && AllAdded(site, es[1..], after) && OnlyAdded(site, es[1..], mid, after)
    ensures Extends(before, after) && AllAdded(site, es, after) && OnlyAdded(site, es, before, after)
  {
    hide NewRecord;
    assert after[id] == NewRecord(site, es[0]);
    forall i | 0 <= i < |es| ensures HasRecord(after, NewRecord(site, es[i])) {
      if i > 0 { assert es[1..][i - 1] == es[i]; }
    }
    forall x | x in after && x !in before ensures exists i :: 0 <= i < |es| && after[x] == NewRecord(site, es[i]) {
      if x != id {
        var i :| 0 <= i < |es[1..]| && after[x] == NewRecord(site, es[1..][i]);
        assert es[1..][i] == es[i + 1];
      }
    }
  }

  lemma {:induction false} AddPassEffect(svc: Service, site: Site, es: seq<Entry>, s: Sync)
    requires s.err.None? && svc.Fresh()
    ensures var t := AddPass(svc, site, es, false, s);
            t.err.None? ==>
              && t.added == s.added + |es| && t.updated == s.updated
              && Extends(s.account.records, t.account.records)
              && AllAdded(site, es, t.account.records)
              && OnlyAdded(site, es, s.account.records, t.account.records)
    decreases es
  {
    hide NewRecord, AddStep;
    if es != [] {
      var u := AddStep(svc, site, es[0], false, s);
      var id := AddStepEffect(svc, site, es[0], s);
      if u.err.None? {
        AddPassEffect(svc, site, es[1..], u);
        var t := AddPass(svc, site, es[1..], false, u);
        if t.err.None? { OneMoreAdded(site, es, id, s.account.records, t.account.records); }
      } else {
        assert AddPass(svc, site, es[1..], false, u) == u;
      }
    }
  }

  // ---------------------------------------------------------------- the report against the account

  lemma ContentsResolvable(lower: string -> string, manifest: seq<Entry>, remote: seq<Remote>)
    ensures Resolvable(ByID(remote), ReportOf(lower, manifest, remote).content)
  {
    hide Judge, Similar, Used, Audit, Positions, Contents, Exacts, Missings;
    var vs := Audit(lower, manifest, remote);
    var cs, ms := Positions(vs, IsContent()), Contents(manifest, vs);
    OrderedPartition(manifest, vs);
    ByIDMeaning(remote);
    forall i | 0 <= i < |ms| ensures ms[i].note in ByID(remote) {
      assert IsContent()(vs[cs[i]]);
      VerdictMeaning(lower, manifest, remote, cs[i]);
      var r :| r in remote && r.id == vs[cs[i]].id && Similar(lower, manifest[cs[i]], r, Used(vs[..cs[i]]));
    }
    forall i, j | 0 <= i < j < |ms| ensures ms[i].note != ms[j].note {
      assert IsContent()(vs[cs[i]]) && IsContent()(vs[cs[j]]);
      ContentMatchesDistinct(lower, manifest, remote, cs[j], cs[i]);
    }
  }

  /** What the three lists say about the keys of their entries. */
  lemma ListedKeys(lower: string -> string, manifest: seq<Entry>, remote: seq<Remote>)
    ensures var r := ReportOf(lower, manifest, remote);
            && (forall i :: 0 <= i < |r.exact| ==> r.exact[i].entry in manifest && Present(remote, EntryKey(r.exact[i].entry)))
            && (forall i :: 0 <= i < |r.content| ==> !Present(remote, EntryKey(r.content[i].entry)))
            && (forall i :: 0 <= i < |r.missing| ==> !Present(remote, EntryKey(r.missing[i])))
            && (forall k :: 0 <= k < |manifest| ==> Placed(r, manifest[k]))
  {
    hide Judge, Audit, Positions, Contents, Exacts, Missings, Present, EntryKey, Placed, Similar, Used;
    var vs := Audit(lower, manifest, remote);
    var es, cs, ms := Positions(vs, IsExact()), Positions(vs, IsContent()), Positions(vs, IsMissing());
    OrderedPartition(manifest, vs);
    forall k | 0 <= k < |manifest| ensures vs[k].Exact? <==> Present(remote, EntryKey(manifest[k])) {
      VerdictMeaning(lower, manifest, remote, k);
    }
    assert forall i :: 0 <= i < |es| ==> IsExact()(vs[es[i]]);
    assert forall i :: 0 <= i < |cs| ==> IsContent()(vs[cs[i]]);
    assert forall i :: 0 <= i < |ms| ==> IsMissing()(vs[ms[i]]);
    forall k | 0 <= k < |manifest| ensures Placed(ReportOf(lower, manifest, remote), manifest[k]) {
      EveryEntryFiled(lower, manifest, remote, k);
    }
  }

  /** The entry is in one of the three lists. */
  predicate Placed(r: Report, e: Entry) {
    || (exists i :: 0 <= i < |r.exact| && r.exact[i].entry == e)
    || (exists i :: 0 <= i < |r.content| && r.content[i].entry == e)
    || (exists i :: 0 <= i < |r.missing| && r.missing[i] == e)
  }

  lemma EveryEntryFiled(lower: string -> string, manifest: seq<Entry>, remote: seq<Remote>, k: nat)
    requires k < |manifest|
    ensures Placed(ReportOf(lower, manifest, remote), manifest[k])
  {
    hide Audit, Positions, Contents, Exacts, Missings;
    var vs, r := Audit(lower, manifest, remote), ReportOf(lower, manifest, remote);
    OrderedPartition(manifest, vs);
    if vs[k].Exact? {
      var es := Positions(vs, IsExact());
      assert IsExact()(vs[k]);
      var i :| 0 <= i < |es| && es[i] == k;
      assert r.exact[i].entry == manifest[k];
    } else if vs[k].Content? {
      var cs := Positions(vs, IsContent());
      assert IsContent()(vs[k]);
      var i :| 0 <= i < |cs| && cs[i] == k;
      assert r.content[i].entry == manifest[k];
    } else {
      var ms := Positions(vs, IsMissing());
      assert IsMissing()(vs[k]);
      var i :| 0 <= i < |ms| && ms[i] == k;
      assert r.missing[i] == manifest[k];
    }
  }

  /** A copy of the key that no content match is about to overwrite. */
  predicate Survives(remote: seq<Remote>, content: seq<Match>, key: string) {
    exists i :: 0 <= i < |remote| && Carries(remote[i].metadata, key) && !Named(content, remote[i].id)
  }

  /** Every entry the sync writes provenance for is clean. */
  predicate AllClean(r: Report) {
    && (forall i :: 0 <= i < |r.content| ==> Clean(r.content[i].entry))
    && (forall i :: 0 <= i < |r.missing| ==> Clean(r.missing[i]))
  }

  /** Exactly the keys held after an error-free wet sync. */
  lemma HeldAfterSync(svc: Service, site: Site, lower: string -> string, manifest: seq<Entry>, remote: seq<Remote>, a: Account, key: string)
    requires Lists(remote, a.records) && svc.Fresh()
    requires AllClean(ReportOf(lower, manifest, remote))
    requires SyncOf(svc, site, ReportOf(lower, manifest, remote), remote, false, a).err.None?
    ensures var r := ReportOf(lower, manifest, remote);
            Held(SyncOf(svc, site, r, remote, false, a).account.records, key) <==>
              || Survives(remote, r.content, key)
              || (exists i :: 0 <= i < |r.content| && EntryKey(r.content[i].entry) == key)
              || (exists i :: 0 <= i < |r.missing| && EntryKey(r.missing[i]) == key)
  {
    hide ReportOf, Carries, Clean, EntryKey, UpdatePass, AddPass, MergeMetadata, ProvenanceMetadata, RenderManifestMemory, ByID;
    var r, byID := ReportOf(lower, manifest, remote), ByID(remote);
    var s0 := Sync(a, 0, 0, None);
    var mid := UpdatePass(svc, site, byID, r.content, false, s0);
    var t := AddPass(svc, site, r.missing, false, mid);
    ContentsResolvable(lower, manifest, remote);
    PassesStop(svc, site, r, byID, s0);
    UpdatePassEffect(svc, site, byID, r.content, s0);
    AddPassEffect(svc, site, r.missing, mid);
    forall i | 0 <= i < |r.content| ensures Carries(Patched(site, byID, r.content[i]).metadata, EntryKey(r.content[i].entry)) {
      WrittenRecordRecognised(site, r.content[i].entry, byID[r.content[i].note].metadata);
    }
    forall i | 0 <= i < |r.missing| ensures Carries(NewRecord(site, r.missing[i]).metadata, EntryKey(r.missing[i])) {
      NewRecordRecognisedIff(site, r.missing[i]);
    }
    HeldCases(site, remote, byID, r, a.records, mid.account.records, t.account.records, key);
  }

  lemma PassesStop(svc: Service, site: Site, r: Report, byID: map<string, Remote>, s: Sync)
    requires s.err.None?
    ensures var mid := UpdatePass(svc, site, byID, r.content, false, s);
            AddPass(svc, site, r.missing, false, mid).err.None? ==> mid.err.None?
  {
    hide UpdatePass;
  }

  /** The three origins of a record after the sync: untouched, patched, added. */
  lemma HeldCases(site: Site, remote: seq<Remote>, byID: map<string, Remote>, r: Report,
                  before: map<string, Record>, mid: map<string, Record>, after: map<string, Record>, key: string)
    requires Lists(remote, before) && Resolvable(byID, r.content)
    requires mid.Keys == before.Keys
    requires forall id :: id in before && !Named(r.content, id) ==> mid[id] == before[id]
    requires forall i :: 0 <= i < |r.content| ==> r.content[i].note in mid && mid[r.content[i].note] == Patched(site, byID, r.content[i])
    requires Extends(mid, after) && AllAdded(site, r.missing, after) && OnlyAdded(site, r.missing, mid, after)
    requires forall i :: 0 <= i < |r.content| ==> Carries(Patched(site, byID, r.content[i]).metadata, EntryKey(r.content[i].entry))
    requires forall i :: 0 <= i < |r.missing| ==> Carries(NewRecord(site, r.missing[i]).metadata, EntryKey(r.missing[i]))
    ensures Held(after, key) <==>
              || Survives(remote, r.content, key)
              || (exists i :: 0 <= i < |r.content| && EntryKey(r.content[i].entry) == key)
              || (exists i :: 0 <= i < |r.missing| && EntryKey(r.missing[i]) == key)
  {
    hide Patched, NewRecord, EntryKey, HasProvenance, MetadataKey;
    if i :| 0 <= i < |remote| && Carries(remote[i].metadata, key) && !Named(r.content, remote[i].id) {
      assert after[remote[i].id] == before[remote[i].id];
      assert Held(after, key);
    }
    if i :| 0 <= i < |r.content| && EntryKey(r.content[i].entry) == key {
      assert after[r.content[i].note] == Patched(site, byID, r.content[i]);
      assert Held(after, key);
    }
    if i :| 0 <= i < |r.missing| && EntryKey(r.missing[i]) == key {
      var id :| id in after && after[id] == NewRecord(site, r.missing[i]);
      assert Held(after, key);
    }
    if id :| id in after && Carries(after[id].metadata, key) {
      if id !in mid {
        var i :| 0 <= i < |r.missing| && after[id] == NewRecord(site, r.missing[i]);
        assert EntryKey(r.missing[i]) == key;
      } else if Named(r.content, id) {
        var i :| 0 <= i < |r.content| && r.content[i].note == id;
        assert EntryKey(r.content[i].entry) == key;
      } else {
        var i :| 0 <= i < |remote| && remote[i].id == id;
        assert Survives(remote, r.content, key);
      }
    }
  }

  // ---------------------------------------------------------------- convergence

  /** No content match overwrites the last copy of a key that another entry matched exactly. */
  predicate NoLastCopyOverwritten(remote: seq<Remote>, r: Report) {
    forall i :: 0 <= i < |r.exact| ==> Survives(remote, r.content, EntryKey(r.exact[i].entry))
  }

  /**
   Exactly when audit, sync, audit proves parity. For clean entries the second audit, over any
   listing of the synced account, is proven if and only if no content match overwrote the last
   copy of an exactly matched key; the condition can be read off the first report.
   */
  lemma SyncConvergesIff(svc: Service, site: Site, lower: string -> string, manifest: seq<Entry>, remote: seq<Remote>,
                         a: Account, listing: seq<Remote>)
    requires Lists(remote, a.records) && svc.Fresh()
    requires AllClean(ReportOf(lower, manifest, remote))
    requires SyncOf(svc, site, ReportOf(lower, manifest, remote), remote, false, a).err.None?
    requires Lists(listing, SyncOf(svc, site, ReportOf(lower, manifest, remote), remote, false, a).account.records)
    ensures Proven(ReportOf(lower, manifest, listing)) <==>
            NoLastCopyOverwritten(remote, ReportOf(lower, manifest, remote))
  {
    hide ReportOf, SyncOf, EntryKey, Held, Survives, Present;
    var r := ReportOf(lower, manifest, remote);
    var after := SyncOf(svc, site, r, remote, false, a).account.records;
    ProvenIffAllPresent(lower, manifest, listing);
    ListedKeys(lower, manifest, remote);
    forall key ensures Present(listing, key) <==> Held(after, key) { PresentIffHeld(listing, after, key); }
    forall key
      ensures Held(after, key) <==>
              || Survives(remote, r.content, key)
              || (exists i :: 0 <= i < |r.content| && EntryKey(r.content[i].entry) == key)
              || (exists i :: 0 <= i < |r.missing| && EntryKey(r.missing[i]) == key)
    {
      HeldAfterSync(svc, site, lower, manifest, remote, a, key);
    }
    if NoLastCopyOverwritten(remote, r) {
      forall k | 0 <= k < |manifest| ensures Present(listing, EntryKey(manifest[k])) {
      }
    }
    if Proven(ReportOf(lower, manifest, listing)) {
      forall i | 0 <= i < |r.exact| ensures Survives(remote, r.content, EntryKey(r.exact[i].entry)) {
        var key := EntryKey(r.exact[i].entry);
        assert Present(listing, key);
        assert Present(remote, key);
      }
    }
  }

  /** No memory is both an exact and a content match. */
  predicate NoOverlap(r: Report) {
    forall i, j :: 0 <= i < |r.exact| && 0 <= j < |r.content| ==> r.exact[i].note != r.content[j].note
  }

  lemma ExactNotes(lower: string -> string, manifest: seq<Entry>, remote: seq<Remote>, i: nat)
    requires i < |ReportOf(lower, manifest, remote).exact|
    ensures var m := ReportOf(lower, manifest, remote).exact[i];
            exists k :: 0 <= k < |remote| && remote[k].id == m.note && Carries(remote[k].metadata, EntryKey(m.entry))
  {
    hide Judge, Audit, Positions, Contents, Exacts, Missings, Carries, EntryKey;
    var vs := Audit(lower, manifest, remote);
    var es := Positions(vs, IsExact());
    OrderedPartition(manifest, vs);
    assert IsExact()(vs[es[i]]);
    VerdictMeaning(lower, manifest, remote, es[i]);
    var r :| r in remote && r.id == vs[es[i]].id && Carries(r.metadata, EntryKey(manifest[es[i]]));
    var k :| 0 <= k < |remote| && remote[k] == r;
  }

  /**
   Without overlap one sync proves parity, and a second sync has nothing left to do.
   */
  lemma SyncConverges(svc: Service, site: Site, lower: string -> string, manifest: seq<Entry>, remote: seq<Remote>,
                      a: Account, listing: seq<Remote>)
    requires Lists(remote, a.records) && svc.Fresh()
    requires AllClean(ReportOf(lower, manifest, remote)) && NoOverlap(ReportOf(lower, manifest, remote))
    requires SyncOf(svc, site, ReportOf(lower, manifest, remote), remote, false, a).err.None?
    requires Lists(listing, SyncOf(svc, site, ReportOf(lower, manifest, remote), remote, false, a).account.records)
    ensures Proven(ReportOf(lower, manifest, listing))
    ensures var synced := SyncOf(svc, site, ReportOf(lower, manifest, remote), remote, false, a).account;
            SyncOf(svc, site, ReportOf(lower, manifest, listing), listing, false, synced) == Sync(synced, 0, 0, None)
  {
    hide ReportOf, EntryKey, Carries;
    var r := ReportOf(lower, manifest, remote);
    forall i | 0 <= i < |r.exact| ensures Survives(remote, r.content, EntryKey(r.exact[i].entry)) {
      ExactNotes(lower, manifest, remote, i);
      var k :| 0 <= k < |remote| && remote[k].id == r.exact[i].note && Carries(remote[k].metadata, EntryKey(r.exact[i].entry));
    }
    SyncConvergesIff(svc, site, lower, manifest, remote, a, listing);
    ProvenIffNothingLeft(lower, manifest, listing);
  }

  /**
   The overlap is reachable, because the exact branch does not ask whether a memory is already
   used: a first entry content-matches the only memory that carries a second entry's provenance.
   The audit reports both, the sync overwrites the provenance, and parity is then not proven.
   */
  lemma OverlapLosesExactMatch(svc: Service, site: Site, lower: string -> string, first: Entry, second: Entry, mem: Remote,
                               a: Account, listing: seq<Remote>)
    requires Lists([mem], a.records) && svc.Fresh()
    requires Carries(mem.metadata, EntryKey(second)) && EntryKey(first) != EntryKey(second)
    requires ContentMatches(lower, first, mem.memory) && Clean(first)
    requires SyncOf(svc, site, ReportOf(lower, [first, second], [mem]), [mem], false, a).err.None?
    requires Lists(listing, SyncOf(svc, site, ReportOf(lower, [first, second], [mem]), [mem], false, a).account.records)
    ensures !Proven(ReportOf(lower, [first, second], listing))
  {
    hide Carries, ContentMatches, EntryKey, Clean, SyncOf;
    var manifest, remote := [first, second], [mem];
    OverlapReport(lower, first, second, mem);
    var r := ReportOf(lower, manifest, remote);
    assert Named(r.content, mem.id) by { assert r.content[0].note == mem.id; }
    assert !Survives(remote, r.content, EntryKey(second));
    assert r.exact[0].entry == second;
    SyncConvergesIff(svc, site, lower, manifest, remote, a, listing);
  }

  /** The report on two entries, the first matched by content and the second by provenance. */
  lemma TwoEntries(lower: string -> string, first: Entry, second: Entry, remote: seq<Remote>, x: string, y: string)
    requires Judge(lower, first, remote, {}) == Content(x) && Judge(lower, second, remote, {x}) == Exact(y)
    ensures var r := ReportOf(lower, [first, second], remote);
            r.content == [Match(first, x)] && r.exact == [Match(second, y)] && r.missing == []
  {
    hide Judge, Audit, Used, Exacts, Contents, Missings, KindCounts, Bump;
    var manifest := [first, second];
    assert manifest[..0] == [] && manifest[..2] == manifest;
    StartEmpty(lower, remote);
    OneMoreEntry(lower, manifest, 0, remote);
    var v, w := Content(x), Exact(y);
    assert Audit(lower, manifest[..0], remote) == [] && [] + [v] == [v];
    assert Used([v]) == {x};
    OneMoreEntry(lower, manifest, 1, remote);
    assert Audit(lower, manifest[..1], remote) == [v];
    assert Audit(lower, manifest, remote) == [v] + [w];
    assert Exacts(manifest, [v] + [w]) == [Match(second, y)];
    assert Contents(manifest, [v] + [w]) == [Match(first, x)];
  }

  lemma OverlapReport(lower: string -> string, first: Entry, second: Entry, mem: Remote)
    requires Carries(mem.metadata, EntryKey(second)) && EntryKey(first) != EntryKey(second)
    requires ContentMatches(lower, first, mem.memory)
    ensures var r := ReportOf(lower, [first, second], [mem]);
            r.content == [Match(first, mem.id)] && r.exact == [Match(second, mem.id)] && r.missing == []
  {
    hide HasProvenance, MetadataKey, ContentMatches, EntryKey, ReportOf;
    var remote := [mem];
    assert remote[1..] == [];
    assert FirstWithKey(remote, EntryKey(first)) == None && FirstWithKey(remote, EntryKey(second)) == Some(mem);
    assert FirstByContent(lower, first, remote, {}) == Some(mem);
    TwoEntries(lower, first, second, remote, mem.id, mem.id);
  }

  // ---------------------------------------------------------------- what any sync leaves alone

  predicate Written(f: Field) {
    f in {SourcePath, SourceID, KindField, Project, MachineField, Confidence, ProvenanceVersion, Fingerprint}
  }

  predicate SameField(m: Option<Metadata>, m': Option<Metadata>, f: Field) {
    var x, y := (if m.Some? then m.value else map[]), (if m'.Some? then m'.value else map[]);
    (f in x <==> f in y) && (f in x ==> x[f] == y[f])
  }

  /** Text and foreign metadata of a record are the same. */
  ghost predicate Untouched(r: Record, r': Record) {
    r.memory == r'.memory && forall f :: !Written(f) ==> SameField(r.metadata, r'.metadata, f)
  }

  ghost predicate Grows(before: map<string, Record>, after: map<string, Record>) {
    forall id :: id in before ==> id in after && Untouched(before[id], after[id])
  }

  lemma MergeKeeps(site: Site, e: Entry, existing: Option<Metadata>, memory: string)
    ensures Untouched(Record(memory, existing), Record(memory, Some(MergeMetadata(existing, ProvenanceMetadata(site, e)))))
  {
    hide NormalisePath;
  }

  /** Every record still to be updated is as the snapshot shows it, up to written fields. */
  ghost predicate Snapshot(byID: map<string, Remote>, records: map<string, Record>) {
    forall id :: id in byID && id in records ==> byID[id].id == id && Untouched(Record(byID[id].memory, byID[id].metadata), records[id])
  }

  lemma {:induction false} UpdatesKeep(svc: Service, site: Site, byID: map<string, Remote>, ms: seq<Match>, dry: bool, s: Sync)
    requires Snapshot(byID, s.account.records) && forall id :: id in byID ==> byID[id].id == id
    ensures Grows(s.account.records, UpdatePass(svc, site, byID, ms, dry, s).account.records)
    decreases ms
  {
    hide MergeMetadata, ProvenanceMetadata, Untouched;
    forall r ensures Untouched(r, r) { UntouchedSame(r); }
    if ms != [] && s.err.None? {
      var m := ms[0];
      var u := UpdateStep(svc, site, byID, m, dry, s);
      if m.note in byID {
        MergeKeeps(site, m.entry, byID[m.note].metadata, byID[m.note].memory);
      }
      StepKeeps(svc, site, byID, m, dry, s);
      UpdatesKeep(svc, site, byID, ms[1..], dry, u);
      GrowsTransitive(s.account.records, u.account.records, UpdatePass(svc, site, byID, ms[1..], dry, u).account.records);
    }
  }

  lemma StepKeeps(svc: Service, site: Site, byID: map<string, Remote>, m: Match, dry: bool, s: Sync)
    requires Snapshot(byID, s.account.records) && forall id :: id in byID ==> byID[id].id == id
    ensures var u := UpdateStep(svc, site, byID, m, dry, s);
            Grows(s.account.records, u.account.records) && Snapshot(byID, u.account.records)
  {
    hide MergeMetadata, ProvenanceMetadata, Untouched;
    forall r ensures Untouched(r, r) { UntouchedSame(r); }
    if m.note in byID {
      var item := byID[m.note];
      var was := Record(item.memory, item.metadata);
      var patched := Record(item.memory, Some(MergeMetadata(item.metadata, ProvenanceMetadata(site, m.entry))));
      MergeKeeps(site, m.entry, item.metadata, item.memory);
      if m.note in s.account.records {
        UntouchedThrough(was, s.account.records[m.note], patched);
      }
    }
  }

  lemma UntouchedSame(r: Record)
    ensures Untouched(r, r)
  {
  }

  lemma UntouchedThrough(a: Record, b: Record, c: Record)
    requires Untouched(a, b) && Untouched(a, c)
    ensures Untouched(b, c)
  {
    forall f | !Written(f) ensures SameField(b.metadata, c.metadata, f) {
      assert SameField(a.metadata, b.metadata, f) && SameField(a.metadata, c.metadata, f);
    }
  }

  lemma UntouchedTransitive(a: Record, b: Record, c: Record)
    requires Untouched(a, b) && Untouched(b, c)
    ensures Untouched(a, c)
  {
    forall f | !Written(f) ensures SameField(a.metadata, c.metadata, f) {
      assert SameField(a.metadata, b.metadata, f) && SameField(b.metadata, c.metadata, f);
    }
  }

  lemma GrowsTransitive(a: map<string, Record>, b: map<string, Record>, c: map<string, Record>)
    requires Grows(a, b) && Grows(b, c)
    ensures Grows(a, c)
  {
    hide Untouched;
    forall id | id in a ensures id in c && Untouched(a[id], c[id]) {
      UntouchedTransitive(a[id], b[id], c[id]);
    }
  }

  lemma {:induction false} AddsKeep(svc: Service, site: Site, es: seq<Entry>, dry: bool, s: Sync)
    requires svc.Fresh()
    ensures Grows(s.account.records, AddPass(svc, site, es, dry, s).account.records)
    decreases es
  {
    hide Untouched, ProvenanceMetadata, RenderManifestMemory;
    forall r ensures Untouched(r, r) { UntouchedSame(r); }
    if es != [] && s.err.None? {
      var u := AddStep(svc, site, es[0], dry, s);
      AddsKeep(svc, site, es[1..], dry, u);
      GrowsTransitive(s.account.records, u.account.records, AddPass(svc, site, es[1..], dry, u).account.records);
    }
  }

  /**
   No sync, failed or not, loses a memory, changes its text, or touches a metadata field it does
   not own.
   */
  lemma SyncLosesNothing(svc: Service, site: Site, report: Report, remote: seq<Remote>, dry: bool, a: Account)
    requires Lists(remote, a.records) && svc.Fresh()
    ensures Grows(a.records, SyncOf(svc, site, report, remote, dry, a).account.records)
  {
    hide Untouched, UpdatePass, AddPass;
    ByIDMeaning(remote);
    var byID := ByID(remote);
    forall r ensures Untouched(r, r) { UntouchedSame(r); }
    var mid := UpdatePass(svc, site, byID, report.content, dry, Sync(a, 0, 0, None));
    UpdatesKeep(svc, site, byID, report.content, dry, Sync(a, 0, 0, None));
    AddsKeep(svc, site, report.missing, dry, mid);
    GrowsTransitive(a.records, mid.account.records, AddPass(svc, site, report.missing, dry, mid).account.records);
  }

  // ---------------------------------------------------------------- dry run

  lemma {:induction false} DryPasses(svc: Service, site: Site, byID: map<string, Remote>, ms: seq<Match>, es: seq<Entry>, s: Sync)
    requires s.err.None? && Resolvable(byID, ms)
    ensures UpdatePass(svc, site, byID, ms, true, s) == s.(updated := s.updated + |ms|)
    ensures AddPass(svc, site, es, true, s) == s.(added := s.added + |es|)
    decreases |ms| + |es|
  {
    if ms != [] {
      assert forall i :: 0 <= i < |ms[1..]| ==> ms[1..][i] == ms[i + 1];
      DryPasses(svc, site, byID, ms[1..], [], s.(updated := s.updated + 1));
    }
    if es != [] { DryPasses(svc, site, byID, [], es[1..], s.(added := s.added + 1)); }
  }

  /** A dry run counts exactly what an error-free sync then does, and does nothing itself. */
  lemma DryRunPredictsSync(svc: Service, site: Site, lower: string -> string, manifest: seq<Entry>, remote: seq<Remote>, a: Account)
    requires svc.Fresh()
    ensures var r := ReportOf(lower, manifest, remote);
            var dry, wet := SyncOf(svc, site, r, remote, true, a), SyncOf(svc, site, r, remote, false, a);
            && dry == Sync(a, |r.content|, |r.missing|, None)
            && (wet.err.None? ==> wet.updated == dry.updated && wet.added == dry.added)
  {
    hide ReportOf, UpdatePass, AddPass, ByID;
    var r, byID := ReportOf(lower, manifest, remote), ByID(remote);
    var s := Sync(a, 0, 0, None);
    ContentsResolvable(lower, manifest, remote);
    DryPasses(svc, site, byID, r.content, [], s);
    DryPasses(svc, site, byID, [], r.missing, s.(updated := |r.content|));
    PassesStop(svc, site, r, byID, s);
    UpdatePassEffect(svc, site, byID, r.content, s);
    var mid := UpdatePass(svc, site, byID, r.content, false, s);
    if mid.err.None? { AddPassEffect(svc, site, r.missing, mid); }
  }
}
