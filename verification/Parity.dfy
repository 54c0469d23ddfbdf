/** The Mem0 parity audit and the provenance sync that repairs what it finds. */
module Parity {
  import opened Wrappers
  import opened GoStrings

  // ---------------------------------------------------------------- records

  datatype Entry = Entry(kind: string, sourcePath: string, sourceID: string, title: string, snippet: string, fingerprint: string)

  /** The metadata fields the audit reads or the sync writes; every other field keeps its name. */
  datatype Field =
    | SourcePath | SourcePathCamel | SourceFile | PathField
    | SourceID | SourceIDCamel | SourceEntryID | EntryID
    | KindField | Project | MachineField | Confidence | ProvenanceVersion | Fingerprint
    | OtherField(name: string)

  /** A JSON value as the audit sees it: absent, a string, or anything else in its printed form. */
  datatype Value = Null | Str(s: string) | Printed(text: string)

  type Metadata = map<Field, Value>

  datatype Remote = Remote(id: string, memory: string, metadata: Option<Metadata>)

  datatype Match = Match(entry: Entry, note: string)

  datatype Report = Report(
    manifestEntries: nat,
    manifestByKind: map<string, nat>,
    remoteMemories: nat,
    withProvenance: nat,
    withoutProvenance: nat,
    exact: seq<Match>,
    content: seq<Match>,
    missing: seq<Entry>)

  predicate Proven(r: Report) { |r.missing| == 0 && |r.exact| == r.manifestEntries }

  // ---------------------------------------------------------------- keys

  const MARKER := "/Code/global-kb/"

  function NormalisePath(path: string): string {
    var p := TrimSpace(path);
    var idx := Index(p, MARKER);
    var q := if idx >= 0 then TrimPrefix(p[idx + 1..], MARKER[1..]) else p;
    TrimPrefix(q, "/")
  }

  function ParityKey(path: string, sourceID: string): string {
    NormalisePath(path) + "::" + TrimSpace(sourceID)
  }

  function EntryKey(e: Entry): string { ParityKey(e.sourcePath, e.sourceID) }

  function StringMetadata(m: Option<Metadata>, key: Field): string {
    if m.None? || key !in m.value then ""
    else
      match m.value[key]
      case Null => ""
      case Str(s) => TrimSpace(s)
      case Printed(text) => TrimSpace(text)
  }

  /** The first field with a non-empty value. */
  function FirstOf(m: Option<Metadata>, keys: seq<Field>): string {
    if keys == [] then ""
    else
      var v := StringMetadata(m, keys[0]);
      if v != "" then v else FirstOf(m, keys[1..])
  }

  function SourcePathOf(m: Option<Metadata>): string { FirstOf(m, [SourcePath, SourcePathCamel, SourceFile, PathField]) }

  function SourceIDOf(m: Option<Metadata>): string { FirstOf(m, [SourceID, SourceIDCamel, SourceEntryID, EntryID]) }

  predicate HasProvenance(m: Option<Metadata>) { SourcePathOf(m) != "" && SourceIDOf(m) != "" }

  function MetadataKey(m: Option<Metadata>): string { ParityKey(SourcePathOf(m), SourceIDOf(m)) }

  /** The record carries provenance under this key. */
  predicate Carries(m: Option<Metadata>, key: string) { HasProvenance(m) && MetadataKey(m) == key }

  // ---------------------------------------------------------------- text

  function Erase(s: string, c: char): string {
    if s == "" then "" else (if s[0] == c then "" else [s[0]]) + Erase(s[1..], c)
  }

  /** Words separated by single spaces. */
  function Squeeze(s: string): string {
    if s == "" then ""
    else
      var rest := Squeeze(s[1..]);
      if IsSpace(s[0]) then (if rest == "" || rest[0] == ' ' then rest else " " + rest) else [s[0]] + rest
  }

  /** Lower-casing is left open. */
  function NormaliseText(lower: string -> string, s: string): string {
    TrimSpace(Squeeze(Erase(Erase(lower(TrimSpace(s)), '`'), '*')))
  }

  predicate ContentMatches(lower: string -> string, e: Entry, memory: string) {
    var text := NormaliseText(lower, memory);
    var title, snippet := NormaliseText(lower, e.title), NormaliseText(lower, e.snippet);
    text != "" &&
    ((title != "" && Contains(text, title)) || (snippet != "" && |snippet| > 32 && Contains(text, snippet)))
  }

  // ---------------------------------------------------------------- the audit as a function

  datatype Verdict = Exact(id: string) | Content(id: string) | Missing

  /** The first remote memory that carries the key. */
  function FirstWithKey(remote: seq<Remote>, key: string): Option<Remote> {
    if remote == [] then None
    else if Carries(remote[0].metadata, key) then Some(remote[0])
    else FirstWithKey(remote[1..], key)
  }

  /** The first unused remote memory whose text matches. */
  function FirstByContent(lower: string -> string, e: Entry, remote: seq<Remote>, used: set<string>): Option<Remote> {
    if remote == [] then None
    else if remote[0].id !in used && ContentMatches(lower, e, remote[0].memory) then Some(remote[0])
    else FirstByContent(lower, e, remote[1..], used)
  }

  function Judge(lower: string -> string, e: Entry, remote: seq<Remote>, used: set<string>): Verdict {
    var exact := FirstWithKey(remote, EntryKey(e));
    if exact.Some? then Exact(exact.value.id)
    else
      var content := FirstByContent(lower, e, remote, used);
      if content.Some? then Content(content.value.id) else Missing
  }

  function UsedBy(v: Verdict): set<string> { if v.Missing? then {} else {v.id} }

  function Used(vs: seq<Verdict>): set<string> {
    if vs == [] then {} else Used(vs[..|vs| - 1]) + UsedBy(vs[|vs| - 1])
  }

  function Audit(lower: string -> string, manifest: seq<Entry>, remote: seq<Remote>): (vs: seq<Verdict>)
    ensures |vs| == |manifest|
  {
    if manifest == [] then []
    else
      var n := |manifest| - 1;
      var before := Audit(lower, manifest[..n], remote);
      before + [Judge(lower, manifest[n], remote, Used(before))]
  }

  function Exacts(manifest: seq<Entry>, vs: seq<Verdict>): seq<Match>
    requires |manifest| == |vs|
  {
    if vs == [] then []
    else
      var n := |vs| - 1;
      Exacts(manifest[..n], vs[..n]) + if vs[n].Exact? then [Match(manifest[n], vs[n].id)] else []
  }

  function Contents(manifest: seq<Entry>, vs: seq<Verdict>): seq<Match>
    requires |manifest| == |vs|
  {
    if vs == [] then []
    else
      var n := |vs| - 1;
      Contents(manifest[..n], vs[..n]) + if vs[n].Content? then [Match(manifest[n], vs[n].id)] else []
  }

  function Missings(manifest: seq<Entry>, vs: seq<Verdict>): seq<Entry>
    requires |manifest| == |vs|
  {
    if vs == [] then []
    else
      var n := |vs| - 1;
      Missings(manifest[..n], vs[..n]) + if vs[n].Missing? then [manifest[n]] else []
  }

  function Bump(m: map<string, nat>, key: string): map<string, nat> {
    m[key := (if key in m then m[key] else 0) + 1]
  }

  function KindCounts(manifest: seq<Entry>): map<string, nat> {
    if manifest == [] then map[] else Bump(KindCounts(manifest[..|manifest| - 1]), manifest[|manifest| - 1].kind)
  }

  function ProvenanceCount(remote: seq<Remote>): (n: nat)
    ensures n <= |remote|
  {
    if remote == [] then 0
    else ProvenanceCount(remote[..|remote| - 1]) + if HasProvenance(remote[|remote| - 1].metadata) then 1 else 0
  }

  /** The index of provenance keys, each with its records in listing order. */
  type KeyIndex = map<string, seq<Remote>>

  function IndexOf(remote: seq<Remote>): KeyIndex {
    if remote == [] then map[]
    else
      var n := |remote| - 1;
      var before := IndexOf(remote[..n]);
      if HasProvenance(remote[n].metadata) then Filed(before, remote[n]) else before
  }

  function Filed(index: KeyIndex, r: Remote): KeyIndex {
    var key := MetadataKey(r.metadata);
    index[key := (if key in index then index[key] else []) + [r]]
  }

  lemma {:induction false} FirstWithKeyAppend(remote: seq<Remote>, r: Remote, key: string)
    ensures FirstWithKey(remote + [r], key) ==
            if FirstWithKey(remote, key).Some? then FirstWithKey(remote, key)
            else if Carries(r.metadata, key) then Some(r) else None
  {
    hide Carries;
    if remote == [] {
      assert [] + [r] == [r] && [r][1..] == [];
    } else {
      assert (remote + [r])[1..] == remote[1..] + [r];
      FirstWithKeyAppend(remote[1..], r, key);
    }
  }

  /** The head of an index bucket is the first record with that key. */
  lemma {:induction false} IndexFinds(remote: seq<Remote>, key: string)
    ensures var index := IndexOf(remote);
            && (key in index ==> index[key] != [])
            && FirstWithKey(remote, key) == if key in index then Some(index[key][0]) else None
  {
    hide HasProvenance, MetadataKey;
    if remote != [] {
      var n := |remote| - 1;
      IndexFinds(remote[..n], key);
      FirstWithKeyAppend(remote[..n], remote[n], key);
      assert remote == remote[..n] + [remote[n]];
    }
  }

  /** What one more memory adds to the index and the count. */
  lemma OneMoreMemory(remote: seq<Remote>, i: nat)
    requires i < |remote|
    ensures var m := remote[i].metadata;
            && IndexOf(remote[..i + 1]) == (if HasProvenance(m) then Filed(IndexOf(remote[..i]), remote[i]) else IndexOf(remote[..i]))
            && ProvenanceCount(remote[..i + 1]) == ProvenanceCount(remote[..i]) + (if HasProvenance(m) then 1 else 0)
  {
    hide HasProvenance, Filed;
    assert remote[..i + 1][..i] == remote[..i];
  }

  /** The inner loop over the remote memories. */
  method FindByContent(lower: string -> string, e: Entry, remote: seq<Remote>, used: set<string>) returns (r: Option<Remote>)
    ensures r == FirstByContent(lower, e, remote, used)
  {
    hide NormaliseText, Contains;
    var title, snippet := NormaliseText(lower, e.title), NormaliseText(lower, e.snippet);
    for i := 0 to |remote|
      invariant FirstByContent(lower, e, remote[i..], used) == FirstByContent(lower, e, remote, used)
    {
      assert remote[i..][1..] == remote[i + 1..];
      var item := remote[i];
      if item.id in used { continue; }
      var text := NormaliseText(lower, item.memory);
      if text == "" { continue; }
      if title != "" && Contains(text, title) { return Some(item); }
      if snippet != "" && |snippet| > 32 && Contains(text, snippet) { return Some(item); }
    }
    r := None;
  }

  function ReportOf(lower: string -> string, manifest: seq<Entry>, remote: seq<Remote>): Report {
    var vs := Audit(lower, manifest, remote);
    Report(|manifest|, KindCounts(manifest), |remote|, ProvenanceCount(remote), |remote| - ProvenanceCount(remote),
           Exacts(manifest, vs), Contents(manifest, vs), Missings(manifest, vs))
  }

  method Classify(lower: string -> string, entry: Entry, remote: seq<Remote>, index: KeyIndex, used: set<string>)
    returns (v: Verdict)
    requires index == IndexOf(remote)
    ensures v == Judge(lower, entry, remote, used)
  {
    hide FirstByContent, FirstWithKey, EntryKey;
    var key := EntryKey(entry);
    IndexFinds(remote, key);
    if key in index && |index[key]| > 0 { return Exact(index[key][0].id); }
    var item := FindByContent(lower, entry, remote, used);
    if item.Some? { return Content(item.value.id); }
    v := Missing;
  }

  /** What one more entry adds to the audit and to the three lists. */
  lemma OneMoreEntry(lower: string -> string, manifest: seq<Entry>, i: nat, remote: seq<Remote>)
    requires i < |manifest|
    ensures var vs, e := Audit(lower, manifest[..i], remote), manifest[i];
            var v := Judge(lower, e, remote, Used(vs));
            && Audit(lower, manifest[..i + 1], remote) == vs + [v]
            && Used(vs + [v]) == Used(vs) + UsedBy(v)
            && Exacts(manifest[..i + 1], vs + [v]) == Exacts(manifest[..i], vs) + (if v.Exact? then [Match(e, v.id)] else [])
            && Contents(manifest[..i + 1], vs + [v]) == Contents(manifest[..i], vs) + (if v.Content? then [Match(e, v.id)] else [])
            && Missings(manifest[..i + 1], vs + [v]) == Missings(manifest[..i], vs) + (if v.Missing? then [e] else [])
            && KindCounts(manifest[..i + 1]) == Bump(KindCounts(manifest[..i]), e.kind)
  {
    hide Judge, Bump;
    var vs := Audit(lower, manifest[..i], remote);
    assert manifest[..i + 1][..i] == manifest[..i];
    assert (vs + [Judge(lower, manifest[i], remote, Used(vs))])[..i] == vs;
  }

  method CompareParity(lower: string -> string, manifest: seq<Entry>, remote: seq<Remote>) returns (report: Report)
    ensures report == ReportOf(lower, manifest, remote)
  {
    hide Judge, IndexOf, Audit, Exacts, Contents, Missings, Used, KindCounts, ProvenanceCount, SourcePathOf, SourceIDOf, ParityKey;
    StartEmpty(lower, remote);
    report := Report(|manifest|, map[], |remote|, 0, 0, [], [], []);
    var exactIndex: KeyIndex := map[];
    for i := 0 to |remote|
      invariant exactIndex == IndexOf(remote[..i])
      invariant report == Report(|manifest|, map[], |remote|, ProvenanceCount(remote[..i]), i - ProvenanceCount(remote[..i]), [], [], [])
    {
      OneMoreMemory(remote, i);
      var item := remote[i];
      var sourcePath := SourcePathOf(item.metadata);
      var sourceID := SourceIDOf(item.metadata);
      if sourcePath != "" && sourceID != "" {
        report := report.(withProvenance := report.withProvenance + 1);
        var key := ParityKey(sourcePath, sourceID);
        exactIndex := exactIndex[key := (if key in exactIndex then exactIndex[key] else []) + [item]];
      } else {
        report := report.(withoutProvenance := report.withoutProvenance + 1);
      }
    }
    assert remote[..|remote|] == remote;
    ghost var withP, withoutP := report.withProvenance, report.withoutProvenance;
    var used: set<string> := {};
    assert manifest[..0] == [];
    for i := 0 to |manifest|
      invariant used == Used(Audit(lower, manifest[..i], remote))
      invariant report == Report(|manifest|, KindCounts(manifest[..i]), |remote|, withP, withoutP,
                                 Exacts(manifest[..i], Audit(lower, manifest[..i], remote)),
                                 Contents(manifest[..i], Audit(lower, manifest[..i], remote)),
                                 Missings(manifest[..i], Audit(lower, manifest[..i], remote)))
    {
      var entry := manifest[i];
      OneMoreEntry(lower, manifest, i, remote);
      report := report.(manifestByKind := Bump(report.manifestByKind, entry.kind));
      var v := Classify(lower, entry, remote, exactIndex, used);
      match v
      case Exact(id) =>
        report := report.(exact := report.exact + [Match(entry, id)]);
        used := used + {id};
      case Content(id) =>
        report := report.(content := report.content + [Match(entry, id)]);
        used := used + {id};
      case Missing =>
        report := report.(missing := report.missing + [entry]);
    }
    assert manifest[..|manifest|] == manifest;
  }

  lemma StartEmpty(lower: string -> string, remote: seq<Remote>)
    ensures Audit(lower, [], remote) == [] && Used([]) == {} && KindCounts([]) == map[]
    ensures Exacts([], []) == [] && Contents([], []) == [] && Missings([], []) == []
    ensures IndexOf([]) == map[] && ProvenanceCount([]) == 0 && remote[..0] == []
  {
  }
}
