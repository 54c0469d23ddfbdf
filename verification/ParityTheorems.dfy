/** What the parity report says, and when one sync is enough to prove parity. */
module ParityTheorems {
  import opened Wrappers
  import opened GoStrings
  import opened Parity
  import opened ParitySync

  // ---------------------------------------------------------------- the audit

  /** Some remote memory carries the key. */
  predicate Present(remote: seq<Remote>, key: string) {
    exists i :: 0 <= i < |remote| && Carries(remote[i].metadata, key)
  }

  lemma {:induction false} FirstWithKeyMeaning(remote: seq<Remote>, key: string)
    ensures FirstWithKey(remote, key).Some? <==> Present(remote, key)
    ensures var r := FirstWithKey(remote, key); r.Some? ==> r.value in remote && Carries(r.value.metadata, key)
  {
    hide Carries;
    if remote != [] {
      FirstWithKeyMeaning(remote[1..], key);
      if Carries(remote[0].metadata, key) {
        assert Present(remote, key);
      } else if i :| 0 <= i < |remote| && Carries(remote[i].metadata, key) {
        assert remote[1..][i - 1] == remote[i];
        assert Present(remote[1..], key);
      }
    }
  }

  /** An unused remote memory matches the entry by content. */
  predicate Similar(lower: string -> string, e: Entry, r: Remote, used: set<string>) {
    r.id !in used && ContentMatches(lower, e, r.memory)
  }

  lemma {:induction false} FirstByContentMeaning(lower: string -> string, e: Entry, remote: seq<Remote>, used: set<string>)
    ensures var r := FirstByContent(lower, e, remote, used);
            && (r.None? <==> forall i :: 0 <= i < |remote| ==> !Similar(lower, e, remote[i], used))
            && (r.Some? ==> r.value in remote && Similar(lower, e, r.value, used))
  {
    hide ContentMatches;
    if remote != [] {
      FirstByContentMeaning(lower, e, remote[1..], used);
      assert forall i :: 1 <= i < |remote| ==> remote[i] == remote[1..][i - 1];
    }
  }

  lemma {:induction false} AuditPrefix(lower: string -> string, manifest: seq<Entry>, remote: seq<Remote>, i: nat)
    requires i <= |manifest|
    ensures Audit(lower, manifest[..i], remote) == Audit(lower, manifest, remote)[..i]
    decreases |manifest|
  {
    hide Judge;
    if i == |manifest| {
      assert manifest[..i] == manifest;
    } else {
      var n := |manifest| - 1;
      AuditPrefix(lower, manifest[..n], remote, i);
      assert manifest[..n][..i] == manifest[..i];
      var before := Audit(lower, manifest[..n], remote);
      assert Audit(lower, manifest, remote)[..n] == before;
      assert Audit(lower, manifest, remote)[..i] == before[..i];
    }
  }

  /** Each entry is judged against what the entries before it have used. */
  lemma AuditAt(lower: string -> string, manifest: seq<Entry>, remote: seq<Remote>, i: nat)
    requires i < |manifest|
    ensures var vs := Audit(lower, manifest, remote);
            vs[i] == Judge(lower, manifest[i], remote, Used(vs[..i]))
  {
    hide Judge, Used;
    AuditPrefix(lower, manifest, remote, i);
    AuditPrefix(lower, manifest, remote, i + 1);
    OneMoreEntry(lower, manifest, i, remote);
    var vs := Audit(lower, manifest, remote);
    assert vs[i] == vs[..i + 1][i];
  }

  /** What the three verdicts mean, each in both directions. */
  lemma VerdictMeaning(lower: string -> string, manifest: seq<Entry>, remote: seq<Remote>, i: nat)
    requires i < |manifest|
    ensures var vs := Audit(lower, manifest, remote);
            var e, v, used := manifest[i], vs[i], Used(vs[..i]);
            && (v.Exact? <==> Present(remote, EntryKey(e)))
            && (v.Exact? ==> exists r :: r in remote && r.id == v.id && Carries(r.metadata, EntryKey(e)))
            && (v.Content? <==> !Present(remote, EntryKey(e)) && exists r :: r in remote && Similar(lower, e, r, used))
            && (v.Content? ==> exists r :: r in remote && r.id == v.id && Similar(lower, e, r, used))
  {
    hide Carries, Similar, EntryKey;
    AuditAt(lower, manifest, remote, i);
    var e, used := manifest[i], Used(Audit(lower, manifest, remote)[..i]);
    FirstWithKeyMeaning(remote, EntryKey(e));
    FirstByContentMeaning(lower, e, remote, used);
    if r :| r in remote && Similar(lower, e, r, used) {
      var k :| 0 <= k < |remote| && remote[k] == r;
    }
  }

  lemma {:induction false} UsedMeaning(vs: seq<Verdict>)
    ensures forall id :: id in Used(vs) <==> exists j :: 0 <= j < |vs| && !vs[j].Missing? && vs[j].id == id
  {
    if vs != [] {
      var n := |vs| - 1;
      UsedMeaning(vs[..n]);
      assert forall j :: 0 <= j < n ==> vs[..n][j] == vs[j];
      forall id ensures id in Used(vs) <==> exists j :: 0 <= j < |vs| && !vs[j].Missing? && vs[j].id == id {
        if id in Used(vs[..n]) {
          var j :| 0 <= j < n && !vs[..n][j].Missing? && vs[..n][j].id == id;
          assert !vs[j].Missing? && vs[j].id == id;
        }
      }
    }
  }

  /** A remote memory is content-matched at most once, and never after it has been matched at all. */
  lemma ContentMatchesDistinct(lower: string -> string, manifest: seq<Entry>, remote: seq<Remote>, i: nat, j: nat)
    requires j < i < |manifest|
    ensures var vs := Audit(lower, manifest, remote);
            vs[i].Content? && !vs[j].Missing? ==> vs[i].id != vs[j].id
  {
    hide Judge;
    var vs := Audit(lower, manifest, remote);
    VerdictMeaning(lower, manifest, remote, i);
    UsedMeaning(vs[..i]);
    assert vs[..i][j] == vs[j];
  }

  /** Positions k where the verdict has the wanted shape, in increasing order. */
  function Positions(vs: seq<Verdict>, wanted: Verdict -> bool): (ks: seq<nat>)
    ensures forall i :: 0 <= i < |ks| ==> ks[i] < |vs| && wanted(vs[ks[i]])
    ensures forall i, j :: 0 <= i < j < |ks| ==> ks[i] < ks[j]
    ensures forall k :: 0 <= k < |vs| && wanted(vs[k]) ==> k in ks
  {
    if vs == [] then []
    else
      var n := |vs| - 1;
      Positions(vs[..n], wanted) + if wanted(vs[n]) then [n] else []
  }

  function IsExact(): Verdict -> bool { (v: Verdict) => v.Exact? }
  function IsContent(): Verdict -> bool { (v: Verdict) => v.Content? }
  function IsMissing(): Verdict -> bool { (v: Verdict) => v.Missing? }

  lemma {:induction false} ExactsInOrder(manifest: seq<Entry>, vs: seq<Verdict>)
    requires |manifest| == |vs|
    ensures var ks := Positions(vs, IsExact());
            |ks| == |Exacts(manifest, vs)| &&
            forall i :: 0 <= i < |ks| ==> Exacts(manifest, vs)[i] == Match(manifest[ks[i]], vs[ks[i]].id)
  {
    if vs != [] { ExactsInOrder(manifest[..|vs| - 1], vs[..|vs| - 1]); }
  }

  lemma {:induction false} ContentsInOrder(manifest: seq<Entry>, vs: seq<Verdict>)
    requires |manifest| == |vs|
    ensures var ks := Positions(vs, IsContent());
            |ks| == |Contents(manifest, vs)| &&
            forall i :: 0 <= i < |ks| ==> Contents(manifest, vs)[i] == Match(manifest[ks[i]], vs[ks[i]].id)
  {
    if vs != [] { ContentsInOrder(manifest[..|vs| - 1], vs[..|vs| - 1]); }
  }

  lemma {:induction false} MissingsInOrder(manifest: seq<Entry>, vs: seq<Verdict>)
    requires |manifest| == |vs|
    ensures var ks := Positions(vs, IsMissing());
            |ks| == |Missings(manifest, vs)| &&
            forall i :: 0 <= i < |ks| ==> Missings(manifest, vs)[i] == manifest[ks[i]]
  {
    if vs != [] { MissingsInOrder(manifest[..|vs| - 1], vs[..|vs| - 1]); }
  }

  lemma {:induction false} ListsAddUp(manifest: seq<Entry>, vs: seq<Verdict>)
    requires |manifest| == |vs|
    ensures |Exacts(manifest, vs)| + |Contents(manifest, vs)| + |Missings(manifest, vs)| == |manifest|
  {
    if vs != [] { ListsAddUp(manifest[..|vs| - 1], vs[..|vs| - 1]); }
  }

  /**
   The three lists split the manifest and keep its order: list by list they hold the entries at the
   positions with that verdict, in increasing order.
   */
  lemma OrderedPartition(manifest: seq<Entry>, vs: seq<Verdict>)
    requires |manifest| == |vs|
    ensures var es, cs, ms := Positions(vs, IsExact()), Positions(vs, IsContent()), Positions(vs, IsMissing());
            && |es| == |Exacts(manifest, vs)| && |cs| == |Contents(manifest, vs)| && |ms| == |Missings(manifest, vs)|
            && |es| + |cs| + |ms| == |manifest|
            && (forall i :: 0 <= i < |es| ==> Exacts(manifest, vs)[i] == Match(manifest[es[i]], vs[es[i]].id))
            && (forall i :: 0 <= i < |cs| ==> Contents(manifest, vs)[i] == Match(manifest[cs[i]], vs[cs[i]].id))
            && (forall i :: 0 <= i < |ms| ==> Missings(manifest, vs)[i] == manifest[ms[i]])
  {
    hide Exacts, Contents, Missings, Positions;
    ExactsInOrder(manifest, vs);
    ContentsInOrder(manifest, vs);
    MissingsInOrder(manifest, vs);
    ListsAddUp(manifest, vs);
  }

  /** Parity is proven exactly when nothing is content-only and nothing is missing. */
  lemma ProvenIffNothingLeft(lower: string -> string, manifest: seq<Entry>, remote: seq<Remote>)
    ensures var r := ReportOf(lower, manifest, remote);
            && |r.exact| + |r.content| + |r.missing| == |manifest|
            && r.withProvenance + r.withoutProvenance == |remote|
            && (Proven(r) <==> r.content == [] && r.missing == [])
  {
    hide Audit;
    OrderedPartition(manifest, Audit(lower, manifest, remote));
  }

  /**
   Hence the verdict does not depend on the order in which the service lists its memories: parity
   is proven exactly when every entry's key is carried by some remote memory.
   */
  lemma ProvenIffAllPresent(lower: string -> string, manifest: seq<Entry>, remote: seq<Remote>)
    ensures Proven(ReportOf(lower, manifest, remote)) <==>
            forall i :: 0 <= i < |manifest| ==> Present(remote, EntryKey(manifest[i]))
  {
    hide Present, EntryKey, Judge;
    var vs := Audit(lower, manifest, remote);
    OrderedPartition(manifest, vs);
    forall i | 0 <= i < |manifest| ensures vs[i].Exact? <==> Present(remote, EntryKey(manifest[i])) {
      VerdictMeaning(lower, manifest, remote, i);
    }
    AllExact(vs);
    ProvenIffNothingLeft(lower, manifest, remote);
  }

  lemma {:induction false} AllExact(vs: seq<Verdict>)
    ensures |Positions(vs, IsContent())| == 0 && |Positions(vs, IsMissing())| == 0 <==>
            forall i :: 0 <= i < |vs| ==> vs[i].Exact?
  {
    var cs, ms := Positions(vs, IsContent()), Positions(vs, IsMissing());
    if |cs| == 0 && |ms| == 0 {
      forall i | 0 <= i < |vs| ensures vs[i].Exact? {
        assert !(IsContent()(vs[i])) && !(IsMissing()(vs[i]));
      }
    } else if |cs| > 0 {
      assert IsContent()(vs[cs[0]]);
    } else {
      assert IsMissing()(vs[ms[0]]);
    }
  }

  lemma {:induction false} KindCountsMeaning(manifest: seq<Entry>, kind: string)
    ensures var m := KindCounts(manifest);
            && (kind in m <==> KindCount(manifest, kind) > 0)
            && (kind in m ==> m[kind] == KindCount(manifest, kind))
  {
    if manifest != [] { KindCountsMeaning(manifest[..|manifest| - 1], kind); }
  }

  function KindCount(manifest: seq<Entry>, kind: string): nat {
    if manifest == [] then 0
    else KindCount(manifest[..|manifest| - 1], kind) + if manifest[|manifest| - 1].kind == kind then 1 else 0
  }

  // ---------------------------------------------------------------- what the sync writes is recognised

  /** The entry's provenance survives being written and read back. */
  predicate Clean(e: Entry) {
    var np := NormalisePath(e.sourcePath);
    np != "" && NormalisePath(np) == np && TrimSpace(e.sourceID) != ""
  }

  lemma NormaliseShortens(p: string)
    ensures |NormalisePath(p)| <= |TrimSpace(p)|
  {
    hide TrimSpace, Index, TrimPrefix;
  }

  lemma NormaliseTrims(p: string)
    ensures NormalisePath(TrimSpace(p)) == NormalisePath(p)
  {
    hide TrimSpace, Index, TrimPrefix;
    TrimTwice(p);
  }

  lemma FixedPointTrimmed(np: string)
    requires NormalisePath(np) == np
    ensures TrimSpace(np) == np
  {
    hide NormalisePath;
    NormaliseShortens(np);
  }

  lemma ProvenanceFields(site: Site, e: Entry, existing: Option<Metadata>)
    ensures var m := MergeMetadata(existing, ProvenanceMetadata(site, e));
            && SourcePath in m && m[SourcePath] == Str(NormalisePath(e.sourcePath))
            && SourceID in m && m[SourceID] == Str(e.sourceID)
  {
    hide NormalisePath;
  }

  /** A record the sync writes for a clean entry is found under the entry's own key. */
  lemma WrittenRecordRecognised(site: Site, e: Entry, existing: Option<Metadata>)
    requires Clean(e)
    ensures Carries(Some(MergeMetadata(existing, ProvenanceMetadata(site, e))), EntryKey(e))
  {
    hide NormalisePath, MergeMetadata, ProvenanceMetadata, TrimSpace;
    var np := NormalisePath(e.sourcePath);
    ProvenanceFields(site, e, existing);
    FixedPointTrimmed(np);
    var m := Some(MergeMetadata(existing, ProvenanceMetadata(site, e)));
    assert StringMetadata(m, SourcePath) == np;
    assert SourcePathOf(m) == np;
    assert StringMetadata(m, SourceID) == TrimSpace(e.sourceID);
    assert SourceIDOf(m) == TrimSpace(e.sourceID);
    TrimTwice(e.sourceID);
  }

  lemma TrimTwice(s: string)
    ensures TrimSpace(TrimSpace(s)) == TrimSpace(s)
  {
  }

  lemma KeyCancels(a: string, b: string, id: string)
    ensures a + "::" + id == b + "::" + id <==> a == b
  {
    if a + "::" + id == b + "::" + id {
      assert |a| == |b|;
      assert a == (a + "::" + id)[..|a|] && b == (b + "::" + id)[..|b|];
    }
  }

  /** For a newly added record the condition is exact. */
  lemma NewRecordRecognisedIff(site: Site, e: Entry)
    ensures Carries(Some(ProvenanceMetadata(site, e)), EntryKey(e)) <==> Clean(e)
  {
    hide NormalisePath, TrimSpace;
    var np, t := NormalisePath(e.sourcePath), TrimSpace(e.sourceID);
    var m := Some(ProvenanceMetadata(site, e));
    assert StringMetadata(m, SourcePath) == TrimSpace(np) && StringMetadata(m, SourceID) == t;
    assert forall f :: f in [SourcePathCamel, SourceFile, PathField, SourceIDCamel, SourceEntryID, EntryID] ==> f !in m.value;
    OnlyFirst(m, SourcePath, [SourcePathCamel, SourceFile, PathField]);
    OnlyFirst(m, SourceID, [SourceIDCamel, SourceEntryID, EntryID]);
    assert SourcePathOf(m) == TrimSpace(np) && SourceIDOf(m) == t;
    NormaliseTrims(np);
    TrimTwice(e.sourceID);
    KeyCancels(NormalisePath(np), np, t);
    if NormalisePath(np) == np { FixedPointTrimmed(np); }
    if TrimSpace(np) == "" { EmptyPath(np); }
  }

  lemma EmptyPath(np: string)
    requires TrimSpace(np) == ""
    ensures NormalisePath(np) == ""
  {
    hide TrimSpace;
    NormaliseShortens(np);
  }

  lemma {:induction false} OnlyFirst(m: Option<Metadata>, key: Field, others: seq<Field>)
    requires m.Some? && forall f :: f in others ==> f !in m.value
    ensures FirstOf(m, [key] + others) == StringMetadata(m, key)
    decreases others
  {
    if others != [] {
      assert ([key] + others)[1..] == others;
      assert others == [others[0]] + others[1..];
      OnlyFirst(m, others[0], others[1..]);
      assert others[0] !in m.value;
    } else {
      assert ([key] + others)[1..] == [];
    }
  }
}
