/** What the drainer delivers to each backend, and exactly when it pushes a capsule twice. */
module QuotaDrainTheorems {
  import opened Wrappers
  import opened Capsules
  import opened Outbox
  import opened OutboxTheorems
  import opened QuotaDrain
  import opened Repeats

  // ---------------------------------------------------------------- one drain

  function PendingIn(st: Store, decode: Decoder): seq<OutboxCapsule> { Remaining(FileOf(st), st.cursor, decode) }

  predicate StoppedAtOss(err: Option<DrainError>) { err.Some? && err.value.OssFailed? }

  predicate StoppedAtCursor(err: Option<DrainError>) { err == Some(CursorLost) }

  /**
   Between `d` and `t` both backends accepted and the cursor confirmed `done`, the next pending
   capsules. The managed backend accepted one more when the drain then stopped on an OSS failure,
   both did when it stopped on a lost cursor write.
   */
  ghost predicate DeliversBoth(before: seq<OutboxCapsule>, after: seq<OutboxCapsule>, d: Drained, t: Drained, done: seq<OutboxCapsule>) {
    && t.store.pending == d.store.pending
    && before == done + after
    && (StoppedAtOss(t.err) || StoppedAtCursor(t.err) ==> after != [])
    && t.drained == d.drained + |done| + (if StoppedAtCursor(t.err) then 1 else 0)
    && t.store.managed == d.store.managed + done + (if StoppedAtOss(t.err) || StoppedAtCursor(t.err) then [after[0]] else [])
    && t.store.oss == d.store.oss + done + (if StoppedAtCursor(t.err) then [after[0]] else [])
  }

  lemma PushBothDelivers(b: Backends, d: Drained, c: OutboxCapsule, start: seq<OutboxCapsule>, rest: seq<OutboxCapsule>, end: nat)
    requires b.managed.Some? && b.oss.Some? && d.err.None?
    requires start == [c] + rest
    ensures var t := PushBoth(b, d, c, end);
            && (t.err.None? ==> DeliversBoth(start, rest, d, t, [c]) && t.store.cursor == end)
            && (t.err.Some? ==> DeliversBoth(start, start, d, t, []) && t.store.cursor == d.store.cursor)
  {
    assert d.store.managed + [] == d.store.managed && d.store.oss + [] == d.store.oss && [] + start == start;
  }

  lemma DeliversBothTransitive(r: seq<OutboxCapsule>, r': seq<OutboxCapsule>, r'': seq<OutboxCapsule>,
                               d: Drained, g: Drained, t: Drained, a: seq<OutboxCapsule>, b: seq<OutboxCapsule>)
    requires DeliversBoth(r, r', d, g, a) && g.err.None? && DeliversBoth(r', r'', g, t, b)
    ensures DeliversBoth(r, r'', d, t, a + b)
  {
    assert a + (b + r'') == (a + b) + r'';
    var x := if StoppedAtOss(t.err) || StoppedAtCursor(t.err) then [r''[0]] else [];
    var y := if StoppedAtCursor(t.err) then [r''[0]] else [];
    assert (d.store.managed + a + []) + b + x == d.store.managed + (a + b) + x;
    assert (d.store.oss + a + []) + b + y == d.store.oss + (a + b) + y;
  }

  lemma {:induction false} DrainBatchDelivers(b: Backends, s: string, at: nat, room: int, d: Drained) returns (done: seq<OutboxCapsule>)
    requires b.managed.Some? && b.oss.Some? && d.err.None?
    requires Remaining(s, d.store.cursor, b.decode) == Remaining(s, at, b.decode)
    requires d.store.cursor <= |s|
    ensures var t := DrainBatch(b, s, at, room, d);
            && t.store.cursor <= |s|
            && DeliversBoth(Remaining(s, d.store.cursor, b.decode), Remaining(s, t.store.cursor, b.decode), d, t, done)
    decreases |s| - at
  {
    hide ReadLine, PushBoth, DeliversBoth;
    done := [];
    if room <= 0 || at >= |s| {
      NothingDelivered(Remaining(s, d.store.cursor, b.decode), d);
    } else {
      var end := LineEnd(s, at);
      var line := ReadLine(s[at..end], b.decode);
      var g := DrainLine(b, line, end, d);
      var rest := Remaining(s, end, b.decode);
      if line.Holds? {
        PushBothDelivers(b, d, line.capsule, Remaining(s, at, b.decode), rest, end);
        if g.err.None? {
          var more := DrainBatchDelivers(b, s, end, room - 1, g);
          var t := DrainBatch(b, s, end, room - 1, g);
          DeliversBothTransitive(Remaining(s, d.store.cursor, b.decode), rest, Remaining(s, t.store.cursor, b.decode), d, g, t, [line.capsule], more);
          done := [line.capsule] + more;
        }
      } else {
        SkipDelivers(d, g);
        done := DrainBatchDelivers(b, s, end, room, g);
        var t := DrainBatch(b, s, end, room, g);
        SameDelivery(Remaining(s, d.store.cursor, b.decode), Remaining(s, t.store.cursor, b.decode), d, g, t, done);
      }
    }
  }

  lemma NothingDelivered(rest: seq<OutboxCapsule>, d: Drained)
    requires d.err.None?
    ensures DeliversBoth(rest, rest, d, d, [])
  {
    assert d.store.managed + [] + [] == d.store.managed && d.store.oss + [] + [] == d.store.oss && [] + rest == rest;
  }

  lemma SkipDelivers(d: Drained, g: Drained)
    requires g == d || g == d.(skipped := d.skipped + 1)
    ensures g.store == d.store && g.drained == d.drained && g.err == d.err
  {
  }

  /** Skipped lines do not enter the account. */
  lemma SameDelivery(r: seq<OutboxCapsule>, r': seq<OutboxCapsule>, d: Drained, g: Drained, t: Drained, done: seq<OutboxCapsule>)
    requires DeliversBoth(r, r', g, t, done) && g.store == d.store && g.drained == d.drained
    ensures DeliversBoth(r, r', d, t, done)
  {
  }

  /** Every drain, whatever fails in it. */
  lemma DrainDelivers(b: Backends, st: Store) returns (done: seq<OutboxCapsule>)
    requires st.cursor <= |FileOf(st)|
    ensures var t := DrainOf(b, st);
            && t.store.cursor <= |FileOf(st)|
            && DeliversBoth(PendingIn(st, b.decode), PendingIn(t.store, b.decode), Drained(st, 0, 0, None), t, done)
  {
    hide DrainBatch, Remaining;
    done := [];
    assert st.managed + [] + [] == st.managed && st.oss + [] + [] == st.oss;
    if b.managed.Some? && b.oss.Some? && st.pending.Some? {
      done := DrainBatchDelivers(b, FileOf(st), st.cursor, b.Limit(), Drained(st, 0, 0, None));
    }
  }

  // ---------------------------------------------------------------- the first call of a drain

  /** The drain gets as far as a first call, and the managed backend accepts it. */
  predicate ManagedTakes(b: Backends, st: Store) {
    var rest := PendingIn(st, b.decode);
    b.managed.Some? && b.oss.Some? && rest != [] && b.managed.value(st.managedCalls, rest[0]).None?
  }

  /** And so does the OSS backend. */
  predicate OssTakes(b: Backends, st: Store) {
    ManagedTakes(b, st) && b.oss.value(st.ossCalls, PendingIn(st, b.decode)[0]).None?
  }

  lemma {:induction false} DrainedGrows(b: Backends, s: string, at: nat, room: int, d: Drained)
    requires b.managed.Some? && b.oss.Some?
    ensures DrainBatch(b, s, at, room, d).drained >= d.drained
    decreases |s| - at
  {
    hide ReadLine;
    if room > 0 && at < |s| && d.err.None? {
      var end := LineEnd(s, at);
      var line := ReadLine(s[at..end], b.decode);
      DrainedGrows(b, s, end, if line.Holds? then room - 1 else room, DrainLine(b, line, end, d));
    }
  }

  lemma {:induction false} BatchFirst(b: Backends, s: string, at: nat, room: int, d: Drained)
    requires b.managed.Some? && b.oss.Some? && d.err.None? && room > 0
    ensures var t := DrainBatch(b, s, at, room, d);
            var rest := Remaining(s, at, b.decode);
            && (t.drained > d.drained <==>
                rest != [] && b.managed.value(d.store.managedCalls, rest[0]).None? && b.oss.value(d.store.ossCalls, rest[0]).None?)
            && (t.drained > d.drained || StoppedAtOss(t.err) <==>
                rest != [] && b.managed.value(d.store.managedCalls, rest[0]).None?)
    decreases |s| - at
  {
    hide ReadLine;
    if at < |s| {
      var end := LineEnd(s, at);
      var line := ReadLine(s[at..end], b.decode);
      var g := DrainLine(b, line, end, d);
      if line.Holds? {
        DrainedGrows(b, s, end, room - 1, g);
      } else {
        BatchFirst(b, s, end, room, g);
      }
    }
  }

  /** What a drain reports tells whether its first call was accepted. */
  lemma FirstCall(b: Backends, st: Store)
    ensures var t := DrainOf(b, st);
            && (OssTakes(b, st) <==> t.drained > 0)
            && (ManagedTakes(b, st) <==> t.drained > 0 || StoppedAtOss(t.err))
  {
    hide DrainBatch;
    if b.managed.Some? && b.oss.Some? && st.pending.Some? {
      BatchFirst(b, FileOf(st), st.cursor, b.Limit(), Drained(st, 0, 0, None));
    }
  }

  // ---------------------------------------------------------------- histories

  datatype Event = Appending(capsule: OutboxCapsule) | Draining(backends: Backends)

  function Next(codec: Codec, st: Store, e: Event): Store {
    match e
    case Appending(c) => st.(pending := Some(FileOf(st) + (codec.encode(c) + "\n")))
    case Draining(b) => DrainOf(b, st).store
  }

  function Play(codec: Codec, st: Store, es: seq<Event>): Store
    decreases es
  {
    if es == [] then st else Play(codec, Next(codec, st, es[0]), es[1..])
  }

  function Written(es: seq<Event>): seq<OutboxCapsule> {
    if es == [] then [] else (if es[0].Appending? then [es[0].capsule] else []) + Written(es[1..])
  }

  /** A store with what the history tells of it: which backends have already accepted the first pending capsule, and the repeats so far. */
  datatype Track = Track(store: Store, managedHeld: bool, ossHeld: bool, managedRepeats: nat, ossRepeats: nat)

  /**
   After an OSS failure the managed backend holds the capsule at the cursor, after a lost cursor
   write both do; a drain that confirmed its first capsule leaves nothing held otherwise, and one
   that got nowhere leaves everything as it was. A drain repeats a capsule when its first call is
   accepted by a backend that holds it.
   */
  function Follow(codec: Codec, tr: Track, e: Event): Track {
    match e
    case Appending(c) => tr.(store := Next(codec, tr.store, e))
    case Draining(b) =>
      var t := DrainOf(b, tr.store);
      Track(
        t.store,
        StoppedAtOss(t.err) || StoppedAtCursor(t.err) || (t.drained == 0 && tr.managedHeld),
        StoppedAtCursor(t.err) || (t.drained == 0 && tr.ossHeld),
        tr.managedRepeats + (if tr.managedHeld && ManagedTakes(b, tr.store) then 1 else 0),
        tr.ossRepeats + (if tr.ossHeld && OssTakes(b, tr.store) then 1 else 0))
  }

  function FollowAll(codec: Codec, tr: Track, es: seq<Event>): Track
    decreases es
  {
    if es == [] then tr else FollowAll(codec, Follow(codec, tr, es[0]), es[1..])
  }

  ghost predicate SameFormat(codec: Codec, es: seq<Event>) {
    codec.Valid() && forall i :: 0 <= i < |es| && es[i].Draining? ==> es[i].backends.decode == codec.decode
  }

  /** The file ends with a line break and the cursor lies in it. */
  predicate Whole(st: Store) { WholeLines(FileOf(st)) && st.cursor <= |FileOf(st)| }

  /** The first `k` capsules written are confirmed, and each backend has an account of them: see Account. */
  ghost predicate Kept(codec: Codec, tr: Track, written: seq<OutboxCapsule>, k: nat, cm: seq<nat>, co: seq<nat>) {
    && Whole(tr.store)
    && k <= |written| && written[k..] == PendingIn(tr.store, codec.decode)
    && Account(tr.store.managed, written, k, cm, tr.managedHeld, tr.managedRepeats)
    && Account(tr.store.oss, written, k, co, tr.ossHeld, tr.ossRepeats)
  }

  lemma AppendPending(codec: Codec, st: Store, c: OutboxCapsule)
    requires codec.Valid() && Whole(st)
    ensures var t := Next(codec, st, Appending(c));
            Whole(t) && PendingIn(t, codec.decode) == PendingIn(st, codec.decode) + [c]
  {
    hide Remaining;
    RemainingAppend(FileOf(st), codec.encode(c), st.cursor, codec.decode, c);
  }

  lemma AppendKept(codec: Codec, tr: Track, c: OutboxCapsule, written: seq<OutboxCapsule>, k: nat, cm: seq<nat>, co: seq<nat>)
    requires codec.Valid() && Kept(codec, tr, written, k, cm, co)
    ensures Kept(codec, Follow(codec, tr, Appending(c)), written + [c], k, cm + [0], co + [0])
  {
    hide PendingIn, Account, Whole;
    var st := tr.store;
    AppendPending(codec, st, c);
    assert (written + [c])[k..] == written[k..] + [c];
    AccountAppend(st.managed, written, k, cm, tr.managedHeld, tr.managedRepeats, c);
    AccountAppend(st.oss, written, k, co, tr.ossHeld, tr.ossRepeats, c);
  }

  /** What a delivery adds to the two accounts. */
  lemma BothAccounts(before: seq<OutboxCapsule>, after: seq<OutboxCapsule>, d: Drained, t: Drained, done: seq<OutboxCapsule>,
                     written: seq<OutboxCapsule>, k: nat, cm: seq<nat>, co: seq<nat>, mHeld: bool, oHeld: bool, m: nat, o: nat)
    returns (k': nat, cm': seq<nat>, co': seq<nat>)
    requires DeliversBoth(before, after, d, t, done) && k <= |written| && written[k..] == before
    requires Account(d.store.managed, written, k, cm, mHeld, m) && Account(d.store.oss, written, k, co, oHeld, o)
    ensures k' + |after| == |written| && written[k'..] == after
    ensures var x, y := StoppedAtOss(t.err) || StoppedAtCursor(t.err), StoppedAtCursor(t.err);
            && Account(t.store.managed, written, k', cm', x || (done == [] && mHeld), m + if mHeld && (x || done != []) then 1 else 0)
            && Account(t.store.oss, written, k', co', y || (done == [] && oHeld), o + if oHeld && (y || done != []) then 1 else 0)
  {
    hide Account;
    k' := k + |done|;
    assert written == written[..k] + (done + after);
    assert written[k..k'] == done && written[k'..] == after;
    assert after != [] ==> written[k'] == after[0];
    cm' := AccountMore(d.store.managed, written, k, cm, mHeld, m, done, StoppedAtOss(t.err) || StoppedAtCursor(t.err));
    co' := AccountMore(d.store.oss, written, k, co, oHeld, o, done, StoppedAtCursor(t.err));
  }

  lemma DrainKept(codec: Codec, tr: Track, b: Backends, written: seq<OutboxCapsule>, k: nat, cm: seq<nat>, co: seq<nat>)
    returns (k': nat, cm': seq<nat>, co': seq<nat>)
    requires b.decode == codec.decode && Kept(codec, tr, written, k, cm, co)
    ensures Kept(codec, Follow(codec, tr, Draining(b)), written, k', cm', co')
  {
    hide DrainOf, Account, ManagedTakes, OssTakes, DeliversBoth, FileOf, PendingIn, WholeLines;
    var st := tr.store;
    var done := DrainDelivers(b, st);
    FirstCall(b, st);
    var t := DrainOf(b, st);
    FileKept(b, st, t, done);
    k', cm', co' := BothAccounts(PendingIn(st, b.decode), PendingIn(t.store, b.decode), Drained(st, 0, 0, None), t, done,
                                 written, k, cm, co, tr.managedHeld, tr.ossHeld, tr.managedRepeats, tr.ossRepeats);
  }

  /** A drain leaves the file alone, and tells by its count whether it confirmed anything. */
  lemma FileKept(b: Backends, st: Store, t: Drained, done: seq<OutboxCapsule>)
    requires DeliversBoth(PendingIn(st, b.decode), PendingIn(t.store, b.decode), Drained(st, 0, 0, None), t, done)
    ensures FileOf(t.store) == FileOf(st)
    ensures t.drained > 0 <==> done != [] || StoppedAtCursor(t.err)
  {
    hide Remaining;
  }

  lemma {:induction false} HistoryKept(codec: Codec, tr: Track, es: seq<Event>, written: seq<OutboxCapsule>, k: nat, cm: seq<nat>, co: seq<nat>)
    returns (k': nat, cm': seq<nat>, co': seq<nat>)
    requires SameFormat(codec, es) && Kept(codec, tr, written, k, cm, co)
    ensures Kept(codec, FollowAll(codec, tr, es), written + Written(es), k', cm', co')
    decreases |es|
  {
    hide Follow, Kept;
    if es == [] {
      k', cm', co' := k, cm, co;
      assert written + [] == written;
    } else {
      var rest := es[1..];
      assert forall i :: 0 <= i < |rest| ==> rest[i] == es[i + 1];
      match es[0]
      case Appending(c) =>
        AppendKept(codec, tr, c, written, k, cm, co);
        k', cm', co' := HistoryKept(codec, Follow(codec, tr, es[0]), rest, written + [c], k, cm + [0], co + [0]);
        assert (written + [c]) + Written(rest) == written + ([c] + Written(rest));
      case Draining(b) =>
        k', cm', co' := DrainKept(codec, tr, b, written, k, cm, co);
        k', cm', co' := HistoryKept(codec, Follow(codec, tr, es[0]), rest, written, k', cm', co');
        assert [] + Written(rest) == Written(rest);
    }
  }

  lemma {:induction false} FollowPlays(codec: Codec, tr: Track, es: seq<Event>)
    ensures FollowAll(codec, tr, es).store == Play(codec, tr.store, es)
    decreases es
  {
    hide DrainOf, ManagedTakes, OssTakes;
    if es != [] { FollowPlays(codec, Follow(codec, tr, es[0]), es[1..]); }
  }

  predicate Fresh(st: Store) { st.pending == None && st.cursor == 0 && st.managed == [] && st.oss == [] }

  function Untracked(st: Store): Track { Track(st, false, false, 0, 0) }

  lemma FreshKept(codec: Codec, st: Store)
    requires Fresh(st)
    ensures Kept(codec, Untracked(st), [], 0, [], [])
  {
    NothingYet<OutboxCapsule>();
  }

  /**
   Exactly when a capsule is pushed twice. Over every history of appends and drains, with failing
   pushes and lost cursor writes anywhere, each backend has accepted the confirmed capsules, in
   order, each at least once and repeats directly behind the first, and perhaps the one at the
   cursor. It has accepted some capsule twice if and only if some drain made its first call for a
   capsule the backend held already, and the backend accepted it again. Without repeats it has the
   confirmed capsules exactly once, and the one at the cursor if it holds it.
   */
  lemma PushedTwiceIff(codec: Codec, st: Store, es: seq<Event>) returns (k: nat, cm: seq<nat>, co: seq<nat>)
    requires SameFormat(codec, es) && Fresh(st)
    ensures k <= |Written(es)| && Written(es)[k..] == PendingIn(Play(codec, st, es), codec.decode)
    ensures var t, tr := Play(codec, st, es), FollowAll(codec, Untracked(st), es);
            && Accepted(t.managed, Written(es), k, cm, tr.managedHeld) && (Twice(cm) <==> tr.managedRepeats > 0)
            && Accepted(t.oss, Written(es), k, co, tr.ossHeld) && (Twice(co) <==> tr.ossRepeats > 0)
  {
    hide FollowAll, Play, PendingIn, Written, Account, Accepted, SameFormat, Fresh, Whole, Twice;
    FreshKept(codec, st);
    k, cm, co := HistoryKept(codec, Untracked(st), es, [], 0, [], []);
    FollowPlays(codec, Untracked(st), es);
    var t, written := FollowAll(codec, Untracked(st), es), Written(es);
    assert [] + written == written;
    AccountMeans(t.store.managed, written, k, cm, t.managedHeld, t.managedRepeats);
    AccountMeans(t.store.oss, written, k, co, t.ossHeld, t.ossRepeats);
  }

  // ---------------------------------------------------------------- without lost cursor writes

  ghost predicate CursorSafe(b: Backends) { forall k :: b.cursorSaved(k) }

  ghost predicate NoLostSave(es: seq<Event>) {
    forall i :: 0 <= i < |es| && es[i].Draining? ==> CursorSafe(es[i].backends)
  }

  /** The drain stopped because the OSS backend refused a capsule. */
  function OssRefusal(st: Store, e: Event): nat {
    if e.Draining? && StoppedAtOss(DrainOf(e.backends, st).err) then 1 else 0
  }

  function OssRefusals(codec: Codec, st: Store, es: seq<Event>): nat
    decreases es
  {
    if es == [] then 0 else OssRefusal(st, es[0]) + OssRefusals(codec, Next(codec, st, es[0]), es[1..])
  }

  lemma {:induction false} SafeBatch(b: Backends, s: string, at: nat, room: int, d: Drained)
    requires b.managed.Some? && b.oss.Some? && CursorSafe(b) && !StoppedAtCursor(d.err)
    ensures !StoppedAtCursor(DrainBatch(b, s, at, room, d).err)
    decreases |s| - at
  {
    hide ReadLine;
    if room > 0 && at < |s| && d.err.None? {
      var end := LineEnd(s, at);
      var line := ReadLine(s[at..end], b.decode);
      SafeBatch(b, s, end, if line.Holds? then room - 1 else room, DrainLine(b, line, end, d));
    }
  }

  /** Each OSS refusal leaves one capsule more with the managed backend, held or repeated. */
  lemma SafeStep(codec: Codec, tr: Track, e: Event)
    requires e.Draining? ==> CursorSafe(e.backends)
    requires !tr.ossHeld && tr.ossRepeats == 0
    ensures var t := Follow(codec, tr, e);
            && !t.ossHeld && t.ossRepeats == 0
            && t.managedRepeats + (if t.managedHeld then 1 else 0) ==
               tr.managedRepeats + (if tr.managedHeld then 1 else 0) + OssRefusal(tr.store, e)
  {
    hide DrainBatch, ManagedTakes, OssTakes, CursorSafe;
    if e.Draining? {
      var b := e.backends;
      FirstCall(b, tr.store);
      if b.managed.Some? && b.oss.Some? && tr.store.pending.Some? {
        SafeBatch(b, FileOf(tr.store), tr.store.cursor, b.Limit(), Drained(tr.store, 0, 0, None));
      }
    }
  }

  lemma {:induction false} SafeHistory(codec: Codec, tr: Track, es: seq<Event>)
    requires NoLostSave(es) && !tr.ossHeld && tr.ossRepeats == 0
    ensures var t := FollowAll(codec, tr, es);
            && !t.ossHeld && t.ossRepeats == 0
            && t.managedRepeats + (if t.managedHeld then 1 else 0) ==
               tr.managedRepeats + (if tr.managedHeld then 1 else 0) + OssRefusals(codec, tr.store, es)
    decreases |es|
  {
    hide OssRefusal, CursorSafe, DrainOf, ManagedTakes, OssTakes;
    if es != [] {
      assert forall i :: 0 <= i < |es[1..]| ==> es[1..][i] == es[i + 1];
      SafeStep(codec, tr, es[0]);
      SafeHistory(codec, Follow(codec, tr, es[0]), es[1..]);
      assert Follow(codec, tr, es[0]).store == Next(codec, tr.store, es[0]);
    }
  }

  /**
   Over any history without lost cursor writes the OSS backend receives every capsule exactly once
   and in order. The managed backend receives one more for every drain that stopped on an OSS
   failure, so the two are equal if and only if that never happened.
   */
  lemma DualDelivery(codec: Codec, st: Store, es: seq<Event>)
    requires SameFormat(codec, es) && NoLostSave(es) && Fresh(st)
    ensures var t := Play(codec, st, es);
            && t.oss + PendingIn(t, codec.decode) == Written(es)
            && |t.managed| == |t.oss| + OssRefusals(codec, st, es)
            && (t.managed == t.oss <==> OssRefusals(codec, st, es) == 0)
            && multiset(t.oss) <= multiset(t.managed)
  {
    hide Play, OssRefusals, FollowAll, Written, PendingIn, NoLostSave, SameFormat, Fresh, Account, Whole;
    FreshKept(codec, st);
    var k, cm, co := HistoryKept(codec, Untracked(st), es, [], 0, [], []);
    FollowPlays(codec, Untracked(st), es);
    SafeHistory(codec, Untracked(st), es);
    var t, written := FollowAll(codec, Untracked(st), es), Written(es);
    assert [] + written == written;
    TwoAccounts(t.store.managed, t.store.oss, written, k, cm, co, t.managedHeld, t.managedRepeats);
  }

  /** Two accounts of the same list, the second without repeats and with nothing held. */
  lemma TwoAccounts(managed: seq<OutboxCapsule>, oss: seq<OutboxCapsule>, written: seq<OutboxCapsule>, k: nat,
                    cm: seq<nat>, co: seq<nat>, held: bool, repeats: nat)
    requires Account(managed, written, k, cm, held, repeats) && Account(oss, written, k, co, false, 0)
    ensures k <= |written| && oss + written[k..] == written
    ensures |managed| == |oss| + repeats + (if held then 1 else 0)
    ensures managed == oss <==> repeats + (if held then 1 else 0) == 0
    ensures multiset(oss) <= multiset(managed)
  {
    hide Account, Delivered, Twice;
    AccountMeans(managed, written, k, cm, held, repeats);
    AccountMeans(oss, written, k, co, false, 0);
    AccountCovers(managed, written, k, cm, held, repeats);
    assert written == written[..k] + written[k..];
  }

  /** One capsule, then two drains through the same backends. */
  function Retried(c: OutboxCapsule, b: Backends): seq<Event> { [Appending(c), Draining(b), Draining(b)] }

  const EMPTY_STORE := Store(None, 0, [], [], 0, 0, 0)

  lemma RetriedPlays(codec: Codec, b: Backends, c: OutboxCapsule) returns (line: string)
    requires codec.Valid() && b.decode == codec.decode
    ensures SameFormat(codec, Retried(c, b)) && Written(Retried(c, b)) == [c]
    ensures line != "" && LineEnd(line, 0) == |line| && ReadLine(line[0..|line|], b.decode) == Holds(c)
    ensures var s1 := EMPTY_STORE.(pending := Some(line));
            Play(codec, EMPTY_STORE, Retried(c, b)) == DrainOf(b, DrainOf(b, s1).store).store
  {
    hide ReadLine, DrainOf, Play, LineEnd, Remaining;
    var es := Retried(c, b);
    line := codec.encode(c) + "\n";
    assert "" + line == line;
    LastLine("", codec.encode(c), codec.decode, c);
    LineEndOfLine(line, 0) by { assert line[0..|line| - 1] == codec.encode(c); }
    assert line[0..|line|] == line;
    PlayThree(codec, EMPTY_STORE, es);
    assert Written(es[2..]) == [] by { assert es[2..][1..] == []; }
    assert Written(es[1..]) == [] by { assert es[1..][1..] == es[2..]; }
  }

  /**
   The repeat is real: one capsule, an OSS backend that fails the first time, and a retry.
   The managed backend has then accepted the same capsule twice.
   */
  lemma ManagedPushedTwice(codec: Codec, c: OutboxCapsule) returns (es: seq<Event>)
    requires codec.Valid()
    ensures SameFormat(codec, es) && NoLostSave(es) && Written(es) == [c]
    ensures Play(codec, EMPTY_STORE, es).managed == [c, c]
    ensures Play(codec, EMPTY_STORE, es).oss == [c]
  {
    hide ReadLine, DrainOf, Play, LineEnd, Remaining, SameFormat, Written;
    var b := Backends(codec.decode, Some((k, x) => None), Some((k, x) => if k == 0 then Some("down") else None), k => true, 1);
    es := Retried(c, b);
    var line := RetriedPlays(codec, b, c);
    var s2, s3 := RefusedDrain(b, c, EMPTY_STORE.(pending := Some(line)), line);
  }

  /** A lost cursor write does the same to both backends, though neither of them ever refuses. */
  lemma BothPushedTwice(codec: Codec, c: OutboxCapsule) returns (es: seq<Event>)
    requires codec.Valid()
    ensures SameFormat(codec, es) && OssRefusals(codec, EMPTY_STORE, es) == 0 && Written(es) == [c]
    ensures Play(codec, EMPTY_STORE, es).managed == [c, c]
    ensures Play(codec, EMPTY_STORE, es).oss == [c, c]
  {
    hide ReadLine, DrainOf, Play, LineEnd, Remaining, SameFormat, Written, OssRefusals;
    var b := Backends(codec.decode, Some((k, x) => None), Some((k, x) => None), k => k != 0, 1);
    es := Retried(c, b);
    var line := RetriedPlays(codec, b, c);
    var s2, s3 := UnsavedDrain(b, c, EMPTY_STORE.(pending := Some(line)), line);
    NeverRefused(codec, EMPTY_STORE, es);
  }

  lemma {:induction false} NeverRefusedBatch(b: Backends, s: string, at: nat, room: int, d: Drained)
    requires b.managed.Some? && b.oss.Some? && (forall k, x :: b.oss.value(k, x) == None) && !StoppedAtOss(d.err)
    ensures !StoppedAtOss(DrainBatch(b, s, at, room, d).err)
    decreases |s| - at
  {
    hide ReadLine;
    if room > 0 && at < |s| && d.err.None? {
      var end := LineEnd(s, at);
      var line := ReadLine(s[at..end], b.decode);
      NeverRefusedBatch(b, s, end, if line.Holds? then room - 1 else room, DrainLine(b, line, end, d));
    }
  }

  lemma {:induction false} NeverRefused(codec: Codec, st: Store, es: seq<Event>)
    requires forall i, k, x :: 0 <= i < |es| && es[i].Draining? && es[i].backends.oss.Some? ==>
                                 es[i].backends.oss.value(k, x) == None
    ensures OssRefusals(codec, st, es) == 0
    decreases es
  {
    hide DrainBatch, Next;
    if es != [] {
      var e := es[0];
      if e.Draining? && e.backends.managed.Some? && e.backends.oss.Some? && st.pending.Some? {
        NeverRefusedBatch(e.backends, st.pending.value, st.cursor, e.backends.Limit(), Drained(st, 0, 0, None));
      }
      NeverRefused(codec, Next(codec, st, e), es[1..]);
    }
  }

  lemma PlayThree(codec: Codec, st: Store, es: seq<Event>)
    requires |es| == 3
    ensures Play(codec, st, es) == Next(codec, Next(codec, Next(codec, st, es[0]), es[1]), es[2])
  {
    hide Next;
    var st1 := Next(codec, st, es[0]);
    var st2 := Next(codec, st1, es[1]);
    assert Play(codec, st2, es[2..]) == Next(codec, st2, es[2]) by { assert es[2..][1..] == []; }
    assert Play(codec, st1, es[1..]) == Play(codec, st2, es[2..]) by { assert es[1..][1..] == es[2..]; }
  }

  /** A drain that OSS refuses, and its retry. */
  lemma RefusedDrain(b: Backends, c: OutboxCapsule, s1: Store, line: string) returns (s2: Store, s3: Store)
    requires b.batchSize == 1 && b.managed.Some? && b.oss.Some?
    requires forall k, x :: b.managed.value(k, x) == None
    requires b.oss.value(0, c).Some? && b.oss.value(1, c) == None && b.cursorSaved(0)
    requires line != "" && LineEnd(line, 0) == |line| && ReadLine(line[0..|line|], b.decode) == Holds(c)
    requires s1 == Store(Some(line), 0, [], [], 0, 0, 0)
    ensures s2 == DrainOf(b, s1).store == s1.(managed := [c], managedCalls := 1, ossCalls := 1)
    ensures s3 == DrainOf(b, s2).store && s3.managed == [c, c] && s3.oss == [c]
  {
    hide ReadLine, LineEnd;
    var d1 := Drained(s1, 0, 0, None);
    assert DrainBatch(b, line, 0, 1, d1) == PushBoth(b, d1, c, |line|);
    s2 := DrainOf(b, s1).store;
    var d2 := Drained(s2, 0, 0, None);
    assert DrainBatch(b, line, 0, 1, d2) == PushBoth(b, d2, c, |line|);
    s3 := DrainOf(b, s2).store;
  }

  /** A drain whose cursor write is lost, and its retry. */
  lemma UnsavedDrain(b: Backends, c: OutboxCapsule, s1: Store, line: string) returns (s2: Store, s3: Store)
    requires b.batchSize == 1 && b.managed.Some? && b.oss.Some?
    requires forall k, x :: b.managed.value(k, x) == None && b.oss.value(k, x) == None
    requires !b.cursorSaved(0)
    requires line != "" && LineEnd(line, 0) == |line| && ReadLine(line[0..|line|], b.decode) == Holds(c)
    requires s1 == Store(Some(line), 0, [], [], 0, 0, 0)
    ensures s2 == DrainOf(b, s1).store == s1.(managed := [c], oss := [c], managedCalls := 1, ossCalls := 1, saves := 1)
    ensures s3 == DrainOf(b, s2).store && s3.managed == [c, c] && s3.oss == [c, c]
  {
    hide ReadLine, LineEnd;
    var d1 := Drained(s1, 0, 0, None);
    assert DrainBatch(b, line, 0, 1, d1) == PushBoth(b, d1, c, |line|);
    s2 := DrainOf(b, s1).store;
    var d2 := Drained(s2, 0, 0, None);
    assert DrainBatch(b, line, 0, 1, d2) == PushBoth(b, d2, c, |line|);
    s3 := DrainOf(b, s2).store;
  }
}
