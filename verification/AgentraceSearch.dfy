/** The in-memory log index, against TF-IDF recomputed from the texts. */
module AgentraceSearch {
  import opened Wrappers
  import opened GoStrings
  import opened Tokenizer
  import opened Sorting

  /** A log file with the lines its scanner yields, or none when it cannot be read. */
  datatype LogFile = LogFile(name: string, lines: Option<seq<string>>)

  datatype Doc = Doc(file: string, line: string)

  datatype Entry = Entry(file: string, raw: string, termFreq: map<string, nat>)

  datatype SearchResult = SearchResult(file: string, line: string, score: real)

  /** What the code takes from libraries: lower-casing, JSON validity, the natural logarithm. */
  datatype Library = Library(lower: string -> string, valid: string -> bool, ln: real -> real)

  /** The only property of the logarithm that is used. */
  ghost predicate IsLog(ln: real -> real) {
    forall x :: x > 1.0 ==> ln(x) > 0.0
  }

  // ---------------------------------------------------------------- brute force

  /** The non-blank valid lines, trimmed. */
  function DocsOf(lib: Library, name: string, lines: seq<string>): seq<Doc> {
    if lines == [] then []
    else
      var n := |lines| - 1;
      var line := TrimSpace(lines[n]);
      DocsOf(lib, name, lines[..n]) + if line != "" && lib.valid(line) then [Doc(name, line)] else []
  }

  /** The documents of all readable files, in file and line order. */
  function Corpus(lib: Library, files: seq<LogFile>): seq<Doc> {
    if files == [] then []
    else
      var n := |files| - 1;
      Corpus(lib, files[..n]) + if files[n].lines.Some? then DocsOf(lib, files[n].name, files[n].lines.value) else []
  }

  function Text(lib: Library, d: Doc): string { lib.lower(d.line) }

  predicate Mentions(lib: Library, d: Doc, w: string) { |w| >= 2 && WordCount(Text(lib, d), w) > 0 }

  /** The number of documents that mention the word. */
  function DocFreq(lib: Library, docs: seq<Doc>, w: string): (n: nat)
    ensures n <= |docs|
    ensures n > 0 <==> exists i :: 0 <= i < |docs| && Mentions(lib, docs[i], w)
  {
    if docs == [] then 0
    else
      var n := |docs| - 1;
      DocFreq(lib, docs[..n], w) + if Mentions(lib, docs[n], w) then 1 else 0
  }

  /** The inverse document frequency of a word some document mentions. */
  function Idf(lib: Library, docs: seq<Doc>, w: string): real
    requires DocFreq(lib, docs, w) > 0
  {
    lib.ln(Rarity(|docs|, DocFreq(lib, docs, w)))
  }

  /** The argument of the logarithm, for `df` of `n` documents. */
  function Rarity(n: nat, df: nat): real
    requires df > 0
  {
    1.0 + n as real / df as real
  }

  function TfIdf(tf: nat, idf: real): real { tf as real * idf }

  /** What a word contributes to a document's score. */
  function Contribution(lib: Library, docs: seq<Doc>, i: nat, w: string): real
    requires i < |docs|
  {
    if Mentions(lib, docs[i], w) then TfIdf(WordCount(Text(lib, docs[i]), w), Idf(lib, docs, w)) else 0.0
  }

  ghost function SumOver(ws: set<string>, f: string -> real): real {
    if ws == {} then 0.0
    else
      var w :| w in ws;
      f(w) + SumOver(ws - {w}, f)
  }

  /** The words of a query: none for the empty query. */
  function QueryWords(lib: Library, query: string): set<string> {
    if query == "" then {} else Tokens(lib.lower(query)).Keys
  }

  ghost function Score(lib: Library, docs: seq<Doc>, i: nat, query: string): real
    requires i < |docs|
  {
    SumOver(QueryWords(lib, query), w => Contribution(lib, docs, i, w))
  }

  predicate Relevant(lib: Library, docs: seq<Doc>, i: nat, query: string)
    requires i < |docs|
  {
    exists w :: w in QueryWords(lib, query) && Mentions(lib, docs[i], w)
  }

  // ---------------------------------------------------------------- sums

  /** The sum does not depend on the order of its terms. */
  lemma {:induction false} SumPick(ws: set<string>, f: string -> real, x: string)
    requires x in ws
    ensures SumOver(ws, f) == f(x) + SumOver(ws - {x}, f)
    decreases |ws|
  {
    var w :| w in ws && SumOver(ws, f) == f(w) + SumOver(ws - {w}, f);
    if w != x {
      SumPick(ws - {w}, f, x);
      SumPick(ws - {x}, f, w);
      assert ws - {w} - {x} == ws - {x} - {w};
    }
  }

  lemma EmptySum(f: string -> real)
    ensures SumOver({}, f) == 0.0
  {
  }

  lemma {:induction false} SumSign(ws: set<string>, f: string -> real)
    requires forall w :: w in ws ==> f(w) >= 0.0
    ensures SumOver(ws, f) >= 0.0
    ensures SumOver(ws, f) > 0.0 <==> exists w :: w in ws && f(w) > 0.0
    decreases |ws|
  {
    if ws != {} {
      var x :| x in ws;
      SumPick(ws, f, x);
      SumSign(ws - {x}, f);
      if w :| w in ws && f(w) > 0.0 {
        assert w == x || w in ws - {x};
      }
    }
  }

  lemma IdfPositive(lib: Library, docs: seq<Doc>, w: string)
    requires IsLog(lib.ln) && DocFreq(lib, docs, w) > 0
    ensures Idf(lib, docs, w) > 0.0
  {
    hide Rarity, Mentions;
    Rare(|docs|, DocFreq(lib, docs, w));
  }

  lemma ContributionSign(lib: Library, docs: seq<Doc>, i: nat, w: string)
    requires i < |docs| && IsLog(lib.ln)
    ensures Contribution(lib, docs, i, w) >= 0.0
    ensures Contribution(lib, docs, i, w) > 0.0 <==> Mentions(lib, docs[i], w)
  {
    hide IsLog, Idf, WordCount, TfIdf;
    if Mentions(lib, docs[i], w) {
      IdfPositive(lib, docs, w);
      Positive(WordCount(Text(lib, docs[i]), w), Idf(lib, docs, w));
    }
  }

  lemma Rare(n: nat, df: nat)
    requires 0 < df <= n
    ensures Rarity(n, df) > 1.0
  {
  }

  lemma Positive(tf: nat, idf: real)
    requires tf > 0 && idf > 0.0
    ensures TfIdf(tf, idf) > 0.0
  {
  }

  /** A document scores exactly when it shares a word with the query. */
  lemma ScoreSign(lib: Library, docs: seq<Doc>, i: nat, query: string)
    requires i < |docs| && IsLog(lib.ln)
    ensures Score(lib, docs, i, query) >= 0.0
    ensures Score(lib, docs, i, query) > 0.0 <==> Relevant(lib, docs, i, query)
  {
    hide Mentions, Contribution, QueryWords, IsLog;
    var f := w => Contribution(lib, docs, i, w);
    forall w ensures f(w) >= 0.0 && (f(w) > 0.0 <==> Mentions(lib, docs[i], w)) {
      ContributionSign(lib, docs, i, w);
    }
    SumSign(QueryWords(lib, query), f);
  }

  // ---------------------------------------------------------------- the index

  function EntryOf(lib: Library, d: Doc): Entry { Entry(d.file, d.line, Tokens(Text(lib, d))) }

  /** The table of document frequencies. */
  ghost predicate Counts(lib: Library, docs: seq<Doc>, docFreq: map<string, nat>) {
    && (forall w :: w in docFreq <==> DocFreq(lib, docs, w) > 0)
    && (forall w :: w in docFreq ==> docFreq[w] == DocFreq(lib, docs, w))
  }

  ghost predicate Indexes(lib: Library, docs: seq<Doc>, entries: seq<Entry>) {
    |entries| == |docs| && forall i :: 0 <= i < |docs| ==> entries[i] == EntryOf(lib, docs[i])
  }

  class Index {
    var entries: seq<Entry>
    var idf: map<string, real>

    constructor ()
      ensures entries == [] && idf == map[]
    {
      entries, idf := [], map[];
    }

    /** The index holds these documents with their token counts and inverse document frequencies. */
    ghost predicate Built(lib: Library, docs: seq<Doc>)
      reads this
    {
      && Indexes(lib, docs, entries)
      && (forall w :: w in idf <==> DocFreq(lib, docs, w) > 0)
      && (forall w :: w in idf ==> idf[w] == Idf(lib, docs, w))
    }

    /** The lines of one file: one entry and one count per word for each non-blank valid line. */
    method IndexFile(lib: Library, name: string, lines: seq<string>, docFreq: map<string, nat>, ghost docs: seq<Doc>)
      returns (docFreq': map<string, nat>)
      requires Indexes(lib, docs, entries) && Counts(lib, docs, docFreq)
      modifies this`entries
      ensures Indexes(lib, docs + DocsOf(lib, name, lines), entries)
      ensures Counts(lib, docs + DocsOf(lib, name, lines), docFreq')
    {
      hide Counts, TrimSpace;
      docFreq' := docFreq;
      assert docs + [] == docs;
      for i := 0 to |lines|
        invariant Indexes(lib, docs + DocsOf(lib, name, lines[..i]), entries)
        invariant Counts(lib, docs + DocsOf(lib, name, lines[..i]), docFreq')
      {
        ghost var sofar := docs + DocsOf(lib, name, lines[..i]);
        assert lines[..i + 1][..i] == lines[..i];
        var line := TrimSpace(lines[i]);
        assert line == "" || !lib.valid(line) ==> DocsOf(lib, name, lines[..i + 1]) == DocsOf(lib, name, lines[..i]);
        if line == "" { continue; }
        if !lib.valid(line) { continue; }
        var tf := Tokenize(lib.lower(line));
        ghost var d := Doc(name, line);
        assert docs + DocsOf(lib, name, lines[..i + 1]) == sofar + [d];
        entries := entries + [Entry(name, line, tf)];
        docFreq' := CountTerms(lib, sofar, d, tf, docFreq');
      }
      assert lines[..|lines|] == lines;
    }

    /** The weights of all counted words; nothing when there is no entry. */
    method WeighAll(lib: Library, ghost docs: seq<Doc>, docFreq: map<string, nat>)
      requires Indexes(lib, docs, entries) && Counts(lib, docs, docFreq)
      modifies this`idf
      ensures Built(lib, docs)
    {
      CountsMeaning(lib, docs, docFreq);
      hide DocFreq, Counts, Idf;
      idf := map[];
      var n := |entries|;
      if n > 0 {
        idf := WeighTerms(lib, docs, n, docFreq);
      } else {
        NothingCounted(lib, docs);
      }
    }

    /** The score loop over the query's words, in whatever order the map yields them. */
    method ScoreEntry(lib: Library, ghost docs: seq<Doc>, i: nat, queryTerms: set<string>) returns (score: real)
      requires IsLog(lib.ln) && Built(lib, docs) && i < |docs|
      ensures score == SumOver(queryTerms, w => Contribution(lib, docs, i, w))
    {
      hide IsLog, Idf, Contribution, TfIdf, SumOver, DocFreq;
      ghost var f := w => Contribution(lib, docs, i, w);
      EmptySum(f);
      score := 0.0;
      var todo := queryTerms;
      while todo != {}
        invariant todo <= queryTerms
        invariant score + SumOver(todo, f) == SumOver(queryTerms, f)
        decreases |todo|
      {
        var term :| term in todo;
        SumPick(todo, f, term);
        Weighs(lib, docs, i, term);
        todo := todo - {term};
        if term in entries[i].termFreq {
          var weight := if term in idf then idf[term] else 0.0;
          if weight == 0.0 { weight := 1.0; }
          score := score + TfIdf(entries[i].termFreq[term], weight);
        }
      }
    }
  
    /** One candidate for each entry with a positive score. */
    method Candidates(lib: Library, ghost docs: seq<Doc>, query: string, queryTerms: set<string>) returns (found: seq<Scored>)
      requires IsLog(lib.ln) && Built(lib, docs) && queryTerms == QueryWords(lib, query)
      ensures Hits(lib, docs, query, found)
      ensures AllHits(lib, docs, query, found)
    {
      assert |entries| == |docs|;
      hide IsLog, Relevant, Score, Hits, Found, Contribution, QueryWords, Indexes, Built;
      found := [];
      NoHits(lib, docs, query);
      for i := 0 to |entries|
        invariant HitsBelow(lib, docs, query, found, i)
      {
        var score := ScoreEntry(lib, docs, i, queryTerms);
        ScoreMeans(lib, docs, i, query, score);
        OneMoreHit(lib, docs, query, found, i, score);
        if score > 0.0 { found := found + [Scored(i, score)]; }
      }
    }

    /** The search over a built index. */
    method Search(lib: Library, ghost docs: seq<Doc>, query: string, limit: int) returns (results: seq<SearchResult>)
      requires IsLog(lib.ln) && Built(lib, docs)
      ensures Answers(lib, docs, query, limit, results)
    {
      hide IsLog, QueryWords, Permutes, Sorted, Hits, AllHits, Ranking, Counts, Contribution, Answers;
      results := [];
      QueryWordsAre(lib, query);
      if |entries| == 0 || query == "" {
        NothingRelevant(lib, docs, query, limit);
        AnswerFrom(lib, docs, query, limit, [], results);
        return;
      }
      var freq := Tokenize(lib.lower(query));
      var queryTerms := freq.Keys;
      if |queryTerms| == 0 {
        NothingRelevant(lib, docs, query, limit);
        AnswerFrom(lib, docs, query, limit, [], results);
        return;
      }
      var candidates := Candidates(lib, docs, query, queryTerms);
      ghost var found := candidates;
      candidates := SortBy(candidates, Descending());
      HitsPermute(lib, docs, query, found, candidates);
      Kept(lib, docs, query, candidates, limit);
      if limit > 0 && |candidates| > limit { candidates := candidates[..limit]; }
      RankingMembers(lib, docs, query, limit, candidates);
      results := Present(candidates);
      AnswerFrom(lib, docs, query, limit, candidates, results);
    }

    method Present(candidates: seq<Scored>) returns (results: seq<SearchResult>)
      requires forall k :: 0 <= k < |candidates| ==> candidates[k].idx < |entries|
      ensures |results| == |candidates| && forall k :: 0 <= k < |candidates| ==>
                results[k] == SearchResult(entries[candidates[k].idx].file, entries[candidates[k].idx].raw, candidates[k].score)
    {
      results := [];
      for k := 0 to |candidates|
        invariant |results| == k
        invariant forall j :: 0 <= j < k ==>
                    results[j] == SearchResult(entries[candidates[j].idx].file, entries[candidates[j].idx].raw, candidates[j].score)
      {
        var c := candidates[k];
        var e := entries[c.idx];
        results := results + [SearchResult(e.file, e.raw, c.score)];
      }
    }
  }

  /** The results show a ranking of the documents that share a word with the query. */
  ghost predicate Answers(lib: Library, docs: seq<Doc>, query: string, limit: int, results: seq<SearchResult>) {
    exists ranked :: Ranking(lib, docs, query, limit, ranked) && Shows(docs, ranked, results)
  }

  lemma AnswerFrom(lib: Library, docs: seq<Doc>, query: string, limit: int, ranked: seq<Scored>, results: seq<SearchResult>)
    requires Ranking(lib, docs, query, limit, ranked) && Shows(docs, ranked, results)
    ensures Answers(lib, docs, query, limit, results)
  {
  }

  /** One result for each ranked entry, in order, with its file, line and score. */
  predicate Shows(docs: seq<Doc>, ranked: seq<Scored>, results: seq<SearchResult>) {
    |results| == |ranked| && forall k :: 0 <= k < |ranked| ==>
      ranked[k].idx < |docs| && results[k] == SearchResult(docs[ranked[k].idx].file, docs[ranked[k].idx].line, ranked[k].score)
  }

  /**
   Different entries that share a word with the query, each with its TF-IDF score, in descending
   order; without a positive limit all such entries are there, and under a limit no entry left out
   outscores one kept.
   */
  ghost predicate Ranking(lib: Library, docs: seq<Doc>, query: string, limit: int, ranked: seq<Scored>) {
    && Hits(lib, docs, query, ranked)
    && Sorted(ranked, Descending())
    && (limit > 0 ==> |ranked| <= limit)
    && (forall i :: 0 <= i < |docs| && Relevant(lib, docs, i, query) && !Found(ranked, i) ==>
          0 < limit == |ranked| && forall k :: 0 <= k < |ranked| ==> ranked[k].score >= Score(lib, docs, i, query))
  }

  lemma RankingMembers(lib: Library, docs: seq<Doc>, query: string, limit: int, ranked: seq<Scored>)
    ensures Ranking(lib, docs, query, limit, ranked) ==> forall k :: 0 <= k < |ranked| ==> ranked[k].idx < |docs|
  {
    hide Relevant, Score, Sorted;
  }

  lemma SortedPrefix(all: seq<Scored>, n: nat)
    requires n <= |all| && Sorted(all, Descending())
    ensures Sorted(all[..n], Descending())
  {
  }

  lemma InOrder(all: seq<Scored>, j: nat, k: nat)
    requires j <= k < |all| && Sorted(all, Descending())
    ensures all[j].score >= all[k].score
  {
    assert j < k ==> Descending()(all[j], all[k]);
  }

  lemma FoundBeyond(all: seq<Scored>, n: nat, i: nat) returns (k: nat)
    requires n <= |all| && Found(all, i) && !Found(all[..n], i)
    ensures n <= k < |all| && all[k].idx == i
  {
    k :| 0 <= k < |all| && all[k].idx == i;
    assert forall j :: 0 <= j < n ==> all[..n][j].idx != i;
  }

  /** The first `limit` of all hits in order are a ranking. */
  lemma Kept(lib: Library, docs: seq<Doc>, query: string, all: seq<Scored>, limit: int)
    requires Hits(lib, docs, query, all) && AllHits(lib, docs, query, all) && Sorted(all, Descending())
    ensures Ranking(lib, docs, query, limit, if limit > 0 && |all| > limit then all[..limit] else all)
  {
    hide Relevant, Score, Sorted, Found;
    var ranked := if limit > 0 && |all| > limit then all[..limit] else all;
    forall k | 0 <= k < |ranked| ensures Hit(lib, docs, query, ranked[k]) {
      assert ranked[k] == all[k];
    }
    SortedPrefix(all, |ranked|);
    assert ranked == all[..|ranked|];
    forall i | 0 <= i < |docs| && Relevant(lib, docs, i, query) && !Found(ranked, i)
      ensures 0 < limit == |ranked| && forall k :: 0 <= k < |ranked| ==> ranked[k].score >= Score(lib, docs, i, query)
    {
      var k := FoundBeyond(all, |ranked|, i);
      assert Hit(lib, docs, query, all[k]);
      forall j | 0 <= j < |ranked| ensures ranked[j].score >= Score(lib, docs, i, query) {
        InOrder(all, j, k);
      }
    }
  }

  lemma QueryWordsAre(lib: Library, query: string)
    ensures QueryWords(lib, query) == if query == "" then {} else Tokens(lib.lower(query)).Keys
  {
  }

  datatype Scored = Scored(idx: nat, score: real)

  function Descending(): (leq: (Scored, Scored) -> bool)
    ensures Orders(leq)
    ensures forall a, b :: leq(a, b) <==> a.score >= b.score
  {
    (a: Scored, b: Scored) => a.score >= b.score
  }

  /** Different entries, each sharing a word with the query and carrying its score. */
  ghost predicate Hits(lib: Library, docs: seq<Doc>, query: string, found: seq<Scored>) {
    && (forall j, k :: 0 <= j < k < |found| ==> found[j].idx != found[k].idx)
    && (forall k :: 0 <= k < |found| ==> Hit(lib, docs, query, found[k]))
  }

  ghost predicate Hit(lib: Library, docs: seq<Doc>, query: string, c: Scored) {
    c.idx < |docs| && Relevant(lib, docs, c.idx, query) && c.score == Score(lib, docs, c.idx, query)
  }

  ghost predicate AllHits(lib: Library, docs: seq<Doc>, query: string, found: seq<Scored>) {
    forall i :: 0 <= i < |docs| && Relevant(lib, docs, i, query) ==> Found(found, i)
  }

  /** The hits among the first `n` documents. */
  ghost predicate HitsBelow(lib: Library, docs: seq<Doc>, query: string, found: seq<Scored>, n: nat) {
    && Hits(lib, docs, query, found)
    && (forall k :: 0 <= k < |found| ==> found[k].idx < n)
    && (forall i :: 0 <= i < n && i < |docs| && Relevant(lib, docs, i, query) ==> Found(found, i))
  }

  lemma NoHits(lib: Library, docs: seq<Doc>, query: string)
    ensures HitsBelow(lib, docs, query, [], 0)
  {
  }

  lemma OneMoreHit(lib: Library, docs: seq<Doc>, query: string, found: seq<Scored>, i: nat, score: real)
    requires i < |docs| && HitsBelow(lib, docs, query, found, i)
    requires score == Score(lib, docs, i, query) && (score > 0.0 <==> Relevant(lib, docs, i, query))
    ensures HitsBelow(lib, docs, query, if score > 0.0 then found + [Scored(i, score)] else found, i + 1)
  {
    hide Relevant, Score;
    if score > 0.0 {
      var more := found + [Scored(i, score)];
      assert more[|found|].idx == i;
      forall j | 0 <= j < i && Relevant(lib, docs, j, query) ensures Found(more, j) {
        var k :| 0 <= k < |found| && found[k].idx == j;
        assert more[k].idx == j;
      }
    }
  }

  predicate Found(found: seq<Scored>, i: nat) { exists k :: 0 <= k < |found| && found[k].idx == i }

  /** An indexed word's weight is positive, so that the replacement of a zero weight never applies. */
  lemma Weighs(lib: Library, docs: seq<Doc>, i: nat, w: string)
    requires i < |docs| && IsLog(lib.ln)
    ensures var tf := EntryOf(lib, docs[i]).termFreq;
            if w in tf then
              DocFreq(lib, docs, w) > 0 && Idf(lib, docs, w) > 0.0 && Contribution(lib, docs, i, w) == TfIdf(tf[w], Idf(lib, docs, w))
            else Contribution(lib, docs, i, w) == 0.0
  {
    hide IsLog, Idf, WordCount, TfIdf, DocFreq;
    CountedIfMentioned(lib, docs, i, w);
    TokenMeaning(Text(lib, docs[i]), w);
    if Mentions(lib, docs[i], w) { IdfPositive(lib, docs, w); }
  }

  lemma CountedIfMentioned(lib: Library, docs: seq<Doc>, i: nat, w: string)
    requires i < |docs|
    ensures Mentions(lib, docs[i], w) ==> DocFreq(lib, docs, w) > 0
  {
    hide Mentions;
  }

  lemma CountsMeaning(lib: Library, docs: seq<Doc>, docFreq: map<string, nat>)
    requires Counts(lib, docs, docFreq)
    ensures forall w :: w in docFreq <==> DocFreq(lib, docs, w) > 0
    ensures forall w :: w in docFreq ==> docFreq[w] == DocFreq(lib, docs, w) > 0
  {
    hide DocFreq;
  }

  lemma ScoreMeans(lib: Library, docs: seq<Doc>, i: nat, query: string, score: real)
    requires i < |docs| && IsLog(lib.ln)
    requires score == SumOver(QueryWords(lib, query), w => Contribution(lib, docs, i, w))
    ensures score == Score(lib, docs, i, query) && (score > 0.0 <==> Relevant(lib, docs, i, query))
  {
    ScoreSign(lib, docs, i, query);
  }

  lemma IdfIs(lib: Library, docs: seq<Doc>, w: string)
    requires DocFreq(lib, docs, w) > 0
    ensures Idf(lib, docs, w) == lib.ln(Rarity(|docs|, DocFreq(lib, docs, w)))
  {
  }

  lemma NothingCounted(lib: Library, docs: seq<Doc>)
    requires docs == []
    ensures forall w :: DocFreq(lib, docs, w) == 0
  {
  }

  lemma NothingRelevant(lib: Library, docs: seq<Doc>, query: string, limit: int)
    requires docs == [] || |QueryWords(lib, query)| == 0
    ensures Ranking(lib, docs, query, limit, [])
  {
    hide Score;
    if docs != [] { assert QueryWords(lib, query) == {}; }
  }

  /** A weight for each counted word, in whatever order the map yields them. */
  method WeighTerms(lib: Library, ghost docs: seq<Doc>, n: nat, docFreq: map<string, nat>) returns (idf: map<string, real>)
    requires n == |docs|
    requires forall w :: w in docFreq ==> docFreq[w] == DocFreq(lib, docs, w) > 0
    ensures idf.Keys == docFreq.Keys
    ensures forall w :: w in idf ==> idf[w] == Idf(lib, docs, w)
  {
    hide DocFreq, Rarity, Idf;
    idf := map[];
    var todo := docFreq.Keys;
    while todo != {}
      invariant forall w :: w in todo ==> w in docFreq
      invariant forall w :: w in idf <==> w in docFreq && w !in todo
      invariant forall w :: w in idf ==> idf[w] == Idf(lib, docs, w)
      decreases |todo|
    {
      var term :| term in todo;
      IdfIs(lib, docs, term);
      idf := idf[term := lib.ln(Rarity(n, docFreq[term]))];
      todo := todo - {term};
    }
  }

  /** Each term of the new document is counted once more, in whatever order the map yields them. */
  method CountTerms(lib: Library, ghost docs: seq<Doc>, ghost d: Doc, tf: map<string, nat>, docFreq: map<string, nat>)
    returns (docFreq': map<string, nat>)
    requires Counts(lib, docs, docFreq) && tf == Tokens(Text(lib, d))
    ensures Counts(lib, docs + [d], docFreq')
  {
    hide Counts, Text, Tokens;
    docFreq' := docFreq;
    var todo, seen := tf.Keys, {};
    while todo != {}
      invariant forall w :: w in todo ==> w in tf
      invariant forall w :: w in seen <==> w in tf && w !in todo
      invariant forall w :: w in docFreq' <==> w in docFreq || w in seen
      invariant forall w :: w in docFreq' ==>
                  docFreq'[w] == (if w in docFreq then docFreq[w] else 0) + if w in seen then 1 else 0
      decreases |todo|
    {
      var term :| term in todo;
      if term !in seen {
        docFreq' := docFreq'[term := (if term in docFreq' then docFreq'[term] else 0) + 1];
        seen := seen + {term};
      }
      todo := todo - {term};
    }
    CountsGrow(lib, docs, d, docFreq, docFreq');
  }

  lemma CountsGrow(lib: Library, docs: seq<Doc>, d: Doc, before: map<string, nat>, after: map<string, nat>)
    requires Counts(lib, docs, before)
    requires forall w :: w in after <==> w in before || w in Tokens(Text(lib, d))
    requires forall w :: w in after ==>
               after[w] == (if w in before then before[w] else 0) + if w in Tokens(Text(lib, d)) then 1 else 0
    ensures Counts(lib, docs + [d], after)
  {
    hide DocFreq, Text, Tokens;
    forall w ensures DocFreq(lib, docs + [d], w) == DocFreq(lib, docs, w) + if w in Tokens(Text(lib, d)) then 1 else 0 {
      OneMoreDoc(lib, docs, d, w);
    }
  }

  lemma OneMoreDoc(lib: Library, docs: seq<Doc>, d: Doc, w: string)
    ensures DocFreq(lib, docs + [d], w) == DocFreq(lib, docs, w) + if w in Tokens(Text(lib, d)) then 1 else 0
  {
    hide Tokens, WordCount;
    assert (docs + [d])[..|docs|] == docs;
    TokenMeaning(Text(lib, d), w);
  }

  lemma HitsPermute(lib: Library, docs: seq<Doc>, query: string, found: seq<Scored>, ranked: seq<Scored>)
    requires Hits(lib, docs, query, found) && AllHits(lib, docs, query, found) && Permutes(ranked, found)
    ensures Hits(lib, docs, query, ranked) && AllHits(lib, docs, query, ranked)
  {
    hide Hit, Relevant;
    SameMembers(ranked, found);
    SameDistinct(found, ranked);
    forall j, k | 0 <= j < k < |ranked| ensures ranked[j].idx != ranked[k].idx {
      assert ranked[j] in found && ranked[k] in found;
    }
    forall k | 0 <= k < |ranked| ensures Hit(lib, docs, query, ranked[k]) {
      assert ranked[k] in found;
    }
    forall i | 0 <= i < |docs| && Relevant(lib, docs, i, query) ensures Found(ranked, i) {
      var k :| 0 <= k < |found| && found[k].idx == i;
      assert found[k] in ranked;
    }
  }

  method BuildIndex(lib: Library, files: seq<LogFile>) returns (idx: Index)
    ensures fresh(idx) && idx.Built(lib, Corpus(lib, files))
  {
    idx := new Index();
    var docFreq: map<string, nat> := map[];
    for f := 0 to |files|
      invariant fresh(idx)
      invariant Indexes(lib, Corpus(lib, files[..f]), idx.entries) && Counts(lib, Corpus(lib, files[..f]), docFreq)
    {
      assert files[..f + 1][..f] == files[..f];
      if files[f].lines.None? {
        assert Corpus(lib, files[..f + 1]) == Corpus(lib, files[..f]);
        continue;
      }
      docFreq := idx.IndexFile(lib, files[f].name, files[f].lines.value, docFreq, Corpus(lib, files[..f]));
    }
    assert files[..|files|] == files;
    idx.WeighAll(lib, Corpus(lib, files), docFreq);
  }
}
