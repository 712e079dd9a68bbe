/** Keyword extraction (`src/keyword_extraction.py`): the candidates of three
    keyword generators are pooled, counted, ranked by frequency, filtered and
    capped. The generators (KeyBERT, a TF-IDF vectoriser, a noun-chunk
    parser) are library calls and are inputs here. */
module Keywords {
  import opened Text
  import opened Sorting

  /** A library-backed generator. `Unavailable` is a failed import;
      `run` returns `None` when the call raises, which the code turns into an
      empty list. */
  datatype Generator<!I> = Unavailable | Available(run: I -> Option<seq<string>>)

  /** What a generator contributes to the pool. */
  function Output<I>(g: Generator<I>, input: I): seq<string> {
    match g
    case Unavailable => []
    case Available(run) => match run(input) case None => [] case Some(kws) => kws
  }

  /** `extract_keywords_tfidf`: the vectoriser is fitted on the sentences of
      the `[.!?]+` split whose stripped length exceeds 10, stripped; with
      fewer than two of them it is not run and the result is empty. */
  function TfidfKeywords(g: Generator<(seq<string>, nat)>, text: string, topN: nat): (r: seq<string>)
    ensures |StrippedOver(SplitSentences(text), 10)| < 2 ==> r == []
    ensures g.Unavailable? ==> r == []
  {
    match g
    case Unavailable => []
    case Available(_) =>
      var sentences := StrippedOver(SplitSentences(text), 10);
      if |sentences| < 2 then [] else Output(g, (sentences, topN))
  }

  const StopWords: set<string> := {"the", "a", "an", "and", "or", "but", "in", "on", "at", "to",
                                   "for", "of", "with", "by"}

  /** The count a `Counter` keeps for `k`. */
  function Count(pool: seq<string>, k: string): nat {
    multiset(pool)[k]
  }

  /** The `(count, key)` entries of `Counter(pool)` for `keys`, in order. */
  function CountEntries(keys: seq<string>, pool: seq<string>): (r: seq<(int, string)>)
    ensures |r| == |keys|
    ensures forall i :: 0 <= i < |r| ==> r[i] == (Count(pool, keys[i]), keys[i])
    decreases |keys|
  {
    if |keys| == 0 then []
    else CountEntries(keys[..|keys| - 1], pool) + [(Count(pool, keys[|keys| - 1]), keys[|keys| - 1])]
  }

  /** `Counter(pool).most_common(n)`: the entries in order of first appearance,
      sorted stably by decreasing count, the first `n` of them. */
  function MostCommon(pool: seq<string>, n: nat): seq<(int, string)> {
    Take(SortDesc(CountEntries(Dedupe(pool), pool)), n)
  }

  predicate Acceptable(kw: string) { kw !in StopWords && |kw| > 2 }

  /** `[kw for kw, count in entries if kw not in stop_words and len(kw) > 2]` */
  function Filtered(entries: seq<(int, string)>): seq<string>
    decreases |entries|
  {
    if |entries| == 0 then []
    else
      var e := entries[|entries| - 1];
      Filtered(entries[..|entries| - 1]) + (if Acceptable(e.1) then [e.1] else [])
  }

  /** The `seen` loop: first occurrences, stopping once `topN` are collected;
      the length test follows the append, so a `topN` of 0 still lets one
      keyword through. */
  function FirstUnique(f: seq<string>, topN: nat): seq<string> {
    Take(Dedupe(f), if topN == 0 then 1 else topN)
  }

  /** `extract_keywords` on the pooled candidates. */
  function KeywordsOf(candidates: seq<string>, topN: nat): seq<string> {
    FirstUnique(Filtered(MostCommon(LowerAll(candidates), 2 * topN)), topN)
  }

  lemma CapReached<T>(f: seq<T>, i: nat, cap: nat)
    requires i <= |f| && |Dedupe(f[..i])| == cap
    ensures Dedupe(f[..i]) == Take(Dedupe(f), cap)
  {
    var d := Dedupe(f);
    DedupePrefix(f, i);
    assert Dedupe(f[..i]) == d[..cap];
    assert Take(d, cap) == d[..cap];
  }

  /** The `seen` loop (lines 137-146). */
  method SelectTop(filtered: seq<string>, topN: nat) returns (result: seq<string>)
    ensures result == FirstUnique(filtered, topN)
  {
    ghost var cap := if topN == 0 then 1 else topN;
    var seen: set<string> := {};
    result := [];
    var i := 0;
    while i < |filtered|
      invariant i <= |filtered|
      invariant result == Dedupe(filtered[..i])
      invariant forall x :: x in seen <==> x in Dedupe(filtered[..i])
      invariant |result| < cap
    {
      var kw := filtered[i];
      SeenStep(filtered, i, seen);
      if kw !in seen {
        seen := seen + {kw};
        result := result + [kw];
        if |result| >= topN {
          CapReached(filtered, i + 1, cap);
          return;
        }
      }
      i := i + 1;
    }
    DedupeWhole(filtered);
  }

  /** `extract_keywords`: the three generators' outputs are pooled in the
      order KeyBERT, TF-IDF, noun phrases, and ranked. */
  method ExtractKeywords(text: string, topN: nat, keybert: Generator<(string, nat)>,
                         tfidf: Generator<(seq<string>, nat)>, nouns: Generator<(string, nat)>)
    returns (result: seq<string>)
    ensures result == KeywordsOf(Output(keybert, (text, topN)) + TfidfKeywords(tfidf, text, topN)
                                 + Output(nouns, (text, topN)), topN)
  {
    var all := Output(keybert, (text, topN)) + TfidfKeywords(tfidf, text, topN) + Output(nouns, (text, topN));
    var filtered := Filtered(MostCommon(LowerAll(all), 2 * topN));
    result := SelectTop(filtered, topN);
  }

  /** `extract_keywords_from_conversation`: the keywords of the full text,
      fifteen at most. */
  method KeywordsFromConversation(fullText: string, keybert: Generator<(string, nat)>,
                                  tfidf: Generator<(seq<string>, nat)>, nouns: Generator<(string, nat)>)
    returns (keywords: seq<string>)
    ensures keywords == KeywordsOf(Output(keybert, (fullText, 15)) + TfidfKeywords(tfidf, fullText, 15)
                                   + Output(nouns, (fullText, 15)), 15)
    ensures |keywords| <= 15
  {
    keywords := ExtractKeywords(fullText, 15, keybert, tfidf, nouns);
    KeywordsProperties(Output(keybert, (fullText, 15)) + TfidfKeywords(tfidf, fullText, 15)
                       + Output(nouns, (fullText, 15)), 15);
  }

  // ---------------------------------------------------------------------------
  // Properties
  // ---------------------------------------------------------------------------

  /** Ranked entries: sorted by decreasing count, one per key, each key from
      the pool carrying its count. */
  predicate WellRanked(es: seq<(int, string)>, pool: seq<string>) {
    && SortedDesc(es)
    && (forall a, b :: 0 <= a < b < |es| ==> es[a].1 != es[b].1)
    && (forall i :: 0 <= i < |es| ==> es[i].1 in pool && es[i].0 == Count(pool, es[i].1))
  }

  lemma RankedEntries(pool: seq<string>)
    ensures WellRanked(SortDesc(CountEntries(Dedupe(pool), pool)), pool)
  {
    var keys := Dedupe(pool);
    var es := CountEntries(keys, pool);
    var r := SortDesc(es);
    EntriesDistinct(pool);
    forall x ensures multiset(r)[x] <= 1 {
      MultisetDistinct(es, x);
    }
    DistinctFromMultiset(r);
    forall i | 0 <= i < |r| ensures r[i].1 in pool && r[i].0 == Count(pool, r[i].1) {
      assert r[i] in multiset(r);
      assert r[i] in multiset(es);
      var k :| 0 <= k < |es| && es[k] == r[i];
      DedupeMembers(pool, keys[k]);
    }
    forall a, b | 0 <= a < b < |r| ensures r[a].1 != r[b].1 {
      assert r[a] != r[b];
    }
  }

  lemma EntriesDistinct(pool: seq<string>)
    ensures Distinct(CountEntries(Dedupe(pool), pool))
  {
    var keys := Dedupe(pool);
    var es := CountEntries(keys, pool);
    forall i, j | 0 <= i < j < |es| ensures es[i] != es[j] {
      assert es[i].1 == keys[i] && es[j].1 == keys[j];
    }
  }

  lemma WellRankedPrefix(es: seq<(int, string)>, pool: seq<string>, m: nat)
    requires WellRanked(es, pool) && m <= |es|
    ensures WellRanked(es[..m], pool)
  {
  }

  lemma TopWellRanked(pool: seq<string>, n: nat)
    ensures WellRanked(MostCommon(pool, n), pool)
  {
    var r := SortDesc(CountEntries(Dedupe(pool), pool));
    RankedEntries(pool);
    WellRankedPrefix(r, pool, |MostCommon(pool, n)|);
  }

  lemma {:induction false} FilteredMembers(entries: seq<(int, string)>, kw: string)
    ensures kw in Filtered(entries) <==> Acceptable(kw) && exists e :: e in entries && e.1 == kw
    decreases |entries|
  {
    if |entries| > 0 {
      var p, l := entries[..|entries| - 1], entries[|entries| - 1];
      FilteredMembers(p, kw);
      assert entries == p + [l];
    }
  }

  lemma {:induction false} FilteredPositions(entries: seq<(int, string)>, i: nat)
    requires i < |Filtered(entries)|
    ensures exists j :: 0 <= j < |entries| && entries[j].1 == Filtered(entries)[i]
    decreases |entries|
  {
    var p, l := entries[..|entries| - 1], entries[|entries| - 1];
    if i < |Filtered(p)| {
      FilteredPositions(p, i);
      var j :| 0 <= j < |p| && p[j].1 == Filtered(p)[i];
      assert entries[j] == p[j];
    } else {
      assert entries[|entries| - 1].1 == Filtered(entries)[i];
    }
  }

  /** Filtering keeps the order: a later keyword comes from a later entry. */
  lemma {:induction false} FilteredOrder(entries: seq<(int, string)>, i: nat, k: nat)
    requires i < k < |Filtered(entries)|
    ensures exists a, b :: 0 <= a < b < |entries| && entries[a].1 == Filtered(entries)[i]
                                                   && entries[b].1 == Filtered(entries)[k]
    decreases |entries|
  {
    var p, l := entries[..|entries| - 1], entries[|entries| - 1];
    if k < |Filtered(p)| {
      FilteredOrder(p, i, k);
      var a, b :| 0 <= a < b < |p| && p[a].1 == Filtered(p)[i] && p[b].1 == Filtered(p)[k];
      assert entries[a] == p[a] && entries[b] == p[b];
    } else {
      FilteredPositions(p, i);
      var a :| 0 <= a < |p| && p[a].1 == Filtered(p)[i];
      assert entries[a] == p[a];
      assert entries[|entries| - 1].1 == Filtered(entries)[k];
    }
  }

  lemma {:induction false} FilteredDistinct(entries: seq<(int, string)>)
    requires forall a, b :: 0 <= a < b < |entries| ==> entries[a].1 != entries[b].1
    ensures Distinct(Filtered(entries))
    decreases |entries|
  {
    if |entries| > 0 {
      var p, l := entries[..|entries| - 1], entries[|entries| - 1];
      FilteredDistinct(p);
      if Acceptable(l.1) && l.1 in Filtered(p) {
        FilteredMembers(p, l.1);
      }
    }
  }

  /** Filtering ranked entries keeps distinct, acceptable pool keys in order
      of non-increasing count. */
  lemma FilteredRanked(es: seq<(int, string)>, pool: seq<string>)
    requires WellRanked(es, pool)
    ensures var f := Filtered(es);
      && Distinct(f)
      && (forall i :: 0 <= i < |f| ==> Acceptable(f[i]) && f[i] in pool)
      && (forall i, k :: 0 <= i < k < |f| ==> Count(pool, f[i]) >= Count(pool, f[k]))
  {
    var f := Filtered(es);
    FilteredDistinct(es);
    forall i | 0 <= i < |f| ensures Acceptable(f[i]) && f[i] in pool {
      FilteredMembers(es, f[i]);
      FilteredPositions(es, i);
    }
    forall i, k | 0 <= i < k < |f| ensures Count(pool, f[i]) >= Count(pool, f[k]) {
      FilteredOrder(es, i, k);
    }
  }

  /** Filtered ranked keys are distinct, so the `seen` test never fires, and a
      `topN` of 0 ranks no entry at all: the loop only truncates. */
  lemma KeywordsAreTake(candidates: seq<string>, topN: nat)
    ensures KeywordsOf(candidates, topN) == Take(Filtered(MostCommon(LowerAll(candidates), 2 * topN)), topN)
  {
    var pool := LowerAll(candidates);
    var top := MostCommon(pool, 2 * topN);
    var f := Filtered(top);
    TopWellRanked(pool, 2 * topN);
    FilteredDistinct(top);
    DedupeOfDistinct(f);
    if topN == 0 {
      assert top == [];
      assert f == [];
    }
  }

  /** A prefix of the filtered ranking keeps its properties. */
  lemma KeptPrefix(f: seq<string>, n: nat, pool: seq<string>)
    requires Distinct(f)
    requires forall i :: 0 <= i < |f| ==> Acceptable(f[i]) && f[i] in pool
    requires forall i, k :: 0 <= i < k < |f| ==> Count(pool, f[i]) >= Count(pool, f[k])
    ensures var r := Take(f, n);
      && |r| <= n
      && Distinct(r)
      && (forall i :: 0 <= i < |r| ==> Acceptable(r[i]) && r[i] in pool)
      && (forall i, k :: 0 <= i < k < |r| ==> Count(pool, r[i]) >= Count(pool, r[k]))
  {
  }

  /** Ranked entries of equal count keep the order in which their keys first
      occur in the pool: the counter lists keys by first appearance and the
      sort is stable. */
  lemma RankedTies(pool: seq<string>, a: nat, b: nat)
    requires var s := SortDesc(CountEntries(Dedupe(pool), pool)); a < b < |s| && s[a].0 == s[b].0
    ensures var s := SortDesc(CountEntries(Dedupe(pool), pool));
      s[a].1 in pool && s[b].1 in pool && FirstIndex(pool, s[a].1) < FirstIndex(pool, s[b].1)
  {
    var keys := Dedupe(pool);
    var es := CountEntries(keys, pool);
    EntriesDistinct(pool);
    var x, y := SortDescTies(es, a, b);
    assert es[x].1 == keys[x] && es[y].1 == keys[y];
    DedupeOrder(pool, x, y);
  }

  /** Among filtered keys of equal count, the one whose first occurrence in
      the pool is earlier comes first. */
  lemma FilteredTies(pool: seq<string>, n: nat, i: nat, k: nat)
    requires i < k < |Filtered(MostCommon(pool, n))|
    requires var f := Filtered(MostCommon(pool, n)); Count(pool, f[i]) == Count(pool, f[k])
    ensures var f := Filtered(MostCommon(pool, n));
      f[i] in pool && f[k] in pool && FirstIndex(pool, f[i]) < FirstIndex(pool, f[k])
  {
    var s := SortDesc(CountEntries(Dedupe(pool), pool));
    var top := MostCommon(pool, n);
    var f := Filtered(top);
    FilteredOrder(top, i, k);
    var a, b :| 0 <= a < b < |top| && top[a].1 == f[i] && top[b].1 == f[k];
    assert top[a] == s[a] && top[b] == s[b];
    RankedEntries(pool);
    RankedTies(pool, a, b);
  }

  /** What `extract_keywords` promises: at most `topN` distinct keywords, none
      a stop word or shorter than three characters, each the lower-cased form
      of a candidate, in order of non-increasing pooled frequency, and keys of
      equal frequency in the order in which they first occur among the
      lower-cased candidates. */
  lemma KeywordsProperties(candidates: seq<string>, topN: nat)
    ensures var r := KeywordsOf(candidates, topN);
      && |r| <= topN
      && Distinct(r)
      && (forall i :: 0 <= i < |r| ==> Acceptable(r[i]) && r[i] in LowerAll(candidates))
      && (forall i, k :: 0 <= i < k < |r| ==>
            Count(LowerAll(candidates), r[i]) >= Count(LowerAll(candidates), r[k]))
      && (forall i, k :: 0 <= i < k < |r| && Count(LowerAll(candidates), r[i]) == Count(LowerAll(candidates), r[k]) ==>
            FirstIndex(LowerAll(candidates), r[i]) < FirstIndex(LowerAll(candidates), r[k]))
  {
    var pool := LowerAll(candidates);
    var top := MostCommon(pool, 2 * topN);
    TopWellRanked(pool, 2 * topN);
    FilteredRanked(top, pool);
    KeywordsAreTake(candidates, topN);
    KeptPrefix(Filtered(top), topN, pool);
    var r := KeywordsOf(candidates, topN);
    forall i, k | 0 <= i < k < |r| && Count(pool, r[i]) == Count(pool, r[k])
      ensures FirstIndex(pool, r[i]) < FirstIndex(pool, r[k])
    {
      FilteredTies(pool, 2 * topN, i, k);
    }
  }

  /** Entries with equal counts keep the order in which their keys first
      appear in the pool. */
  lemma RankingTies(pool: seq<string>, v: int)
    ensures WithKey(SortDesc(CountEntries(Dedupe(pool), pool)), v) == WithKey(CountEntries(Dedupe(pool), pool), v)
  {
    SortDescStable(CountEntries(Dedupe(pool), pool), v);
  }

  /** With every generator unavailable the result is empty. */
  lemma NoGenerators(text: string, topN: nat)
    ensures KeywordsOf(Output<(string, nat)>(Unavailable, (text, topN))
                       + TfidfKeywords(Unavailable, text, topN)
                       + Output<(string, nat)>(Unavailable, (text, topN)), topN) == []
  {
    var pool := LowerAll([]);
    assert Dedupe(pool) == [];
    assert CountEntries([], pool) == [];
  }

  /** Only the `2 * topN` most frequent keys are considered: every keyword is
      one of them, and when none of them is acceptable the result is empty,
      however many rarer candidates would qualify. */
  lemma RankingWindow(candidates: seq<string>, topN: nat)
    ensures forall kw :: kw in KeywordsOf(candidates, topN) ==>
      exists e :: e in MostCommon(LowerAll(candidates), 2 * topN) && e.1 == kw
    ensures (forall e :: e in MostCommon(LowerAll(candidates), 2 * topN) ==> !Acceptable(e.1)) ==>
      KeywordsOf(candidates, topN) == []
  {
    var top := MostCommon(LowerAll(candidates), 2 * topN);
    KeywordsAreTake(candidates, topN);
    forall kw | kw in KeywordsOf(candidates, topN)
      ensures exists e :: e in top && e.1 == kw
    {
      FilteredMembers(top, kw);
    }
    if forall e :: e in top ==> !Acceptable(e.1) {
      if Filtered(top) != [] {
        FilteredMembers(top, Filtered(top)[0]);
      }
    }
  }
}
