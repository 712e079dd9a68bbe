/** Summarisation (`src/summarization.py`): an extractive summary that keeps
    the highest-scoring sentences in their original order, and the chunking
    around an abstractive model, which is an input here. */
module Summarization {
  import opened Text
  import opened Sorting

  const MedicalKeywords: seq<string> := ["patient", "diagnosis", "treatment", "symptom", "pain", "injury",
                                         "recovery", "therapy", "medication", "doctor", "condition"]

  lemma MedicalKeywordsAreLetters()
    ensures forall i :: 0 <= i < |MedicalKeywords| ==> Letters(MedicalKeywords[i])
  {
  }

  lemma MedicalKeywordsDistinct()
    ensures Distinct(MedicalKeywords)
  {
  }

  /** The sentences the summary is drawn from: the pieces of the `[.!?]+`
      split whose stripped length exceeds 20, stripped, in order. */
  function KeptSentences(text: string): seq<string> {
    StrippedOver(SplitSentences(text), 20)
  }

  /** The score of the `i`-th of `n` kept sentences against a keyword list:
      its length, 20 for each keyword whose lower-cased form occurs in the
      lower-cased sentence, and 10 for the first and the last sentence. */
  function ScoreWith(sentence: string, kws: seq<string>, i: nat, n: nat): int {
    |sentence| + 20 * CountIn(Lower(sentence), LowerAll(kws)) + (if i == 0 || i == n - 1 then 10 else 0)
  }

  /** The score with the medical keywords. */
  function Score(sentence: string, i: nat, n: nat): int {
    ScoreWith(sentence, MedicalKeywords, i, n)
  }

  /** `scored_sentences`: each kept sentence with its score, in order. */
  function Scored(kept: seq<string>): (r: seq<(int, string)>)
    ensures |r| == |kept|
    ensures forall i :: 0 <= i < |r| ==> r[i] == (Score(kept[i], i, |kept|), kept[i])
  {
    seq(|kept|, i requires 0 <= i < |kept| => (Score(kept[i], i, |kept|), kept[i]))
  }

  /** `[s[1] for s in entries]` */
  function Seconds(entries: seq<(int, string)>): (r: seq<string>)
    ensures |r| == |entries|
    ensures forall i :: 0 <= i < |r| ==> r[i] == entries[i].1
  {
    seq(|entries|, i requires 0 <= i < |entries| => entries[i].1)
  }

  /** `[x for x in xs if x in ys]` */
  function KeepIn(xs: seq<string>, ys: seq<string>): seq<string>
    decreases |xs|
  {
    if |xs| == 0 then []
    else
      var x := xs[|xs| - 1];
      KeepIn(xs[..|xs| - 1], ys) + (if x in ys then [x] else [])
  }

  /** The texts of the `num` highest-scoring entries of the stable sort. */
  function TopTexts(kept: seq<string>, num: nat): seq<string> {
    Seconds(Take(SortDesc(Scored(kept)), num))
  }

  /** The kept sentences whose text is among the top ones, in original
      order. */
  function Selected(kept: seq<string>, num: nat): seq<string> {
    KeepIn(kept, TopTexts(kept, num))
  }

  /** `summarize_simple(text, num)`: the chosen sentences joined with ". ",
      ending with a full stop. */
  function SimpleSummary(text: string, num: nat): (r: string)
    ensures |r| > 0 && r[|r| - 1] == '.'
  {
    var kept := KeptSentences(text);
    Join(". ", if |kept| <= num then kept else Selected(kept, num)) + "."
  }

  // ---------------------------------------------------------------------------
  // The scoring loops
  // ---------------------------------------------------------------------------

  /** The inner keyword loop (lines 82-84), over any keyword list: 20 for
      each keyword whose lower-cased form occurs in `lowered`. */
  method BoostOver(lowered: string, kws: seq<string>) returns (boost: int)
    ensures boost == 20 * CountIn(lowered, LowerAll(kws))
  {
    boost := 0;
    var j := 0;
    while j < |kws|
      invariant j <= |kws|
      invariant boost == 20 * CountIn(lowered, LowerAll(kws[..j]))
    {
      var keyword := kws[j];
      assert kws[..j + 1] == kws[..j] + [keyword];
      assert kws[..j + 1][..j] == kws[..j];
      if Contains(lowered, Lower(keyword)) {
        boost := boost + 20;
      }
      j := j + 1;
    }
    assert kws[..j] == kws;
  }

  /** The score of one sentence (lines 80-87). */
  method ScoreSentence(sentence: string, kws: seq<string>, i: nat, n: nat) returns (score: int)
    ensures score == ScoreWith(sentence, kws, i, n)
  {
    score := |sentence|;
    var boost := BoostOver(Lower(sentence), kws);
    score := score + boost;
    if i == 0 || i == n - 1 {
      score := score + 10;
    }
  }

  /** The scoring loop (lines 78-89), over any keyword list. */
  method ScoreSentences(kept: seq<string>, kws: seq<string>) returns (scored: seq<(int, string)>)
    ensures |scored| == |kept|
    ensures forall k :: 0 <= k < |kept| ==> scored[k] == (ScoreWith(kept[k], kws, k, |kept|), kept[k])
  {
    scored := [];
    var i := 0;
    while i < |kept|
      invariant i <= |kept|
      invariant |scored| == i
      invariant forall k :: 0 <= k < i ==> scored[k] == (ScoreWith(kept[k], kws, k, |kept|), kept[k])
    {
      var score := ScoreSentence(kept[i], kws, i, |kept|);
      scored := scored + [(score, kept[i])];
      i := i + 1;
    }
  }

  /** `summarize_simple` (lines 54-98). */
  method SummarizeSimple(text: string, num: nat) returns (summary: string)
    ensures summary == SimpleSummary(text, num)
  {
    var sentences := KeptSentences(text);
    if |sentences| <= num {
      return Join(". ", sentences) + ".";
    }
    var scored := ScoreSentences(sentences, MedicalKeywords);
    assert scored == Scored(sentences);
    var sorted := SortDesc(scored);
    var top := Seconds(Take(sorted, num));
    assert top == TopTexts(sentences, num);
    summary := Join(". ", KeepIn(sentences, top)) + ".";
  }

  // ---------------------------------------------------------------------------
  // Properties of the extractive summary
  // ---------------------------------------------------------------------------

  /** Kept sentences are exactly the stripped pieces longer than 20. */
  lemma KeptSentencesMembers(text: string, x: string)
    ensures x in KeptSentences(text) <==> |x| > 20 && exists p :: p in SplitSentences(text) && Strip(p) == x
    ensures x in KeptSentences(text) ==> IsStripped(x)
  {
    StrippedOverMembers(SplitSentences(text), 20, x);
  }

  /** Empty text has no kept sentence and summarises to a lone full stop. */
  lemma EmptyTextSummary(num: nat)
    ensures SimpleSummary("", num) == "."
  {
    assert SplitSentences("") == [""];
    assert KeptSentences("") == [];
  }

  /** Against distinct lower-case keywords, the score counts each keyword the
      sentence contains, case-insensitively, once. */
  lemma ScoreWithCountsHits(sentence: string, kws: seq<string>, i: nat, n: nat)
    requires Distinct(kws) && forall k :: 0 <= k < |kws| ==> Letters(kws[k])
    ensures ScoreWith(sentence, kws, i, n) ==
      |sentence| + 20 * |Hits(Lower(sentence), kws)| + (if i == 0 || i == n - 1 then 10 else 0)
    ensures |sentence| <= ScoreWith(sentence, kws, i, n) <= |sentence| + 20 * |kws| + 10
  {
    LowerAllOfLetters(kws);
    CountInIsDistinctHits(Lower(sentence), kws);
    CountInBound(Lower(sentence), kws);
  }

  /** The score counts each distinct medical keyword the sentence contains,
      case-insensitively, once. */
  lemma ScoreCountsDistinctKeywords(sentence: string, i: nat, n: nat)
    ensures Score(sentence, i, n) ==
      |sentence| + 20 * |Hits(Lower(sentence), MedicalKeywords)| + (if i == 0 || i == n - 1 then 10 else 0)
    ensures |sentence| <= Score(sentence, i, n) <= |sentence| + 20 * |MedicalKeywords| + 10
  {
    MedicalKeywordsAreLetters();
    MedicalKeywordsDistinct();
    ScoreWithCountsHits(sentence, MedicalKeywords, i, n);
  }

  lemma {:induction false} KeepInMembers(xs: seq<string>, ys: seq<string>, x: string)
    ensures x in KeepIn(xs, ys) <==> x in xs && x in ys
    decreases |xs|
  {
    if |xs| > 0 {
      var p := xs[..|xs| - 1];
      KeepInMembers(p, ys, x);
      assert xs == p + [xs[|xs| - 1]];
    }
  }

  lemma {:induction false} KeepInSubsequence(xs: seq<string>, ys: seq<string>)
    ensures IsSubsequence(KeepIn(xs, ys), xs)
    decreases |xs|
  {
    if |xs| > 0 {
      var p, x := xs[..|xs| - 1], xs[|xs| - 1];
      KeepInSubsequence(p, ys);
      assert xs == p + [x];
      if x in ys {
        var k := KeepIn(xs, ys);
        assert k[..|k| - 1] == KeepIn(p, ys);
      } else {
        assert KeepIn(xs, ys) == KeepIn(p, ys);
        SubsequenceSnoc(KeepIn(p, ys), p, x);
      }
    }
  }

  lemma {:induction false} KeepInDistinct(xs: seq<string>, ys: seq<string>)
    requires Distinct(xs)
    ensures Distinct(KeepIn(xs, ys))
    decreases |xs|
  {
    if |xs| > 0 {
      var p, x := xs[..|xs| - 1], xs[|xs| - 1];
      KeepInDistinct(p, ys);
      KeepInMembers(p, ys, x);
    }
  }

  /** A selected text is kept and among the top texts; every occurrence of a
      top text is selected. */
  lemma SelectedMembers(kept: seq<string>, num: nat, x: string)
    ensures x in Selected(kept, num) <==> x in kept && x in TopTexts(kept, num)
  {
    KeepInMembers(kept, TopTexts(kept, num), x);
  }

  /** The selected sentences come out in their original order. */
  lemma SelectedInOrder(kept: seq<string>, num: nat)
    ensures IsSubsequence(Selected(kept, num), kept)
  {
    KeepInSubsequence(kept, TopTexts(kept, num));
  }

  /** Every sorted entry is the scored entry of some kept sentence. */
  lemma SortedFromScored(kept: seq<string>, a: nat) returns (k: nat)
    requires a < |SortDesc(Scored(kept))|
    ensures k < |kept| && SortDesc(Scored(kept))[a] == (Score(kept[k], k, |kept|), kept[k])
  {
    var r := SortDesc(Scored(kept));
    assert r[a] in multiset(r);
    assert r[a] in multiset(Scored(kept));
    k :| 0 <= k < |kept| && Scored(kept)[k] == r[a];
  }

  /** For distinct kept sentences the top texts are `num` distinct kept
      sentences. */
  lemma TopTextsDistinct(kept: seq<string>, num: nat)
    requires Distinct(kept) && num <= |kept|
    ensures |TopTexts(kept, num)| == num
    ensures Distinct(TopTexts(kept, num))
    ensures forall x :: x in TopTexts(kept, num) ==> x in kept
  {
    var sc := Scored(kept);
    var r := SortDesc(sc);
    var t := TopTexts(kept, num);
    assert Distinct(sc) by {
      forall a, b | 0 <= a < b < |sc| ensures sc[a] != sc[b] {
        assert sc[a].1 == kept[a] && sc[b].1 == kept[b];
      }
    }
    PermutationDistinct(sc, r);
    forall a, b | 0 <= a < b < |t| ensures t[a] != t[b] {
      var ka := SortedFromScored(kept, a);
      var kb := SortedFromScored(kept, b);
      assert r[a] != r[b];
    }
    forall x | x in t ensures x in kept {
      var a :| 0 <= a < |t| && t[a] == x;
      var ka := SortedFromScored(kept, a);
    }
  }

  /** With distinct kept sentences and more of them than asked for, exactly
      `num` are emitted. */
  lemma SelectedCount(kept: seq<string>, num: nat)
    requires Distinct(kept) && num <= |kept|
    ensures |Selected(kept, num)| == num
  {
    var t := TopTexts(kept, num);
    var s := Selected(kept, num);
    TopTextsDistinct(kept, num);
    KeepInDistinct(kept, t);
    forall x ensures x in s <==> x in t {
      KeepInMembers(kept, t, x);
    }
    SameElementsSameLength(s, t);
  }

  lemma ScoredDistinct(kept: seq<string>)
    requires Distinct(kept)
    ensures Distinct(Scored(kept))
  {
    var sc := Scored(kept);
    forall a, b | 0 <= a < b < |sc| ensures sc[a] != sc[b] {
      assert sc[a].1 == kept[a] && sc[b].1 == kept[b];
    }
  }

  /** A selected sentence's entry sits among the first `num` sorted ones. */
  lemma SelectedPosition(kept: seq<string>, num: nat, i: nat) returns (p: nat)
    requires Distinct(kept) && i < |kept| && kept[i] in Selected(kept, num)
    ensures p < |TopTexts(kept, num)| && SortDesc(Scored(kept))[p] == Scored(kept)[i]
  {
    var t := TopTexts(kept, num);
    SelectedMembers(kept, num, kept[i]);
    p :| 0 <= p < |t| && t[p] == kept[i];
    TopTextsAt(kept, num, p);
    var k := SortedFromScored(kept, p);
  }

  lemma TopTextsHas(kept: seq<string>, num: nat, q: nat)
    requires q < |SortDesc(Scored(kept))|
    ensures q < |TopTexts(kept, num)| ==> SortDesc(Scored(kept))[q].1 in TopTexts(kept, num)
  {
    if q < |TopTexts(kept, num)| {
      TopTextsAt(kept, num, q);
    }
  }

  lemma TopTextsAt(kept: seq<string>, num: nat, p: nat)
    requires p < |TopTexts(kept, num)|
    ensures p < |SortDesc(Scored(kept))| && TopTexts(kept, num)[p] == SortDesc(Scored(kept))[p].1
  {
  }

  /** A sentence left out has its entry after the first `num` sorted ones. */
  lemma UnselectedPosition(kept: seq<string>, num: nat, j: nat) returns (q: nat)
    requires j < |kept| && kept[j] !in Selected(kept, num)
    ensures |TopTexts(kept, num)| <= q < |SortDesc(Scored(kept))| && SortDesc(Scored(kept))[q] == Scored(kept)[j]
  {
    var sc := Scored(kept);
    var r := SortDesc(sc);
    var t := TopTexts(kept, num);
    SelectedMembers(kept, num, kept[j]);
    assert sc[j] in multiset(sc);
    assert sc[j] in multiset(r);
    q :| 0 <= q < |r| && r[q] == sc[j];
    TopTextsHas(kept, num, q);
  }

  /** The emitted sentences are the highest-scoring ones: a selected sentence
      outscores every sentence left out, or ties with it from an earlier
      position. */
  lemma SelectedAreBest(kept: seq<string>, num: nat, i: nat, j: nat)
    requires Distinct(kept) && i < |kept| && j < |kept|
    requires kept[i] in Selected(kept, num) && kept[j] !in Selected(kept, num)
    ensures Score(kept[i], i, |kept|) > Score(kept[j], j, |kept|)
         || (Score(kept[i], i, |kept|) == Score(kept[j], j, |kept|) && i < j)
  {
    var p := SelectedPosition(kept, num, i);
    var q := UnselectedPosition(kept, num, j);
    ScoredDistinct(kept);
    SortDescOrder(Scored(kept), i, j, p, q);
  }

  /** A repeated text is emitted at every occurrence: when all kept
      sentences share one text, every one is emitted, more than `num`. */
  lemma RepeatedSentence(kept: seq<string>, num: nat)
    requires 1 <= num < |kept|
    requires forall i :: 0 <= i < |kept| ==> kept[i] == kept[0]
    ensures Selected(kept, num) == kept
  {
    var t := TopTexts(kept, num);
    var k := SortedFromScored(kept, 0);
    assert t[0] == kept[0];
    KeepInAll(kept, t);
  }

  /** Filtering keeps every occurrence of a wanted element and none of an
      unwanted one. */
  lemma {:induction false} KeepInCount(xs: seq<string>, ys: seq<string>, x: string)
    ensures multiset(KeepIn(xs, ys))[x] == if x in ys then multiset(xs)[x] else 0
    decreases |xs|
  {
    if |xs| > 0 {
      var p := xs[..|xs| - 1];
      KeepInCount(p, ys, x);
      assert xs == p + [xs[|xs| - 1]];
    }
  }

  /** A top text is emitted as many times as it occurs among the kept
      sentences, however many that is; any other text is not emitted. */
  lemma SelectedOccurrences(kept: seq<string>, num: nat, x: string)
    ensures x in TopTexts(kept, num) ==> multiset(Selected(kept, num))[x] == multiset(kept)[x]
    ensures x !in TopTexts(kept, num) ==> multiset(Selected(kept, num))[x] == 0
  {
    KeepInCount(kept, TopTexts(kept, num), x);
  }

  lemma {:induction false} KeepInAll(xs: seq<string>, ys: seq<string>)
    requires forall i :: 0 <= i < |xs| ==> xs[i] in ys
    ensures KeepIn(xs, ys) == xs
    decreases |xs|
  {
    if |xs| > 0 {
      KeepInAll(xs[..|xs| - 1], ys);
      assert xs == xs[..|xs| - 1] + [xs[|xs| - 1]];
    }
  }

  // ---------------------------------------------------------------------------
  // The abstractive path
  // ---------------------------------------------------------------------------

  /** The summarisation model: `run(text, maxLength, minLength)` is its
      summary, or `None` when loading or running it raises. */
  datatype Summarizer = Unavailable | Available(run: (string, nat, nat) -> Option<string>)

  /** `[text[i:i+size] for i in range(0, len(text), size)]` */
  function Chunks(text: string, size: nat): (r: seq<string>)
    requires size > 0
    ensures Concat(r) == text
    ensures forall i :: 0 <= i < |r| ==> 0 < |r[i]| <= size
    ensures forall i :: 0 <= i < |r| - 1 ==> |r[i]| == size
    decreases |text|
  {
    if |text| == 0 then []
    else if |text| <= size then
      assert Concat([text]) == text + Concat([]);
      [text]
    else
      var rest := Chunks(text[size..], size);
      assert ([text[..size]] + rest)[1..] == rest;
      assert text == text[..size] + text[size..];
      [text[..size]] + rest
  }

  /** A chunk summary for each chunk, or `None` when one call raises. */
  function ChunkSummaries(run: (string, nat, nat) -> Option<string>, chunks: seq<string>,
                          maxLength: nat, minLength: nat): (r: Option<seq<string>>)
    ensures r.Some? ==> |r.value| == |chunks|
    ensures r.Some? <==> forall i :: 0 <= i < |chunks| ==> run(chunks[i], maxLength, minLength).Some?
    decreases |chunks|
  {
    if |chunks| == 0 then Some([])
    else
      var p := chunks[..|chunks| - 1];
      match ChunkSummaries(run, p, maxLength, minLength)
      case None => None
      case Some(ss) =>
        match run(chunks[|chunks| - 1], maxLength, minLength)
        case None => None
        case Some(s) => Some(ss + [s])
  }

  /** `summarize_with_bart`: texts longer than 1024 characters are summarised
      chunk by chunk and the pieces joined with spaces; a missing or failing
      model falls back to the extractive summary of three sentences. */
  function BartSummary(text: string, maxLength: nat, minLength: nat, model: Summarizer): string {
    match model
    case Unavailable => SimpleSummary(text, 3)
    case Available(run) =>
      if |text| > 1024 then
        match ChunkSummaries(run, Chunks(text, 1024), maxLength, minLength)
        case None => SimpleSummary(text, 3)
        case Some(ss) => Join(" ", ss)
      else
        match run(text, maxLength, minLength)
        case None => SimpleSummary(text, 3)
        case Some(s) => s
  }

  lemma ChunkSummariesSnoc(run: (string, nat, nat) -> Option<string>, chunks: seq<string>, i: nat,
                           maxLength: nat, minLength: nat, ss: seq<string>)
    requires i < |chunks| && ChunkSummaries(run, chunks[..i], maxLength, minLength) == Some(ss)
    ensures ChunkSummaries(run, chunks[..i + 1], maxLength, minLength) ==
      match run(chunks[i], maxLength, minLength) case None => None case Some(s) => Some(ss + [s])
  {
    assert chunks[..i + 1][..i] == chunks[..i];
  }

  lemma {:induction false} ChunkSummariesNone(run: (string, nat, nat) -> Option<string>, chunks: seq<string>,
                                              i: nat, maxLength: nat, minLength: nat)
    requires i <= |chunks| && ChunkSummaries(run, chunks[..i], maxLength, minLength).None?
    ensures ChunkSummaries(run, chunks, maxLength, minLength).None?
    decreases |chunks| - i
  {
    if i < |chunks| {
      assert chunks[..i + 1][..i] == chunks[..i];
      ChunkSummariesNone(run, chunks, i + 1, maxLength, minLength);
    } else {
      assert chunks[..i] == chunks;
    }
  }

  /** One failing chunk call fails the whole chunked summary. */
  lemma ChunkFails(run: (string, nat, nat) -> Option<string>, chunks: seq<string>, i: nat,
                   maxLength: nat, minLength: nat)
    requires i < |chunks| && run(chunks[i], maxLength, minLength).None?
    ensures ChunkSummaries(run, chunks, maxLength, minLength).None?
  {
  }

  /** `summarize_with_bart` (lines 17-51). */
  method SummarizeWithBart(text: string, maxLength: nat, minLength: nat, model: Summarizer)
    returns (summary: string)
    ensures summary == BartSummary(text, maxLength, minLength, model)
  {
    if model.Unavailable? {
      summary := SummarizeSimple(text, 3);
      return;
    }
    var run := model.run;
    if |text| > 1024 {
      var chunks := Chunks(text, 1024);
      var summaries: seq<string> := [];
      var i := 0;
      while i < |chunks|
        invariant i <= |chunks|
        invariant ChunkSummaries(run, chunks[..i], maxLength, minLength) == Some(summaries)
      {
        ChunkSummariesSnoc(run, chunks, i, maxLength, minLength, summaries);
        match run(chunks[i], maxLength, minLength)
        case None =>
          ChunkSummariesNone(run, chunks, i + 1, maxLength, minLength);
          summary := SummarizeSimple(text, 3);
          return;
        case Some(s) =>
          summaries := summaries + [s];
        i := i + 1;
      }
      assert chunks[..i] == chunks;
      summary := Join(" ", summaries);
    } else {
      match run(text, maxLength, minLength)
      case None =>
        summary := SummarizeSimple(text, 3);
      case Some(s) =>
        summary := s;
    }
  }

  /** `summarize_conversation`: the full text summarised with the model's
      length bounds of 200 and 80. */
  method SummarizeConversation(fullText: string, model: Summarizer) returns (summary: string)
    ensures summary == BartSummary(fullText, 200, 80, model)
    ensures model.Unavailable? ==> summary == SimpleSummary(fullText, 3)
  {
    summary := SummarizeWithBart(fullText, 200, 80, model);
  }

  /** Without a model, when the model fails on a short text, or when it fails
      on any one chunk of a long text, the summary is the extractive one and
      so ends with a full stop. */
  lemma FallbackEndsWithDot(text: string, maxLength: nat, minLength: nat, model: Summarizer)
    requires || model.Unavailable?
             || (|text| <= 1024 && model.run(text, maxLength, minLength).None?)
             || (&& model.Available? && |text| > 1024
                 && exists i :: 0 <= i < |Chunks(text, 1024)| && model.run(Chunks(text, 1024)[i], maxLength, minLength).None?)
    ensures var r := BartSummary(text, maxLength, minLength, model);
      r == SimpleSummary(text, 3) && |r| > 0 && r[|r| - 1] == '.'
  {
    if model.Available? && |text| > 1024 {
      var chunks := Chunks(text, 1024);
      var i :| 0 <= i < |chunks| && model.run(chunks[i], maxLength, minLength).None?;
      ChunkFails(model.run, chunks, i, maxLength, minLength);
    }
  }
}
