/** Medical entity extraction (`src/ner_extraction.py`): bucketing of the
    spans a named-entity recogniser reports, keyword sentence windows, and
    the merge and clean-up of the two. The recogniser itself is an input. */
module Ner {
  import opened Text

  const SymptomKeywords: seq<string> := [
    "pain", "ache", "discomfort", "sore", "tender", "stiff", "numb",
    "tingling", "headache", "dizziness", "nausea", "vomiting", "fever",
    "fatigue", "weakness", "swelling", "inflammation", "rash", "itch"]

  const DiagnosisKeywords: seq<string> := [
    "diagnosis", "diagnosed", "condition", "disease", "disorder", "syndrome",
    "injury", "fracture", "infection", "inflammation", "chronic", "acute"]

  const TreatmentKeywords: seq<string> := [
    "treatment", "therapy", "medication", "medicine", "drug", "prescription",
    "physiotherapy", "surgery", "operation", "procedure", "exercise",
    "painkiller", "antibiotic", "dose", "session", "appointment"]

  const PrognosisKeywords: seq<string> := [
    "recovery", "prognosis", "outcome", "heal", "improve", "better",
    "recover", "expected", "timeline", "months", "weeks", "days"]

  datatype Category = Symptoms | Diagnosis | Treatment | Prognosis

  /** The priority in which categories are tried. */
  function Rank(c: Category): nat {
    match c
    case Symptoms => 0
    case Diagnosis => 1
    case Treatment => 2
    case Prognosis => 3
  }

  function KeywordsOf(c: Category): seq<string> {
    match c
    case Symptoms => SymptomKeywords
    case Diagnosis => DiagnosisKeywords
    case Treatment => TreatmentKeywords
    case Prognosis => PrognosisKeywords
  }

  /** `any(keyword in span.lower() for keyword in KeywordsOf(c))` */
  predicate MatchesCategory(span: string, c: Category) {
    AnyIn(Lower(span), KeywordsOf(c))
  }

  /** The category a recognised span is filed under: the first, in the order
      Symptoms, Diagnosis, Treatment, Prognosis, one of whose keywords occurs
      in the lower-cased span; `None` drops the span. */
  function Classify(span: string): (r: Option<Category>)
    ensures r.Some? ==> MatchesCategory(span, r.value)
    ensures r.Some? ==> forall c :: Rank(c) < Rank(r.value) ==> !MatchesCategory(span, c)
    ensures r.None? <==> forall c :: !MatchesCategory(span, c)
  {
    if MatchesCategory(span, Symptoms) then Some(Symptoms)
    else if MatchesCategory(span, Diagnosis) then Some(Diagnosis)
    else if MatchesCategory(span, Treatment) then Some(Treatment)
    else if MatchesCategory(span, Prognosis) then Some(Prognosis)
    else None
  }

  /** "inflammation" is a Symptoms keyword and a Diagnosis keyword; the
      priority order files it under Symptoms. */
  lemma InflammationIsSymptom(span: string)
    requires Contains(Lower(span), "inflammation")
    ensures Classify(span) == Some(Symptoms)
  {
    assert SymptomKeywords[16] == "inflammation";
    assert MatchesCategory(span, Symptoms);
  }

  /** The four lists of the result, one per category. */
  datatype EntityBag = EntityBag(symptoms: seq<string>, diagnosis: seq<string>,
                                 treatment: seq<string>, prognosis: seq<string>)
  {
    function Get(c: Category): seq<string> {
      match c
      case Symptoms => symptoms
      case Diagnosis => diagnosis
      case Treatment => treatment
      case Prognosis => prognosis
    }

    function With(c: Category, xs: seq<string>): (b: EntityBag)
      ensures b.Get(c) == xs
      ensures forall d :: d != c ==> b.Get(d) == Get(d)
    {
      match c
      case Symptoms => this.(symptoms := xs)
      case Diagnosis => this.(diagnosis := xs)
      case Treatment => this.(treatment := xs)
      case Prognosis => this.(prognosis := xs)
    }
  }

  const EmptyBag := EntityBag([], [], [], [])

  // ---------------------------------------------------------------------------
  // Bucketing the recognised spans
  // ---------------------------------------------------------------------------

  /** One iteration of the loop over `doc.ents`. */
  function AddSpan(b: EntityBag, span: string): EntityBag {
    match Classify(span)
    case None => b
    case Some(c) => if span in b.Get(c) then b else b.With(c, b.Get(c) + [span])
  }

  function Buckets(spans: seq<string>): EntityBag
    decreases |spans|
  {
    if |spans| == 0 then EmptyBag
    else AddSpan(Buckets(spans[..|spans| - 1]), spans[|spans| - 1])
  }

  /** The spans filed under `c`, in order, repeats included. */
  function ClassifiedAs(spans: seq<string>, c: Category): seq<string>
    decreases |spans|
  {
    if |spans| == 0 then []
    else
      var x := spans[|spans| - 1];
      ClassifiedAs(spans[..|spans| - 1], c) + (if Classify(x) == Some(c) then [x] else [])
  }

  lemma AddSpanGet(b: EntityBag, x: string, c: Category)
    ensures AddSpan(b, x).Get(c) ==
      if Classify(x) == Some(c) && x !in b.Get(c) then b.Get(c) + [x] else b.Get(c)
  {
  }

  /** A bucket holds the first occurrence of every span filed under it, in
      order: so it has no repeats, and a span is in it exactly when the span
      was recognised and classified there. */
  lemma {:induction false} BucketsAreFirstOccurrences(spans: seq<string>, c: Category)
    ensures Buckets(spans).Get(c) == Dedupe(ClassifiedAs(spans, c))
    decreases |spans|
  {
    if |spans| > 0 {
      var p, x := spans[..|spans| - 1], spans[|spans| - 1];
      var q := ClassifiedAs(p, c);
      assert ClassifiedAs(spans, c) == q + (if Classify(x) == Some(c) then [x] else []);
      BucketsAreFirstOccurrences(p, c);
      AddSpanGet(Buckets(p), x, c);
      if Classify(x) == Some(c) {
        DedupeSnoc(q, x);
      } else {
        assert q + [] == q;
      }
    }
  }

  lemma BucketsStep(spans: seq<string>, i: nat)
    requires i < |spans|
    ensures Buckets(spans[..i + 1]) == AddSpan(Buckets(spans[..i]), spans[i])
  {
    assert spans[..i + 1][..i] == spans[..i];
  }

  /** The loop over `doc.ents` (lines 73-97). */
  method BucketEntities(spans: seq<string>) returns (b: EntityBag)
    ensures forall c :: b.Get(c) == Dedupe(ClassifiedAs(spans, c))
  {
    b := EmptyBag;
    var i := 0;
    while i < |spans|
      invariant i <= |spans|
      invariant b == Buckets(spans[..i])
    {
      BucketsStep(spans, i);
      var span := spans[i];
      var cat := Classify(span);
      if cat.Some? {
        var c := cat.value;
        if span !in b.Get(c) {
          b := b.With(c, b.Get(c) + [span]);
        }
      }
      i := i + 1;
    }
    assert spans[..i] == spans;
    forall c ensures b.Get(c) == Dedupe(ClassifiedAs(spans, c)) {
      BucketsAreFirstOccurrences(spans, c);
    }
  }

  // ---------------------------------------------------------------------------
  // extract_by_keywords
  // ---------------------------------------------------------------------------

  /** No dot but, at most, the last character. */
  predicate DotOnlyLast(s: string) { forall j :: 0 <= j < |s| - 1 ==> s[j] != '.' }

  /** The text cut after every `.`: each piece but the last ends with its
      dot, and no piece has a dot anywhere else. */
  function DotPieces(s: string): (r: seq<string>)
    ensures forall i :: 0 <= i < |r| ==> |r[i]| > 0 && DotOnlyLast(r[i])
    decreases |s|
  {
    if |s| == 0 then []
    else
      var k := IndexOf(s, '.');
      if k == |s| then [s]
      else
        assert DotOnlyLast(s[..k + 1]);
        [s[..k + 1]] + DotPieces(s[k + 1..])
  }

  /** The pieces are the text, cut. */
  lemma {:induction false} DotPiecesConcat(s: string)
    ensures Concat(DotPieces(s)) == s
    decreases |s|
  {
    if |s| > 0 {
      var k := IndexOf(s, '.');
      if k < |s| {
        var rest := s[k + 1..];
        DotPiecesConcat(rest);
        var parts := DotPieces(s);
        assert parts == [s[..k + 1]] + DotPieces(rest);
        assert parts[0] == s[..k + 1] && parts[1..] == DotPieces(rest);
        assert s == s[..k + 1] + rest;
      } else {
        var parts := DotPieces(s);
        assert parts == [s];
        assert parts[1..] == [];
      }
    }
  }

  /** `re.findall(rf'[^.]*{kw}[^.]*\.?', text, re.IGNORECASE)` for a keyword
      with no `.`: scanning from the start of a dot-delimited piece, the
      pattern matches the whole piece (its dot included) exactly when the
      piece contains the keyword, ignoring case; from anywhere else in a piece
      it finds nothing the start of the piece would not have found. */
  function FindAll(pieces: seq<string>, kw: string): (r: seq<string>)
    ensures forall i :: 0 <= i < |r| ==> r[i] in pieces && Contains(Lower(r[i]), kw)
    decreases |pieces|
  {
    if |pieces| == 0 then []
    else
      var p := pieces[|pieces| - 1];
      FindAll(pieces[..|pieces| - 1], kw) + (if Contains(Lower(p), kw) then [p] else [])
  }

  /** A phrase is kept when its stripped length is strictly between 10 and
      200. */
  predicate KeptLength(s: string) { 10 < |s| < 200 }

  /** The stripped matches of reasonable length, in order. */
  function Kept(ms: seq<string>): seq<string>
    decreases |ms|
  {
    if |ms| == 0 then []
    else
      var c := Strip(ms[|ms| - 1]);
      Kept(ms[..|ms| - 1]) + (if KeptLength(c) then [c] else [])
  }

  lemma {:induction false} KeptMember(ms: seq<string>, x: string)
    requires x in Kept(ms)
    ensures KeptLength(x) && exists m :: m in ms && x == Strip(m)
    decreases |ms|
  {
    var p := ms[..|ms| - 1];
    if x in Kept(p) {
      KeptMember(p, x);
      var m :| m in p && x == Strip(m);
      assert m in ms;
    } else {
      assert x == Strip(ms[|ms| - 1]);
    }
  }

  /** `found_phrases` after the loop has scanned `kws`. */
  function KeywordPhrases(text: string, kws: seq<string>): seq<string>
    decreases |kws|
  {
    if |kws| == 0 then []
    else KeywordPhrases(text, kws[..|kws| - 1]) + Kept(FindAll(DotPieces(text), kws[|kws| - 1]))
  }

  predicate NoSpaceIn(kw: string) { forall j :: 0 <= j < |kw| ==> !IsSpace(kw[j]) }

  /** A well-formed extracted phrase. */
  predicate GoodPhrase(p: string, kws: seq<string>) {
    KeptLength(p) && IsStripped(p) && DotOnlyLast(p) && AnyIn(Lower(p), kws)
  }

  lemma StripKeepsDotOnlyLast(s: string)
    requires DotOnlyLast(s)
    ensures DotOnlyLast(Strip(s))
  {
    var a, r := StripStart(s), Strip(s);
    forall j | 0 <= j < |r| - 1 ensures r[j] != '.' {
      assert r[j] == s[a + j];
    }
  }

  /** A match is a whole dot-delimited piece that contains the keyword. */
  lemma FoundPiece(text: string, kw: string, piece: string)
    requires piece in FindAll(DotPieces(text), kw)
    ensures DotOnlyLast(piece) && Contains(Lower(piece), kw)
  {
    var pieces, ms := DotPieces(text), FindAll(DotPieces(text), kw);
    var j :| 0 <= j < |ms| && ms[j] == piece;
    var m :| 0 <= m < |pieces| && pieces[m] == piece;
  }

  /** One match, stripped and length-checked, is a good phrase. */
  lemma KeptMatchIsGood(text: string, kws: seq<string>, kw: string, x: string)
    requires kw in kws && NoSpaceIn(kw)
    requires x in Kept(FindAll(DotPieces(text), kw))
    ensures GoodPhrase(x, kws)
  {
    var ms := FindAll(DotPieces(text), kw);
    KeptMember(ms, x);
    var piece :| piece in ms && x == Strip(piece);
    FoundPiece(text, kw, piece);
    StripKeepsDotOnlyLast(piece);
    StripKeepsPattern(piece, kw);
    assert kw in kws && Contains(Lower(x), kw);
  }

  lemma {:induction false} KeywordPhrasesAreGood(text: string, kws: seq<string>)
    requires forall k :: k in kws ==> NoSpaceIn(k)
    ensures forall x :: x in KeywordPhrases(text, kws) ==> GoodPhrase(x, kws)
    decreases |kws|
  {
    if |kws| > 0 {
      var p, kw := kws[..|kws| - 1], kws[|kws| - 1];
      KeywordPhrasesAreGood(text, p);
      forall x | x in KeywordPhrases(text, kws) ensures GoodPhrase(x, kws) {
        if x in KeywordPhrases(text, p) {
          assert GoodPhrase(x, p);
          var k :| k in p && Contains(Lower(x), k);
          assert k in kws;
        } else {
          KeptMatchIsGood(text, kws, kw, x);
        }
      }
    }
  }

  lemma SymptomKeywordsAreLetters()
    ensures forall i :: 0 <= i < |SymptomKeywords| ==> Letters(SymptomKeywords[i])
  {
  }

  lemma DiagnosisKeywordsAreLetters()
    ensures forall i :: 0 <= i < |DiagnosisKeywords| ==> Letters(DiagnosisKeywords[i])
  {
  }

  lemma TreatmentKeywordsAreLetters()
    ensures forall i :: 0 <= i < |TreatmentKeywords| ==> Letters(TreatmentKeywords[i])
  {
  }

  lemma PrognosisKeywordsAreLetters()
    ensures forall i :: 0 <= i < |PrognosisKeywords| ==> Letters(PrognosisKeywords[i])
  {
  }

  /** Every keyword is a word of small letters. */
  lemma KeywordsAreLetters(c: Category)
    ensures forall i :: 0 <= i < |KeywordsOf(c)| ==> Letters(KeywordsOf(c)[i])
  {
    match c
    case Symptoms => SymptomKeywordsAreLetters();
    case Diagnosis => DiagnosisKeywordsAreLetters();
    case Treatment => TreatmentKeywordsAreLetters();
    case Prognosis => PrognosisKeywordsAreLetters();
  }

  /** None of the keywords holds whitespace. */
  lemma KeywordsHaveNoSpace(c: Category)
    ensures forall k :: k in KeywordsOf(c) ==> NoSpaceIn(k)
  {
    KeywordsAreLetters(c);
    forall k | k in KeywordsOf(c) ensures NoSpaceIn(k) {
      var i :| 0 <= i < |KeywordsOf(c)| && KeywordsOf(c)[i] == k;
      assert Letters(k);
    }
  }

  /** One step of the inner loop: the accumulator grows by the next kept
      match, if any. */
  lemma KeptStep(found: seq<string>, ms: seq<string>, j: nat, acc: seq<string>)
    requires j < |ms| && acc == found + Kept(ms[..j])
    ensures (if KeptLength(Strip(ms[j])) then acc + [Strip(ms[j])] else acc) == found + Kept(ms[..j + 1])
  {
    assert ms[..j + 1][..j] == ms[..j];
  }

  /** The inner loop over one keyword's matches. */
  method KeepMatches(found: seq<string>, matches: seq<string>) returns (found': seq<string>)
    ensures found' == found + Kept(matches)
  {
    found' := found;
    var j := 0;
    while j < |matches|
      invariant j <= |matches|
      invariant found' == found + Kept(matches[..j])
    {
      KeptStep(found, matches, j, found');
      var cleaned := Strip(matches[j]);
      if 10 < |cleaned| < 200 {
        found' := found' + [cleaned];
      }
      j := j + 1;
    }
    assert matches[..j] == matches;
  }

  /** The outer loop of `extract_by_keywords`, over the keywords in order. */
  method CollectPhrases(text: string, kws: seq<string>) returns (found: seq<string>)
    ensures found == KeywordPhrases(text, kws)
  {
    var pieces := DotPieces(text);
    found := [];
    var i := 0;
    while i < |kws|
      invariant i <= |kws|
      invariant found == KeywordPhrases(text, kws[..i])
    {
      assert kws[..i + 1][..i] == kws[..i];
      found := KeepMatches(found, FindAll(pieces, kws[i]));
      i := i + 1;
    }
    assert kws[..i] == kws;
  }

  /** `extract_by_keywords(text, KeywordsOf(c))`: every keyword's matches in
      list order, stripped and length-filtered, then the first ten. */
  method ExtractByKeywords(text: string, c: Category) returns (phrases: seq<string>)
    ensures phrases == Take(KeywordPhrases(text, KeywordsOf(c)), 10)
    ensures |phrases| <= 10
    ensures forall x :: x in phrases ==> GoodPhrase(x, KeywordsOf(c))
  {
    var kws := KeywordsOf(c);
    var found := CollectPhrases(text, kws);
    phrases := Take(found, 10);
    KeywordsHaveNoSpace(c);
    KeywordPhrasesAreGood(text, kws);
  }

  // ---------------------------------------------------------------------------
  // extract_medical_entities
  // ---------------------------------------------------------------------------

  /** The clean-up of one category: strip, drop empties
      (`[item.strip() for item in xs if item.strip()]`), drop repeats. */
  function Clean(xs: seq<string>): (r: seq<string>)
    ensures Distinct(r)
    ensures forall i :: 0 <= i < |r| ==> r[i] != [] && Strip(r[i]) == r[i]
  {
    var t := StrippedOver(xs, 0);
    var r := Dedupe(t);
    forall i | 0 <= i < |r| ensures r[i] != [] && Strip(r[i]) == r[i] {
      DedupeMembers(t, r[i]);
      var j :| 0 <= j < |t| && t[j] == r[i];
      StripOfStripped(r[i]);
    }
    r
  }

  /** What survives the clean-up depends only on which strings went in: order
      and repeats in the input do not matter, so it holds whatever order
      `list(set(...))` produces. */
  lemma CleanMembers(xs: seq<string>, y: string)
    ensures y in Clean(xs) <==> y != [] && exists x :: x in xs && Strip(x) == y
  {
    StrippedOverMembers(xs, 0, y);
    var t := StrippedOver(xs, 0);
    if y in t {
      var j :| 0 <= j < |t| && t[j] == y;
    }
    DedupeMembers(t, y);
  }

  /** One category of the result, with `list(set(...))` taken in
      first-occurrence order. */
  function MergedCategory(text: string, spans: seq<string>, c: Category): seq<string> {
    Clean(Dedupe(Dedupe(ClassifiedAs(spans, c)) + Take(KeywordPhrases(text, KeywordsOf(c)), 10)))
  }

  /** The clean-up loop over the four keys (lines 114-116); the dictionary
      is held as the list of its four values in key order. */
  method CleanAll(merged: EntityBag) returns (result: EntityBag)
    ensures result == EntityBag(Clean(merged.symptoms), Clean(merged.diagnosis),
                                Clean(merged.treatment), Clean(merged.prognosis))
  {
    var lists := [merged.symptoms, merged.diagnosis, merged.treatment, merged.prognosis];
    ghost var original := lists;
    var i := 0;
    while i < 4
      invariant i <= 4 && |lists| == 4
      invariant forall j :: 0 <= j < i ==> lists[j] == Clean(original[j])
      invariant forall j :: i <= j < 4 ==> lists[j] == original[j]
    {
      lists := lists[i := Clean(lists[i])];
      i := i + 1;
    }
    result := EntityBag(lists[0], lists[1], lists[2], lists[3]);
  }

  /** All four categories of the result. */
  function MedicalEntities(text: string, spans: seq<string>): EntityBag {
    EntityBag(MergedCategory(text, spans, Symptoms), MergedCategory(text, spans, Diagnosis),
              MergedCategory(text, spans, Treatment), MergedCategory(text, spans, Prognosis))
  }

  /** `extract_medical_entities`. `ents` is what the recogniser reports for
      `text` (`doc.ents`), or `None` when no language model is loaded: then
      all four lists are empty and the keyword extractor is not run. */
  method ExtractMedicalEntities(text: string, ents: Option<seq<string>>) returns (result: EntityBag)
    ensures ents.None? ==> result == EmptyBag
    ensures ents.Some? ==> result == MedicalEntities(text, ents.value)
  {
    if ents.None? {
      return EmptyBag;
    }
    var buckets := BucketEntities(ents.value);
    var symptoms := ExtractByKeywords(text, Symptoms);
    var diagnosis := ExtractByKeywords(text, Diagnosis);
    var treatment := ExtractByKeywords(text, Treatment);
    var prognosis := ExtractByKeywords(text, Prognosis);
    assert buckets.Get(Symptoms) == buckets.symptoms && buckets.Get(Diagnosis) == buckets.diagnosis;
    assert buckets.Get(Treatment) == buckets.treatment && buckets.Get(Prognosis) == buckets.prognosis;
    var merged := EntityBag(Dedupe(buckets.symptoms + symptoms), Dedupe(buckets.diagnosis + diagnosis),
                            Dedupe(buckets.treatment + treatment), Dedupe(buckets.prognosis + prognosis));
    result := CleanAll(merged);
  }

  lemma MedicalEntitiesGet(text: string, spans: seq<string>, c: Category)
    ensures MedicalEntities(text, spans).Get(c) == MergedCategory(text, spans, c)
  {
  }

  /** Every final list is free of repeats and of empty entries, and every
      entry is its own `strip()`. */
  lemma MergedCategoryClean(text: string, spans: seq<string>, c: Category)
    ensures Distinct(MergedCategory(text, spans, c))
    ensures forall y :: y in MergedCategory(text, spans, c) ==> y != [] && Strip(y) == y
  {
  }

  /** Each final list, as a set: the non-empty stripped forms of the
      recogniser's spans filed under the category and of the keyword
      phrases. */
  lemma MedicalEntitiesMembers(text: string, spans: seq<string>, c: Category, y: string)
    ensures y in MergedCategory(text, spans, c) <==>
      y != [] && exists x :: (x in ClassifiedAs(spans, c) || x in Take(KeywordPhrases(text, KeywordsOf(c)), 10)) && Strip(x) == y
  {
    var b, k := Dedupe(ClassifiedAs(spans, c)), Take(KeywordPhrases(text, KeywordsOf(c)), 10);
    var m := Dedupe(b + k);
    CleanMembers(m, y);
    forall x ensures x in m <==> x in ClassifiedAs(spans, c) || x in k {
      DedupeMembers(b + k, x);
      DedupeMembers(ClassifiedAs(spans, c), x);
    }
  }
}
