/** The web front end's medicine suggestions and symptom detection
    (`app.py`): every symptom is looked up under the first table key it
    contains, the suggestions are de-duplicated in order and cut to four;
    symptoms are detected in a conversation by keyword. The tables are
    parameters of the algorithms and fixed by the constants below. */
module Medicine {
  import opened Text

  datatype Recommendation = Recommendation(medicine: string, dosage: string)

  const Paracetamol := Recommendation("Paracetamol 500mg", "1 tablet every 4-6 hours")
  const Ibuprofen := Recommendation("Ibuprofen 400mg", "1 tablet every 6-8 hours")
  const Ondansetron := Recommendation("Ondansetron 4mg", "1 tablet every 8 hours")
  const Cetirizine := Recommendation("Cetirizine 10mg", "1 tablet daily")
  const Sertraline := Recommendation("Sertraline 25mg", "As prescribed by doctor")

  /** `medicine_map`, keys in declaration order. */
  const MedicineTable: seq<(string, seq<Recommendation>)> := [
    ("fever", [Paracetamol, Ibuprofen]),
    ("headache", [Paracetamol, Ibuprofen]),
    ("pain", [Ibuprofen, Paracetamol]),
    ("cough", [Recommendation("Cough syrup", "10ml every 4-6 hours"),
               Recommendation("Dextromethorphan", "10-20mg every 4 hours")]),
    ("cold", [Paracetamol, Recommendation("Vitamin C tablets", "1 tablet daily")]),
    ("sore throat", [Recommendation("Throat lozenges", "1 lozenge every 2-3 hours"), Paracetamol]),
    ("nausea", [Ondansetron, Recommendation("Dimenhydrinate 50mg", "1 tablet every 4-6 hours")]),
    ("vomiting", [Ondansetron, Recommendation("Domperidone 10mg", "1 tablet every 8 hours")]),
    ("diarrhea", [Recommendation("Oral rehydration salts", "1 packet in water every hour"),
                  Recommendation("Loperamide 2mg", "1 tablet after each loose stool")]),
    ("constipation", [Recommendation("Lactulose syrup", "15-30ml daily"),
                      Recommendation("Bisacodyl 5mg", "1 tablet daily")]),
    ("fatigue", [Recommendation("Multivitamin", "1 tablet daily"),
                 Recommendation("Iron supplement", "As prescribed")]),
    ("insomnia", [Recommendation("Melatonin 3mg", "1 tablet 30 minutes before sleep"),
                  Recommendation("Diphenhydramine 25mg", "1 tablet before sleep")]),
    ("anxiety", [Recommendation("Alprazolam 0.25mg", "As prescribed by doctor"), Sertraline]),
    ("depression", [Sertraline, Recommendation("Escitalopram 5mg", "As prescribed by doctor")]),
    ("allergy", [Cetirizine, Recommendation("Loratadine 10mg", "1 tablet daily")]),
    ("rash", [Cetirizine, Recommendation("Hydrocortisone cream", "Apply 2-3 times daily")]),
    ("infection", [Recommendation("Amoxicillin 500mg", "1 capsule every 8 hours"),
                   Recommendation("Azithromycin 500mg", "1 tablet daily for 3 days")])
  ]

  /** The first key at index `k` or later that occurs in `lowered`. */
  function FirstKeyFrom<V>(table: seq<(string, V)>, lowered: string, k: nat): (r: Option<nat>)
    ensures r.Some? ==> k <= r.value < |table| && Contains(lowered, table[r.value].0)
    ensures r.Some? ==> forall j :: k <= j < r.value ==> !Contains(lowered, table[j].0)
    ensures r.None? <==> forall j :: k <= j < |table| ==> !Contains(lowered, table[j].0)
    decreases |table| - k
  {
    if k >= |table| then None
    else if Contains(lowered, table[k].0) then Some(k)
    else FirstKeyFrom(table, lowered, k + 1)
  }

  /** The suggestions of one symptom: those of the first key that is a
      substring of the lower-cased symptom, or none. */
  function Lookup(table: seq<(string, seq<Recommendation>)>, symptom: string): seq<Recommendation> {
    match FirstKeyFrom(table, Lower(symptom), 0)
    case None => []
    case Some(k) => table[k].1
  }

  /** The suggestions of every symptom, in order. */
  function Lookups(table: seq<(string, seq<Recommendation>)>, symptoms: seq<string>): (r: seq<seq<Recommendation>>)
    ensures |r| == |symptoms|
    ensures forall i :: 0 <= i < |symptoms| ==> r[i] == Lookup(table, symptoms[i])
  {
    seq(|symptoms|, i requires 0 <= i < |symptoms| => Lookup(table, symptoms[i]))
  }

  /** The lists one after the other. */
  function Flatten<T>(xss: seq<seq<T>>): seq<T>
    decreases |xss|
  {
    if |xss| == 0 then [] else Flatten(xss[..|xss| - 1]) + xss[|xss| - 1]
  }

  lemma {:induction false} FlattenMembers<T>(xss: seq<seq<T>>, x: T)
    ensures x in Flatten(xss) <==> exists i :: 0 <= i < |xss| && x in xss[i]
    decreases |xss|
  {
    if |xss| > 0 {
      var init := xss[..|xss| - 1];
      FlattenMembers(init, x);
      if exists i :: 0 <= i < |init| && x in init[i] {
        var i :| 0 <= i < |init| && x in init[i];
        assert xss[i] == init[i];
      }
    }
  }

  /** `recommendations` after the lookup loop. */
  function Gathered(table: seq<(string, seq<Recommendation>)>, symptoms: seq<string>): seq<Recommendation> {
    Flatten(Lookups(table, symptoms))
  }

  /** `unique_recommendations[:4]` */
  function Recommendations(table: seq<(string, seq<Recommendation>)>, symptoms: seq<string>): (r: seq<Recommendation>)
    ensures |r| <= 4 && Distinct(r)
    ensures forall x :: x in r ==> x in Gathered(table, symptoms)
  {
    DedupeSameElements(Gathered(table, symptoms));
    Take(Dedupe(Gathered(table, symptoms)), 4)
  }

  lemma GatheredStep(table: seq<(string, seq<Recommendation>)>, symptoms: seq<string>, i: nat)
    requires i < |symptoms|
    ensures Gathered(table, symptoms[..i + 1]) == Gathered(table, symptoms[..i]) + Lookup(table, symptoms[i])
  {
    var l := Lookups(table, symptoms[..i + 1]);
    assert l[..i] == Lookups(table, symptoms[..i]);
  }

  /** The nested lookup loop with its `break`, over any table. */
  method GatherAll(table: seq<(string, seq<Recommendation>)>, symptoms: seq<string>) returns (gathered: seq<Recommendation>)
    ensures gathered == Gathered(table, symptoms)
  {
    gathered := [];
    var i := 0;
    while i < |symptoms|
      invariant i <= |symptoms|
      invariant gathered == Gathered(table, symptoms[..i])
    {
      GatheredStep(table, symptoms, i);
      var lowered := Lower(symptoms[i]);
      var k := 0;
      while k < |table|
        invariant k <= |table|
        invariant FirstKeyFrom(table, lowered, 0) == FirstKeyFrom(table, lowered, k)
        invariant gathered == Gathered(table, symptoms[..i])
      {
        if Contains(lowered, table[k].0) {
          gathered := gathered + table[k].1;
          break;
        }
        k := k + 1;
      }
      i := i + 1;
    }
    assert symptoms[..i] == symptoms;
  }

  /** The `seen`-set loop: the first occurrence of every element, in order. */
  method Unique<T(==)>(xs: seq<T>) returns (unique: seq<T>)
    ensures unique == Dedupe(xs)
  {
    var seen: set<T> := {};
    unique := [];
    var j := 0;
    while j < |xs|
      invariant j <= |xs|
      invariant unique == Dedupe(xs[..j])
      invariant forall x :: x in seen <==> x in Dedupe(xs[..j])
    {
      SeenStep(xs, j, seen);
      if xs[j] !in seen {
        seen := seen + {xs[j]};
        unique := unique + [xs[j]];
      }
      j := j + 1;
    }
    DedupeWhole(xs);
  }

  method Recommend(table: seq<(string, seq<Recommendation>)>, symptoms: seq<string>) returns (recs: seq<Recommendation>)
    ensures recs == Recommendations(table, symptoms)
  {
    var gathered := GatherAll(table, symptoms);
    var unique := Unique(gathered);
    recs := Take(unique, 4);
  }

  /** `generate_medicine_recommendations`; the diagnosis is not consulted. */
  method GenerateMedicineRecommendations(symptoms: seq<string>, diagnosis: string) returns (recs: seq<Recommendation>)
    ensures recs == Recommendations(MedicineTable, symptoms)
  {
    recs := Recommend(MedicineTable, symptoms);
  }

  /** A suggestion comes from the entry of the first key some symptom
      contains, and every such entry contributes. */
  lemma GatheredMembers(table: seq<(string, seq<Recommendation>)>, symptoms: seq<string>, x: Recommendation)
    ensures x in Gathered(table, symptoms) <==>
      exists i :: 0 <= i < |symptoms| && x in Lookup(table, symptoms[i])
  {
    var l := Lookups(table, symptoms);
    FlattenMembers(l, x);
    if exists i :: 0 <= i < |l| && x in l[i] {
      var i :| 0 <= i < |l| && x in l[i];
      assert x in Lookup(table, symptoms[i]);
    }
    if exists i :: 0 <= i < |symptoms| && x in Lookup(table, symptoms[i]) {
      var i :| 0 <= i < |symptoms| && x in Lookup(table, symptoms[i]);
      assert x in l[i];
    }
  }

  /** Every suggestion is a table value, taken for a symptom that contains its
      key and no earlier key. */
  lemma SuggestionOrigin(table: seq<(string, seq<Recommendation>)>, symptoms: seq<string>, x: Recommendation)
    requires x in Recommendations(table, symptoms)
    ensures exists i, k ::
              && 0 <= i < |symptoms| && 0 <= k < |table| && x in table[k].1
              && Contains(Lower(symptoms[i]), table[k].0)
              && (forall j :: 0 <= j < k ==> !Contains(Lower(symptoms[i]), table[j].0))
  {
    GatheredMembers(table, symptoms, x);
    var i :| 0 <= i < |symptoms| && x in Lookup(table, symptoms[i]);
    var k := FirstKeyFrom(table, Lower(symptoms[i]), 0).value;
    assert x in table[k].1;
  }

  /** Symptoms that contain no key, and in particular no symptoms at all, give
      no suggestions. */
  lemma NoKeyNoSuggestion(table: seq<(string, seq<Recommendation>)>, symptoms: seq<string>)
    requires forall i, k :: 0 <= i < |symptoms| && 0 <= k < |table| ==> !Contains(Lower(symptoms[i]), table[k].0)
    ensures Recommendations(table, symptoms) == []
  {
    if Recommendations(table, symptoms) != [] {
      var x := Recommendations(table, symptoms)[0];
      SuggestionOrigin(table, symptoms, x);
    }
  }

  /** With at most four distinct suggestions none is dropped, and the list
      is the gathered suggestions in first-occurrence order. */
  lemma FewSuggestionsKept(table: seq<(string, seq<Recommendation>)>, symptoms: seq<string>)
    requires |Dedupe(Gathered(table, symptoms))| <= 4
    ensures Recommendations(table, symptoms) == Dedupe(Gathered(table, symptoms))
  {
  }

  // ---------------------------------------------------------------------------
  // Symptom detection
  // ---------------------------------------------------------------------------

  /** `symptom_keywords`, in declaration order. */
  const SymptomTable: seq<(string, seq<string>)> := [
    ("fever", ["fever", "temperature", "hot"]),
    ("headache", ["headache", "head ache", "migraine"]),
    ("cough", ["cough", "coughing"]),
    ("cold", ["cold", "runny nose", "sneezing"]),
    ("pain", ["pain", "hurts", "ache"]),
    ("nausea", ["nausea", "sick", "queasy"]),
    ("vomiting", ["vomit", "throw up", "nauseous"]),
    ("diarrhea", ["diarrhea", "loose motion"]),
    ("fatigue", ["tired", "fatigue", "weak"]),
    ("rash", ["rash", "skin irritation"]),
    ("infection", ["infection", "infected"])
  ]

  predicate IsLetter(c: char) { IsUpper(c) || IsLowerLetter(c) }

  /** `str.title()` over ASCII: a letter after a non-letter, or at the start,
      is upper-cased, every other letter lower-cased. */
  function TitleFrom(s: string, afterLetter: bool): (r: string)
    ensures |r| == |s|
    decreases |s|
  {
    if |s| == 0 then ""
    else
      var c := if afterLetter then LowerChar(s[0]) else UpperChar(s[0]);
      [c] + TitleFrom(s[1..], IsLetter(s[0]))
  }

  function Title(s: string): (r: string)
    ensures |r| == |s|
    ensures |s| > 0 ==> r[0] == UpperChar(s[0])
  {
    TitleFrom(s, false)
  }

  /** The detected symptoms: the titled name of every entry one of whose
      keywords occurs in the lower-cased text, in table order. */
  function Detected(table: seq<(string, seq<string>)>, lowered: string): seq<string>
    decreases |table|
  {
    if |table| == 0 then []
    else
      var last := table[|table| - 1];
      Detected(table[..|table| - 1], lowered) + (if AnyIn(lowered, last.1) then [Title(last.0)] else [])
  }

  function Titles(table: seq<(string, seq<string>)>): (r: seq<string>)
    ensures |r| == |table|
    ensures forall i :: 0 <= i < |table| ==> r[i] == Title(table[i].0)
  {
    seq(|table|, i requires 0 <= i < |table| => Title(table[i].0))
  }

  lemma DetectedStep(table: seq<(string, seq<string>)>, lowered: string, i: nat)
    requires i < |table|
    ensures Detected(table[..i + 1], lowered) ==
      Detected(table[..i], lowered) + (if AnyIn(lowered, table[i].1) then [Title(table[i].0)] else [])
  {
    assert table[..i + 1][..i] == table[..i];
  }

  /** The detection loop of the conversation page, over any table. */
  method Detect(table: seq<(string, seq<string>)>, text: string) returns (detected: seq<string>)
    ensures detected == Detected(table, Lower(text))
  {
    var lowered := Lower(text);
    detected := [];
    var i := 0;
    while i < |table|
      invariant i <= |table|
      invariant detected == Detected(table[..i], lowered)
    {
      DetectedStep(table, lowered, i);
      if AnyIn(lowered, table[i].1) {
        detected := detected + [Title(table[i].0)];
      }
      i := i + 1;
    }
    assert table[..i] == table;
  }

  method DetectSymptoms(conversationText: string) returns (detected: seq<string>)
    ensures detected == Detected(SymptomTable, Lower(conversationText))
  {
    detected := Detect(SymptomTable, conversationText);
  }

  /** A symptom is detected exactly when one of its keywords occurs in the
      lower-cased text. */
  lemma {:induction false} DetectedMembers(table: seq<(string, seq<string>)>, lowered: string, x: string)
    ensures x in Detected(table, lowered) <==>
      exists i :: 0 <= i < |table| && AnyIn(lowered, table[i].1) && x == Title(table[i].0)
    decreases |table|
  {
    if |table| > 0 {
      var init := table[..|table| - 1];
      DetectedMembers(init, lowered, x);
      if exists i :: 0 <= i < |init| && AnyIn(lowered, init[i].1) && x == Title(init[i].0) {
        var i :| 0 <= i < |init| && AnyIn(lowered, init[i].1) && x == Title(init[i].0);
        assert table[i] == init[i];
      }
      if exists i :: 0 <= i < |table| && AnyIn(lowered, table[i].1) && x == Title(table[i].0) {
        var i :| 0 <= i < |table| && AnyIn(lowered, table[i].1) && x == Title(table[i].0);
        if i < |init| {
          assert init[i] == table[i];
        }
      }
    }
  }

  /** The detected symptoms keep the table's order: they are a subsequence of
      the titled names, so each appears at most once when the names differ. */
  lemma {:induction false} DetectedInTableOrder(table: seq<(string, seq<string>)>, lowered: string)
    ensures IsSubsequence(Detected(table, lowered), Titles(table))
    decreases |table|
  {
    if |table| > 0 {
      var init := table[..|table| - 1];
      DetectedInTableOrder(init, lowered);
      var t := Title(table[|table| - 1].0);
      assert Titles(table) == Titles(init) + [t];
      assert (Titles(init) + [t])[..|Titles(init)|] == Titles(init);
      if AnyIn(lowered, table[|table| - 1].1) {
        var d := Detected(table, lowered);
        assert d == Detected(init, lowered) + [t];
        assert d[..|d| - 1] == Detected(init, lowered);
      } else {
        assert Detected(table, lowered) == Detected(init, lowered);
        SubsequenceSnoc(Detected(init, lowered), Titles(init), t);
      }
    }
  }

  lemma {:induction false} LowerOfTitle(s: string, afterLetter: bool)
    requires Letters(s)
    ensures Lower(TitleFrom(s, afterLetter)) == s
    decreases |s|
  {
    if |s| > 0 {
      LowerOfTitle(s[1..], IsLetter(s[0]));
      LowerCharFacts(s[0]);
      var c := if afterLetter then LowerChar(s[0]) else UpperChar(s[0]);
      LowerCharFacts(c);
      assert TitleFrom(s, afterLetter) == [c] + TitleFrom(s[1..], IsLetter(s[0]));
      assert Lower([c] + TitleFrom(s[1..], IsLetter(s[0]))) == [LowerChar(c)] + Lower(TitleFrom(s[1..], IsLetter(s[0])));
    }
  }

  /** Entries with distinct titled names are detected at most once each. */
  lemma {:induction false} DetectedDistinct(table: seq<(string, seq<string>)>, lowered: string)
    requires Distinct(Titles(table))
    ensures Distinct(Detected(table, lowered))
    decreases |table|
  {
    if |table| > 0 {
      var init := table[..|table| - 1];
      var t := Title(table[|table| - 1].0);
      assert Titles(init) == Titles(table)[..|init|];
      DetectedDistinct(init, lowered);
      DetectedMembers(init, lowered, t);
    }
  }

  /** Distinct keys of small letters have distinct titled names. */
  lemma TitlesDistinct(table: seq<(string, seq<string>)>)
    requires forall i :: 0 <= i < |table| ==> Letters(table[i].0)
    requires forall i, j :: 0 <= i < j < |table| ==> table[i].0 != table[j].0
    ensures Distinct(Titles(table))
  {
    forall i, j | 0 <= i < j < |table|
      ensures Titles(table)[i] != Titles(table)[j]
    {
      LowerOfTitle(table[i].0, false);
      LowerOfTitle(table[j].0, false);
    }
  }

  /** The conversation page lists every detected symptom once. */
  lemma DetectSymptomsDistinct(lowered: string)
    ensures Distinct(Detected(SymptomTable, lowered))
  {
    TitlesDistinct(SymptomTable);
    DetectedDistinct(SymptomTable, lowered);
  }
}
