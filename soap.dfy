/** SOAP note generation (`src/soap_generator.py`): the patient's name from
    two fixed patterns, sentence extractors keyed on lower-cased keywords,
    and the four-part note assembled from the transcript, the entities and
    the summary. The regular expressions are written out by hand over ASCII
    character classes. */
module Soap {
  import opened Text
  import Preprocessing
  import Ner

  // ---------------------------------------------------------------------------
  // Character runs and the two name patterns
  // ---------------------------------------------------------------------------

  /** The character classes the patterns use: `\s`, `[a-z]` and `\w`. */
  datatype CharClass = Space | LowerCase | WordChar

  predicate InClass(c: char, cl: CharClass) {
    match cl
    case Space => IsSpace(c)
    case LowerCase => IsLowerLetter(c)
    case WordChar => IsWordChar(c)
  }

  /** The length of the longest run of `cl` characters starting at `i`: what a
      greedy `cl*` consumes there. */
  function Run(s: string, i: nat, cl: CharClass): (n: nat)
    requires i <= |s|
    ensures i + n <= |s|
    ensures forall k :: i <= k < i + n ==> InClass(s[k], cl)
    ensures i + n < |s| ==> !InClass(s[i + n], cl)
    decreases |s| - i
  {
    if i < |s| && InClass(s[i], cl) then 1 + Run(s, i + 1, cl) else 0
  }

  /** `[A-Z][a-z]+` */
  predicate IsCapWord(w: string) {
    |w| >= 2 && IsUpper(w[0]) && forall k :: 1 <= k < |w| ==> IsLowerLetter(w[k])
  }

  /** What the name group `[A-Z][a-z]+(?:\s+[A-Z][a-z]+)?` can capture: one
      capitalised word, or two separated by whitespace. */
  predicate IsName(n: string) {
    IsCapWord(n) ||
    exists a, b :: 0 < a < b < |n| && IsCapWord(n[..a]) && AllSpace(n[a..b]) && IsCapWord(n[b..])
  }

  /** The end of `[A-Z][a-z]+` matched greedily at `i`, if it matches. */
  function CapWordAt(s: string, i: nat): (e: Option<nat>)
    requires i <= |s|
    ensures e.Some? ==> i + 2 <= e.value <= |s| && IsCapWord(s[i..e.value])
    ensures e.Some? ==> e.value == |s| || !IsLowerLetter(s[e.value])
  {
    if i < |s| && IsUpper(s[i]) && Run(s, i + 1, LowerCase) > 0 then Some(i + 1 + Run(s, i + 1, LowerCase))
    else None
  }

  /** The end of the optional `\s+[A-Z][a-z]+` after a first word ending at
      `e`, if it matches. */
  function SecondWordAt(s: string, e: nat): (e2: Option<nat>)
    requires e <= |s|
    ensures e2.Some? ==> e + 3 <= e2.value <= |s|
  {
    var j := e + Run(s, e, Space);
    if j > e then CapWordAt(s, j) else None
  }

  /** The two-word capture `s[i..e2]` is a name. */
  lemma TwoWordName(s: string, i: nat, e: nat)
    requires i <= e <= |s|
    requires CapWordAt(s, i) == Some(e) && SecondWordAt(s, e).Some?
    ensures IsName(s[i..SecondWordAt(s, e).value])
  {
    var j := e + Run(s, e, Space);
    var e2 := SecondWordAt(s, e).value;
    assert j > e && CapWordAt(s, j) == Some(e2);
    SpacedName(s, i, e, j, e2);
  }

  lemma SpacedName(s: string, i: nat, e: nat, j: nat, g: nat)
    requires i < e < j < g <= |s| && IsCapWord(s[i..e]) && IsCapWord(s[j..g])
    requires j == e + Run(s, e, Space)
    ensures IsName(s[i..g])
  {
    assert AllSpace(s[e..j]) by {
      forall k | 0 <= k < j - e ensures IsSpace(s[e..j][k]) { assert InClass(s[e + k], Space); }
    }
    assert s[i..g] == s[i..e] + s[e..j] + s[j..g];
    NameOfParts(s[i..e], s[e..j], s[j..g]);
  }

  lemma NameOfParts(x: string, y: string, z: string)
    requires IsCapWord(x) && |y| > 0 && AllSpace(y) && IsCapWord(z)
    ensures IsName(x + y + z)
  {
    var n := x + y + z;
    assert n[..|x|] == x && n[|x|..|x| + |y|] == y && n[|x| + |y|..] == z;
  }

  /** `,?\s+(?:how|feeling|doing)` at `g`. */
  predicate GreetingAt(s: string, g: nat)
    requires g <= |s|
  {
    var h := if g < |s| && s[g] == ',' then g + 1 else g;
    var m := Run(s, h, Space);
    m > 0 && (StartsWith(s[h + m..], "how") || StartsWith(s[h + m..], "feeling") || StartsWith(s[h + m..], "doing"))
  }

  const MedicationNouns: seq<string> := ["medication", "medicine", "drug", "painkiller"]

  /** `\s+(?:w1|w2|...)` at `g`, the alternatives matched case-insensitively. */
  predicate TailAt(s: string, g: nat, words: seq<string>)
    requires g <= |s|
  {
    Run(s, g, Space) > 0 && OneOfAt(Lower(s), words, g + Run(s, g, Space))
  }

  lemma TailAtContains(s: string, g: nat, words: seq<string>)
    requires g <= |s| && TailAt(s, g, words)
    ensures AnyIn(Lower(s), words)
  {
    OneOfAtContains(Lower(s), words, g + Run(s, g, Space));
  }

  /** `\s+(?:medication|medicine|drug|painkiller)` at `g`. */
  predicate NounTailAt(s: string, g: nat)
    requires g <= |s|
  {
    TailAt(s, g, MedicationNouns)
  }

  /** The three searches of the module. */
  datatype Pattern =
    | AfterLabel      // `Patient:\s*([A-Z][a-z]+(?:\s+[A-Z][a-z]+)?)`
    | BeforeGreeting  // `([A-Z][a-z]+(?:\s+[A-Z][a-z]+)?),?\s+(?:how|feeling|doing)`
    | MedicationName  // `(\w+(?:\s+\w+)?)\s+(?:medication|medicine|drug|painkiller)`, ignoring case

  /** The first group of `Patient:\s*([A-Z][a-z]+(?:\s+[A-Z][a-z]+)?)` at `i`;
      the optional second word is taken when it is there. */
  function LabelMatchAt(s: string, i: nat): (g: Option<string>)
    requires i <= |s|
    ensures g.Some? ==> IsName(g.value)
  {
    if StartsWith(s[i..], "Patient:") then
      var k := i + 8 + Run(s, i + 8, Space);
      match CapWordAt(s, k)
      case None => None
      case Some(e) =>
        match SecondWordAt(s, e)
        case Some(e2) => TwoWordName(s, k, e); Some(s[k..e2])
        case None => Some(s[k..e])
    else None
  }

  /** The first group of `([A-Z][a-z]+(?:\s+[A-Z][a-z]+)?),?\s+(?:how|feeling|doing)`
      at `i`: the two-word name is tried before the one-word name. */
  function GreetingMatchAt(s: string, i: nat): (g: Option<string>)
    requires i <= |s|
    ensures g.Some? ==> IsName(g.value)
  {
    match CapWordAt(s, i)
    case None => None
    case Some(e) =>
      var second := SecondWordAt(s, e);
      if second.Some? && GreetingAt(s, second.value) then TwoWordName(s, i, e); Some(s[i..second.value])
      else if GreetingAt(s, e) then Some(s[i..e])
      else None
  }

  /** The end of the first group of
      `(\w+(?:\s+\w+)?)\s+(?:medication|medicine|drug|painkiller)`, ignoring
      case, at `i`: two words are tried before one. */
  function MedicationGroupEnd(s: string, i: nat): (e: Option<nat>)
    requires i <= |s|
    ensures e.Some? ==> i < e.value <= |s| && IsWordChar(s[i]) && NounTailAt(s, e.value)
    ensures e.Some? ==> IsWordGroup(s[i..e.value])
  {
    var w := Run(s, i, WordChar);
    if w == 0 then None
    else
      var e := i + w;
      assert AllWord(s[i..e]);
      var second := SecondWordEnd(s, e);
      if second.Some? then TwoWordGroup(s, i, e, e + Run(s, e, Space), second.value); second
      else if NounTailAt(s, e) then Some(e)
      else None
  }

  /** Two word runs with whitespace between them form a word group. */
  lemma TwoWordGroup(s: string, i: nat, e: nat, j: nat, g: nat)
    requires i < e < j < g <= |s| && AllWord(s[i..e])
    requires j == e + Run(s, e, Space) && g == j + Run(s, j, WordChar)
    ensures IsWordGroup(s[i..g])
  {
    assert AllSpace(s[e..j]) by {
      forall k | 0 <= k < j - e ensures IsSpace(s[e..j][k]) { assert InClass(s[e + k], Space); }
    }
    assert AllWord(s[j..g]) by {
      forall k | 0 <= k < g - j ensures IsWordChar(s[j..g][k]) { assert InClass(s[j + k], WordChar); }
    }
    assert s[i..g] == s[i..e] + s[e..j] + s[j..g];
    WordGroupOfParts(s[i..e], s[e..j], s[j..g]);
  }

  lemma WordGroupOfParts(x: string, y: string, z: string)
    requires AllWord(x) && |y| > 0 && AllSpace(y) && AllWord(z)
    ensures IsWordGroup(x + y + z)
  {
    var n := x + y + z;
    assert n[..|x|] == x && n[|x|..|x| + |y|] == y && n[|x| + |y|..] == z;
  }

  /** The end of `\s+\w+` at `e` when a medication noun follows it. */
  function SecondWordEnd(s: string, e: nat): (r: Option<nat>)
    requires e <= |s|
    ensures r.Some? ==> var j := e + Run(s, e, Space);
      e < j < r.value <= |s| && r.value == j + Run(s, j, WordChar) && NounTailAt(s, r.value)
  {
    var j := e + Run(s, e, Space);
    var g := j + Run(s, j, WordChar);
    if j > e && g > j && NounTailAt(s, g) then Some(g) else None
  }

  /** A run of `\w` characters. */
  predicate AllWord(w: string) {
    |w| > 0 && forall k :: 0 <= k < |w| ==> IsWordChar(w[k])
  }

  /** What the group `\w+(?:\s+\w+)?` can capture: one word, or two
      separated by whitespace. */
  predicate IsWordGroup(n: string) {
    AllWord(n) ||
    exists a, b :: 0 < a < b < |n| && AllWord(n[..a]) && AllSpace(n[a..b]) && AllWord(n[b..])
  }

  /** `g` is a word group that `s` holds at `i`, followed by whitespace and a
      medication noun. */
  predicate MedicationGroupAt(s: string, i: nat, g: string) {
    && i + |g| <= |s| && s[i..i + |g|] == g && NounTailAt(s, i + |g|)
    && IsWordGroup(g) && IsWordChar(g[0])
  }

  function MedicationMatchAt(s: string, i: nat): (g: Option<string>)
    requires i <= |s|
    ensures g.Some? ==> |g.value| > 0 && IsWordChar(g.value[0])
    ensures g.Some? ==> MedicationGroupAt(s, i, g.value)
  {
    match MedicationGroupEnd(s, i)
    case None => None
    case Some(e) => GroupFromEnd(s, i, e); Some(s[i..e])
  }

  lemma GroupFromEnd(s: string, i: nat, e: nat)
    requires i < e <= |s| && IsWordChar(s[i]) && NounTailAt(s, e) && IsWordGroup(s[i..e])
    ensures MedicationGroupAt(s, i, s[i..e])
  {
    var g := s[i..e];
    assert i + |g| == e && g[0] == s[i];
  }

  /** The first group of `p` when the match is attempted at `i`, in the
      engine's backtracking order. */
  function MatchAt(p: Pattern, s: string, i: nat): (g: Option<string>)
    requires i <= |s|
    ensures g.Some? && p != MedicationName ==> IsName(g.value)
    ensures g.Some? && p == MedicationName ==> |g.value| > 0 && IsWordChar(g.value[0])
  {
    match p
    case AfterLabel => LabelMatchAt(s, i)
    case BeforeGreeting => GreetingMatchAt(s, i)
    case MedicationName => MedicationMatchAt(s, i)
  }

  /** The outcome of the match attempt at every start position of `s`. */
  function Attempts(p: Pattern, s: string): (ms: seq<Option<string>>)
    ensures |ms| == |s| + 1
    ensures forall j {:trigger ms[j]} :: 0 <= j <= |s| ==> ms[j] == MatchAt(p, s, j)
  {
    seq(|s| + 1, j requires 0 <= j <= |s| => MatchAt(p, s, j))
  }

  /** The leftmost position at or after `i` whose attempt succeeded. */
  function FirstSome<T>(ms: seq<Option<T>>, i: nat): (k: Option<nat>)
    requires i <= |ms|
    ensures k.Some? ==> i <= k.value < |ms| && ms[k.value].Some?
    decreases |ms| - i
  {
    if i == |ms| then None
    else if ms[i].Some? then Some(i)
    else FirstSome(ms, i + 1)
  }

  /** `FirstSome` finds the leftmost success, and finds none only when every
      attempt from `i` on failed. */
  lemma {:induction false} FirstSomeLeftmost<T>(ms: seq<Option<T>>, i: nat)
    requires i <= |ms|
    ensures FirstSome(ms, i).Some? ==> forall j :: i <= j < FirstSome(ms, i).value ==> ms[j].None?
    ensures FirstSome(ms, i).None? <==> forall j :: i <= j < |ms| ==> ms[j].None?
    decreases |ms| - i
  {
    if i < |ms| && ms[i].None? {
      FirstSomeLeftmost(ms, i + 1);
    }
  }

  /** `re.search(p, s)`: the leftmost start where `p` matches. */
  function Search(p: Pattern, s: string): (k: Option<nat>)
    ensures k.Some? ==> k.value <= |s| && MatchAt(p, s, k.value).Some?
  {
    FirstSome(Attempts(p, s), 0)
  }

  /** The search finds the leftmost match, and none only when `p` matches
      nowhere. */
  lemma SearchLeftmost(p: Pattern, s: string)
    ensures Search(p, s).Some? ==> forall j :: 0 <= j < Search(p, s).value ==> MatchAt(p, s, j).None?
    ensures Search(p, s).None? <==> forall j :: 0 <= j <= |s| ==> MatchAt(p, s, j).None?
  {
    var ms := Attempts(p, s);
    FirstSomeLeftmost(ms, 0);
    if Search(p, s).None? {
      forall j | 0 <= j <= |s| ensures MatchAt(p, s, j).None? {
        assert ms[j].None?;
      }
    } else {
      forall j | 0 <= j < Search(p, s).value ensures MatchAt(p, s, j).None? {
        assert ms[j].None?;
      }
    }
  }

  /** A match at `k` with none before it is what the search finds. */
  lemma SearchFinds(p: Pattern, s: string, k: nat)
    requires k <= |s| && MatchAt(p, s, k).Some?
    requires forall j :: 0 <= j < k ==> MatchAt(p, s, j).None?
    ensures Search(p, s) == Some(k)
  {
    SearchLeftmost(p, s);
  }

  /** `match.group(1)` of `re.search(p, s)`. */
  function Group(p: Pattern, s: string): (g: Option<string>)
    ensures g.Some? <==> Search(p, s).Some?
    ensures g.Some? ==> g == MatchAt(p, s, Search(p, s).value)
  {
    match Search(p, s)
    case None => None
    case Some(k) => MatchAt(p, s, k)
  }

  /** `extract_patient_name`: the labelled name, else a name followed by a
      greeting, else "Patient". */
  function ExtractPatientName(text: string): (r: string)
    ensures IsName(r)
  {
    match Group(AfterLabel, text)
    case Some(n) => n
    case None =>
      match Group(BeforeGreeting, text)
      case Some(n) => n
      case None => "Patient"
  }

  /** A labelled name wins over every greeting: the first start where the label
      pattern matches decides the name. */
  lemma {:induction false} LabelWins(text: string, k: nat)
    requires k <= |text| && MatchAt(AfterLabel, text, k).Some?
    requires forall j :: 0 <= j < k ==> MatchAt(AfterLabel, text, j).None?
    ensures ExtractPatientName(text) == MatchAt(AfterLabel, text, k).value
  {
    SearchFinds(AfterLabel, text, k);
  }

  /** Without a labelled name, the first start where the greeting pattern
      matches decides the name. */
  lemma GreetingWins(text: string, k: nat)
    requires forall j :: 0 <= j <= |text| ==> MatchAt(AfterLabel, text, j).None?
    requires k <= |text| && MatchAt(BeforeGreeting, text, k).Some?
    requires forall j :: 0 <= j < k ==> MatchAt(BeforeGreeting, text, j).None?
    ensures ExtractPatientName(text) == MatchAt(BeforeGreeting, text, k).value
  {
    SearchLeftmost(AfterLabel, text);
    SearchFinds(BeforeGreeting, text, k);
  }

  /** Without any match of either pattern the name is "Patient". */
  lemma NoNameFound(text: string)
    requires forall j :: 0 <= j <= |text| ==> MatchAt(AfterLabel, text, j).None? && MatchAt(BeforeGreeting, text, j).None?
    ensures ExtractPatientName(text) == "Patient"
  {
    SearchLeftmost(AfterLabel, text);
    SearchLeftmost(BeforeGreeting, text);
  }

  // ---------------------------------------------------------------------------
  // Sentence extractors
  // ---------------------------------------------------------------------------

  const ChiefComplaintKeywords: seq<string> := ["pain", "ache", "discomfort", "problem", "issue"]
  const ConcernKeywords: seq<string> := ["worried", "concerned", "afraid", "uncertain", "question"]
  const ExamKeywords: seq<string> := ["examination", "exam", "observed", "found", "noted", "appears"]
  const ObservationKeywords: seq<string> := ["progress", "improving", "healing", "better", "recovery"]
  const DiagnosticKeywords: seq<string> := ["diagnosed", "diagnosis", "test", "result", "finding"]
  const MedicationKeywords: seq<string> := ["medication", "medicine", "drug", "painkiller", "prescription", "pill"]
  const TherapyKeywords: seq<string> := ["physiotherapy", "therapy", "exercise", "session", "treatment"]
  const FollowUpKeywords: seq<string> := ["follow-up", "follow up", "appointment", "schedule", "next visit"]

  /** `any(keyword in sentence.lower() for keyword in kws)` */
  predicate Mentions(sentence: string, kws: seq<string>) {
    AnyIn(Lower(sentence), kws)
  }

  /** What the extractors keep of a matching sentence. */
  function StrippedEntry(sentence: string): (r: string)
    ensures IsStripped(r)
  {
    Strip(sentence)
  }

  function ComplaintEntry(sentence: string): (r: string)
    ensures |r| <= 200
  {
    Take(Strip(sentence), 200)
  }

  function TherapyEntry(sentence: string): (r: string)
    ensures |r| <= 150
  {
    Take(Strip(sentence), 150)
  }

  /** The entries of the sentences that mention a keyword, in order. */
  function Matched(pieces: seq<string>, kws: seq<string>, entry: string -> string): (r: seq<string>)
    ensures |r| <= |pieces|
    decreases |pieces|
  {
    if |pieces| == 0 then []
    else
      var last := pieces[|pieces| - 1];
      Matched(pieces[..|pieces| - 1], kws, entry) + (if Mentions(last, kws) then [entry(last)] else [])
  }

  /** Every entry comes from a sentence that mentions a keyword. */
  lemma {:induction false} MatchedSound(pieces: seq<string>, kws: seq<string>, entry: string -> string, x: string)
    requires x in Matched(pieces, kws, entry)
    ensures exists j :: 0 <= j < |pieces| && Mentions(pieces[j], kws) && x == entry(pieces[j])
    decreases |pieces|
  {
    var init := pieces[..|pieces| - 1];
    if x in Matched(init, kws, entry) {
      MatchedSound(init, kws, entry, x);
      var j :| 0 <= j < |init| && Mentions(init[j], kws) && x == entry(init[j]);
      assert pieces[j] == init[j];
    } else {
      assert Mentions(pieces[|pieces| - 1], kws);
    }
  }

  /** Every sentence that mentions a keyword contributes its entry. */
  lemma {:induction false} MatchedComplete(pieces: seq<string>, kws: seq<string>, entry: string -> string, j: nat)
    requires j < |pieces| && Mentions(pieces[j], kws)
    ensures entry(pieces[j]) in Matched(pieces, kws, entry)
    decreases |pieces|
  {
    var init := pieces[..|pieces| - 1];
    if j < |init| {
      assert init[j] == pieces[j];
      MatchedComplete(init, kws, entry, j);
    }
  }

  lemma MatchedMembers(pieces: seq<string>, kws: seq<string>, entry: string -> string, x: string)
    ensures x in Matched(pieces, kws, entry) <==>
            exists j :: 0 <= j < |pieces| && Mentions(pieces[j], kws) && x == entry(pieces[j])
  {
    if x in Matched(pieces, kws, entry) {
      MatchedSound(pieces, kws, entry, x);
    }
    if exists j :: 0 <= j < |pieces| && Mentions(pieces[j], kws) && x == entry(pieces[j]) {
      var j :| 0 <= j < |pieces| && Mentions(pieces[j], kws) && x == entry(pieces[j]);
      MatchedComplete(pieces, kws, entry, j);
    }
  }

  /** The matches of a concatenation are the matches of its parts, in order. */
  lemma {:induction false} MatchedAppend(a: seq<string>, b: seq<string>, kws: seq<string>, entry: string -> string)
    ensures Matched(a + b, kws, entry) == Matched(a, kws, entry) + Matched(b, kws, entry)
    decreases |b|
  {
    if |b| == 0 {
      assert a + b == a;
    } else {
      var b' := b[..|b| - 1];
      assert (a + b)[..|a + b| - 1] == a + b';
      MatchedAppend(a, b', kws, entry);
    }
  }

  /** The loop shared by the list extractors: every sentence that mentions a
      keyword, clipped. */
  method CollectMatches(pieces: seq<string>, kws: seq<string>, entry: string -> string) returns (found: seq<string>)
    ensures found == Matched(pieces, kws, entry)
  {
    found := [];
    var i := 0;
    while i < |pieces|
      invariant 0 <= i <= |pieces|
      invariant found == Matched(pieces[..i], kws, entry)
    {
      MatchedStep(pieces, i, kws, entry);
      if Mentions(pieces[i], kws) {
        found := found + [entry(pieces[i])];
      }
      i := i + 1;
    }
    assert pieces[..i] == pieces;
  }

  lemma MatchedStep(pieces: seq<string>, i: nat, kws: seq<string>, entry: string -> string)
    requires i < |pieces|
    ensures Matched(pieces[..i + 1], kws, entry) ==
      Matched(pieces[..i], kws, entry) + (if Mentions(pieces[i], kws) then [entry(pieces[i])] else [])
  {
    assert pieces[..i + 1][..i] == pieces[..i];
  }

  /** The index of the first sentence that mentions a keyword. */
  function FirstMention(pieces: seq<string>, kws: seq<string>): (r: Option<nat>)
    ensures r.Some? ==> r.value < |pieces| && Mentions(pieces[r.value], kws)
    ensures r.Some? ==> forall j :: 0 <= j < r.value ==> !Mentions(pieces[j], kws)
    ensures r.None? <==> forall j :: 0 <= j < |pieces| ==> !Mentions(pieces[j], kws)
    decreases |pieces|
  {
    if |pieces| == 0 then None
    else if Mentions(pieces[0], kws) then Some(0)
    else
      match FirstMention(pieces[1..], kws)
      case None => None
      case Some(k) => Some(k + 1)
  }

  /** The loop with an early return in the two single-sentence extractors. */
  method FindFirstMention(pieces: seq<string>, kws: seq<string>) returns (r: Option<nat>)
    ensures r == FirstMention(pieces, kws)
  {
    var i := 0;
    while i < |pieces|
      invariant 0 <= i <= |pieces|
      invariant forall j :: 0 <= j < i ==> !Mentions(pieces[j], kws)
    {
      if Mentions(pieces[i], kws) {
        return Some(i);
      }
      i := i + 1;
    }
    return None;
  }

  /** The entry of the first sentence that mentions a keyword, else the
      fallback. */
  function FirstEntry(pieces: seq<string>, kws: seq<string>, entry: string -> string, fallback: string): (r: string)
    ensures (forall j :: 0 <= j < |pieces| ==> !Mentions(pieces[j], kws)) ==> r == fallback
    ensures r == fallback || exists j :: 0 <= j < |pieces| && Mentions(pieces[j], kws) && r == entry(pieces[j])
  {
    match FirstMention(pieces, kws)
    case None => fallback
    case Some(k) => entry(pieces[k])
  }

  /** The first sentence that mentions a keyword gives the entry. */
  lemma FirstEntryIsFirstMention(pieces: seq<string>, kws: seq<string>, entry: string -> string, fallback: string, j: nat)
    requires j < |pieces| && Mentions(pieces[j], kws)
    requires forall i :: 0 <= i < j ==> !Mentions(pieces[i], kws)
    ensures FirstEntry(pieces, kws, entry, fallback) == entry(pieces[j])
  {
    assert FirstMention(pieces, kws) == Some(j);
  }

  method FindFirstEntry(pieces: seq<string>, kws: seq<string>, entry: string -> string, fallback: string) returns (r: string)
    ensures r == FirstEntry(pieces, kws, entry, fallback)
  {
    var k := FindFirstMention(pieces, kws);
    match k {
      case None => r := fallback;
      case Some(j) => r := entry(pieces[j]);
    }
  }

  /** `extract_chief_complaint`: the first sentence naming a complaint,
      stripped and cut to 200 characters, else "Not specified". */
  function ChiefComplaint(patientText: string): (r: string)
    ensures |r| <= 200
  {
    FirstEntry(SplitSentences(patientText), ChiefComplaintKeywords, ComplaintEntry, "Not specified")
  }

  method ExtractChiefComplaint(patientText: string) returns (r: string)
    ensures r == ChiefComplaint(patientText)
  {
    r := FindFirstEntry(SplitSentences(patientText), ChiefComplaintKeywords, ComplaintEntry, "Not specified");
  }

  /** `extract_followup`: the first sentence naming a follow-up, stripped,
      else "Follow-up as needed". */
  function FollowUp(doctorText: string): string {
    FirstEntry(SplitSentences(doctorText), FollowUpKeywords, StrippedEntry, "Follow-up as needed")
  }

  method ExtractFollowUp(doctorText: string) returns (r: string)
    ensures r == FollowUp(doctorText)
  {
    r := FindFirstEntry(SplitSentences(doctorText), FollowUpKeywords, StrippedEntry, "Follow-up as needed");
  }

  /** `extract_hpi`: the symptoms joined with ", " after "Patient reports: ",
      unless the joined text is empty. */
  function HistoryOfPresentIllness(symptoms: seq<string>): (r: string)
    ensures Join(", ", symptoms) == "" ==> r == "See patient text for details"
    ensures Join(", ", symptoms) != "" ==> r == "Patient reports: " + Join(", ", symptoms)
  {
    var joined := Join(", ", symptoms);
    if joined != "" then "Patient reports: " + joined else "See patient text for details"
  }

  /** Two symptoms always make a non-empty joined text, whatever they are. */
  lemma {:induction false} JoinOfTwoIsNotEmpty(symptoms: seq<string>)
    requires |symptoms| >= 2
    ensures Join(", ", symptoms) != ""
    ensures HistoryOfPresentIllness(symptoms) == "Patient reports: " + Join(", ", symptoms)
  {
    assert |Join(", ", symptoms)| >= 2;
  }

  /** A single empty symptom joins to the empty text, so it is reported as
      missing even though the list is not empty. */
  lemma EmptySymptomIsMissing()
    ensures HistoryOfPresentIllness([""]) == "See patient text for details"
  {
  }

  /** Concerns, observations, diagnostic sentences and therapy
      recommendations: the first five matching sentences. */
  function FirstFive(pieces: seq<string>, kws: seq<string>, entry: string -> string): (r: seq<string>)
    ensures |r| <= 5
    ensures forall x :: x in r ==> x in Matched(pieces, kws, entry)
    ensures |r| <= |Matched(pieces, kws, entry)| && r == Matched(pieces, kws, entry)[..|r|]
  {
    Take(Matched(pieces, kws, entry), 5)
  }

  /** `extract_concerns` */
  method ExtractConcerns(patientText: string) returns (r: seq<string>)
    ensures r == FirstFive(SplitSentences(patientText), ConcernKeywords, StrippedEntry)
  {
    var found := CollectMatches(SplitSentences(patientText), ConcernKeywords, StrippedEntry);
    r := Take(found, 5);
  }

  /** `extract_observations` */
  method ExtractObservations(doctorText: string) returns (r: seq<string>)
    ensures r == FirstFive(SplitSentences(doctorText), ObservationKeywords, StrippedEntry)
  {
    var found := CollectMatches(SplitSentences(doctorText), ObservationKeywords, StrippedEntry);
    r := Take(found, 5);
  }

  /** `extract_diagnostic_info` */
  method ExtractDiagnosticInfo(text: string) returns (r: seq<string>)
    ensures r == FirstFive(SplitSentences(text), DiagnosticKeywords, StrippedEntry)
  {
    var found := CollectMatches(SplitSentences(text), DiagnosticKeywords, StrippedEntry);
    r := Take(found, 5);
  }

  /** `extract_therapy`: each sentence cut to 150 characters. */
  method ExtractTherapy(text: string) returns (r: seq<string>)
    ensures r == FirstFive(SplitSentences(text), TherapyKeywords, TherapyEntry)
  {
    var found := CollectMatches(SplitSentences(text), TherapyKeywords, TherapyEntry);
    r := Take(found, 5);
  }

  /** Every listed sentence mentions a keyword, and the list is in transcript
      order. */
  lemma {:induction false} FirstFiveMembers(pieces: seq<string>, kws: seq<string>, entry: string -> string, x: string)
    requires x in FirstFive(pieces, kws, entry)
    ensures exists j :: 0 <= j < |pieces| && Mentions(pieces[j], kws) && x == entry(pieces[j])
  {
    MatchedMembers(pieces, kws, entry, x);
  }

  /** `extract_examination_findings`: up to three examination sentences joined
      with ". ". */
  function ExaminationFindings(doctorText: string): (r: string)
    ensures Matched(SplitSentences(doctorText), ExamKeywords, StrippedEntry) == [] ==>
      r == "No specific examination findings documented"
  {
    var exam := Matched(SplitSentences(doctorText), ExamKeywords, StrippedEntry);
    if |exam| > 0 then Join(". ", Take(exam, 3)) else "No specific examination findings documented"
  }

  /** The findings text is built from examination sentences only: when one is
      present, the first of them opens it. */
  lemma {:induction false} ExaminationFindingsStart(doctorText: string)
    requires Matched(SplitSentences(doctorText), ExamKeywords, StrippedEntry) != []
    ensures var exam := Matched(SplitSentences(doctorText), ExamKeywords, StrippedEntry);
      StartsWith(ExaminationFindings(doctorText), exam[0])
  {
    var exam := Matched(SplitSentences(doctorText), ExamKeywords, StrippedEntry);
    var top := Take(exam, 3);
    assert top[0] == exam[0];
    if |top| > 1 {
      assert Join(". ", top) == top[0] + ". " + Join(". ", top[1..]);
      assert Join(". ", top)[..|top[0]|] == top[0];
    }
  }

  // ---------------------------------------------------------------------------
  // Medications
  // ---------------------------------------------------------------------------

  /** The entry of a medication sentence: the name in front of a medication
      noun, else the stripped sentence cut to 100 characters. */
  function MedicationEntry(sentence: string): (r: string)
    ensures Group(MedicationName, sentence).Some? ==>
      var k := Search(MedicationName, sentence).value;
      && MedicationGroupAt(sentence, k, r)
      && forall j :: 0 <= j < k ==> MatchAt(MedicationName, sentence, j).None?
    ensures Group(MedicationName, sentence).None? ==>
      && r == Take(Strip(sentence), 100)
      && |r| <= 100 && |r| <= |Strip(sentence)| && r == Strip(sentence)[..|r|]
  {
    SearchLeftmost(MedicationName, sentence);
    assert Search(MedicationName, sentence).Some? ==>
      MatchAt(MedicationName, sentence, Search(MedicationName, sentence).value)
        == MedicationMatchAt(sentence, Search(MedicationName, sentence).value);
    match Group(MedicationName, sentence)
    case Some(name) => name
    case None => Take(Strip(sentence), 100)
  }

  /** A medication name is only ever found in front of one of the four nouns. */
  lemma MedicationMatchHasNoun(s: string, i: nat)
    requires i <= |s|
    ensures MatchAt(MedicationName, s, i).Some? ==> AnyIn(Lower(s), MedicationNouns)
  {
    if MatchAt(MedicationName, s, i).Some? {
      assert MedicationMatchAt(s, i).Some?;
      NounTailContains(s, MedicationGroupEnd(s, i).value);
    }
  }

  lemma NounTailContains(s: string, g: nat)
    requires g <= |s| && NounTailAt(s, g)
    ensures AnyIn(Lower(s), MedicationNouns)
  {
    TailAtContains(s, g, MedicationNouns);
  }

  /** A sentence picked only for "prescription" or "pill" has no name to find:
      its entry is the sentence itself, cut to 100 characters. */
  lemma NounlessSentenceFallsBack(sentence: string)
    requires !AnyIn(Lower(sentence), MedicationNouns)
    ensures MedicationEntry(sentence) == Take(Strip(sentence), 100)
  {
    forall i | 0 <= i <= |sentence|
      ensures MatchAt(MedicationName, sentence, i).None?
    {
      MedicationMatchHasNoun(sentence, i);
    }
  }

  /** `extract_medications`: the distinct entries, at most ten. The source
      takes them from a set, whose order is unspecified; the model keeps the
      first occurrence of each. */
  function Medications(text: string): (r: seq<string>)
    ensures |r| <= 10 && Distinct(r)
    ensures var entries := Matched(SplitSentences(text), MedicationKeywords, MedicationEntry);
      forall x :: x in r ==> x in entries
  {
    DedupeSameElements(Matched(SplitSentences(text), MedicationKeywords, MedicationEntry));
    Take(Dedupe(Matched(SplitSentences(text), MedicationKeywords, MedicationEntry)), 10)
  }

  method ExtractMedications(text: string) returns (r: seq<string>)
    ensures r == Medications(text)
  {
    var found := CollectMatches(SplitSentences(text), MedicationKeywords, MedicationEntry);
    r := Take(Dedupe(found), 10);
  }

  /** With at most ten distinct entries nothing is dropped. */
  lemma MedicationsKeepAll(text: string, x: string)
    requires |Dedupe(Matched(SplitSentences(text), MedicationKeywords, MedicationEntry))| <= 10
    ensures x in Medications(text) <==> x in Matched(SplitSentences(text), MedicationKeywords, MedicationEntry)
  {
    DedupeMembers(Matched(SplitSentences(text), MedicationKeywords, MedicationEntry), x);
  }

  // ---------------------------------------------------------------------------
  // The note
  // ---------------------------------------------------------------------------

  datatype Subjective = Subjective(chiefComplaint: string, historyOfPresentIllness: string,
                                   reportedSymptoms: seq<string>, concerns: seq<string>)
  datatype Objective = Objective(physicalExamination: string, clinicalObservations: seq<string>,
                                 diagnosticInformation: seq<string>)
  datatype Assessment = Assessment(primaryDiagnosis: string, differentialDiagnosis: seq<string>,
                                   clinicalAssessment: string)
  datatype Plan = Plan(treatmentPlan: seq<string>, medications: seq<string>, therapy: seq<string>,
                       followUp: string, prognosis: string)
  datatype SoapNote = SoapNote(patientName: string, date: string, subjective: Subjective,
                               objective: Objective, assessment: Assessment, plan: Plan)

  /** The first diagnosis, or "Not specified" without one. */
  function PrimaryDiagnosis(diagnosis: seq<string>): (r: string)
    ensures diagnosis == [] ==> r == "Not specified"
    ensures diagnosis != [] ==> r == diagnosis[0] && r in diagnosis
  {
    if |diagnosis| > 0 then diagnosis[0] else "Not specified"
  }

  /** The prognosis phrases joined with spaces, or "Not specified" without any. */
  function PrognosisText(prognosis: seq<string>): (r: string)
    ensures prognosis == [] ==> r == "Not specified"
    ensures |prognosis| == 1 ==> r == prognosis[0]
  {
    if |prognosis| > 0 then Join(" ", prognosis) else "Not specified"
  }

  /** `generate_soap_note`; the date is the caller's. */
  function SoapNoteOf(conv: Preprocessing.Conversation, ner: Ner.EntityBag, summary: string, date: string): (n: SoapNote)
    ensures IsName(n.patientName) && n.date == date
    ensures n.subjective.reportedSymptoms == ner.symptoms && n.plan.treatmentPlan == ner.treatment
    ensures n.assessment.differentialDiagnosis == ner.diagnosis && n.assessment.clinicalAssessment == summary
    ensures ner.diagnosis != [] ==> n.assessment.primaryDiagnosis == ner.diagnosis[0]
    ensures ner.diagnosis == [] ==> n.assessment.primaryDiagnosis == "Not specified"
  {
    var pieces := SplitSentences(conv.patientText);
    var doctor := SplitSentences(conv.doctorText);
    var full := SplitSentences(conv.fullText);
    SoapNote(
      ExtractPatientName(conv.fullText),
      date,
      Subjective(ChiefComplaint(conv.patientText), HistoryOfPresentIllness(ner.symptoms), ner.symptoms,
                 FirstFive(pieces, ConcernKeywords, StrippedEntry)),
      Objective(ExaminationFindings(conv.doctorText), FirstFive(doctor, ObservationKeywords, StrippedEntry),
                FirstFive(full, DiagnosticKeywords, StrippedEntry)),
      Assessment(PrimaryDiagnosis(ner.diagnosis), ner.diagnosis, summary),
      Plan(ner.treatment, Medications(conv.fullText), FirstFive(full, TherapyKeywords, TherapyEntry),
           FollowUp(conv.doctorText), PrognosisText(ner.prognosis)))
  }

  /** The size limits of the note: a chief complaint of at most 200
      characters, at most five concerns, observations, diagnostic sentences
      and therapy recommendations, each recommendation at most 150
      characters, and at most ten distinct medications. */
  lemma SoapNoteBounds(conv: Preprocessing.Conversation, ner: Ner.EntityBag, summary: string, date: string)
    ensures var n := SoapNoteOf(conv, ner, summary, date);
      && |n.subjective.chiefComplaint| <= 200
      && |n.subjective.concerns| <= 5 && |n.objective.clinicalObservations| <= 5
      && |n.objective.diagnosticInformation| <= 5 && |n.plan.therapy| <= 5
      && (forall t :: t in n.plan.therapy ==> |t| <= 150)
      && |n.plan.medications| <= 10 && Distinct(n.plan.medications)
  {
    var n := SoapNoteOf(conv, ner, summary, date);
    forall t | t in n.plan.therapy
      ensures |t| <= 150
    {
      FirstFiveMembers(SplitSentences(conv.fullText), TherapyKeywords, TherapyEntry, t);
    }
  }

  method GenerateSoapNote(conv: Preprocessing.Conversation, ner: Ner.EntityBag, summary: string, date: string)
    returns (n: SoapNote)
    ensures n == SoapNoteOf(conv, ner, summary, date)
  {
    var name := ExtractPatientName(conv.fullText);
    var chief := ExtractChiefComplaint(conv.patientText);
    var concerns := ExtractConcerns(conv.patientText);
    var subjective := Subjective(chief, HistoryOfPresentIllness(ner.symptoms), ner.symptoms, concerns);
    var observations := ExtractObservations(conv.doctorText);
    var diagnostic := ExtractDiagnosticInfo(conv.fullText);
    var objective := Objective(ExaminationFindings(conv.doctorText), observations, diagnostic);
    var assessment := Assessment(PrimaryDiagnosis(ner.diagnosis), ner.diagnosis, summary);
    var medications := ExtractMedications(conv.fullText);
    var therapy := ExtractTherapy(conv.fullText);
    var followUp := ExtractFollowUp(conv.doctorText);
    var plan := Plan(ner.treatment, medications, therapy, followUp, PrognosisText(ner.prognosis));
    n := SoapNote(name, date, subjective, objective, assessment, plan);
  }
}

module SoapExamples {
  import opened Text
  import opened Soap

  /** "Patient: Ann" names Ann. */
  lemma LabelledName()
    ensures ExtractPatientName("Patient: Ann") == "Ann"
  {
    var s := "Patient: Ann";
    assert StartsWith(s[0..], "Patient:");
    assert Run(s, 8, Space) == 1;
    assert Run(s, 10, LowerCase) == 2;
    assert CapWordAt(s, 9) == Some(12);
    assert SecondWordAt(s, 12).None?;
    assert Run(s, 0 + 8, Space) == 1;
    assert LabelMatchAt(s, 0) == Some(s[9..12]);
    assert s[9..12] == "Ann";
    LabelWins(s, 0);
  }
}
