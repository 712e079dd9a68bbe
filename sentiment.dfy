/** Sentiment and intent (`src/sentiment_intent.py`): keyword scores over the
    lower-cased patient text decide the rule-based answers; a sentiment model,
    which is an input here, is consulted first when one is available. */
module Sentiment {
  import opened Text

  datatype Sentiment = Anxious | Neutral | Reassured
  datatype Intent = ReportingSymptoms | SeekingReassurance | ConfirmingRecovery | AskingQuestions | DescribingCondition

  function SentimentLabel(s: Sentiment): string {
    match s
    case Anxious => "Anxious"
    case Neutral => "Neutral"
    case Reassured => "Reassured"
  }

  function IntentLabel(i: Intent): string {
    match i
    case ReportingSymptoms => "Reporting symptoms"
    case SeekingReassurance => "Seeking reassurance"
    case ConfirmingRecovery => "Confirming recovery"
    case AskingQuestions => "Asking questions"
    case DescribingCondition => "Describing condition"
  }

  const SentimentCategories: seq<string> := ["Anxious", "Neutral", "Reassured"]
  const IntentCategories: seq<string> := ["Reporting symptoms", "Seeking reassurance", "Confirming recovery",
                                          "Asking questions", "Describing condition"]

  const AnxiousKeywords: seq<string> := ["worried", "concerned", "anxious", "nervous", "afraid", "fear", "scared",
                                         "uncertain", "doubt", "apprehensive", "stress", "panic"]
  const ReassuredKeywords: seq<string> := ["better", "improved", "reassuring", "confident", "relieved", "grateful",
                                           "thankful", "appreciate", "hopeful", "optimistic", "positive", "good news"]
  const SymptomReportingKeywords: seq<string> := ["pain", "ache", "discomfort", "feeling", "experiencing", "symptom",
                                                  "problem", "issue", "bothering", "hurting"]
  const ReassuranceSeekingKeywords: seq<string> := ["worried", "concerned", "should i", "is it normal", "what if",
                                                    "afraid", "wondering", "question", "doubt"]
  const RecoveryConfirmingKeywords: seq<string> := ["better", "improved", "recovering", "healing", "progress",
                                                    "feeling good", "much better", "doing well", "getting better"]

  /** `sum(1 for keyword in kws if keyword in text.lower())` */
  function Score(text: string, kws: seq<string>): nat {
    CountIn(Lower(text), kws)
  }

  /** `analyze_sentiment_rule_based` */
  function RuleSentiment(text: string): (s: Sentiment)
    ensures s == Anxious <==> Score(text, AnxiousKeywords) > Score(text, ReassuredKeywords) && Score(text, AnxiousKeywords) > 0
    ensures s == Reassured <==> Score(text, ReassuredKeywords) > Score(text, AnxiousKeywords) && Score(text, ReassuredKeywords) > 0
    ensures s == Neutral <==> Score(text, AnxiousKeywords) == Score(text, ReassuredKeywords)
    ensures SentimentLabel(s) in SentimentCategories
  {
    var anxious := Score(text, AnxiousKeywords);
    var reassured := Score(text, ReassuredKeywords);
    if anxious > reassured && anxious > 0 then Anxious
    else if reassured > anxious && reassured > 0 then Reassured
    else Neutral
  }

  /** `max(scores, key=scores.get)` over the three scored intents in
      declaration order: a later intent replaces the best so far only with a
      strictly larger score. */
  function BestIntent(symptom: nat, reassurance: nat, recovery: nat): (Intent, nat) {
    var first := if reassurance > symptom then (SeekingReassurance, reassurance) else (ReportingSymptoms, symptom);
    if recovery > first.1 then (ConfirmingRecovery, recovery) else first
  }

  /** `analyze_intent_rule_based`: the highest score wins, ties go to the
      intent declared first, all-zero scores mean a description, and
      "Asking questions" is never the answer. */
  function RuleIntent(text: string): (i: Intent)
    ensures var s, r, c := Score(text, SymptomReportingKeywords), Score(text, ReassuranceSeekingKeywords),
                           Score(text, RecoveryConfirmingKeywords);
      && (i == ReportingSymptoms <==> s > 0 && s >= r && s >= c)
      && (i == SeekingReassurance <==> r > 0 && r > s && r >= c)
      && (i == ConfirmingRecovery <==> c > 0 && c > s && c > r)
      && (i == DescribingCondition <==> s == 0 && r == 0 && c == 0)
    ensures i != AskingQuestions
    ensures IntentLabel(i) in IntentCategories
  {
    var best := BestIntent(Score(text, SymptomReportingKeywords), Score(text, ReassuranceSeekingKeywords),
                           Score(text, RecoveryConfirmingKeywords));
    if best.1 > 0 then best.0 else DescribingCondition
  }

  lemma AnxiousKeywordsDistinct() ensures Distinct(AnxiousKeywords) {}
  lemma ReassuredKeywordsDistinct() ensures Distinct(ReassuredKeywords) {}

  /** The sentiment scores count distinct keywords present, not occurrences. */
  lemma SentimentScoresCountDistinctKeywords(text: string)
    ensures Score(text, AnxiousKeywords) == |Hits(Lower(text), AnxiousKeywords)|
    ensures Score(text, ReassuredKeywords) == |Hits(Lower(text), ReassuredKeywords)|
  {
    AnxiousKeywordsDistinct();
    ReassuredKeywordsDistinct();
    CountInIsDistinctHits(Lower(text), AnxiousKeywords);
    CountInIsDistinctHits(Lower(text), ReassuredKeywords);
  }

  /** The sentiment model's answer on the first 512 characters: its label and
      whether its confidence exceeds 0.7. `None` when it raises. */
  datatype SentimentModel = Unavailable | Available(run: string -> Option<(string, bool)>)

  /** `analyze_sentiment_transformers` */
  function ModelSentiment(text: string, model: SentimentModel): (s: Sentiment)
    ensures model.Unavailable? || model.run(Take(text, 512)).None? ==> s == RuleSentiment(text)
    ensures model.Available? && model.run(Take(text, 512)).Some? ==>
      var v := model.run(Take(text, 512)).value;
      (s == Reassured <==> v.0 == "POSITIVE" && v.1) && (s == Anxious <==> v.0 == "NEGATIVE" && v.1)
  {
    match model
    case Unavailable => RuleSentiment(text)
    case Available(run) =>
      match run(Take(text, 512))
      case None => RuleSentiment(text)
      case Some(verdict) =>
        if verdict.0 == "POSITIVE" && verdict.1 then Reassured
        else if verdict.0 == "NEGATIVE" && verdict.1 then Anxious
        else Neutral
  }

  /** `analyze_sentiment_intent` on the patient text. */
  function AnalyzeSentimentIntent(patientText: string, model: SentimentModel): (r: (Sentiment, Intent))
    ensures patientText == "" ==> r == (Neutral, DescribingCondition)
    ensures patientText != "" ==> r.0 == ModelSentiment(patientText, model) && r.1 == RuleIntent(patientText)
    ensures r.1 != AskingQuestions
  {
    if patientText == "" then (Neutral, DescribingCondition)
    else
      (ModelSentiment(patientText, model), RuleIntent(patientText))
  }
}

/** A worked example of the rule-based answers on one patient sentence. */
module SentimentExamples {
  import opened Text
  import opened Sentiment

  /** `s` has no `x` immediately followed by `y`. */
  predicate NoPair(s: string, x: char, y: char) {
    forall k :: 0 <= k < |s| - 1 ==> !(s[k] == x && s[k + 1] == y)
  }

  /** A substring needs each of its characters in the text. */
  lemma {:induction false} AbsentChar(s: string, sub: string, j: nat)
    requires j < |sub| && sub[j] !in s
    ensures !Contains(s, sub)
    decreases |s|
  {
    if |sub| <= |s| {
      assert s[..|sub|][j] == s[j];
    }
    if |s| > 0 {
      assert sub[j] !in s[1..] by { assert forall k :: 0 <= k < |s| - 1 ==> s[1..][k] == s[k + 1]; }
      AbsentChar(s[1..], sub, j);
    }
  }

  /** A substring needs each of its adjacent character pairs in the text. */
  lemma {:induction false} AbsentPair(s: string, sub: string, j: nat)
    requires j + 1 < |sub| && NoPair(s, sub[j], sub[j + 1])
    ensures !Contains(s, sub)
    decreases |s|
  {
    if |sub| <= |s| {
      assert s[..|sub|][j] == s[j] && s[..|sub|][j + 1] == s[j + 1];
    }
    if |s| > 0 {
      assert NoPair(s[1..], sub[j], sub[j + 1]) by {
        forall k | 0 <= k < |s[1..]| - 1 ensures !(s[1..][k] == sub[j] && s[1..][k + 1] == sub[j + 1]) {
          assert s[1..][k] == s[k + 1] && s[1..][k + 1] == s[k + 2];
        }
      }
      AbsentPair(s[1..], sub, j);
    }
  }

  lemma LowerAppend(a: string, b: string)
    ensures Lower(a + b) == Lower(a) + Lower(b)
  {
    var l, r := Lower(a + b), Lower(a) + Lower(b);
    forall i | 0 <= i < |l| ensures l[i] == r[i] {
      if i < |a| { assert (a + b)[i] == a[i]; } else { assert (a + b)[i] == b[i - |a|]; }
    }
  }

  lemma {:induction false} LowerConcat(ws: seq<string>)
    ensures Lower(Concat(ws)) == Concat(LowerAll(ws))
    decreases |ws|
  {
    if |ws| > 0 {
      LowerAppend(ws[0], Concat(ws[1..]));
      LowerConcat(ws[1..]);
      assert LowerAll(ws)[1..] == LowerAll(ws[1..]);
    }
  }

  lemma {:induction false} ConcatAvoids(ps: seq<string>, c: char)
    requires forall i :: 0 <= i < |ps| ==> c !in ps[i]
    ensures c !in Concat(ps)
    decreases |ps|
  {
    if |ps| > 0 {
      ConcatAvoids(ps[1..], c);
    }
  }

  lemma {:induction false} ConcatNoPair(ps: seq<string>, x: char, y: char)
    requires forall i :: 0 <= i < |ps| ==>
      |ps[i]| > 0 && ps[i][|ps[i]| - 1] != x && (x !in ps[i] || y !in ps[i] || NoPair(ps[i], x, y))
    ensures NoPair(Concat(ps), x, y)
    decreases |ps|
  {
    if |ps| > 0 {
      ConcatNoPair(ps[1..], x, y);
      var a, b := ps[0], Concat(ps[1..]);
      assert NoPair(a, x, y) by {
        forall k | 0 <= k < |a| - 1 ensures !(a[k] == x && a[k + 1] == y) {
          assert a[k] in a && a[k + 1] in a;
        }
      }
      forall k | 0 <= k < |a + b| - 1 ensures !((a + b)[k] == x && (a + b)[k + 1] == y) {
        if k + 1 < |a| {
          assert (a + b)[k] == a[k] && (a + b)[k + 1] == a[k + 1];
        } else if k + 1 == |a| {
          assert (a + b)[k] == a[|a| - 1];
        } else {
          assert (a + b)[k] == b[k - |a|] && (a + b)[k + 1] == b[k + 1 - |a|];
        }
      }
    }
  }

  lemma {:induction false} ConcatContains(ps: seq<string>, i: nat, sub: string)
    requires i < |ps| && Contains(ps[i], sub)
    ensures Contains(Concat(ps), sub)
    decreases i
  {
    var a, b := ps[0], Concat(ps[1..]);
    if i == 0 {
      assert (a + b)[0..|a|] == a;
      ContainsInSlice(a + b, sub, 0, |a|);
    } else {
      ConcatContains(ps[1..], i - 1, sub);
      assert (a + b)[|a|..|a + b|] == b;
      ContainsInSlice(a + b, sub, |a|, |a + b|);
    }
  }

  /** "I have fever and a bad headache, I'm worried it's serious." word by word. */
  const Words: seq<string> := ["I ", "have ", "fever ", "and ", "a ", "bad ", "headache, ", "I'm ", "worried ", "it's ", "serious."]
  const LowerWords: seq<string> := ["i ", "have ", "fever ", "and ", "a ", "bad ", "headache, ", "i'm ", "worried ", "it's ", "serious."]
  const Example := Concat(Words)

  lemma WordsLowered()
    ensures LowerAll(Words) == LowerWords
  {
    forall i | 0 <= i < |Words| ensures LowerAll(Words)[i] == LowerWords[i] {
      LowerWord(i);
    }
  }

  lemma LowerWord(i: nat)
    requires i < |Words|
    ensures Lower(Words[i]) == LowerWords[i]
  {
    LowerCharFacts('I');
  }

  /** The example lower-cased is the lower-case words one after the other. */
  lemma ExampleLowered()
    ensures Lower(Example) == Concat(LowerWords)
  {
    LowerConcat(Words);
    WordsLowered();
  }

  /** No reassured keyword occurs in a text without "g", "k", "l", "p", "be"
      and "co": each keyword has one of them. */
  lemma NoReassuredKeyword(s: string)
    requires 'g' !in s && 'k' !in s && 'l' !in s && 'p' !in s
    requires NoPair(s, 'b', 'e') && NoPair(s, 'c', 'o')
    ensures CountIn(s, ReassuredKeywords) == 0
  {
    AbsentPair(s, "better", 0);
    AbsentChar(s, "improved", 2);
    AbsentChar(s, "reassuring", 9);
    AbsentPair(s, "confident", 0);
    AbsentChar(s, "relieved", 2);
    AbsentChar(s, "grateful", 0);
    AbsentChar(s, "thankful", 4);
    AbsentChar(s, "appreciate", 1);
    AbsentChar(s, "hopeful", 2);
    AbsentChar(s, "optimistic", 1);
    AbsentChar(s, "positive", 0);
    AbsentChar(s, "good news", 0);
    CountInPositive(s, ReassuredKeywords);
  }

  /** No recovery keyword occurs in a text without "g", "l", "p" and "be". */
  lemma NoRecoveryKeyword(s: string)
    requires 'g' !in s && 'l' !in s && 'p' !in s && NoPair(s, 'b', 'e')
    ensures CountIn(s, RecoveryConfirmingKeywords) == 0
  {
    AbsentPair(s, "better", 0);
    AbsentChar(s, "improved", 2);
    AbsentChar(s, "recovering", 9);
    AbsentChar(s, "healing", 3);
    AbsentChar(s, "progress", 0);
    AbsentChar(s, "feeling good", 3);
    AbsentPair(s, "much better", 5);
    AbsentChar(s, "doing well", 4);
    AbsentChar(s, "getting better", 0);
    CountInPositive(s, RecoveryConfirmingKeywords);
  }

  /** When no entry after the first occurs, at most one is counted. */
  lemma {:induction false} AtMostFirst(s: string, kws: seq<string>)
    requires forall i :: 1 <= i < |kws| ==> !Contains(s, kws[i])
    ensures CountIn(s, kws) <= 1
    decreases |kws|
  {
    if |kws| > 1 {
      AtMostFirst(s, kws[..|kws| - 1]);
    } else if |kws| == 1 {
      assert CountIn(s, kws[..0]) == 0;
    }
  }

  /** In a text without "g", "l", "q", "co", "wh", "af" and "do" only
      "worried", the first reassurance keyword, can occur. */
  lemma OnlyWorried(s: string)
    requires 'g' !in s && 'l' !in s && 'q' !in s
    requires NoPair(s, 'c', 'o') && NoPair(s, 'w', 'h') && NoPair(s, 'a', 'f') && NoPair(s, 'd', 'o')
    ensures CountIn(s, ReassuranceSeekingKeywords) <= 1
  {
    AbsentPair(s, "concerned", 0);
    AbsentChar(s, "should i", 4);
    AbsentChar(s, "is it normal", 11);
    AbsentPair(s, "what if", 0);
    AbsentPair(s, "afraid", 0);
    AbsentChar(s, "wondering", 8);
    AbsentChar(s, "question", 0);
    AbsentPair(s, "doubt", 0);
    AtMostFirst(s, ReassuranceSeekingKeywords);
  }

  /** The letters the lower-cased example lacks. */
  lemma LacksLetter(c: char)
    requires c in {'g', 'k', 'l', 'p', 'q'}
    ensures c !in Concat(LowerWords)
  {
    ConcatAvoids(LowerWords, c);
  }

  lemma LacksBe()
    ensures NoPair(Concat(LowerWords), 'b', 'e')
  {
    ConcatNoPair(LowerWords, 'b', 'e');
  }

  lemma LacksCo()
    ensures NoPair(Concat(LowerWords), 'c', 'o')
  {
    ConcatNoPair(LowerWords, 'c', 'o');
  }

  lemma LacksWh()
    ensures NoPair(Concat(LowerWords), 'w', 'h')
  {
    ConcatNoPair(LowerWords, 'w', 'h');
  }

  lemma LacksAf()
    ensures NoPair(Concat(LowerWords), 'a', 'f')
  {
    ConcatNoPair(LowerWords, 'a', 'f');
  }

  lemma LacksDo()
    ensures NoPair(Concat(LowerWords), 'd', 'o')
  {
    ConcatNoPair(LowerWords, 'd', 'o');
  }

  /** A keyword that occurs is counted. */
  lemma Counted(s: string, kws: seq<string>, kw: string)
    requires kw in kws && Contains(s, kw)
    ensures CountIn(s, kws) > 0
  {
    CountInPositive(s, kws);
  }

  /** The letters and letter pairs the lower-cased example lacks. */
  predicate ExampleShape(s: string) {
    && 'g' !in s && 'k' !in s && 'l' !in s && 'p' !in s && 'q' !in s
    && NoPair(s, 'b', 'e') && NoPair(s, 'c', 'o') && NoPair(s, 'w', 'h') && NoPair(s, 'a', 'f') && NoPair(s, 'd', 'o')
  }

  lemma ExampleLetters(t: string)
    requires Lower(t) == Concat(LowerWords)
    ensures var s := Lower(t); 'g' !in s && 'k' !in s && 'l' !in s && 'p' !in s && 'q' !in s
  {
    LacksLetter('g');
    LacksLetter('k');
    LacksLetter('l');
    LacksLetter('p');
    LacksLetter('q');
  }

  lemma ExamplePairs(t: string)
    requires Lower(t) == Concat(LowerWords)
    ensures var s := Lower(t);
      NoPair(s, 'b', 'e') && NoPair(s, 'c', 'o') && NoPair(s, 'w', 'h') && NoPair(s, 'a', 'f') && NoPair(s, 'd', 'o')
  {
    LacksBe();
    LacksCo();
    LacksWh();
    LacksAf();
    LacksDo();
  }

  lemma ExampleHasShape(t: string)
    requires Lower(t) == Concat(LowerWords)
    ensures ExampleShape(Lower(t))
  {
    ExampleLetters(t);
    ExamplePairs(t);
  }

  /** The lower-cased example lacks those letters and pairs. */
  lemma ExampleShapeHolds()
    ensures ExampleShape(Lower(Example))
  {
    ExampleLowered();
    ExampleHasShape(Example);
  }

  /** A keyword inside one of the example's words occurs in the lower-cased
      example. */
  lemma ExampleContains(kw: string, w: nat, at: nat)
    requires w < |LowerWords| && OccursAt(LowerWords[w], kw, at)
    ensures Contains(Lower(Example), kw)
  {
    ExampleLowered();
    ContainsAt(LowerWords[w], kw, at);
    ConcatContains(LowerWords, w, kw);
  }

  /** "headache, " holds "ache" and "worried " holds "worried". */
  lemma ExampleMentions()
    ensures Contains(Lower(Example), "ache") && Contains(Lower(Example), "worried")
  {
    AcheInHeadache();
    ExampleContains("ache", 6, 4);
    WorriedInWorried();
    ExampleContains("worried", 8, 0);
  }

  lemma AcheInHeadache()
    ensures OccursAt(LowerWords[6], "ache", 4)
  {
  }

  lemma WorriedInWorried()
    ensures OccursAt(LowerWords[8], "worried", 0)
  {
  }

  /** The rule answers for any text whose lower-cased form lacks those
      letters and pairs and contains "ache" and "worried". */
  lemma AnswersOf(t: string)
    requires ExampleShape(Lower(t)) && Contains(Lower(t), "ache") && Contains(Lower(t), "worried")
    ensures RuleIntent(t) == ReportingSymptoms && RuleSentiment(t) == Anxious
  {
    var s := Lower(t);
    Counted(s, SymptomReportingKeywords, "ache");
    Counted(s, AnxiousKeywords, "worried");
    OnlyWorried(s);
    NoRecoveryKeyword(s);
    NoReassuredKeyword(s);
  }

  /** "ache" inside "headache" reports a symptom and "worried" seeks
      reassurance: the tie goes to the symptom report, declared first, and the
      worry alone makes the sentiment anxious. */
  lemma WorkedExample()
    ensures RuleIntent(Example) == ReportingSymptoms
    ensures RuleSentiment(Example) == Anxious
  {
    ExampleShapeHolds();
    ExampleMentions();
    AnswersOf(Example);
  }

  lemma ExampleNotEmpty()
    ensures Example != ""
  {
    assert Example == Words[0] + Concat(Words[1..]);
  }

  /** Without a sentiment model the analysis of the example is
      (Anxious, Reporting symptoms). */
  lemma ExampleAnalysis()
    ensures AnalyzeSentimentIntent(Example, Unavailable) == (Anxious, ReportingSymptoms)
  {
    WorkedExample();
    ExampleNotEmpty();
  }
}
