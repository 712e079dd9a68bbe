# Swasthya transcript-to-report core, in Dafny

Swasthya turns a doctor/patient conversation transcript into clinical
artefacts. This project models the deterministic, rule-based part of that
pipeline and proves what it promises:

- **Segmentation** (`Preprocessing`): the transcript is split into doctor,
  patient and full text. Speaker tags are removed, untagged lines are glued
  to an earlier utterance, and the text is normalised (whitespace runs and
  dot runs collapsed, ends trimmed).
- **Entity extraction** (`Ner`): the recogniser's spans are filed into
  Symptoms, Diagnosis, Treatment and Prognosis by keyword priority. The
  keyword sentence-window extractor (`[^.]*kw[^.]*\.?`) runs beside it, and
  the two are merged, stripped and de-duplicated.
- **Keyword merge** (`Keywords`): candidates from three generators are
  pooled, counted, ranked by frequency, filtered against a stop set and
  capped.
- **Extractive summary and chunking** (`Summarization`): sentences are
  scored, the top K are kept by a stable descending sort, and source order
  is restored. Long texts are split into 1024-character chunks for the
  abstractive summariser, and the extractive summary is the fallback.
- **Rule-based sentiment and intent** (`Sentiment`): each score counts the
  distinct keywords present. Ties are broken in a fixed order and the labels
  come from fixed category lists. `SentimentExamples` works one patient
  sentence through to its answers.
- **SOAP note and medical report** (`Soap`, `Pipeline`): the patient-name
  matcher and the first-match and up-to-K sentence filters over a `[.!?]+`
  split. Fixed default strings, truncation bounds and the assembly of the
  note, the report and the final output.
- **Medicine lookup and symptom detection** (`Medicine`): the first matching
  key per symptom, order-preserving de-duplication and a cap of four, plus
  the title-cased symptom detection over the conversation text.

`Text` holds the shared string model used by every module: ASCII
lower-casing, Python's `strip`, substring search, `split('\n')`,
`re.split(r'[.!?]+', ...)`, `join` and order-preserving de-duplication.
`Sorting` holds a stable descending sort on `(score, value)` pairs. It is
the model of `list.sort(reverse=True, key=...)` and of the ranking inside
`Counter.most_common`.

The machine-learning services (spaCy, KeyBERT, TF-IDF, noun chunks, BART,
DistilBERT) are inputs. Each is `Unavailable` or a total function whose
`None` result stands for a raised exception. The report and the SOAP note
each read the clock once, and the two dates are parameters.

Loops in the source are methods with loop invariants. Each method is proved
equal to a function, and the properties are proved as lemmas about those
functions.

The model keeps these details of the code, although some of them may look
unintended:

- An untagged line goes to the doctor only when the doctor has strictly
  more utterances than the patient (`>`), not when the counts are equal.
- With no entity recogniser the four lists are empty, and the keyword
  window does not run.
- The diagnostic-information list is capped at 5, not 10.
- The sentiment, intent and summary scores count distinct keywords
  present, not occurrences.
- For "I have fever and a bad headache, I'm worried it's serious." the
  intent is Reporting symptoms: `ache` occurs inside "headache", and a tie
  goes to the intent declared first.

## Model

| member | source | states |
|---|---|---|
| Preprocessing.Normalize | src/preprocessing.py:18-24 | the result is stripped, has no two adjacent whitespace characters, no two adjacent dots, and no whitespace other than the plain space |
| Preprocessing.NormalizeIdempotent | src/preprocessing.py:18-24 | normalising twice gives the same text as normalising once |
| Preprocessing.RemoveSpeakerTags | src/preprocessing.py:11-15 | the result is stripped |
| Preprocessing.RemoveSpeakerTagsNoTag | src/preprocessing.py:11-15 | text holding no `Doctor:` or `Patient:` tag is only stripped |
| Preprocessing.RemoveSpeakerTagsLine | src/preprocessing.py:11-15 | a single line `Doctor:` + x loses the tag and the whitespace after it, then is stripped |
| Preprocessing.SegmentConversation | src/preprocessing.py:27-77 | the loop over lines yields exactly the conversation that `Preprocessing.Segment` defines |
| Preprocessing.ApplyLine | src/preprocessing.py:44-62 | one loop iteration updates the three lists as `StepLine` defines: blank lines skipped, tagged lines start an utterance, untagged lines are glued on |
| Preprocessing.StepLine | src/preprocessing.py:44-62 | a doctor-tagged line adds exactly one doctor utterance, a patient-tagged line one patient utterance, and any other line none |
| Preprocessing.AllLinesProcessed | src/preprocessing.py:43-62 | the full-text list is every non-blank line, processed, in source order |
| Preprocessing.FullTextIsJoinOfLines | src/preprocessing.py:64-71 | the full text is the normalised space-join of the processed non-blank lines |
| Preprocessing.UtteranceCounts | src/preprocessing.py:48-61 | the number of doctor (patient) utterances equals the number of lines whose stripped form starts with `Doctor:` (`Patient:`) |
| Preprocessing.TaggedLine | src/preprocessing.py:48-55 | a tagged line appends one utterance for that speaker, with every occurrence of the tag removed and the result stripped, and the same text to the full text |
| Preprocessing.UntaggedLine | src/preprocessing.py:57-62 | an untagged line is appended, after a space, to the last doctor utterance iff there are strictly more doctor than patient utterances, else to the last patient utterance iff one exists; every other utterance is unchanged, the line always reaches the full text, and no utterance is created |
| Preprocessing.BlankLineIgnored | src/preprocessing.py:44-46 | a blank line anywhere contributes nothing to any list |
| Preprocessing.BlankTranscript | src/preprocessing.py:64-77 | an empty or all-blank transcript yields three empty strings |
| Ner.Classify | src/ner_extraction.py:78-97 | a span is filed under the first category, in the order Symptoms, Diagnosis, Treatment, Prognosis, one of whose keywords occurs in its lower-cased text; it is dropped iff no category matches |
| Ner.InflammationIsSymptom | src/ner_extraction.py:28-48 | a span containing "inflammation", a keyword of both Symptoms and Diagnosis, is always filed under Symptoms |
| Ner.BucketEntities | src/ner_extraction.py:72-97 | the loop over spans makes each bucket the spans filed under it, in order, each at most once |
| Ner.BucketsAreFirstOccurrences | src/ner_extraction.py:78-97 | each bucket is the first-occurrence de-duplication of the spans classified under its category |
| Ner.DotPiecesConcat | src/ner_extraction.py:128 | the pieces the window pattern scans rejoin to the text, and each piece holds a `.` at most as its last character |
| Ner.KeywordPhrasesAreGood | src/ner_extraction.py:126-135 | every phrase kept is stripped, longer than 10 and shorter than 200 characters, has a `.` at most at its end, and contains one of the keywords case-insensitively |
| Ner.KeepMatches | src/ner_extraction.py:131-135 | the loop over matches appends exactly the stripped matches of the allowed length |
| Ner.CollectPhrases | src/ner_extraction.py:126-135 | the nested keyword and match loops collect exactly `KeywordPhrases`, in keyword-list order |
| Ner.ExtractByKeywords | src/ner_extraction.py:121-137 | at most 10 phrases, the cap applied after all keywords are scanned, each a good phrase for the category |
| Ner.Clean | src/ner_extraction.py:114-116 | the cleaned list has no duplicates and no empty entry, and each entry equals its own strip |
| Ner.CleanMembers | src/ner_extraction.py:114-116 | y is kept iff y is non-empty and the strip of some entry |
| Ner.CleanAll | src/ner_extraction.py:114-116 | the loop over the four keys cleans each list |
| Ner.ExtractMedicalEntities | src/ner_extraction.py:51-118 | without a recogniser the four lists are empty and the keyword path does not run; otherwise the result is `MedicalEntities` |
| Ner.MergedCategoryClean | src/ner_extraction.py:106-116 | each final list has no duplicates, no empty entry, and every entry is stripped |
| Ner.MedicalEntitiesMembers | src/ner_extraction.py:106-116 | as a set, each final list is the non-empty strips of the spans filed under it and of the category's keyword phrases |
| Keywords.TfidfKeywords | src/keyword_extraction.py:47-58 | no TF-IDF keywords when the library is unavailable or fewer than 2 split pieces have stripped length above 10 |
| Keywords.SelectTop | src/keyword_extraction.py:137-144 | the `seen` loop with its early break keeps the first `topN` distinct filtered keywords |
| Keywords.ExtractKeywords | src/keyword_extraction.py:101-146 | the result is `KeywordsOf` applied to the KeyBERT, TF-IDF and noun-phrase candidates pooled in that order |
| Keywords.KeywordsFromConversation | src/keyword_extraction.py:149-165 | the full text's keywords with `top_n` 15; at most 15 of them |
| Keywords.RankedEntries | src/keyword_extraction.py:127-132 | the ranked counter entries are sorted by non-increasing count, have distinct keys, and carry each key's pooled count |
| Keywords.TopWellRanked | src/keyword_extraction.py:132 | the `2 * topN` most common entries keep that ranking |
| Keywords.FilteredMembers | src/keyword_extraction.py:130-134 | a key passes the filter iff it is not a stop word, is longer than 2 characters, and is a ranked key |
| Keywords.FilteredOrder | src/keyword_extraction.py:131-134 | the filter keeps the ranking order |
| Keywords.FilteredDistinct | src/keyword_extraction.py:131-134 | filtering entries with distinct keys gives distinct keywords |
| Keywords.KeywordsAreTake | src/keyword_extraction.py:137-144 | on the distinct filtered list the `seen` loop is a plain prefix of length `topN` |
| Keywords.KeywordsProperties | src/keyword_extraction.py:112-146 | at most `topN` distinct keywords, none a stop word or shorter than 3, each the lower-cased form of a candidate, in non-increasing pooled frequency; keywords of equal frequency come in the order of their first occurrence among the lower-cased candidates |
| Keywords.FilteredTies | src/keyword_extraction.py:127-134 | of two filtered keys with equal counts, the earlier one first occurs earlier in the pool |
| Keywords.RankedTies | src/keyword_extraction.py:127-132 | of two `most_common` entries with equal counts, the earlier one's key first occurs earlier in the pool |
| Keywords.RankingTies | src/keyword_extraction.py:127-132 | entries with equal counts keep the order in which their keys first appear in the pool |
| Keywords.NoGenerators | src/keyword_extraction.py:112-124 | with every generator unavailable the result is empty |
| Keywords.RankingWindow | src/keyword_extraction.py:132-134 | only the `2 * topN` most frequent keys are considered, and the result is empty when none of them passes the filter |
| Summarization.KeptSentencesMembers | src/summarization.py:68-69 | a sentence is kept iff it is the strip of a split piece and is longer than 20 characters; kept sentences are stripped |
| Summarization.EmptyTextSummary | src/summarization.py:71-72 | the summary of an empty text is "." |
| Summarization.SimpleSummary | src/summarization.py:54-98 | the extractive summary always ends with `.` |
| Summarization.BoostOver | src/summarization.py:82-84 | the keyword loop adds 20 for each keyword the lower-cased sentence contains |
| Summarization.ScoreSentence | src/summarization.py:80-87 | one sentence's score is its length, plus the keyword boosts, plus 10 at the first or last position |
| Summarization.ScoreSentences | src/summarization.py:78-89 | the loop pairs every kept sentence with its score, in order |
| Summarization.ScoreCountsDistinctKeywords | src/summarization.py:79-87 | the score is the length plus 20 times the number of distinct medical keywords present plus the 10-point position boost, between the length and the length + 20·11 + 10 |
| Summarization.SummarizeSimple | src/summarization.py:54-98 | the loops compute exactly `SimpleSummary` |
| Summarization.KeepInSubsequence | src/summarization.py:96 | the reordered selection is a subsequence of the kept sentences |
| Summarization.SelectedMembers | src/summarization.py:93-96 | a kept sentence is emitted iff its text is among the top-scored texts |
| Summarization.SelectedInOrder | src/summarization.py:96 | the emitted sentences come in original order |
| Summarization.SelectedCount | src/summarization.py:92-96 | with pairwise distinct kept sentences, exactly `num` are emitted |
| Summarization.SelectedAreBest | src/summarization.py:92-96 | with distinct kept sentences, every emitted sentence scores higher than every dropped one, or scores the same and stands earlier |
| Summarization.RepeatedSentence | src/summarization.py:96 | when one text fills the kept list, every occurrence is emitted, more than `num` |
| Summarization.KeepInCount | src/summarization.py:96 | the list comprehension keeps every occurrence of a wanted element and none of an unwanted one |
| Summarization.SelectedOccurrences | src/summarization.py:92-96 | a top-scored text is emitted exactly as many times as it occurs among the kept sentences; any other text is not emitted |
| Summarization.Chunks | src/summarization.py:37-39 | the chunks rejoin to the text; each is non-empty and at most the chunk size; all but the last have exactly that size |
| Summarization.ChunkSummaries | src/summarization.py:40-43 | the chunk summaries exist iff the summariser answers on every chunk, one summary per chunk |
| Summarization.ChunkSummariesNone | src/summarization.py:41-51 | once a chunk fails the whole chunked summary fails |
| Summarization.SummarizeWithBart | src/summarization.py:17-51 | the chunk loop computes `BartSummary`: chunked above 1024 characters, the extractive summary when unavailable or failing |
| Summarization.SummarizeConversation | src/summarization.py:101-118 | the summary uses lengths 200 and 80, and is the three-sentence extractive summary without the summariser |
| Summarization.FallbackEndsWithDot | src/summarization.py:29-51 | without a model, when the call on a short text fails, or when any one chunk call on a long text fails, the summary is the extractive one and ends with `.` |
| Summarization.ChunkFails | src/summarization.py:39-43 | one failing chunk call makes the whole chunk loop fail |
| Sorting.SortDesc | src/summarization.py:92 | the sort yields a permutation of its input in non-increasing score order |
| Sorting.SortDescStable | src/summarization.py:92 | entries with the same score keep their relative order |
| Sorting.SortDescOrder | src/summarization.py:92 | of two distinct entries, the one placed earlier has a higher score, or the same score and an earlier input position |
| Sorting.SortDescTies | src/keyword_extraction.py:132 | two sorted entries with equal counts come from input positions in the same order |
| Sentiment.RuleSentiment | src/sentiment_intent.py:84-96 | Anxious iff the anxious score beats the reassured one and is positive, Reassured symmetrically, Neutral iff the scores are equal; the label is in the sentiment categories |
| Sentiment.SentimentScoresCountDistinctKeywords | src/sentiment_intent.py:88-89 | each score is the number of distinct keywords of the list present in the lower-cased text |
| Sentiment.RuleIntent | src/sentiment_intent.py:99-118 | the highest positive score wins with ties going to Reporting, then Seeking, then Confirming; all zero means Describing condition; never Asking questions; the label is in the intent categories |
| Sentiment.ModelSentiment | src/sentiment_intent.py:58-81 | the rule answer when the model is unavailable or fails; otherwise Reassured iff POSITIVE above the threshold and Anxious iff NEGATIVE above it |
| Sentiment.AnalyzeSentimentIntent | src/sentiment_intent.py:121-148 | empty patient text gives (Neutral, Describing condition); otherwise the sentiment is the model's (with the rule fallback) and the intent is the rule intent; never Asking questions |
| SentimentExamples.WorkedExample | src/sentiment_intent.py:99-118 | "I have fever and a bad headache, I'm worried it's serious." has intent Reporting symptoms (`ache` inside "headache" ties with `worried`, and the tie goes to the symptom report) and rule sentiment Anxious |
| SentimentExamples.ExampleAnalysis | src/sentiment_intent.py:121-148 | without a sentiment model the analysis of that sentence is (Anxious, Reporting symptoms) |
| SentimentExamples.AnswersOf | src/sentiment_intent.py:84-118 | any text whose lower-cased form contains "ache" and "worried" and lacks the letters and pairs that every other relevant keyword needs is Reporting symptoms and Anxious |
| Soap.ExtractPatientName | src/soap_generator.py:12-25 | the result is one or two capitalised words, or "Patient"; the pipeline's own matcher (src/pipeline.py, lines 106-119) has the same two patterns and fallback, so this one definition models both |
| Soap.LabelWins | src/soap_generator.py:15-23 | when the `Patient:` pattern matches, its leftmost match's group is the name |
| Soap.GreetingWins | src/soap_generator.py:17-23 | when the `Patient:` pattern matches nowhere and the greeting pattern matches, the group of its leftmost match is the name |
| Soap.NoNameFound | src/soap_generator.py:20-25 | when neither pattern matches anywhere the name is "Patient" |
| Soap.SearchLeftmost | src/soap_generator.py:21 | `re.search` finds the leftmost matching position; it finds none iff no position matches |
| Soap.SearchFinds | src/soap_generator.py:21 | a matching position with no match before it is the one found |
| Soap.TwoWordName | src/soap_generator.py:16-17 | a capitalised word followed by a second one forms a name |
| Soap.MatchedMembers | src/soap_generator.py:118-121 | an entry is collected iff it is the entry of a piece mentioning a keyword |
| Soap.CollectMatches | src/soap_generator.py:118-121 | the append loop collects exactly the entries of the pieces mentioning a keyword, in order |
| Soap.FirstMention | src/soap_generator.py:98-100 | the first piece mentioning a keyword; none iff no piece does |
| Soap.FirstEntryIsFirstMention | src/soap_generator.py:98-101 | a first-match field is the entry of the first mentioning piece |
| Soap.FindFirstEntry | src/soap_generator.py:98-101 | the loop with early return computes `FirstEntry` |
| Soap.ChiefComplaint | src/soap_generator.py:94-101 | the chief complaint is at most 200 characters |
| Soap.ExtractChiefComplaint | src/soap_generator.py:94-101 | the loop computes the first complaint sentence, stripped and cut to 200, else "Not specified" |
| Soap.ExtractFollowUp | src/soap_generator.py:198-207 | the loop computes the first follow-up sentence, stripped, else "Follow-up as needed" |
| Soap.HistoryOfPresentIllness | src/soap_generator.py:104-110 | "Patient reports: " followed by the comma-joined symptoms when that text is non-empty, else "See patient text for details"; the patient text is not used |
| Soap.FirstFive | src/soap_generator.py:113-123 | at most 5 entries, a prefix of the matching entries in text order |
| Soap.ExtractConcerns | src/soap_generator.py:113-123 | the first five stripped sentences naming a concern |
| Soap.ExtractObservations | src/soap_generator.py:141-151 | the first five stripped sentences naming an observation |
| Soap.ExtractDiagnosticInfo | src/soap_generator.py:154-164 | the first five stripped sentences naming a diagnostic term |
| Soap.ExtractTherapy | src/soap_generator.py:185-195 | the first five therapy sentences, each stripped and cut to 150 |
| Soap.FirstFiveMembers | src/soap_generator.py:113-195 | every entry comes from a piece that mentions a keyword |
| Soap.ExaminationFindings | src/soap_generator.py:126-138 | with no examination sentence the findings are "No specific examination findings documented" |
| Soap.ExaminationFindingsStart | src/soap_generator.py:130-137 | otherwise the findings start with the first examination sentence |
| Soap.MedicationEntry | src/soap_generator.py:174-180 | with a match, the entry is the group at the leftmost matching start: one word run, or two separated by whitespace, copied from the sentence and followed there by whitespace and a medication noun; without one, the stripped sentence cut to 100 characters |
| Soap.MedicationMatchAt | src/soap_generator.py:176 | a match at a position captures a word group that the sentence holds there, followed by whitespace and one of the four nouns |
| Soap.NounlessSentenceFallsBack | src/soap_generator.py:176-180 | a sentence with no medication, medicine, drug or painkiller falls back to the stripped sentence cut to 100 |
| Soap.Medications | src/soap_generator.py:167-182 | at most 10 distinct entries, each an entry of a medication sentence |
| Soap.ExtractMedications | src/soap_generator.py:167-182 | the loop computes `Medications` |
| Soap.MedicationsKeepAll | src/soap_generator.py:182 | with at most ten distinct entries, an entry is listed iff some medication sentence yields it |
| Soap.PrimaryDiagnosis | src/soap_generator.py:68 | the first diagnosis, or "Not specified" when there is none |
| Soap.PrognosisText | src/soap_generator.py:79 | "Not specified" without prognosis phrases; a single phrase as it is |
| Soap.SoapNoteOf | src/soap_generator.py:28-91 | the name is a name, the date is the caller's, symptoms, treatment and diagnoses are copied unchanged, the clinical assessment is the summary, and the primary diagnosis is the first diagnosis or "Not specified" |
| Soap.SoapNoteBounds | src/soap_generator.py:94-195 | chief complaint at most 200 characters; at most five concerns, observations, diagnostic sentences and therapy entries; therapy entries at most 150 characters; at most ten distinct medications |
| Soap.GenerateSoapNote | src/soap_generator.py:28-91 | the step-by-step assembly yields `SoapNoteOf` |
| SoapExamples.LabelledName | src/soap_generator.py:16 | "Patient: Ann" yields the name "Ann" |
| Pipeline.MedicalReportOf | src/pipeline.py:57-65 | the name is a name; the current status is a prefix of the summary of length at most 200, exactly 200 when the summary is that long; the diagnosis is the first diagnosis or "Not specified" |
| Pipeline.PipelineOf | src/pipeline.py:37-79 | the report and the SOAP note agree on name, symptoms, treatment, diagnosis and prognosis, and both use the same entities and summary; each carries its own clock reading as its date; at most 15 keywords; the intent is never Asking questions |
| Pipeline.RunPipeline | src/pipeline.py:19-79 | the sequence of steps yields `PipelineOf` |
| Pipeline.WithoutModels | src/pipeline.py:45-49 | without the keyword generators and the summariser, there are no keywords and the summary is the extractive one |
| Medicine.FirstKeyFrom | app.py:96-99 | the first key, in declaration order, contained in the lower-cased symptom; none iff no key is |
| Medicine.Lookups | app.py:94-99 | one lookup per symptom, in order |
| Medicine.Recommendations | app.py:101-110 | at most 4 suggestions, no two alike, each drawn from the gathered table entries |
| Medicine.GatherAll | app.py:94-99 | the nested loop with `break` gathers exactly the first matching key's entries for each symptom |
| Medicine.Unique | app.py:101-108 | the `seen` loop is first-occurrence de-duplication |
| Medicine.GenerateMedicineRecommendations | app.py:17-110 | the recommendations depend only on the symptoms and the fixed table; the diagnosis is ignored |
| Medicine.GatheredMembers | app.py:94-99 | a suggestion is gathered iff it is in the lookup of some symptom |
| Medicine.SuggestionOrigin | app.py:22-108 | every suggestion is a table value of a key that its symptom contains, with no earlier key contained |
| Medicine.NoKeyNoSuggestion | app.py:94-110 | symptoms containing no key, including no symptoms at all, give no suggestion |
| Medicine.FewSuggestionsKept | app.py:101-110 | with at most four distinct suggestions, the result is all of them in first-occurrence order |
| Medicine.Title | app.py:541 | title-casing keeps the length and upper-cases the first character |
| Medicine.DetectSymptoms | app.py:522-541 | the detection loop computes `Detected` over the fixed symptom table on the lower-cased text |
| Medicine.DetectedMembers | app.py:539-541 | a title is detected iff one of its symptom's keywords occurs in the lower-cased text |
| Medicine.DetectedInTableOrder | app.py:539-541 | detected symptoms follow the table's declaration order |
| Medicine.DetectSymptomsDistinct | app.py:525-541 | each symptom is detected at most once |
| Text.SplitSentences | src/soap_generator.py:97 | `re.split(r'[.!?]+', ...)` yields at least one piece, and no piece holds `.`, `!` or `?` |
| Text.SplitSentencesConcat | src/soap_generator.py:97 | the pieces rejoin to the text with its terminators removed |
| Text.CountInIsDistinctHits | src/sentiment_intent.py:88-89 | a keyword-presence sum over distinct keywords is the number of distinct keywords present |
| Text.DedupeMembers | src/ner_extraction.py:116 | order-preserving de-duplication keeps exactly the elements of its input |
| Text.DedupeOrder | src/keyword_extraction.py:127 | the keys of a `Counter` come in the order of their first occurrence in its input |

## Left out

- The Streamlit user interface in `app.py` and `streamlit_app.py`, the mock `run_pipeline` of `app.py`, and the installation, command-line and model-probing scripts: they render or launch, and compute nothing.
- Reading the transcript file, writing the JSON outputs and the progress messages `run_pipeline` prints to the console (src/pipeline.py:30-101): I/O is outside the model. `RunPipeline` returns the final output instead.
- The machine-learning services (spaCy and scispaCy, KeyBERT, the TF-IDF vectoriser, noun chunks, BART, DistilBERT) are opaque inputs. The model does not say which spans, keywords or summaries they produce.
- Keywords.TfidfKeywords: the TF-IDF scores and the top-N choice are floating point, so past the sentence gate the keywords are the generator's output.
- Sentiment.ModelSentiment: the 0.7 confidence threshold is a floating-point comparison. The model receives its outcome as a boolean.
- The `Date` fields come from two separate clock readings (src/pipeline.py:59 and src/soap_generator.py:84), so they are two parameters, which may differ.
- Python's Unicode-aware `lower`, `title`, `\s` and `\w` are modelled on ASCII. Other characters pass through unchanged and count as neither whitespace nor word characters.
- Only the specific regular expressions of the source are modelled, each by hand. There is no general regular-expression engine.
- The iteration order of `list(set(...))` in the entity merge and the medication list is unspecified. The model uses first-occurrence order, with Soap.Medications and Ner.MedicalEntitiesMembers stated as membership facts that hold for any order.
- Soap.PrognosisText: states the empty and single-phrase cases; joining several phrases with spaces is its definition and is not restated.
- Soap.ChiefComplaint: its own contract gives only the 200-character bound. Which sentence is chosen is stated by Soap.FirstEntryIsFirstMention.
- Soap.ExaminationFindings: states the fallback text and, through Soap.ExaminationFindingsStart, the first sentence. That at most three sentences are joined is its definition.
- Exceptions inside the services are modelled as a `None` answer. The model makes no claim about which inputs make a service fail.
