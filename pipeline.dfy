/** The batch pipeline (`src/pipeline.py`): segment the transcript, extract
    the entities, keywords, summary and sentiment, then build the medical
    report and the SOAP note from the same results. Reading the transcript
    file and writing the JSON outputs are left to the caller; the two clock
    readings (one for the report, one for the note) and the language models
    are inputs. */
module Pipeline {
  import opened Text
  import Preprocessing
  import Ner
  import Keywords
  import Summarization
  import Sentiment
  import Soap

  /** What the optional libraries would compute: the entity spans the
      recogniser finds in a text (`None` without a model), the three keyword
      generators, the abstractive summariser and the sentiment model. */
  datatype Models = Models(
    spans: string -> Option<seq<string>>,
    keybert: Keywords.Generator<(string, nat)>,
    tfidf: Keywords.Generator<(seq<string>, nat)>,
    nouns: Keywords.Generator<(string, nat)>,
    summarizer: Summarization.Summarizer,
    sentiment: Sentiment.SentimentModel)

  datatype MedicalReport = MedicalReport(patientName: string, date: string, symptoms: seq<string>,
                                         diagnosis: string, treatment: seq<string>, currentStatus: string,
                                         prognosis: string)

  datatype FinalOutput = FinalOutput(report: MedicalReport, entities: Ner.EntityBag, keywords: seq<string>,
                                     summary: string, sentimentIntent: (Sentiment.Sentiment, Sentiment.Intent),
                                     soap: Soap.SoapNote)

  /** The `medical_report` of `run_pipeline`. */
  function MedicalReportOf(conv: Preprocessing.Conversation, ner: Ner.EntityBag, summary: string, date: string)
    : (r: MedicalReport)
    ensures Soap.IsName(r.patientName)
    ensures |r.currentStatus| <= 200 && |r.currentStatus| <= |summary| && r.currentStatus == summary[..|r.currentStatus|]
    ensures |summary| >= 200 ==> |r.currentStatus| == 200
    ensures ner.diagnosis != [] ==> r.diagnosis == ner.diagnosis[0]
    ensures ner.diagnosis == [] ==> r.diagnosis == "Not specified"
  {
    MedicalReport(Soap.ExtractPatientName(conv.fullText), date, ner.symptoms, Soap.PrimaryDiagnosis(ner.diagnosis),
                  ner.treatment, Take(summary, 200), Soap.PrognosisText(ner.prognosis))
  }

  function EntitiesOf(conv: Preprocessing.Conversation, models: Models): Ner.EntityBag {
    match models.spans(conv.fullText)
    case None => Ner.EmptyBag
    case Some(spans) => Ner.MedicalEntities(conv.fullText, spans)
  }

  function KeywordsOf(conv: Preprocessing.Conversation, models: Models): seq<string> {
    Keywords.KeywordsOf(Keywords.Output(models.keybert, (conv.fullText, 15))
                        + Keywords.TfidfKeywords(models.tfidf, conv.fullText, 15)
                        + Keywords.Output(models.nouns, (conv.fullText, 15)), 15)
  }

  /** `run_pipeline` on a transcript: one segmentation feeds every stage, and
      the report and the SOAP note are built from the same entities and
      summary, so they agree on the patient, the symptoms, the treatment,
      the diagnosis and the prognosis, and the report's status is the start
      of the note's assessment. The report and the note each read the clock
      once; `reportDate` and `noteDate` are those two readings. */
  function PipelineOf(transcript: string, reportDate: string, noteDate: string, models: Models): (out: FinalOutput)
    ensures out.report.patientName == out.soap.patientName
    ensures out.report.date == reportDate && out.soap.date == noteDate
    ensures out.report.symptoms == out.soap.subjective.reportedSymptoms == out.entities.symptoms
    ensures out.report.treatment == out.soap.plan.treatmentPlan == out.entities.treatment
    ensures out.report.diagnosis == out.soap.assessment.primaryDiagnosis
    ensures out.report.prognosis == out.soap.plan.prognosis
    ensures out.soap.assessment.clinicalAssessment == out.summary
    ensures out.report.currentStatus == Take(out.soap.assessment.clinicalAssessment, 200)
    ensures |out.keywords| <= 15
    ensures out.sentimentIntent.1 != Sentiment.AskingQuestions
  {
    var conv := Preprocessing.Segment(transcript);
    var entities := EntitiesOf(conv, models);
    var keywords := KeywordsOf(conv, models);
    Keywords.KeywordsProperties(Keywords.Output(models.keybert, (conv.fullText, 15))
                                + Keywords.TfidfKeywords(models.tfidf, conv.fullText, 15)
                                + Keywords.Output(models.nouns, (conv.fullText, 15)), 15);
    var summary := Summarization.BartSummary(conv.fullText, 200, 80, models.summarizer);
    var sentiment := Sentiment.AnalyzeSentimentIntent(conv.patientText, models.sentiment);
    FinalOutput(MedicalReportOf(conv, entities, summary, reportDate), entities, keywords, summary, sentiment,
                Soap.SoapNoteOf(conv, entities, summary, noteDate))
  }

  method RunPipeline(transcript: string, reportDate: string, noteDate: string, models: Models)
    returns (out: FinalOutput)
    ensures out == PipelineOf(transcript, reportDate, noteDate, models)
  {
    var conv := Preprocessing.SegmentConversation(transcript);
    var entities := Ner.ExtractMedicalEntities(conv.fullText, models.spans(conv.fullText));
    var keywords := Keywords.KeywordsFromConversation(conv.fullText, models.keybert, models.tfidf, models.nouns);
    var summary := Summarization.SummarizeConversation(conv.fullText, models.summarizer);
    var sentiment := Sentiment.AnalyzeSentimentIntent(conv.patientText, models.sentiment);
    var report := MedicalReportOf(conv, entities, summary, reportDate);
    var soap := Soap.GenerateSoapNote(conv, entities, summary, noteDate);
    out := FinalOutput(report, entities, keywords, summary, sentiment, soap);
  }

  /** Without the keyword generators and the summariser there are no
      keywords and the summary is the extractive one. */
  lemma WithoutModels(transcript: string, reportDate: string, noteDate: string, spans: string -> Option<seq<string>>,
                      sentiment: Sentiment.SentimentModel)
    ensures var models := Models(spans, Keywords.Unavailable, Keywords.Unavailable, Keywords.Unavailable,
                                 Summarization.Unavailable, sentiment);
      var out := PipelineOf(transcript, reportDate, noteDate, models);
      var full := Preprocessing.Segment(transcript).fullText;
      out.summary == Summarization.SimpleSummary(full, 3) && out.keywords == []
  {
    var models := Models(spans, Keywords.Unavailable, Keywords.Unavailable, Keywords.Unavailable,
                         Summarization.Unavailable, sentiment);
    Keywords.NoGenerators(Preprocessing.Segment(transcript).fullText, 15);
  }
}
