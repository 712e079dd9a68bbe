/** Cleaning and segmentation of a raw doctor/patient transcript
    (`src/preprocessing.py`). */
module Preprocessing {
  import opened Text

  // ---------------------------------------------------------------------------
  // normalize_text
  // ---------------------------------------------------------------------------

  /** No two neighbouring characters are both whitespace. */
  predicate NoAdjacentSpace(s: string) {
    forall i :: 0 <= i < |s| - 1 ==> !(IsSpace(s[i]) && IsSpace(s[i + 1]))
  }

  /** No two neighbouring characters are both `.`. */
  predicate NoAdjacentDots(s: string) {
    forall i :: 0 <= i < |s| - 1 ==> !(s[i] == '.' && s[i + 1] == '.')
  }

  /** The only whitespace character is the plain space. */
  predicate OnlyBlanks(s: string) {
    forall i :: 0 <= i < |s| ==> IsSpace(s[i]) ==> s[i] == ' '
  }

  /** `re.sub(r'\s+', ' ', s)`: every maximal run of whitespace becomes one
      space. */
  function CollapseSpaces(s: string): (r: string)
    ensures |s| > 0 ==> |r| > 0 && (if IsSpace(s[0]) then r[0] == ' ' else r[0] == s[0])
    ensures NoAdjacentSpace(r) && OnlyBlanks(r)
    ensures |r| <= |s|
    decreases |s|
  {
    if |s| == 0 then []
    else if IsSpace(s[0]) then
      var k := StripStart(s);
      [' '] + CollapseSpaces(s[k..])
    else [s[0]] + CollapseSpaces(s[1..])
  }

  /** The length of the run of `.` at the front. */
  function DotRun(s: string): (k: nat)
    ensures k <= |s|
    ensures forall j :: 0 <= j < k ==> s[j] == '.'
    ensures k < |s| ==> s[k] != '.'
    decreases |s|
  {
    if |s| == 0 || s[0] != '.' then 0 else 1 + DotRun(s[1..])
  }

  /** `re.sub(r'\.{2,}', '.', s)`: every run of two or more dots becomes one
      dot (a single dot stays as it is). */
  function CollapseDots(s: string): (r: string)
    ensures |s| > 0 ==> |r| > 0 && r[0] == s[0]
    ensures NoAdjacentDots(r)
    ensures NoAdjacentSpace(s) ==> NoAdjacentSpace(r)
    ensures OnlyBlanks(s) ==> OnlyBlanks(r)
    decreases |s|
  {
    if |s| == 0 then []
    else if s[0] == '.' then
      var k := DotRun(s);
      ['.'] + CollapseDots(s[k..])
    else [s[0]] + CollapseDots(s[1..])
  }

  lemma SliceKeepsShape(s: string, a: nat, b: nat)
    requires a <= b <= |s|
    ensures NoAdjacentSpace(s) ==> NoAdjacentSpace(s[a..b])
    ensures NoAdjacentDots(s) ==> NoAdjacentDots(s[a..b])
    ensures OnlyBlanks(s) ==> OnlyBlanks(s[a..b])
  {
    var t := s[a..b];
    assert forall i :: 0 <= i < |t| ==> t[i] == s[a + i];
  }

  predicate IsNormal(s: string) {
    IsStripped(s) && NoAdjacentSpace(s) && NoAdjacentDots(s) && OnlyBlanks(s)
  }

  /** `normalize_text`: collapse whitespace runs to one space, dot runs to one
      dot, then strip. */
  function Normalize(s: string): (r: string)
    ensures IsNormal(r)
  {
    var t := CollapseDots(CollapseSpaces(s));
    var r := Strip(t);
    SliceKeepsShape(t, StripStart(t), StripStart(t) + |r|);
    r
  }

  lemma {:induction false} CollapseSpacesOfNormal(s: string)
    requires NoAdjacentSpace(s) && OnlyBlanks(s)
    ensures CollapseSpaces(s) == s
    decreases |s|
  {
    if |s| > 0 {
      SliceKeepsShape(s, 1, |s|);
      CollapseSpacesOfNormal(s[1..]);
      assert s == [s[0]] + s[1..];
      if IsSpace(s[0]) {
        assert s[0] == ' ';
        assert StripStart(s[1..]) == 0 by {
          if |s| > 1 { assert !IsSpace(s[1..][0]); }
        }
      }
    }
  }

  lemma {:induction false} CollapseDotsOfNormal(s: string)
    requires NoAdjacentDots(s)
    ensures CollapseDots(s) == s
    decreases |s|
  {
    if |s| > 0 {
      assert s == [s[0]] + s[1..];
      assert s[0] == '.' ==> DotRun(s) == 1 by {
        if s[0] == '.' && |s| > 1 { assert s[1] != '.'; }
      }
      assert NoAdjacentDots(s[1..]) by { SliceKeepsShape(s, 1, |s|); }
      CollapseDotsOfNormal(s[1..]);
    }
  }

  /** Normalised text is left unchanged by normalising again. */
  lemma NormalizeOfNormal(s: string)
    requires IsNormal(s)
    ensures Normalize(s) == s
  {
    CollapseSpacesOfNormal(s);
    CollapseDotsOfNormal(s);
    StripOfStripped(s);
  }

  lemma NormalizeIdempotent(s: string)
    ensures Normalize(Normalize(s)) == Normalize(s)
  {
    NormalizeOfNormal(Normalize(s));
  }

  // ---------------------------------------------------------------------------
  // remove_speaker_tags
  // ---------------------------------------------------------------------------

  /** `re.sub(r'^(Doctor|Patient):\s*', '', s, flags=re.MULTILINE)`: a speaker
      tag and the whitespace after it are deleted wherever a line starts.
      `atLineStart` says whether `^` matches here, that is whether this is the
      start of the text or the character before was a line feed. The deleted
      whitespace may itself end in a line feed, after which a tag matches
      again. */
  function DropTags(s: string, atLineStart: bool): string
    decreases |s|
  {
    if |s| == 0 then []
    else if atLineStart && (StartsWith(s, "Doctor:") || StartsWith(s, "Patient:")) then
      var t := if StartsWith(s, "Doctor:") then s[7..] else s[8..];
      var k := StripStart(t);
      DropTags(t[k..], k > 0 && t[k - 1] == '\n')
    else [s[0]] + DropTags(s[1..], s[0] == '\n')
  }

  /** `remove_speaker_tags` */
  function RemoveSpeakerTags(s: string): (r: string)
    ensures IsStripped(r)
  {
    Strip(DropTags(s, true))
  }

  /** Text that holds no tag is only stripped. */
  lemma {:induction false} DropTagsNoTag(s: string, atLineStart: bool)
    requires !Contains(s, "Doctor:") && !Contains(s, "Patient:")
    ensures DropTags(s, atLineStart) == s
    decreases |s|
  {
    if |s| > 0 {
      DropTagsNoTag(s[1..], s[0] == '\n');
    }
  }

  lemma RemoveSpeakerTagsNoTag(s: string)
    requires !Contains(s, "Doctor:") && !Contains(s, "Patient:")
    ensures RemoveSpeakerTags(s) == Strip(s)
  {
    DropTagsNoTag(s, true);
  }

  /** Away from the start of a line nothing is removed: a tag in the middle of
      a line stays. */
  lemma {:induction false} DropTagsMidLine(s: string)
    requires '\n' !in s
    ensures DropTags(s, false) == s
    decreases |s|
  {
    if |s| > 0 {
      assert s[0] != '\n';
      DropTagsMidLine(s[1..]);
    }
  }

  lemma StripAfterLeading(s: string)
    ensures Strip(s[StripStart(s)..]) == Strip(s)
  {
    var k := StripStart(s);
    var t := s[k..];
    if k < |s| {
      assert StripStart(t) == 0;
      StripEndOfSuffix(s, k);
    }
  }

  lemma {:induction false} StripEndOfSuffix(s: string, k: nat)
    requires k < |s| && !IsSpace(s[k])
    ensures StripEnd(s[k..]) == StripEnd(s) - k
    decreases |s|
  {
    if IsSpace(s[|s| - 1]) {
      assert s[..|s| - 1][k..] == s[k..][..|s[k..]| - 1];
      StripEndOfSuffix(s[..|s| - 1], k);
    }
  }

  /** A single line tagged `Doctor:` loses the tag and the surrounding
      whitespace. */
  lemma RemoveSpeakerTagsLine(x: string)
    requires '\n' !in x
    ensures RemoveSpeakerTags("Doctor:" + x) == Strip(x)
  {
    var s := "Doctor:" + x;
    assert StartsWith(s, "Doctor:") && s[7..] == x;
    var k := StripStart(x);
    assert '\n' !in x[k..];
    DropTagsMidLine(x[k..]);
    assert !(k > 0 && x[k - 1] == '\n');
    StripAfterLeading(x);
  }

  // ---------------------------------------------------------------------------
  // segment_conversation
  // ---------------------------------------------------------------------------

  /** The three lists the loop builds: the doctor's utterances, the patient's
      utterances and every processed line. */
  datatype Utterances = Utterances(doctor: seq<string>, patient: seq<string>, all: seq<string>)

  /** The three normalised texts `segment_conversation` returns. */
  datatype Conversation = Conversation(doctorText: string, patientText: string, fullText: string)

  const DoctorTag := "Doctor:"
  const PatientTag := "Patient:"

  predicate IsBlank(raw: string) { Strip(raw) == [] }

  predicate IsTagged(raw: string, tag: string) { StartsWith(Strip(raw), tag) }

  /** `xs[-1] += ' ' + line` */
  function AppendToLast(xs: seq<string>, line: string): (r: seq<string>)
    requires |xs| > 0
    ensures |r| == |xs| && r[..|xs| - 1] == xs[..|xs| - 1]
    ensures r[|xs| - 1] == xs[|xs| - 1] + " " + line
  {
    xs[..|xs| - 1] + [xs[|xs| - 1] + " " + line]
  }

  /** `line.replace(tag, '').strip()` */
  function Untag(line: string, tag: string): string
    requires |tag| > 0
  {
    Strip(RemoveAll(line, tag))
  }

  /** What a stripped non-blank line contributes to `all_lines`: the line
      with every occurrence of its tag removed and stripped, or the line
      itself. */
  function Processed(line: string): string {
    if StartsWith(line, DoctorTag) then Untag(line, DoctorTag)
    else if StartsWith(line, PatientTag) then Untag(line, PatientTag)
    else line
  }

  lemma TagsExclusive(line: string)
    ensures !(StartsWith(line, DoctorTag) && StartsWith(line, PatientTag))
  {
    if StartsWith(line, DoctorTag) {
      assert line[0] == DoctorTag[0];
    }
  }

  /** One iteration of the loop, on the stripped line. */
  function StepLine(u: Utterances, line: string): (r: Utterances)
    ensures |r.doctor| == |u.doctor| + (if line != [] && StartsWith(line, DoctorTag) then 1 else 0)
    ensures |r.patient| == |u.patient| + (if line != [] && StartsWith(line, PatientTag) then 1 else 0)
  {
    TagsExclusive(line);
    if line == [] then u
    else if StartsWith(line, DoctorTag) then
      var t := Untag(line, DoctorTag);
      Utterances(u.doctor + [t], u.patient, u.all + [t])
    else if StartsWith(line, PatientTag) then
      var t := Untag(line, PatientTag);
      Utterances(u.doctor, u.patient + [t], u.all + [t])
    else if |u.doctor| > 0 && |u.doctor| > |u.patient| then
      Utterances(AppendToLast(u.doctor, line), u.patient, u.all + [line])
    else if |u.patient| > 0 then
      Utterances(u.doctor, AppendToLast(u.patient, line), u.all + [line])
    else
      Utterances(u.doctor, u.patient, u.all + [line])
  }

  /** One iteration of the loop over the lines. */
  function Step(u: Utterances, raw: string): Utterances {
    StepLine(u, Strip(raw))
  }

  /** The three lists after the loop has consumed `lines`. */
  function Fold(lines: seq<string>): Utterances
    decreases |lines|
  {
    if |lines| == 0 then Utterances([], [], [])
    else Step(Fold(lines[..|lines| - 1]), lines[|lines| - 1])
  }

  /** `segment_conversation` as a function of the text. */
  function Segment(text: string): Conversation {
    var u := Fold(SplitLines(text));
    Conversation(Normalize(Join(" ", u.doctor)), Normalize(Join(" ", u.patient)),
                 Normalize(Join(" ", u.all)))
  }

  /** The body of the loop in `segment_conversation` for one stripped line. */
  method ApplyLine(doctor: seq<string>, patient: seq<string>, all: seq<string>, line: string)
    returns (doctor': seq<string>, patient': seq<string>, all': seq<string>)
    ensures Utterances(doctor', patient', all') == StepLine(Utterances(doctor, patient, all), line)
  {
    doctor', patient', all' := doctor, patient, all;
    if line == [] {
    } else if StartsWith(line, DoctorTag) {
      var t := Untag(line, DoctorTag);
      doctor' := doctor' + [t];
      all' := all' + [t];
    } else if StartsWith(line, PatientTag) {
      var t := Untag(line, PatientTag);
      patient' := patient' + [t];
      all' := all' + [t];
    } else {
      if |doctor'| > 0 && |doctor'| > |patient'| {
        doctor' := doctor'[..|doctor'| - 1] + [doctor'[|doctor'| - 1] + " " + line];
      } else if |patient'| > 0 {
        patient' := patient'[..|patient'| - 1] + [patient'[|patient'| - 1] + " " + line];
      }
      all' := all' + [line];
    }
  }

  lemma FoldSnoc(lines: seq<string>, i: nat)
    requires i < |lines|
    ensures Fold(lines[..i + 1]) == StepLine(Fold(lines[..i]), Strip(lines[i]))
  {
    assert lines[..i + 1][..i] == lines[..i];
  }

  /** `segment_conversation` */
  method SegmentConversation(text: string) returns (c: Conversation)
    ensures c == Segment(text)
  {
    var lines := SplitLines(text);
    var doctor, patient, all := [], [], [];
    var i := 0;
    while i < |lines|
      invariant i <= |lines|
      invariant Utterances(doctor, patient, all) == Fold(lines[..i])
    {
      FoldSnoc(lines, i);
      doctor, patient, all := ApplyLine(doctor, patient, all, Strip(lines[i]));
      i := i + 1;
    }
    assert lines[..i] == lines;
    ghost var u := Fold(lines);
    assert doctor == u.doctor && patient == u.patient && all == u.all;
    c := Conversation(Normalize(Join(" ", doctor)), Normalize(Join(" ", patient)),
                      Normalize(Join(" ", all)));
  }

  // ---------------------------------------------------------------------------
  // Properties of the segmentation
  // ---------------------------------------------------------------------------

  /** The processed non-blank lines, in order. */
  function NonBlankProcessed(lines: seq<string>): (r: seq<string>)
    ensures |r| <= |lines|
    decreases |lines|
  {
    if |lines| == 0 then []
    else
      var l := lines[|lines| - 1];
      NonBlankProcessed(lines[..|lines| - 1]) + (if IsBlank(l) then [] else [Processed(Strip(l))])
  }

  /** Every non-blank line adds exactly one entry to `all_lines`, in order, so
      the full text is the normalised join of the processed lines. */
  lemma {:induction false} AllLinesProcessed(lines: seq<string>)
    ensures Fold(lines).all == NonBlankProcessed(lines)
    decreases |lines|
  {
    if |lines| > 0 {
      AllLinesProcessed(lines[..|lines| - 1]);
    }
  }

  lemma FullTextIsJoinOfLines(text: string)
    ensures Segment(text).fullText == Normalize(Join(" ", NonBlankProcessed(SplitLines(text))))
  {
    AllLinesProcessed(SplitLines(text));
  }

  /** The number of lines that start with `tag` once stripped. */
  function CountTagged(lines: seq<string>, tag: string): (n: nat)
    ensures n <= |lines|
    decreases |lines|
  {
    if |lines| == 0 then 0
    else CountTagged(lines[..|lines| - 1], tag) + (if IsTagged(lines[|lines| - 1], tag) then 1 else 0)
  }

  /** Untagged lines never create an utterance: there are exactly as many
      doctor (patient) utterances as lines tagged `Doctor:` (`Patient:`). */
  lemma {:induction false} UtteranceCounts(lines: seq<string>)
    ensures |Fold(lines).doctor| == CountTagged(lines, DoctorTag)
    ensures |Fold(lines).patient| == CountTagged(lines, PatientTag)
    decreases |lines|
  {
    if |lines| > 0 {
      UtteranceCounts(lines[..|lines| - 1]);
    }
  }

  /** A line tagged `Doctor:` (`Patient:`) opens exactly one new utterance of
      that speaker, holding the line with every occurrence of the tag removed
      and stripped, and adds the same text to the full text. */
  lemma TaggedLine(u: Utterances, raw: string)
    ensures IsTagged(raw, DoctorTag) ==>
      var t := Untag(Strip(raw), DoctorTag);
      Step(u, raw) == Utterances(u.doctor + [t], u.patient, u.all + [t])
    ensures IsTagged(raw, PatientTag) ==>
      var t := Untag(Strip(raw), PatientTag);
      Step(u, raw) == Utterances(u.doctor, u.patient + [t], u.all + [t])
  {
    TagsExclusive(Strip(raw));
  }

  /** An untagged non-blank line is glued to the last doctor utterance when
      the doctor has strictly more utterances, otherwise to the last patient
      utterance if there is one, otherwise it only reaches the full text; in
      every case the line itself is added to the full text. */
  lemma UntaggedLine(u: Utterances, raw: string)
    requires !IsBlank(raw) && !IsTagged(raw, DoctorTag) && !IsTagged(raw, PatientTag)
    ensures Step(u, raw).all == u.all + [Strip(raw)]
    ensures |Step(u, raw).doctor| == |u.doctor| && |Step(u, raw).patient| == |u.patient|
    ensures Step(u, raw).doctor != u.doctor <==> |u.doctor| > |u.patient|
    ensures Step(u, raw).patient != u.patient <==> 0 < |u.patient| && |u.doctor| <= |u.patient|
    ensures |u.doctor| > |u.patient| ==>
      var n := |u.doctor|;
      Step(u, raw) == Utterances(u.doctor[..n - 1] + [u.doctor[n - 1] + " " + Strip(raw)], u.patient, u.all + [Strip(raw)])
    ensures |u.doctor| <= |u.patient| && |u.patient| > 0 ==>
      var n := |u.patient|;
      Step(u, raw) == Utterances(u.doctor, u.patient[..n - 1] + [u.patient[n - 1] + " " + Strip(raw)], u.all + [Strip(raw)])
    ensures |u.doctor| <= |u.patient| && |u.patient| == 0 ==>
      Step(u, raw) == Utterances(u.doctor, u.patient, u.all + [Strip(raw)])
  {
    var line := Strip(raw);
    if |u.doctor| > |u.patient| {
      var d := AppendToLast(u.doctor, line);
      assert |d[|d| - 1]| > |u.doctor[|u.doctor| - 1]|;
    } else if |u.patient| > 0 {
      var p := AppendToLast(u.patient, line);
      assert |p[|p| - 1]| > |u.patient[|u.patient| - 1]|;
    }
  }

  /** A blank line changes nothing, wherever it stands. */
  lemma {:induction false} BlankLineIgnored(a: seq<string>, b: string, c: seq<string>)
    requires IsBlank(b)
    ensures Fold(a + [b] + c) == Fold(a + c)
    decreases |c|
  {
    if |c| == 0 {
      assert a + [b] + c == a + [b];
      assert (a + [b])[..|a|] == a;
      assert a + c == a;
    } else {
      var c', x := c[..|c| - 1], c[|c| - 1];
      assert (a + [b] + c)[..|a + [b] + c| - 1] == a + [b] + c';
      assert (a + c)[..|a + c| - 1] == a + c';
      BlankLineIgnored(a, b, c');
    }
  }

  lemma {:induction false} SplitLinesOfBlank(s: string)
    requires AllSpace(s)
    ensures forall i :: 0 <= i < |SplitLines(s)| ==> AllSpace(SplitLines(s)[i])
    decreases |s|
  {
    var k := IndexOf(s, '\n');
    if k < |s| {
      SplitLinesOfBlank(s[k + 1..]);
    }
  }

  lemma {:induction false} FoldOfBlank(lines: seq<string>)
    requires forall i :: 0 <= i < |lines| ==> AllSpace(lines[i])
    ensures Fold(lines) == Utterances([], [], [])
    decreases |lines|
  {
    if |lines| > 0 {
      FoldOfBlank(lines[..|lines| - 1]);
    }
  }

  /** Empty or all-whitespace input yields three empty texts. */
  lemma BlankTranscript(text: string)
    requires AllSpace(text)
    ensures Segment(text) == Conversation("", "", "")
  {
    SplitLinesOfBlank(text);
    FoldOfBlank(SplitLines(text));
  }
}
