/** Python string and list built-ins that the pipeline relies on, written out
    over ASCII: character classes, `lower`, `strip`, `in`, `startswith`,
    `replace`, `join`, slicing, `split('\n')`, `re.split(r'[.!?]+', ...)`,
    and order-preserving de-duplication. */
module Text {

  datatype Option<T> = None | Some(value: T)

  // ---------------------------------------------------------------------------
  // Characters
  // ---------------------------------------------------------------------------

  /** `str.isspace()` and the regex class `\s` on ASCII: tab, line feed,
      vertical tab, form feed, carriage return, the separators 0x1C-0x1F and
      space. */
  predicate IsSpace(c: char) {
    c == ' ' || (9 <= c as int <= 13) || (28 <= c as int <= 31)
  }

  predicate IsUpper(c: char) { 'A' <= c <= 'Z' }

  predicate IsLowerLetter(c: char) { 'a' <= c <= 'z' }

  predicate IsDigit(c: char) { '0' <= c <= '9' }

  /** The regex class `\w` on ASCII. */
  predicate IsWordChar(c: char) { IsUpper(c) || IsLowerLetter(c) || IsDigit(c) || c == '_' }

  /** The characters that `re.split(r'[.!?]+', ...)` splits on. */
  predicate IsTerminator(c: char) { c == '.' || c == '!' || c == '?' }

  function LowerChar(c: char): char {
    if IsUpper(c) then (c as int + 32) as char else c
  }

  function UpperChar(c: char): char {
    if IsLowerLetter(c) then (c as int - 32) as char else c
  }

  lemma LowerCharFacts(c: char)
    ensures !IsUpper(LowerChar(c))
    ensures IsSpace(LowerChar(c)) <==> IsSpace(c)
    ensures IsTerminator(LowerChar(c)) <==> IsTerminator(c)
    ensures !IsUpper(c) ==> LowerChar(c) == c
  {
  }

  // ---------------------------------------------------------------------------
  // lower()
  // ---------------------------------------------------------------------------

  /** `str.lower()`: every ASCII capital is replaced by its small letter. */
  function Lower(s: string): (r: string)
    ensures |r| == |s|
    ensures forall i {:trigger r[i]} :: 0 <= i < |s| ==> r[i] == LowerChar(s[i])
  {
    seq(|s|, i requires 0 <= i < |s| => LowerChar(s[i]))
  }

  predicate IsLowercase(s: string) { forall i :: 0 <= i < |s| ==> !IsUpper(s[i]) }

  lemma LowerIsLowercase(s: string)
    ensures IsLowercase(Lower(s))
  {
    forall i | 0 <= i < |s| ensures !IsUpper(Lower(s)[i]) {
      LowerCharFacts(s[i]);
    }
  }

  lemma LowerOfLowercase(s: string)
    requires IsLowercase(s)
    ensures Lower(s) == s
  {
    forall i | 0 <= i < |s| ensures Lower(s)[i] == s[i] {
      LowerCharFacts(s[i]);
    }
  }

  lemma SliceOfSlice<T>(s: seq<T>, a: nat, b: nat, c: nat, d: nat)
    requires a <= b <= |s| && c <= d <= b - a
    ensures s[a..b][c..d] == s[a + c..a + d]
  {
    var x, y := s[a..b][c..d], s[a + c..a + d];
    assert |x| == |y|;
    forall k | 0 <= k < |x| ensures x[k] == y[k] {
      assert x[k] == s[a..b][c + k] == s[a + c + k];
    }
  }

  // ---------------------------------------------------------------------------
  // startswith / in
  // ---------------------------------------------------------------------------

  predicate StartsWith(s: string, p: string) { |p| <= |s| && s[..|p|] == p }

  /** `sub in s` for strings. */
  predicate Contains(s: string, sub: string)
    decreases |s|
  {
    StartsWith(s, sub) || (|s| > 0 && Contains(s[1..], sub))
  }

  predicate OccursAt(s: string, sub: string, i: int) {
    0 <= i && i + |sub| <= |s| && s[i..i + |sub|] == sub
  }

  lemma {:induction false} ContainsAt(s: string, sub: string, i: int)
    requires OccursAt(s, sub, i)
    ensures Contains(s, sub)
    decreases i
  {
    if i > 0 {
      SliceOfSlice(s, 1, |s|, i - 1, i - 1 + |sub|);
      ContainsAt(s[1..], sub, i - 1);
    }
  }

  lemma {:induction false} ContainsWitness(s: string, sub: string) returns (i: nat)
    requires Contains(s, sub)
    ensures OccursAt(s, sub, i)
    decreases |s|
  {
    if StartsWith(s, sub) {
      i := 0;
    } else {
      var j := ContainsWitness(s[1..], sub);
      SliceOfSlice(s, 1, |s|, j, j + |sub|);
      i := j + 1;
    }
  }

  /** `sub in s` holds of every piece of `s` that contains `sub`. */
  lemma ContainsInSlice(s: string, sub: string, a: nat, b: nat)
    requires a <= b <= |s|
    requires Contains(s[a..b], sub)
    ensures Contains(s, sub)
  {
    var i := ContainsWitness(s[a..b], sub);
    SliceOfSlice(s, a, b, i, i + |sub|);
    ContainsAt(s, sub, a + i);
  }

  /** `any(k in s for k in kws)` */
  predicate AnyIn(s: string, kws: seq<string>) {
    exists k :: k in kws && Contains(s, k)
  }

  /** One of `kws` occurs at `j`: an alternation of literals matched there. */
  predicate OneOfAt(s: string, kws: seq<string>, j: nat) {
    exists kw :: kw in kws && OccursAt(s, kw, j)
  }

  lemma OneOfAtContains(s: string, kws: seq<string>, j: nat)
    requires OneOfAt(s, kws, j)
    ensures AnyIn(s, kws)
  {
    var kw :| kw in kws && OccursAt(s, kw, j);
    ContainsAt(s, kw, j);
  }

  /** `sum(1 for k in kws if k in s)`: the number of list entries that occur. */
  function CountIn(s: string, kws: seq<string>): nat
    decreases |kws|
  {
    if |kws| == 0 then 0
    else CountIn(s, kws[..|kws| - 1]) + (if Contains(s, kws[|kws| - 1]) then 1 else 0)
  }

  /** The keywords of `kws` that occur in `s`. */
  function Hits(s: string, kws: seq<string>): (h: set<string>)
    ensures forall k :: k in h <==> k in kws && Contains(s, k)
    decreases |kws|
  {
    if |kws| == 0 then {}
    else
      var p, last := kws[..|kws| - 1], kws[|kws| - 1];
      assert kws == p + [last];
      Hits(s, p) + (if Contains(s, last) then {last} else {})
  }

  /** Because the keyword lists have no repeated entries, a count is the number
      of DISTINCT keywords that occur, not the number of occurrences. */
  lemma {:induction false} CountInIsDistinctHits(s: string, kws: seq<string>)
    requires Distinct(kws)
    ensures CountIn(s, kws) == |Hits(s, kws)|
    decreases |kws|
  {
    if |kws| > 0 {
      var p, last := kws[..|kws| - 1], kws[|kws| - 1];
      assert Distinct(p);
      CountInIsDistinctHits(s, p);
      assert last !in p;
      assert last !in Hits(s, p);
    }
  }

  lemma {:induction false} CountInPositive(s: string, kws: seq<string>)
    ensures CountIn(s, kws) > 0 <==> AnyIn(s, kws)
    decreases |kws|
  {
    if |kws| > 0 {
      var p := kws[..|kws| - 1];
      CountInPositive(s, p);
      assert kws == p + [kws[|kws| - 1]];
      if AnyIn(s, kws) && !Contains(s, kws[|kws| - 1]) {
        var k :| k in kws && Contains(s, k);
        assert k in p;
      }
    }
  }

  lemma {:induction false} CountInBound(s: string, kws: seq<string>)
    ensures CountIn(s, kws) <= |kws|
    decreases |kws|
  {
    if |kws| > 0 { CountInBound(s, kws[..|kws| - 1]); }
  }

  // ---------------------------------------------------------------------------
  // strip()
  // ---------------------------------------------------------------------------

  /** The number of leading whitespace characters. */
  function StripStart(s: string): (i: nat)
    ensures i <= |s|
    ensures forall k :: 0 <= k < i ==> IsSpace(s[k])
    ensures i < |s| ==> !IsSpace(s[i])
    decreases |s|
  {
    if |s| == 0 || !IsSpace(s[0]) then 0 else 1 + StripStart(s[1..])
  }

  /** The index just after the last non-whitespace character (0 if none). */
  function StripEnd(s: string): (j: nat)
    ensures j <= |s|
    ensures forall k :: j <= k < |s| ==> IsSpace(s[k])
    ensures j > 0 ==> !IsSpace(s[j - 1])
    decreases |s|
  {
    if |s| == 0 || !IsSpace(s[|s| - 1]) then |s| else StripEnd(s[..|s| - 1])
  }

  predicate AllSpace(s: string) { forall k :: 0 <= k < |s| ==> IsSpace(s[k]) }

  predicate IsStripped(s: string) { s == [] || (!IsSpace(s[0]) && !IsSpace(s[|s| - 1])) }

  /** `str.strip()`: the slice between the leading and trailing whitespace. */
  function Strip(s: string): (r: string)
    ensures IsStripped(r)
    ensures r == [] <==> AllSpace(s)
    ensures StripStart(s) + |r| <= |s| && r == s[StripStart(s)..StripStart(s) + |r|]
    ensures forall k :: StripStart(s) + |r| <= k < |s| ==> IsSpace(s[k])
  {
    var i := StripStart(s);
    if i == |s| then [] else s[i..StripEnd(s)]
  }

  lemma StripOfStripped(s: string)
    requires IsStripped(s)
    ensures Strip(s) == s
  {
  }

  lemma StripIdempotent(s: string)
    ensures Strip(Strip(s)) == Strip(s)
  {
    StripOfStripped(Strip(s));
  }

  /** An occurrence of `pat` in the lower-cased text that lies inside a
      copy `r` of the text from `a` on is an occurrence in the lower-cased
      copy, shifted by `a`. */
  lemma LowerOccursShifted(s: string, r: string, pat: string, i: nat, a: nat)
    requires a <= i && i + |pat| <= a + |r| <= |s|
    requires forall k :: 0 <= k < |r| ==> r[k] == s[a + k]
    requires OccursAt(Lower(s), pat, i)
    ensures OccursAt(Lower(r), pat, i - a)
  {
    forall k | 0 <= k < |pat| ensures Lower(r)[i - a + k] == pat[k] {
      assert Lower(s)[i..i + |pat|][k] == pat[k];
    }
    assert Lower(r)[i - a..i - a + |pat|] == pat;
  }

  /** Two non-whitespace positions lie inside the stripped slice. */
  lemma StripBounds(s: string, i: nat, e: nat)
    requires i <= e < |s| && !IsSpace(s[i]) && !IsSpace(s[e])
    ensures StripStart(s) <= i && e < StripStart(s) + |Strip(s)|
  {
  }

  /** The ends of an occurrence of a whitespace-free pattern in the
      lower-cased text are not whitespace in the text itself. */
  lemma OccurrenceEnds(s: string, pat: string, i: nat)
    requires |pat| > 0 && forall k :: 0 <= k < |pat| ==> !IsSpace(pat[k])
    requires OccursAt(Lower(s), pat, i)
    ensures !IsSpace(s[i]) && !IsSpace(s[i + |pat| - 1])
  {
    var e := i + |pat| - 1;
    var w := Lower(s)[i..i + |pat|];
    assert w[0] == pat[0] && w[|pat| - 1] == pat[|pat| - 1];
    LowerCharFacts(s[i]);
    LowerCharFacts(s[e]);
  }

  /** Stripping only drops whitespace, so an occurrence of a non-empty
      pattern free of whitespace survives it. */
  lemma StripKeepsOccurrence(s: string, pat: string, i: nat)
    requires |pat| > 0 && forall k :: 0 <= k < |pat| ==> !IsSpace(pat[k])
    requires OccursAt(Lower(s), pat, i)
    ensures Contains(Lower(Strip(s)), pat)
  {
    OccurrenceInStrip(s, pat, i);
    LowerStripOccurs(s, pat, i);
    ContainsAt(Lower(Strip(s)), pat, i - StripStart(s));
  }

  /** An occurrence inside the stripped slice is one in the stripped text,
      shifted by the leading whitespace. */
  lemma LowerStripOccurs(s: string, pat: string, i: nat)
    requires StripStart(s) <= i && i + |pat| <= StripStart(s) + |Strip(s)|
    requires OccursAt(Lower(s), pat, i)
    ensures OccursAt(Lower(Strip(s)), pat, i - StripStart(s))
  {
    StripIsCopy(s);
    LowerOccursShifted(s, Strip(s), pat, i, StripStart(s));
  }

  /** Such an occurrence lies inside the stripped slice. */
  lemma OccurrenceInStrip(s: string, pat: string, i: nat)
    requires |pat| > 0 && forall k :: 0 <= k < |pat| ==> !IsSpace(pat[k])
    requires OccursAt(Lower(s), pat, i)
    ensures StripStart(s) <= i && i + |pat| <= StripStart(s) + |Strip(s)|
  {
    OccurrenceEnds(s, pat, i);
    StripBounds(s, i, i + |pat| - 1);
  }

  lemma StripIsCopy(s: string)
    ensures forall k :: 0 <= k < |Strip(s)| ==> Strip(s)[k] == s[StripStart(s) + k]
  {
    var a, r := StripStart(s), Strip(s);
    forall k | 0 <= k < |r| ensures r[k] == s[a + k] {
      assert r[k] == s[a..a + |r|][k];
    }
  }

  /** A pattern free of whitespace that occurs in the lower-cased text occurs
      in the lower-cased stripped text. */
  lemma StripKeepsPattern(s: string, pat: string)
    requires forall k :: 0 <= k < |pat| ==> !IsSpace(pat[k])
    requires Contains(Lower(s), pat)
    ensures Contains(Lower(Strip(s)), pat)
  {
    if |pat| == 0 {
      ContainsAt(Lower(Strip(s)), pat, 0);
    } else {
      var i := ContainsWitness(Lower(s), pat);
      StripKeepsOccurrence(s, pat, i);
    }
  }

  // ---------------------------------------------------------------------------
  // join, slicing, replace
  // ---------------------------------------------------------------------------

  /** `sep.join(parts)` */
  function Join(sep: string, parts: seq<string>): string
    decreases |parts|
  {
    if |parts| == 0 then ""
    else if |parts| == 1 then parts[0]
    else parts[0] + sep + Join(sep, parts[1..])
  }

  /** `s[:n]` for a non-negative `n`. */
  function Take<T>(s: seq<T>, n: nat): (r: seq<T>)
    ensures |r| <= n && |r| <= |s|
    ensures r == s[..|r|]
    ensures |s| <= n ==> r == s
    ensures n <= |s| ==> |r| == n
  {
    if n <= |s| then s[..n] else s
  }

  /** `s.replace(pat, '')`: a single left-to-right pass that deletes every
      non-overlapping occurrence of `pat`. */
  function RemoveAll(s: string, pat: string): (r: string)
    requires |pat| > 0
    ensures |r| <= |s|
    decreases |s|
  {
    if |s| < |pat| then s
    else if s[..|pat|] == pat then RemoveAll(s[|pat|..], pat)
    else [s[0]] + RemoveAll(s[1..], pat)
  }

  lemma {:induction false} RemoveAllAbsent(s: string, pat: string)
    requires |pat| > 0 && !Contains(s, pat)
    ensures RemoveAll(s, pat) == s
    decreases |s|
  {
    if |s| >= |pat| {
      assert !StartsWith(s, pat);
      RemoveAllAbsent(s[1..], pat);
      assert s == [s[0]] + s[1..];
    }
  }

  // ---------------------------------------------------------------------------
  // split('\n') and re.split(r'[.!?]+', ...)
  // ---------------------------------------------------------------------------

  function IndexOf(s: string, c: char): (k: nat)
    ensures k <= |s|
    ensures forall j :: 0 <= j < k ==> s[j] != c
    ensures k < |s| ==> s[k] == c
    decreases |s|
  {
    if |s| == 0 || s[0] == c then 0 else 1 + IndexOf(s[1..], c)
  }

  /** `s.split('\n')`: the pieces between line feeds; never empty. */
  function SplitLines(s: string): (r: seq<string>)
    ensures |r| >= 1
    ensures forall i :: 0 <= i < |r| ==> '\n' !in r[i]
    decreases |s|
  {
    var k := IndexOf(s, '\n');
    if k == |s| then [s] else [s[..k]] + SplitLines(s[k + 1..])
  }

  lemma JoinCons(sep: string, x: string, parts: seq<string>)
    requires |parts| >= 1
    ensures Join(sep, [x] + parts) == x + sep + Join(sep, parts)
  {
    assert ([x] + parts)[1..] == parts;
  }

  /** Splitting at line feeds loses nothing: joining the lines with line feeds
      gives the text back. */
  lemma {:induction false} SplitLinesJoin(s: string)
    ensures Join("\n", SplitLines(s)) == s
    decreases |s|
  {
    var k := IndexOf(s, '\n');
    if k < |s| {
      var rest := s[k + 1..];
      SplitLinesJoin(rest);
      JoinCons("\n", s[..k], SplitLines(rest));
      assert s == s[..k] + "\n" + rest;
    } else {
      assert s[..k] == s;
    }
  }

  predicate NoTerminator(s: string) { forall k :: 0 <= k < |s| ==> !IsTerminator(s[k]) }

  /** The index of the first terminator, or `|s|`. */
  function FindTerminator(s: string): (k: nat)
    ensures k <= |s|
    ensures NoTerminator(s[..k])
    ensures k < |s| ==> IsTerminator(s[k])
    decreases |s|
  {
    if |s| == 0 || IsTerminator(s[0]) then 0
    else
      var k := 1 + FindTerminator(s[1..]);
      assert s[..k] == [s[0]] + s[1..][..k - 1];
      k
  }

  /** The length of the run of terminators at the front. */
  function SkipTerminators(s: string): (k: nat)
    ensures k <= |s|
    ensures forall j :: 0 <= j < k ==> IsTerminator(s[j])
    ensures k < |s| ==> !IsTerminator(s[k])
    decreases |s|
  {
    if |s| == 0 || !IsTerminator(s[0]) then 0 else 1 + SkipTerminators(s[1..])
  }

  /** `re.split(r'[.!?]+', s)`: the pieces between maximal runs of `.`, `!`
      and `?`. A piece may be empty (at either end). */
  function SplitSentences(s: string): (r: seq<string>)
    ensures |r| >= 1
    ensures forall i :: 0 <= i < |r| ==> NoTerminator(r[i])
    decreases |s|
  {
    var k := FindTerminator(s);
    if k == |s| then [s]
    else
      var t := s[k..];
      [s[..k]] + SplitSentences(t[SkipTerminators(t)..])
  }

  function Concat(parts: seq<string>): string
    decreases |parts|
  {
    if |parts| == 0 then "" else parts[0] + Concat(parts[1..])
  }

  /** The text with every `.`, `!` and `?` removed. */
  function DropTerminators(s: string): string
    decreases |s|
  {
    if |s| == 0 then ""
    else (if IsTerminator(s[0]) then "" else [s[0]]) + DropTerminators(s[1..])
  }

  lemma {:induction false} DropTerminatorsAppend(a: string, b: string)
    ensures DropTerminators(a + b) == DropTerminators(a) + DropTerminators(b)
    decreases |a|
  {
    if |a| == 0 {
      assert a + b == b;
    } else {
      var x := if IsTerminator(a[0]) then "" else [a[0]];
      assert (a + b)[0] == a[0];
      assert (a + b)[1..] == a[1..] + b;
      DropTerminatorsAppend(a[1..], b);
      calc {
        DropTerminators(a + b);
        x + DropTerminators(a[1..] + b);
        x + (DropTerminators(a[1..]) + DropTerminators(b));
        (x + DropTerminators(a[1..])) + DropTerminators(b);
        DropTerminators(a) + DropTerminators(b);
      }
    }
  }

  lemma {:induction false} DropTerminatorsNone(s: string)
    requires NoTerminator(s)
    ensures DropTerminators(s) == s
    decreases |s|
  {
    if |s| > 0 { DropTerminatorsNone(s[1..]); }
  }

  lemma {:induction false} DropTerminatorsAll(s: string)
    requires forall j :: 0 <= j < |s| ==> IsTerminator(s[j])
    ensures DropTerminators(s) == ""
    decreases |s|
  {
    if |s| > 0 { DropTerminatorsAll(s[1..]); }
  }

  /** Dropping terminators from a terminator-free head, a run of terminators
      and a tail leaves the head followed by the tail's remainder. */
  lemma DropTerminatorsSplit(s: string, k: nat, m: nat)
    requires k + m <= |s|
    requires NoTerminator(s[..k])
    requires forall j :: k <= j < k + m ==> IsTerminator(s[j])
    ensures DropTerminators(s) == s[..k] + DropTerminators(s[k + m..])
  {
    var h, t, u := s[..k], s[k..], s[k + m..];
    assert DropTerminators(s) == DropTerminators(h) + DropTerminators(t) by {
      assert s == h + t;
      DropTerminatorsAppend(h, t);
    }
    assert DropTerminators(t) == DropTerminators(u) by {
      assert t == t[..m] + u;
      DropTerminatorsAppend(t[..m], u);
      DropTerminatorsAll(t[..m]);
    }
    DropTerminatorsNone(h);
  }

  /** The sentence pieces hold exactly the text's characters other than the
      terminators, in order: only the terminators themselves are lost. */
  lemma {:induction false} SplitSentencesConcat(s: string)
    ensures Concat(SplitSentences(s)) == DropTerminators(s)
    decreases |s|
  {
    var k := FindTerminator(s);
    if k == |s| {
      assert s[..k] == s;
      DropTerminatorsNone(s);
    } else {
      var t := s[k..];
      var m := SkipTerminators(t);
      var rest := t[m..];
      assert rest == s[k + m..];
      SplitSentencesConcat(rest);
      var parts := SplitSentences(s);
      assert parts == [s[..k]] + SplitSentences(rest);
      assert parts[0] == s[..k] && parts[1..] == SplitSentences(rest);
      DropTerminatorsSplit(s, k, m);
    }
  }

  // ---------------------------------------------------------------------------
  // Lists
  // ---------------------------------------------------------------------------

  predicate Distinct<T(==)>(s: seq<T>) {
    forall i, j :: 0 <= i < j < |s| ==> s[i] != s[j]
  }

  /** `list(dict.fromkeys(s))`: the first occurrence of every element, in
      order. */
  function Dedupe<T(==)>(s: seq<T>): (r: seq<T>)
    ensures Distinct(r)
    ensures |r| <= |s|
    decreases |s|
  {
    if |s| == 0 then []
    else
      var p := Dedupe(s[..|s| - 1]);
      if s[|s| - 1] in p then p else p + [s[|s| - 1]]
  }

  /** An element is kept exactly when it occurs. */
  lemma {:induction false} DedupeMembers<T>(s: seq<T>, x: T)
    ensures x in Dedupe(s) <==> x in s
    decreases |s|
  {
    if |s| > 0 {
      var p := s[..|s| - 1];
      DedupeMembers(p, x);
      assert s == p + [s[|s| - 1]];
    }
  }

  lemma DedupeSameElements<T>(s: seq<T>)
    ensures forall x :: x in Dedupe(s) <==> x in s
  {
    forall x ensures x in Dedupe(s) <==> x in s {
      DedupeMembers(s, x);
    }
  }

  lemma DedupeSnoc<T>(s: seq<T>, x: T)
    ensures Dedupe(s + [x]) == if x in Dedupe(s) then Dedupe(s) else Dedupe(s) + [x]
  {
    assert (s + [x])[..|s|] == s;
  }

  lemma PrefixOfPrefix<T>(a: seq<T>, b: seq<T>, d: seq<T>)
    requires |a| <= |b| <= |d| && a == b[..|a|] && b == d[..|b|]
    ensures a == d[..|a|]
  {
  }

  lemma DedupeSnocPrefix<T>(p: seq<T>, x: T)
    ensures |Dedupe(p)| <= |Dedupe(p + [x])| && Dedupe(p) == Dedupe(p + [x])[..|Dedupe(p)|]
  {
    DedupeSnoc(p, x);
  }

  /** The first occurrences in a prefix are a prefix of the first
      occurrences. */
  lemma {:induction false} DedupePrefix<T>(s: seq<T>, j: nat)
    requires j <= |s|
    ensures |Dedupe(s[..j])| <= |Dedupe(s)|
    ensures Dedupe(s[..j]) == Dedupe(s)[..|Dedupe(s[..j])|]
    decreases |s|
  {
    if j < |s| {
      var p := s[..|s| - 1];
      assert s[..j] == p[..j];
      DedupePrefix(p, j);
      assert s == p + [s[|s| - 1]];
      DedupeSnocPrefix(p, s[|s| - 1]);
      PrefixOfPrefix(Dedupe(p[..j]), Dedupe(p), Dedupe(s));
    } else {
      assert s[..j] == s;
    }
  }

  /** The position of the first occurrence of `x` in `s`. */
  function FirstIndex<T(==)>(s: seq<T>, x: T): (k: nat)
    requires x in s
    ensures k < |s| && s[k] == x && x !in s[..k]
    decreases |s|
  {
    var p := s[..|s| - 1];
    if x in p then
      var k := FirstIndex(p, x);
      assert s[..k] == p[..k];
      k
    else
      assert s[..|s| - 1] == p;
      |s| - 1
  }

  lemma FirstIndexSnoc<T>(p: seq<T>, y: T, x: T)
    requires x in p
    ensures FirstIndex(p + [y], x) == FirstIndex(p, x)
  {
    assert (p + [y])[..|p|] == p;
  }

  /** The first occurrences come out in the order in which they first occur. */
  lemma {:induction false} DedupeOrder<T>(s: seq<T>, a: nat, b: nat)
    requires a < b < |Dedupe(s)|
    ensures Dedupe(s)[a] in s && Dedupe(s)[b] in s
    ensures FirstIndex(s, Dedupe(s)[a]) < FirstIndex(s, Dedupe(s)[b])
    decreases |s|
  {
    var p, y := s[..|s| - 1], s[|s| - 1];
    var d := Dedupe(s);
    assert s == p + [y];
    DedupeMembers(s, d[a]);
    DedupeMembers(s, d[b]);
    DedupeMembers(p, d[a]);
    if b < |Dedupe(p)| {
      assert d[a] == Dedupe(p)[a] && d[b] == Dedupe(p)[b];
      DedupeOrder(p, a, b);
      DedupeMembers(p, d[b]);
      FirstIndexSnoc(p, y, d[a]);
      FirstIndexSnoc(p, y, d[b]);
    } else {
      assert d == Dedupe(p) + [y] && d[b] == y && y !in Dedupe(p);
      assert d[a] == Dedupe(p)[a];
      DedupeMembers(p, y);
      FirstIndexSnoc(p, y, d[a]);
      assert FirstIndex(s, y) == |p|;
    }
  }

  /** One step of a loop that keeps a `seen` set beside the first
      occurrences of `f[..i]`. */
  lemma SeenStep<T>(f: seq<T>, i: nat, seen: set<T>)
    requires i < |f|
    requires forall x :: x in seen <==> x in Dedupe(f[..i])
    ensures f[i] in seen ==> Dedupe(f[..i + 1]) == Dedupe(f[..i])
    ensures f[i] !in seen ==> Dedupe(f[..i + 1]) == Dedupe(f[..i]) + [f[i]]
    ensures forall x :: x in seen + {f[i]} <==> x in Dedupe(f[..i + 1])
  {
    assert f[..i + 1] == f[..i] + [f[i]];
    DedupeSnoc(f[..i], f[i]);
  }

  lemma DedupeWhole<T>(f: seq<T>)
    ensures Dedupe(f[..|f|]) == Dedupe(f)
  {
    assert f[..|f|] == f;
  }

  lemma {:induction false} DedupeOfDistinct<T>(s: seq<T>)
    requires Distinct(s)
    ensures Dedupe(s) == s
    decreases |s|
  {
    if |s| > 0 {
      DedupeOfDistinct(s[..|s| - 1]);
    }
  }

  lemma {:induction false} DistinctCard<T>(s: seq<T>)
    requires Distinct(s)
    ensures |set x | x in s| == |s|
    decreases |s|
  {
    if |s| > 0 {
      var p := s[..|s| - 1];
      DistinctCard(p);
      assert s == p + [s[|s| - 1]];
      assert (set x | x in s) == (set x | x in p) + {s[|s| - 1]};
    }
  }

  /** Two repeat-free sequences with the same elements have the same length. */
  lemma SameElementsSameLength<T>(s: seq<T>, t: seq<T>)
    requires Distinct(s) && Distinct(t)
    requires forall x :: x in s <==> x in t
    ensures |s| == |t|
  {
    assert (set x | x in s) == (set x | x in t);
    DistinctCard(s);
    DistinctCard(t);
  }

  /** Equal multisets: one sequence is a permutation of the other, and so
      keeps its elements distinct. */
  lemma PermutationDistinct<T>(a: seq<T>, b: seq<T>)
    requires multiset(a) == multiset(b) && Distinct(a)
    ensures Distinct(b)
  {
    forall x ensures multiset(b)[x] <= 1 {
      MultisetDistinct(a, x);
    }
    DistinctFromMultiset(b);
  }

  lemma {:induction false} MultisetDistinct<T>(s: seq<T>, x: T)
    requires Distinct(s)
    ensures multiset(s)[x] <= 1
    decreases |s|
  {
    if |s| > 0 {
      var p := s[..|s| - 1];
      assert s == p + [s[|s| - 1]];
      MultisetDistinct(p, x);
      if x == s[|s| - 1] {
        assert x !in p;
      }
    }
  }

  lemma {:induction false} DistinctFromMultiset<T>(s: seq<T>)
    requires forall x :: multiset(s)[x] <= 1
    ensures Distinct(s)
    decreases |s|
  {
    if |s| > 0 {
      var p, l := s[..|s| - 1], s[|s| - 1];
      assert s == p + [l];
      forall x ensures multiset(p)[x] <= 1 {
        assert multiset(s)[x] == multiset(p)[x] + (if x == l then 1 else 0);
      }
      DistinctFromMultiset(p);
      forall i | 0 <= i < |p| ensures p[i] != l {
        assert p[i] in multiset(p);
        assert multiset(s)[l] == multiset(p)[l] + 1;
      }
    }
  }

  /** `b` keeps the elements of `a` in order, possibly with others between. */
  predicate IsSubsequence<T(==)>(a: seq<T>, b: seq<T>)
    decreases |b|
  {
    if |a| == 0 then true
    else if |b| == 0 then false
    else if a[|a| - 1] == b[|b| - 1] then IsSubsequence(a[..|a| - 1], b[..|b| - 1])
    else IsSubsequence(a, b[..|b| - 1])
  }

  lemma {:induction false} SubsequenceSnoc<T>(a: seq<T>, b: seq<T>, x: T)
    requires IsSubsequence(a, b)
    ensures IsSubsequence(a, b + [x])
    decreases |b|, 1
  {
    assert (b + [x])[..|b|] == b;
    if |a| > 0 && a[|a| - 1] == x {
      SubsequenceDropLast(a, b);
    }
  }

  lemma {:induction false} SubsequenceDropLast<T>(a: seq<T>, b: seq<T>)
    requires |a| > 0 && IsSubsequence(a, b)
    ensures IsSubsequence(a[..|a| - 1], b)
    decreases |b|, 0
  {
    var a' := a[..|a| - 1];
    if a[|a| - 1] == b[|b| - 1] {
      SubsequenceSnoc(a', b[..|b| - 1], b[|b| - 1]);
      assert b[..|b| - 1] + [b[|b| - 1]] == b;
    } else {
      SubsequenceDropLast(a, b[..|b| - 1]);
      SubsequenceSnoc(a', b[..|b| - 1], b[|b| - 1]);
      assert b[..|b| - 1] + [b[|b| - 1]] == b;
    }
  }

  /** A word of small ASCII letters. */
  predicate Letters(kw: string) { forall j :: 0 <= j < |kw| ==> IsLowerLetter(kw[j]) }

  /** `[kw.lower() for kw in xs]` */
  function LowerAll(xs: seq<string>): (r: seq<string>)
    ensures |r| == |xs|
    ensures forall i :: 0 <= i < |xs| ==> r[i] == Lower(xs[i])
    decreases |xs|
  {
    if |xs| == 0 then [] else LowerAll(xs[..|xs| - 1]) + [Lower(xs[|xs| - 1])]
  }

  lemma {:induction false} LowerAllOfLetters(kws: seq<string>)
    requires forall i :: 0 <= i < |kws| ==> Letters(kws[i])
    ensures LowerAll(kws) == kws
    decreases |kws|
  {
    if |kws| > 0 {
      LowerAllOfLetters(kws[..|kws| - 1]);
      LowerOfLowercase(kws[|kws| - 1]);
      assert kws == kws[..|kws| - 1] + [kws[|kws| - 1]];
    }
  }

  /** `[s.strip() for s in pieces if len(s.strip()) > n]` */
  function StrippedOver(pieces: seq<string>, n: nat): (r: seq<string>)
    ensures forall i :: 0 <= i < |r| ==> |r[i]| > n && IsStripped(r[i])
    decreases |pieces|
  {
    if |pieces| == 0 then []
    else
      var t := Strip(pieces[|pieces| - 1]);
      StrippedOver(pieces[..|pieces| - 1], n) + (if |t| > n then [t] else [])
  }

  /** Every kept string is the strip, longer than `n`, of a piece. */
  lemma {:induction false} StrippedOverSound(pieces: seq<string>, n: nat, x: string)
    requires x in StrippedOver(pieces, n)
    ensures |x| > n && exists p :: p in pieces && Strip(p) == x
    decreases |pieces|
  {
    var q, last := pieces[..|pieces| - 1], pieces[|pieces| - 1];
    assert pieces == q + [last];
    if x in StrippedOver(q, n) {
      StrippedOverSound(q, n, x);
      var p :| p in q && Strip(p) == x;
      assert p in pieces;
    } else {
      assert x == Strip(last);
    }
  }

  /** Every piece whose strip is longer than `n` is kept, stripped. */
  lemma {:induction false} StrippedOverComplete(pieces: seq<string>, n: nat, p: string)
    requires p in pieces && |Strip(p)| > n
    ensures Strip(p) in StrippedOver(pieces, n)
    decreases |pieces|
  {
    var q, last := pieces[..|pieces| - 1], pieces[|pieces| - 1];
    assert pieces == q + [last];
    if p != last {
      assert p in q;
      StrippedOverComplete(q, n, p);
    }
  }

  lemma StrippedOverMembers(pieces: seq<string>, n: nat, x: string)
    ensures x in StrippedOver(pieces, n) <==> |x| > n && exists p :: p in pieces && Strip(p) == x
  {
    if x in StrippedOver(pieces, n) {
      StrippedOverSound(pieces, n, x);
    }
    if |x| > n && exists p :: p in pieces && Strip(p) == x {
      var p :| p in pieces && Strip(p) == x;
      StrippedOverComplete(pieces, n, p);
    }
  }
}
