/** `src/utils/ocrParser.ts`: the extractor that turns the text of a
    recognised bank-app screenshot into the fields of one trade.

    Each regular expression of the parser is modelled by a scan that says,
    for one start position, whether the pattern matches there and what it
    captures; the match the engine reports is the one at the smallest such
    position. The patterns involved never need backtracking to succeed (each
    greedy repetition is followed by a character the repetition cannot
    consume), so every scan is deterministic. */
module Ocr {
  import opened Common
  import opened Text
  import opened Records

  // ----- lines -----

  /** `text.split('\n')`. */
  function Split(s: string): (parts: seq<string>)
    ensures |parts| >= 1
    ensures forall k :: 0 <= k < |parts| ==> '\n' !in parts[k]
  {
    if |s| == 0 then [""]
    else
      var rest := Split(s[1..]);
      if s[0] == '\n' then [""] + rest
      else
        assert forall k :: 1 <= k < |rest| ==> rest[k] == rest[1..][k - 1];
        [[s[0]] + rest[0]] + rest[1..]
  }

  /** `parts.join('\n')`. */
  function Join(parts: seq<string>): string
  {
    if |parts| == 0 then ""
    else if |parts| == 1 then parts[0]
    else parts[0] + "\n" + Join(parts[1..])
  }

  /** Splitting loses nothing: joining the pieces with newlines gives the
      text back. */
  lemma {:induction false} JoinSplit(s: string)
    ensures Join(Split(s)) == s
  {
    if |s| > 0 {
      JoinSplit(s[1..]);
      var rest := Split(s[1..]);
      if s[0] == '\n' {
        assert Split(s) == [""] + rest;
        assert s == "\n" + s[1..];
      } else {
        var parts := [[s[0]] + rest[0]] + rest[1..];
        assert Split(s) == parts;
        if |rest| == 1 {
          assert s == [s[0]] + rest[0];
        } else {
          assert rest == [rest[0]] + rest[1..];
          assert Join(rest) == rest[0] + "\n" + Join(rest[1..]);
          assert parts[1..] == rest[1..];
          assert s == [s[0]] + s[1..];
        }
      }
    }
  }

  /** The end of `s` once trailing whitespace is dropped, not going below `a`. */
  function TrimEnd(s: string, a: nat, b: nat): (e: nat)
    requires a <= b <= |s|
    ensures a <= e <= b
    ensures forall k :: e <= k < b ==> IsSpace(s[k])
    ensures e > a ==> !IsSpace(s[e - 1])
    decreases b
  {
    if b > a && IsSpace(s[b - 1]) then TrimEnd(s, a, b - 1) else b
  }

  /** JavaScript `s.trim()`. */
  function Trim(s: string): (r: string)
    ensures |r| > 0 ==> !IsSpace(r[0]) && !IsSpace(r[|r| - 1])
    ensures |r| == 0 <==> forall k :: 0 <= k < |s| ==> IsSpace(s[k])
    ensures forall c :: c in r ==> c in s
    ensures exists a, b :: 0 <= a <= b <= |s| && r == s[a..b]
                           && (forall k :: 0 <= k < a ==> IsSpace(s[k]))
                           && (forall k :: b <= k < |s| ==> IsSpace(s[k]))
  {
    var a := SkipSpaces(s, 0);
    var b := TrimEnd(s, a, |s|);
    assert forall c :: c in s[a..b] ==> c in s;
    s[a..b]
  }

  /** Trimming a trimmed line changes nothing. */
  lemma TrimIdempotent(s: string)
    ensures Trim(Trim(s)) == Trim(s)
  {
    var r := Trim(s);
    if |r| > 0 {
      assert SkipSpaces(r, 0) == 0;
      assert TrimEnd(r, 0, |r|) == |r|;
    }
  }

  function NonEmpty(line: string): bool
  {
    |line| > 0
  }

  function TrimAll(parts: seq<string>): (r: seq<string>)
    ensures |r| == |parts| && forall k :: 0 <= k < |parts| ==> r[k] == Trim(parts[k])
  {
    seq(|parts|, k requires 0 <= k < |parts| => Trim(parts[k]))
  }

  /** `text.split('\n').map(line => line.trim()).filter(line => line.length > 0)`. */
  function Lines(text: string): (lines: seq<string>)
    ensures forall l :: l in lines ==> |l| > 0 && !IsSpace(l[0]) && !IsSpace(l[|l| - 1]) && '\n' !in l
    ensures forall l :: l in lines ==> Trim(l) == l
    ensures forall k :: 0 <= k < |Split(text)| && Trim(Split(text)[k]) != "" ==> Trim(Split(text)[k]) in lines
  {
    var parts := Split(text);
    TrimmedLines(parts);
    forall k | 0 <= k < |parts| && Trim(parts[k]) != "" ensures Trim(parts[k]) in Filter(TrimAll(parts), NonEmpty) {
      NonBlankKept(parts, k);
    }
    Filter(TrimAll(parts), NonEmpty)
  }

  /** The kept lines of pieces without newlines are trimmed, non-empty and
      without newlines. */
  lemma TrimmedLines(parts: seq<string>)
    requires forall k :: 0 <= k < |parts| ==> '\n' !in parts[k]
    ensures forall l :: l in Filter(TrimAll(parts), NonEmpty) ==> |l| > 0 && !IsSpace(l[0]) && !IsSpace(l[|l| - 1]) && '\n' !in l
    ensures forall l :: l in Filter(TrimAll(parts), NonEmpty) ==> Trim(l) == l
  {
    var trimmed := TrimAll(parts);
    forall l | l in trimmed ensures '\n' !in l && Trim(l) == l {
      var k :| 0 <= k < |trimmed| && trimmed[k] == l;
      assert '\n' !in parts[k];
      TrimIdempotent(parts[k]);
    }
  }

  /** A piece that is not all whitespace is kept, trimmed. */
  lemma NonBlankKept(parts: seq<string>, k: nat)
    requires k < |parts| && Trim(parts[k]) != ""
    ensures Trim(parts[k]) in Filter(TrimAll(parts), NonEmpty)
  {
    var trimmed := TrimAll(parts);
    assert trimmed[k] in trimmed && NonEmpty(trimmed[k]);
  }

  // ----- extractSixDigitFloatFromLine -----

  /** `line.replace(/[^0-9]/g, '')`. */
  function DigitsOf(line: string): (d: string)
    ensures AllDigits(d) && |d| <= |line|
    ensures forall c :: c in line && IsDigit(c) ==> c in d
  {
    var d := Filter(line, IsDigit);
    assert forall k :: 0 <= k < |d| ==> d[k] in d;
    d
  }

  /** Digits are kept in order: one more character adds itself exactly when
      it is a digit. */
  lemma DigitsOfSnoc(line: string, c: char)
    ensures DigitsOf(line + [c]) == DigitsOf(line) + (if IsDigit(c) then [c] else [])
  {
    FilterAppend(line, [c], IsDigit);
    assert Filter([c], IsDigit) == (if IsDigit(c) then [c] else []) by {
      assert [c][1..] == [];
    }
  }

  /** `extractSixDigitFloatFromLine`: the digits of the line, when there are
      exactly six, read as four integer digits and two decimals. */
  function SixDigitValue(line: string): (v: Option<real>)
    ensures v.Some? <==> |DigitsOf(line)| == 6
    ensures v.Some? ==> v.value * 100.0 == DecimalValue(DigitsOf(line)) as real
    ensures v.Some? ==> 0.0 <= v.value < 10000.0
  {
    var d := DigitsOf(line);
    if |d| == 6 then
      DecimalValueBound(d);
      assert Pow10(6) == 1000000;
      Some(DecimalValue(d) as real / 100.0)
    else None
  }

  lemma DecimalExample()
    ensures AllDigits("134562") && DecimalValue("134562") == 134562
  {
    assert "1"[..0] == "";
    assert DecimalValue("1") == 1;
    assert "13"[..1] == "1";
    assert DecimalValue("13") == 13;
    assert "134"[..2] == "13";
    assert DecimalValue("134") == 134;
    assert "1345"[..3] == "134";
    assert DecimalValue("1345") == 1345;
    assert "13456"[..4] == "1345";
    assert DecimalValue("13456") == 13456;
    assert "134562"[..5] == "13456";
  }

  /** A six-digit line reads as four integer digits and two decimals. */
  lemma SixDigitExample()
    ensures SixDigitValue("134562") == Some(1345.62)
  {
    FilterKeepsAll("134562", IsDigit);
    assert DigitsOf("134562") == "134562";
    DecimalExample();
  }

  /** Any other count of digits gives nothing. */
  lemma FiveDigitExample()
    ensures SixDigitValue("13456") == None
  {
    FilterKeepsAll("13456", IsDigit);
    assert |DigitsOf("13456")| == 5;
  }

  // ----- leftmost matches -----

  /** `s.match(pattern)` for a pattern that matches at position `j` exactly
      when `at(s, j)` is a value: the match at the smallest position from
      `i` on. */
  function Leftmost<T>(s: string, i: nat, at: (string, nat) -> Option<T>): Option<T>
    decreases |s| + 1 - i
  {
    if i > |s| then None
    else if at(s, i).Some? then at(s, i)
    else Leftmost(s, i + 1, at)
  }

  /** Nothing matches exactly when no position matches. */
  lemma {:induction false} LeftmostNone<T>(s: string, i: nat, at: (string, nat) -> Option<T>)
    ensures Leftmost(s, i, at).None? <==> forall j :: i <= j <= |s| ==> at(s, j).None?
    decreases |s| + 1 - i
  {
    if i <= |s| && at(s, i).None? {
      LeftmostNone(s, i + 1, at);
    }
  }

  /** A match is reported at the first position where one starts. */
  lemma {:induction false} LeftmostIsFirst<T>(s: string, i: nat, at: (string, nat) -> Option<T>, j: nat)
    requires i <= j <= |s| && at(s, j).Some?
    requires forall k :: i <= k < j ==> at(s, k).None?
    ensures Leftmost(s, i, at) == at(s, j)
    decreases j - i
  {
    if i < j {
      LeftmostIsFirst(s, i + 1, at, j);
    }
  }

  // ----- the date pattern /(\d{4})년\s*(\d{1,2})월\s*(\d{1,2})일\s*(\d{1,2}):(\d{2})/ -----

  /** The five captures of a date match. */
  datatype DateMatch = DateMatch(year: string, month: string, day: string, hour: string, minute: string)

  predicate WellFormedDate(m: DateMatch)
  {
    && |m.year| == 4 && AllDigits(m.year)
    && 1 <= |m.month| <= 2 && AllDigits(m.month)
    && 1 <= |m.day| <= 2 && AllDigits(m.day)
    && 1 <= |m.hour| <= 2 && AllDigits(m.hour)
    && |m.minute| == 2 && AllDigits(m.minute)
  }

  /** `(\d{1,2})` followed by the non-digit `term`, starting at `p`: the
      position of `term`. */
  function DigitsThen(s: string, p: nat, term: char): (q: Option<nat>)
    requires p <= |s|
    ensures q.Some? ==> p < q.value < |s|
  {
    if p < |s| && IsDigit(s[p]) then
      if p + 1 < |s| && s[p + 1] == term then Some(p + 1)
      else if p + 2 < |s| && IsDigit(s[p + 1]) && s[p + 2] == term then Some(p + 2)
      else None
    else None
  }

  /** Only whitespace between `a` and `b` (a `\s*`). */
  predicate SpacesBetween(s: string, a: nat, b: nat)
    requires a <= b <= |s|
  {
    forall k :: a <= k < b ==> IsSpace(s[k])
  }

  /** A capture `s[p..q]` closed by `term`, after spaces from `a`. */
  predicate PartAt(s: string, a: nat, p: nat, q: nat, term: char, capture: string)
  {
    a <= p < q < |s| && SpacesBetween(s, a, p) && capture == s[p..q] && s[q] == term
  }

  /** Where a capture starts and where its terminator stands. */
  datatype Span = Span(start: nat, end: nat)

  /** One `\s*(\d{1,2})term` step read at `a`: the capture `sp` is one or
      two digits after spaces, closed by `term`. */
  predicate StepAt(s: string, a: nat, sp: Span, term: char)
  {
    && a <= sp.start < sp.end < |s| && sp.end - sp.start <= 2
    && PartAt(s, a, sp.start, sp.end, term, s[sp.start..sp.end])
    && AllDigits(s[sp.start..sp.end])
  }

  /** One `\s*(\d{1,2})term` step of the date pattern from `a`. */
  function PartFrom(s: string, a: nat, term: char): (r: Option<Span>)
    requires a <= |s|
    ensures r.Some? ==> a <= r.value.start < r.value.end < |s|
  {
    var p := SkipSpaces(s, a);
    var q := DigitsThen(s, p, term);
    if q.None? then None else Some(Span(p, q.value))
  }

  /** A step read is one or two digits after spaces, closed by `term`. */
  lemma PartFromSound(s: string, a: nat, term: char)
    requires a <= |s| && PartFrom(s, a, term).Some?
    ensures StepAt(s, a, PartFrom(s, a, term).value, term)
  {
  }

  /** `\s*` stops at the first character that is not whitespace. */
  lemma {:induction false} SkipSpacesStops(s: string, a: nat, p: nat)
    requires a <= p < |s| && SpacesBetween(s, a, p) && !IsSpace(s[p])
    ensures SkipSpaces(s, a) == p
    decreases p - a
  {
    if a < p {
      SkipSpacesStops(s, a + 1, p);
    }
  }

  /** Spaces, one or two digits and the terminator at `a` are read by one
      step of the date pattern, with exactly that capture. */
  lemma PartFromComplete(s: string, a: nat, p: nat, q: nat, term: char, capture: string)
    requires a <= |s| && !IsDigit(term)
    requires PartAt(s, a, p, q, term, capture) && 1 <= |capture| <= 2 && AllDigits(capture)
    ensures PartFrom(s, a, term) == Some(Span(p, q))
  {
    assert s[p] == capture[0];
    SkipSpacesStops(s, a, p);
    if q == p + 2 {
      assert s[p + 1] == capture[1];
    }
  }

  /** A step that is there is read, exactly. */
  lemma PartFromStep(s: string, a: nat, sp: Span, term: char)
    requires a <= |s| && !IsDigit(term) && StepAt(s, a, sp, term)
    ensures PartFrom(s, a, term) == Some(sp)
  {
    PartFromComplete(s, a, sp.start, sp.end, term, s[sp.start..sp.end]);
  }

  /** No terminator of a step is a digit. */
  predicate Terminators(terms: seq<char>)
  {
    forall k :: 0 <= k < |terms| ==> !IsDigit(terms[k])
  }

  /** `sps` are steps of the date pattern read one after another from `a`,
      the `k`-th closed by `terms[k]` and the next starting after it. */
  predicate StepsText(s: string, a: nat, terms: seq<char>, sps: seq<Span>)
    decreases |terms|
  {
    && |sps| == |terms|
    && (|terms| > 0 ==> StepAt(s, a, sps[0], terms[0]) && StepsText(s, sps[0].end + 1, terms[1..], sps[1..]))
  }

  /** The steps `\s*(\d{1,2})t` for each terminator `t` of `terms` in turn,
      from `a`. */
  function StepsFrom(s: string, a: nat, terms: seq<char>): (r: Option<seq<Span>>)
    requires a <= |s|
    decreases |terms|
  {
    if terms == [] then Some([])
    else
      match PartFrom(s, a, terms[0])
      case None => None
      case Some(sp) =>
        match StepsFrom(s, sp.end + 1, terms[1..])
        case None => None
        case Some(rest) => Some([sp] + rest)
  }

  /** The steps read are there, one after another. */
  lemma {:induction false} StepsFromSound(s: string, a: nat, terms: seq<char>, sps: seq<Span>)
    requires a <= |s| && StepsFrom(s, a, terms) == Some(sps)
    ensures StepsText(s, a, terms, sps)
    decreases |terms|
  {
    if terms != [] {
      var sp := PartFrom(s, a, terms[0]).value;
      PartFromSound(s, a, terms[0]);
      var rest := StepsFrom(s, sp.end + 1, terms[1..]).value;
      StepsFromSound(s, sp.end + 1, terms[1..], rest);
      assert sps == [sp] + rest;
      assert sps[1..] == rest;
    }
  }

  /** Conversely, steps that are there are read, exactly. */
  lemma {:induction false} StepsFromComplete(s: string, a: nat, terms: seq<char>, sps: seq<Span>)
    requires a <= |s| && Terminators(terms) && StepsText(s, a, terms, sps)
    ensures StepsFrom(s, a, terms) == Some(sps)
    decreases |terms|
  {
    if terms != [] {
      var sp, rest := sps[0], sps[1..];
      PartFromStep(s, a, sp, terms[0]);
      StepsFromComplete(s, sp.end + 1, terms[1..], rest);
      StepsFromCons(s, a, terms, sp, rest);
      assert sps == [sp] + rest;
    }
  }

  lemma StepsFromCons(s: string, a: nat, terms: seq<char>, sp: Span, rest: seq<Span>)
    requires a <= |s| && terms != []
    requires PartFrom(s, a, terms[0]) == Some(sp) && sp.end < |s|
    requires StepsFrom(s, sp.end + 1, terms[1..]) == Some(rest)
    ensures StepsFrom(s, a, terms) == Some([sp] + rest)
  {
  }

  /** The terminators of the month, day and hour steps. */
  const DateTerms: seq<char> := ['\U{C6D4}', '\U{C77C}', ':']

  /** The month, day and hour steps, one after another from `a`. */
  lemma DateSteps(s: string, a: nat, sps: seq<Span>)
    ensures StepsText(s, a, DateTerms, sps) <==>
            && |sps| == 3
            && StepAt(s, a, sps[0], '\U{C6D4}')
            && StepAt(s, sps[0].end + 1, sps[1], '\U{C77C}')
            && StepAt(s, sps[1].end + 1, sps[2], ':')
  {
    assert DateTerms[1..] == ['\U{C77C}', ':'];
    assert DateTerms[1..][1..] == [':'];
    assert DateTerms[1..][1..][1..] == [];
  }

  /** `m` is the text of `s` read as the date pattern from `i`, with the
      month, day and hour captures at `p1..q1`, `p2..q2` and `p3..q3`. */
  predicate DateText(s: string, i: nat, p1: nat, q1: nat, p2: nat, q2: nat, p3: nat, q3: nat, m: DateMatch)
  {
    && i + 4 < |s| && m.year == s[i..i + 4] && s[i + 4] == '\U{B144}'
    && PartAt(s, i + 5, p1, q1, '\U{C6D4}', m.month)
    && PartAt(s, q1 + 1, p2, q2, '\U{C77C}', m.day)
    && PartAt(s, q2 + 1, p3, q3, ':', m.hour)
    && q3 + 2 < |s| && m.minute == s[q3 + 1..q3 + 3]
  }

  /** `(\d{4})년` at `i`. */
  predicate YearAt(s: string, i: nat)
  {
    i + 4 < |s| && AllDigits(s[i..i + 4]) && s[i + 4] == '\U{B144}'
  }

  /** The date pattern matched at position `i`: the year, the month, day
      and hour steps, then the two minute digits. The tests on the number
      and bounds of the steps always pass (`StepsFromSound`); they let the
      captures be cut out of `s`. */
  function DateAt(s: string, i: nat): Option<DateMatch>
  {
    if !YearAt(s, i) then None
    else
      match StepsFrom(s, i + 5, DateTerms)
      case None => None
      case Some(sps) =>
        if |sps| != 3 then None else
        var mo, da, ho := sps[0], sps[1], sps[2];
        if mo.start <= mo.end < |s| && da.start <= da.end < |s| && ho.start <= ho.end < |s|
           && ho.end + 2 < |s| && IsDigit(s[ho.end + 1]) && IsDigit(s[ho.end + 2]) then
          Some(DateMatch(s[i..i + 4], s[mo.start..mo.end], s[da.start..da.end], s[ho.start..ho.end], s[ho.end + 1..ho.end + 3]))
        else None
  }

  /** A date matched at `i` is well formed, and each capture is the text of
      `s` at its place in the pattern. */
  lemma DateAtSound(s: string, i: nat)
    requires DateAt(s, i).Some?
    ensures WellFormedDate(DateAt(s, i).value)
    ensures exists p1: nat, q1: nat, p2: nat, q2: nat, p3: nat, q3: nat :: DateText(s, i, p1, q1, p2, q2, p3, q3, DateAt(s, i).value)
  {
    var sps := DateAtShape(s, i);
    StepsFromSound(s, i + 5, DateTerms, sps);
    DateCaptures(s, i, sps, DateAt(s, i).value);
  }

  /** What a match at `i` is made of: the year, the three steps `sps` and
      the minute. */
  lemma DateAtShape(s: string, i: nat) returns (sps: seq<Span>)
    requires DateAt(s, i).Some?
    ensures YearAt(s, i) && StepsFrom(s, i + 5, DateTerms) == Some(sps) && |sps| == 3
    ensures sps[2].end + 2 < |s| && IsDigit(s[sps[2].end + 1]) && IsDigit(s[sps[2].end + 2])
    ensures sps[0].start <= sps[0].end < |s| && sps[1].start <= sps[1].end < |s| && sps[2].start <= sps[2].end < |s|
    ensures DateAt(s, i).value == DateMatch(s[i..i + 4], s[sps[0].start..sps[0].end], s[sps[1].start..sps[1].end], s[sps[2].start..sps[2].end], s[sps[2].end + 1..sps[2].end + 3])
  {
    assert YearAt(s, i);
    var r := StepsFrom(s, i + 5, DateTerms);
    assert r.Some?;
    sps := r.value;
    assert |sps| == 3;
    assert sps[0].start <= sps[0].end < |s| && sps[1].start <= sps[1].end < |s| && sps[2].start <= sps[2].end < |s|;
  }

  /** The captures read at the three steps and the minute form a date. */
  lemma DateCaptures(s: string, i: nat, sps: seq<Span>, m: DateMatch)
    requires YearAt(s, i) && StepsText(s, i + 5, DateTerms, sps) && |sps| == 3
    requires sps[0].start <= sps[0].end < |s| && sps[1].start <= sps[1].end < |s| && sps[2].start <= sps[2].end < |s|
    requires sps[2].end + 2 < |s| && IsDigit(s[sps[2].end + 1]) && IsDigit(s[sps[2].end + 2])
    requires m == DateMatch(s[i..i + 4], s[sps[0].start..sps[0].end], s[sps[1].start..sps[1].end], s[sps[2].start..sps[2].end], s[sps[2].end + 1..sps[2].end + 3])
    ensures WellFormedDate(m) && DateText(s, i, sps[0].start, sps[0].end, sps[1].start, sps[1].end, sps[2].start, sps[2].end, m)
  {
    DateSteps(s, i + 5, sps);
    assert m.minute[0] == s[sps[2].end + 1] && m.minute[1] == s[sps[2].end + 2];
  }

  /** Conversely, text of the date pattern's shape at `i` is matched there,
      with exactly its captures. */
  lemma DateAtComplete(s: string, i: nat, p1: nat, q1: nat, p2: nat, q2: nat, p3: nat, q3: nat, m: DateMatch)
    requires WellFormedDate(m) && DateText(s, i, p1, q1, p2, q2, p3, q3, m)
    ensures DateAt(s, i) == Some(m)
  {
    var sps := DateTextSteps(s, i, p1, q1, p2, q2, p3, q3, m);
    StepsFromComplete(s, i + 5, DateTerms, sps);
    DateAtSteps(s, i, sps);
  }

  /** Date text at `i` gives the three steps of the pattern and the minute. */
  lemma DateTextSteps(s: string, i: nat, p1: nat, q1: nat, p2: nat, q2: nat, p3: nat, q3: nat, m: DateMatch) returns (sps: seq<Span>)
    requires WellFormedDate(m) && DateText(s, i, p1, q1, p2, q2, p3, q3, m)
    ensures StepsText(s, i + 5, DateTerms, sps) && YearAt(s, i) && |sps| == 3
    ensures sps[0].start <= sps[0].end < |s| && sps[1].start <= sps[1].end < |s| && sps[2].start <= sps[2].end < |s|
    ensures sps[2].end + 2 < |s| && IsDigit(s[sps[2].end + 1]) && IsDigit(s[sps[2].end + 2])
    ensures m == DateMatch(s[i..i + 4], s[sps[0].start..sps[0].end], s[sps[1].start..sps[1].end], s[sps[2].start..sps[2].end], s[sps[2].end + 1..sps[2].end + 3])
  {
    sps := [Span(p1, q1), Span(p2, q2), Span(p3, q3)];
    assert |sps| == 3 && sps[0] == Span(p1, q1) && sps[1] == Span(p2, q2) && sps[2] == Span(p3, q3);
    DateSteps(s, i + 5, sps);
    assert m.minute[0] == s[q3 + 1] && m.minute[1] == s[q3 + 2];
  }

  /** Reading the date pattern once its three steps are known. */
  lemma DateAtSteps(s: string, i: nat, sps: seq<Span>)
    requires YearAt(s, i) && StepsFrom(s, i + 5, DateTerms) == Some(sps) && |sps| == 3
    requires sps[0].start <= sps[0].end < |s| && sps[1].start <= sps[1].end < |s| && sps[2].start <= sps[2].end < |s|
    requires sps[2].end + 2 < |s| && IsDigit(s[sps[2].end + 1]) && IsDigit(s[sps[2].end + 2])
    ensures DateAt(s, i) == Some(DateMatch(s[i..i + 4], s[sps[0].start..sps[0].end], s[sps[1].start..sps[1].end], s[sps[2].start..sps[2].end], s[sps[2].end + 1..sps[2].end + 3]))
  {
  }

  /** `line.match(datePattern)`. */
  function FirstDate(line: string): Option<DateMatch>
  {
    Leftmost(line, 0, DateAt)
  }

  /** `${year}-${month.padStart(2, '0')}-${day.padStart(2, '0')} ${hour.padStart(2, '0')}:${minute}`. */
  function RenderDate(m: DateMatch): string
  {
    m.year + "-" + PadStart(m.month, 2) + "-" + PadStart(m.day, 2) + " " + PadStart(m.hour, 2) + ":" + m.minute
  }

  /** The rendering is `YYYY-MM-DD HH:MM`: sixteen characters, digits
      between the separators, and each field keeps its numeric value. */
  lemma RenderDateShape(m: DateMatch)
    requires WellFormedDate(m)
    ensures var r := RenderDate(m);
            && |r| == 16
            && r[4] == '-' && r[7] == '-' && r[10] == ' ' && r[13] == ':'
            && AllDigits(r[0..4]) && AllDigits(r[5..7]) && AllDigits(r[8..10]) && AllDigits(r[11..13]) && AllDigits(r[14..16])
            && r[0..4] == m.year && r[14..16] == m.minute
            && DecimalValue(r[5..7]) == DecimalValue(m.month)
            && DecimalValue(r[8..10]) == DecimalValue(m.day)
            && DecimalValue(r[11..13]) == DecimalValue(m.hour)
  {
    var mo, d, h := PadStart(m.month, 2), PadStart(m.day, 2), PadStart(m.hour, 2);
    PadStartValue(m.month, 2);
    PadStartValue(m.day, 2);
    PadStartValue(m.hour, 2);
    DateLayout(m.year, mo, d, h, m.minute);
  }

  /** Where the parts of `YYYY-MM-DD HH:MM` sit. */
  lemma DateLayout(y: string, mo: string, d: string, h: string, mi: string)
    requires |y| == 4 && |mo| == 2 && |d| == 2 && |h| == 2 && |mi| == 2
    ensures var r := y + "-" + mo + "-" + d + " " + h + ":" + mi;
            && |r| == 16 && r[4] == '-' && r[7] == '-' && r[10] == ' ' && r[13] == ':'
            && r[0..4] == y && r[5..7] == mo && r[8..10] == d && r[11..13] == h && r[14..16] == mi
  {
    var l1 := y + "-";
    var l2 := l1 + mo;
    var l3 := l2 + "-";
    var l4 := l3 + d;
    var l5 := l4 + " ";
    var l6 := l5 + h;
    var l7 := l6 + ":";
    var r := l7 + mi;
    ConcatParts(l7, mi);
    ConcatParts(l6, ":");
    ConcatParts(l5, h);
    ConcatParts(l4, " ");
    ConcatParts(l3, d);
    ConcatParts(l2, "-");
    ConcatParts(l1, mo);
    ConcatParts(y, "-");
    PrefixSlice(r, l7, 0, 4);
    PrefixSlice(l7, l6, 0, 4);
    PrefixSlice(l6, l5, 0, 4);
    PrefixSlice(l5, l4, 0, 4);
    PrefixSlice(l4, l3, 0, 4);
    PrefixSlice(l3, l2, 0, 4);
    PrefixSlice(l2, l1, 0, 4);
    PrefixSlice(r, l7, 5, 7);
    PrefixSlice(l7, l6, 5, 7);
    PrefixSlice(l6, l5, 5, 7);
    PrefixSlice(l5, l4, 5, 7);
    PrefixSlice(l4, l3, 5, 7);
    PrefixSlice(l3, l2, 5, 7);
    PrefixSlice(r, l7, 8, 10);
    PrefixSlice(l7, l6, 8, 10);
    PrefixSlice(l6, l5, 8, 10);
    PrefixSlice(l5, l4, 8, 10);
    PrefixSlice(r, l7, 11, 13);
    PrefixSlice(l7, l6, 11, 13);
  }

  lemma ConcatParts(a: string, b: string)
    ensures (a + b)[..|a|] == a && (a + b)[|a|..] == b
  {
  }

  lemma PrefixSlice(r: string, l: string, i: nat, j: nat)
    requires i <= j <= |l| <= |r| && r[..|l|] == l
    ensures r[i..j] == l[i..j]
  {
    forall k | 0 <= k < j - i ensures r[i..j][k] == l[i..j][k] {
      assert r[i + k] == r[..|l|][i + k];
    }
  }

  /** A statement line such as `2025년 7월 1일 15:08`. */
  const DateLine: string := "2025\U{B144} 7\U{C6D4} 1\U{C77C} 15:08"

  /** Such a line yields the five captures of the date pattern. */
  lemma DateMatchExample()
    ensures DateAt(DateLine, 0) == Some(DateMatch("2025", "7", "1", "15", "08"))
  {
    var m := DateMatch("2025", "7", "1", "15", "08");
    DateTextExample();
    DateAtComplete(DateLine, 0, 6, 7, 9, 10, 12, 14, m);
  }

  lemma DateTextExample()
    ensures WellFormedDate(DateMatch("2025", "7", "1", "15", "08"))
    ensures DateText(DateLine, 0, 6, 7, 9, 10, 12, 14, DateMatch("2025", "7", "1", "15", "08"))
  {
    assert DateLine[0..4] == "2025" && DateLine[6..7] == "7" && DateLine[9..10] == "1";
    assert DateLine[12..14] == "15" && DateLine[15..17] == "08";
  }

  /** ... and stored as `2025-07-01 15:08`. */
  lemma RenderExample()
    ensures RenderDate(DateMatch("2025", "7", "1", "15", "08")) == "2025-07-01 15:08"
  {
    assert Zeros(1) == "0";
    assert PadStart("7", 2) == "07" && PadStart("1", 2) == "01" && PadStart("15", 2) == "15";
  }

  /** The line's date as the parser stores it. */
  function DateOf(line: string): Option<string>
  {
    var m := FirstDate(line);
    if m.Some? then Some(RenderDate(m.value)) else None
  }

  // ----- the type pattern /(USD\s*[사팔][기리])/ -----

  /** The two characters after `USD` and any whitespace, when the type
      pattern matches at `i`. */
  function TypeAt(s: string, i: nat): (m: Option<(char, char)>)
  {
    if !OccursAt(s, "USD", i) then None
    else
      var p := SkipSpaces(s, i + 3);
      if p + 1 < |s| && (s[p] == '\U{C0AC}' || s[p] == '\U{D314}') && (s[p + 1] == '\U{AE30}' || s[p + 1] == '\U{B9AC}')
      then Some((s[p], s[p + 1]))
      else None
  }

  /** The type pattern's text at `i`: `USD`, whitespace up to `p`, then
      `사` or `팔` and `기` or `리`, which are `m`. */
  predicate TypeText(s: string, i: nat, p: nat, m: (char, char))
  {
    && OccursAt(s, "USD", i) && i + 3 <= p && p + 1 < |s| && SpacesBetween(s, i + 3, p)
    && (s[p] == '\U{C0AC}' || s[p] == '\U{D314}') && (s[p + 1] == '\U{AE30}' || s[p + 1] == '\U{B9AC}')
    && m == (s[p], s[p + 1])
  }

  /** A type match at `i` is the pattern's text there. */
  lemma TypeAtSound(s: string, i: nat)
    requires TypeAt(s, i).Some?
    ensures exists p: nat :: TypeText(s, i, p, TypeAt(s, i).value)
  {
    var p := SkipSpaces(s, i + 3);
    assert TypeText(s, i, p, TypeAt(s, i).value);
  }

  /** The pattern's text at `i` is matched there, with those two
      characters: `\s*` cannot stop short of `사` or `팔`, which are not
      whitespace. */
  lemma TypeAtComplete(s: string, i: nat, p: nat, m: (char, char))
    requires TypeText(s, i, p, m)
    ensures TypeAt(s, i) == Some(m)
  {
    assert !IsSpace(s[p]);
    SkipSpacesStops(s, i + 3, p);
  }

  /** `line.match(typePattern)`. */
  function FirstType(line: string): Option<(char, char)>
  {
    Leftmost(line, 0, TypeAt)
  }

  /** What a line says about the type: the matched text contains `사기` or
      `팔기` exactly when its last two characters are those; `사리` and `팔리`
      say nothing. Only the first match in the line is looked at. */
  function TypeOf(line: string): (t: Option<TxType>)
    ensures t == Some(Buy) <==> FirstType(line) == Some(('\U{C0AC}', '\U{AE30}'))
    ensures t == Some(Sell) <==> FirstType(line) == Some(('\U{D314}', '\U{AE30}'))
  {
    var m := FirstType(line);
    if m == Some(('\U{C0AC}', '\U{AE30}')) then Some(Buy)
    else if m == Some(('\U{D314}', '\U{AE30}')) then Some(Sell)
    else None
  }

  /** `/USD\s*사기|USD\s*팔기/.test(line)`: anywhere in the line, not only at
      the first match of the type pattern. */
  predicate HasTradeMarker(line: string)
  {
    exists i: nat | i <= |line| :: TypeAt(line, i) == Some(('\U{C0AC}', '\U{AE30}')) || TypeAt(line, i) == Some(('\U{D314}', '\U{AE30}'))
  }

  // ----- the amount pattern /[+-]?\d{1,3}(?:,\d{3})*\.\d{2}/ -----

  /** `s[q..g]` is a run of `,\d{3}` groups. */
  predicate GroupsText(s: string, q: nat, g: nat)
    decreases g - q
  {
    || q == g
    || (q + 4 <= g <= |s| && s[q] == ',' && AllDigits(s[q + 1..q + 4]) && GroupsText(s, q + 4, g))
  }

  /** The `(?:,\d{3})*` part from `q`, taking every group there is: its end
      and the value of the integer digits read so far. */
  function Groups(s: string, q: nat, acc: nat): (r: (nat, nat))
    requires q <= |s|
    ensures q <= r.0 <= |s| && GroupsText(s, q, r.0)
    ensures !(r.0 + 3 < |s| && s[r.0] == ',' && AllDigits(s[r.0 + 1..r.0 + 4]))
    decreases |s| - q
  {
    if q + 3 < |s| && s[q] == ',' && AllDigits(s[q + 1..q + 4]) then
      Groups(s, q + 4, acc * 1000 + DecimalValue(s[q + 1..q + 4]))
    else (q, acc)
  }

  /** A string of digits is its own digits. */
  lemma {:induction false} DigitsKept(t: string)
    requires AllDigits(t)
    ensures DigitsOf(t) == t
  {
    if t != [] {
      assert IsDigit(t[0]);
      DigitsKept(t[1..]);
    }
  }

  /** The digits from a group on are the three after its comma, then the
      digits after the group. */
  lemma CommaGroupDigits(s: string, q: nat, g: nat)
    requires q + 4 <= g <= |s| && s[q] == ',' && AllDigits(s[q + 1..q + 4])
    ensures DigitsOf(s[q..g]) == s[q + 1..q + 4] + DigitsOf(s[q + 4..g])
  {
    var t := s[q..g];
    assert t[0] == ',' && t[1..] == s[q + 1..q + 4] + s[q + 4..g];
    FilterAppend(s[q + 1..q + 4], s[q + 4..g], IsDigit);
    DigitsKept(s[q + 1..q + 4]);
  }

  /** The value the groups give: with the digits `pre` read before them,
      the number that `pre` followed by the groups' digits spells. */
  lemma {:induction false} GroupsValue(s: string, q: nat, pre: string)
    requires q <= |s| && AllDigits(pre)
    ensures var r := Groups(s, q, DecimalValue(pre));
            r.1 == DecimalValue(pre + DigitsOf(s[q..r.0]))
    decreases |s| - q
  {
    if q + 3 < |s| && s[q] == ',' && AllDigits(s[q + 1..q + 4]) {
      var d3 := s[q + 1..q + 4];
      assert DecimalValue(pre) * 1000 + DecimalValue(d3) == DecimalValue(pre + d3) by {
        DecimalValueAppend(pre, d3);
        assert Pow10(3) == 1000;
      }
      var r := Groups(s, q + 4, DecimalValue(pre + d3));
      assert Groups(s, q, DecimalValue(pre)) == r;
      GroupsValue(s, q + 4, pre + d3);
      CommaGroupDigits(s, q, r.0);
      ConcatAssoc(pre, d3, DigitsOf(s[q + 4..r.0]));
    } else {
      assert s[q..q] == [];
      assert pre + DigitsOf(s[q..q]) == pre;
    }
  }

  /** Groups that are there, followed by the point, are all taken. */
  lemma {:induction false} GroupsComplete(s: string, q: nat, g: nat, acc: nat)
    requires q <= g < |s| && GroupsText(s, q, g) && s[g] == '.'
    ensures Groups(s, q, acc).0 == g
    decreases g - q
  {
    if q != g {
      GroupsComplete(s, q + 4, g, acc * 1000 + DecimalValue(s[q + 1..q + 4]));
    }
  }

  /** `s[i..e]` is the amount pattern, with the sign (if any) before `p`, the
      `\d{1,3}` run at `p..d`, the groups at `d..g` and the point at `g`. */
  predicate AmountText(s: string, i: nat, p: nat, d: nat, g: nat, e: nat)
  {
    && i <= p <= i + 1 && p < d <= p + 3 && d <= g && e == g + 3 && e <= |s|
    && (p == i + 1 ==> s[i] == '+' || s[i] == '-')
    && AllDigits(s[p..d]) && GroupsText(s, d, g)
    && s[g] == '.' && IsDigit(s[g + 1]) && IsDigit(s[g + 2])
  }

  /** The amount pattern matched at `i`, as a number of hundredths with the
      sign dropped (`Math.abs(parseFloat(...))`). Each repetition can stop
      only where it stops: a shorter `\d{1,3}` or fewer groups would leave a
      digit or a comma where a comma or the point is required. */
  function AmountAt(s: string, i: nat): (v: Option<nat>)
  {
    if i > |s| then None
    else
    var p := if i < |s| && (s[i] == '+' || s[i] == '-') then i + 1 else i;
    var e := SkipDigits(s, p);
    if e == p || e - p > 3 then None
    else
      var g := Groups(s, e, DecimalValue(s[p..e]));
      var q := g.0;
      if q + 2 < |s| && s[q] == '.' && IsDigit(s[q + 1]) && IsDigit(s[q + 2]) then
        Some(g.1 * 100 + DigitValue(s[q + 1]) * 10 + DigitValue(s[q + 2]))
      else None
  }

  /** The digits of adjacent slices are the digits of their union. */
  lemma DigitsOfSplit(s: string, a: nat, b: nat, c: nat)
    requires a <= b <= c <= |s|
    ensures DigitsOf(s[a..c]) == DigitsOf(s[a..b]) + DigitsOf(s[b..c])
  {
    assert s[a..c] == s[a..b] + s[b..c];
    FilterAppend(s[a..b], s[b..c], IsDigit);
  }

  /** An optional sign holds no digit. */
  lemma SignDigits(s: string, i: nat, p: nat)
    requires i <= p <= i + 1 && p <= |s| && (p == i + 1 ==> s[i] == '+' || s[i] == '-')
    ensures DigitsOf(s[i..p]) == []
  {
    if p == i + 1 {
      assert s[i..p][1..] == [];
    }
  }

  /** The digits of the point and the two after it are those two. */
  lemma CentsDigits(s: string, g: nat, e: nat)
    requires e == g + 3 <= |s| && s[g] == '.' && IsDigit(s[g + 1]) && IsDigit(s[g + 2])
    ensures DigitsOf(s[g..e]) == s[g + 1..e]
  {
    var t := s[g + 1..e];
    assert s[g..e][0] == '.' && s[g..e][1..] == t;
    assert t[0] == s[g + 1] && t[1] == s[g + 2];
    DigitsKept(t);
  }

  /** The digits of an amount text: its `\d{1,3}` run, the digits of its
      groups and the two after the point; the sign, the commas and the
      point are dropped. */
  lemma AmountDigits(s: string, i: nat, p: nat, d: nat, g: nat, e: nat)
    requires AmountText(s, i, p, d, g, e)
    ensures DigitsOf(s[i..e]) == (s[p..d] + DigitsOf(s[d..g])) + s[g + 1..e]
  {
    var run, groups, cents := s[p..d], DigitsOf(s[d..g]), s[g + 1..e];
    DigitsOfSplit(s, d, g, e);
    CentsDigits(s, g, e);
    assert DigitsOf(s[d..e]) == groups + cents;
    DigitsOfSplit(s, p, d, e);
    DigitsKept(run);
    assert DigitsOf(s[p..e]) == run + (groups + cents);
    DigitsOfSplit(s, i, p, e);
    SignDigits(s, i, p);
    assert DigitsOf(s[i..e]) == run + (groups + cents);
    ConcatAssoc(run, groups, cents);
  }

  /** Two digits spell ten times the first plus the second. */
  lemma TwoDigitsValue(c: string)
    requires |c| == 2 && AllDigits(c)
    ensures DecimalValue(c) == DigitValue(c[0]) * 10 + DigitValue(c[1])
  {
    var first := c[..1];
    assert first[0] == c[0] && first[..0] == [];
    assert DecimalValue(first) == DigitValue(c[0]);
  }

  /** The value of an amount text is the number its digits spell, in
      hundredths. */
  lemma AmountValue(s: string, i: nat, p: nat, d: nat, g: nat, e: nat)
    requires AmountText(s, i, p, d, g, e) && Groups(s, d, DecimalValue(s[p..d])).0 == g
    ensures DecimalValue(DigitsOf(s[i..e]))
            == Groups(s, d, DecimalValue(s[p..d])).1 * 100 + DigitValue(s[g + 1]) * 10 + DigitValue(s[g + 2])
  {
    var run, gd, cents := s[p..d], DigitsOf(s[d..g]), s[g + 1..e];
    AmountDigits(s, i, p, d, g, e);
    GroupsValue(s, d, run);
    DecimalValueAppend(run + gd, cents);
    assert Pow10(2) == 100;
    TwoDigitsValue(cents);
    assert cents[0] == s[g + 1] && cents[1] == s[g + 2];
  }

  /** The branch of `AmountAt` that matches, with the positions it reads. */
  lemma AmountAtOf(s: string, i: nat, p: nat, d: nat, g: nat)
    requires i <= |s| && p == (if i < |s| && (s[i] == '+' || s[i] == '-') then i + 1 else i)
    requires SkipDigits(s, p) == d && p < d <= p + 3
    requires Groups(s, d, DecimalValue(s[p..d])).0 == g
    requires g + 2 < |s| && s[g] == '.' && IsDigit(s[g + 1]) && IsDigit(s[g + 2])
    ensures AmountAt(s, i)
            == Some(Groups(s, d, DecimalValue(s[p..d])).1 * 100 + DigitValue(s[g + 1]) * 10 + DigitValue(s[g + 2]))
  {
  }

  /** A match at `i` is amount text there, and its value is the number the
      matched digits spell, in hundredths. */
  lemma AmountAtSound(s: string, i: nat)
    requires AmountAt(s, i).Some?
    ensures exists p: nat, d: nat, g: nat, e: nat :: AmountText(s, i, p, d, g, e) && AmountAt(s, i).value == DecimalValue(DigitsOf(s[i..e]))
  {
    var p := if i < |s| && (s[i] == '+' || s[i] == '-') then i + 1 else i;
    var d := SkipDigits(s, p);
    var g := Groups(s, d, DecimalValue(s[p..d])).0;
    var e := g + 3;
    AmountAtOf(s, i, p, d, g);
    assert AmountText(s, i, p, d, g, e);
    AmountValue(s, i, p, d, g, e);
    assert AmountText(s, i, p, d, g, e) && AmountAt(s, i).value == DecimalValue(DigitsOf(s[i..e]));
  }

  /** Conversely, amount text at `i` is matched there, with its value. */
  lemma AmountAtComplete(s: string, i: nat, p: nat, d: nat, g: nat, e: nat)
    requires AmountText(s, i, p, d, g, e)
    ensures AmountAt(s, i) == Some(DecimalValue(DigitsOf(s[i..e])))
  {
    assert IsDigit(s[p]) by {
      assert s[p..d][0] == s[p];
    }
    assert !IsDigit(s[d]) by {
      if d != g {
        assert s[d] == ',';
      }
    }
    SkipDigitsStops(s, p, d);
    GroupsComplete(s, d, g, DecimalValue(s[p..d]));
    AmountAtOf(s, i, p, d, g);
    AmountValue(s, i, p, d, g, e);
  }

  /** `nextLine.match(/[+-]?\d{1,3}(?:,\d{3})*\.\d{2}/)`, as hundredths. */
  function FirstAmount(line: string): Option<nat>
  {
    Leftmost(line, 0, AmountAt)
  }

  /** The leftmost match decides, so a run of more than three digits before
      the point loses its leading digits: `1234.56` reads as 234.56. */
  lemma AmountExamples()
    ensures AmountAt("-12.50", 0) == Some(1250)
    ensures AmountAt("1234.56", 0) == None
    ensures AmountAt("1234.56", 1) == Some(23456)
    ensures AmountAt("+1,234.56", 0) == Some(123456)
  {
    SignedAmountExample();
    LongRunExample();
    LaterStartExample();
    CommaAmountExample();
  }

  /** The sign is skipped and dropped. */
  lemma SignedAmountExample()
    ensures AmountAt("-12.50", 0) == Some(1250)
  {
    var s := "-12.50";
    assert SkipDigits(s, 1) == 3;
    assert s[1..3] == "12" && "12"[..1] == "1" && "1"[..0] == "";
    assert DecimalValue("12") == 12;
    assert Groups(s, 3, 12) == (3, 12);
  }

  /** Four digits before the point do not match at the start. */
  lemma LongRunExample()
    ensures AmountAt("1234.56", 0) == None
  {
    assert SkipDigits("1234.56", 0) == 4;
  }

  /** One position later the last three digits match. */
  lemma LaterStartExample()
    ensures AmountAt("1234.56", 1) == Some(23456)
  {
    var t := "1234.56";
    assert SkipDigits(t, 1) == 4;
    assert t[1..4] == "234" && "234"[..2] == "23" && "23"[..1] == "2" && "2"[..0] == "";
    assert DecimalValue("234") == 234;
    assert Groups(t, 4, 234) == (4, 234);
  }

  /** The commas are stripped: a group after the first digits continues
      the number. */
  lemma CommaAmountExample()
    ensures AmountAt("+1,234.56", 0) == Some(123456)
  {
    var s := "+1,234.56";
    assert SkipDigits(s, 1) == 2;
    assert s[1..2] == "1" && "1"[..0] == "";
    assert DecimalValue("1") == 1;
    assert s[3..6] == "234" && "234"[..2] == "23" && "23"[..1] == "2" && "2"[..0] == "";
    assert DecimalValue("234") == 234;
    assert Groups(s, 6, 1234) == (6, 1234);
    assert Groups(s, 2, 1) == (6, 1234);
    AmountAtOf(s, 0, 1, 2, 6);
  }

  // ----- labels and the won amount -----

  /** `/거래 ?외화 ?금액|외화 ?금액/.test(line)`; the first alternative only
      matches where the second does. */
  predicate ForeignLabel(line: string)
  {
    Contains(line, "\U{C678}\U{D654}\U{AE08}\U{C561}") || Contains(line, "\U{C678}\U{D654} \U{AE08}\U{C561}")
  }

  /** `/적용 ?환율/.test(line)`. */
  predicate RateLabel(line: string)
  {
    Contains(line, "\U{C801}\U{C6A9}\U{D658}\U{C728}") || Contains(line, "\U{C801}\U{C6A9} \U{D658}\U{C728}")
  }

  const WithdrawalLabel: string := "\U{C6D0}\U{D654} \U{CD9C}\U{AE08} \U{AE08}\U{C561}"
  const DepositLabel: string := "\U{C6D0}\U{D654} \U{C785}\U{AE08} \U{AE08}\U{C561}"

  /** The first position at or after `p` that is neither a digit nor a comma. */
  function SkipDigitsCommas(s: string, p: nat): (q: nat)
    requires p <= |s|
    ensures p <= q <= |s|
    ensures forall k :: p <= k < q ==> IsDigit(s[k]) || s[k] == ','
    decreases |s| - p
  {
    if p < |s| && (IsDigit(s[p]) || s[p] == ',') then SkipDigitsCommas(s, p + 1) else p
  }

  /** `key\s*([\d,]+)원` matched at `i`: the capture, which is the text of
      `s` between the spaces after the key and the `원`. */
  function WonAt(s: string, key: string, i: nat): (c: Option<string>)
    ensures c.Some? ==> |c.value| > 0 && forall k :: 0 <= k < |c.value| ==> IsDigit(c.value[k]) || c.value[k] == ','
    ensures c.Some? ==> OccursAt(s, key, i)
    ensures c.Some? ==> var a := i + |key|; exists p: nat, e: nat :: PartAt(s, a, p, e, '\U{C6D0}', c.value)
  {
    if !OccursAt(s, key, i) then None
    else
      var p := SkipSpaces(s, i + |key|);
      var e := SkipDigitsCommas(s, p);
      if e > p && e < |s| && s[e] == '\U{C6D0}' then
        assert PartAt(s, i + |key|, p, e, '\U{C6D0}', s[p..e]);
        Some(s[p..e])
      else None
  }

  /** `[\d,]+` stops at the first character that is neither. */
  lemma {:induction false} SkipDigitsCommasStops(s: string, p: nat, e: nat)
    requires p <= e < |s| && !IsDigit(s[e]) && s[e] != ','
    requires forall k :: p <= k < e ==> IsDigit(s[k]) || s[k] == ','
    ensures SkipDigitsCommas(s, p) == e
    decreases e - p
  {
    if p < e {
      SkipDigitsCommasStops(s, p + 1, e);
    }
  }

  /** Conversely, the key at `i`, spaces, a run of digits and commas and
      `원` are matched there, with that run as the capture. */
  lemma WonAtComplete(s: string, key: string, i: nat, p: nat, e: nat, capture: string)
    requires OccursAt(s, key, i) && PartAt(s, i + |key|, p, e, '\U{C6D0}', capture)
    requires forall k :: 0 <= k < |capture| ==> IsDigit(capture[k]) || capture[k] == ','
    ensures WonAt(s, key, i) == Some(capture)
  {
    assert s[p] == capture[0];
    SkipSpacesStops(s, i + |key|, p);
    forall k | p <= k < e
      ensures IsDigit(s[k]) || s[k] == ','
    {
      assert s[k] == capture[k - p];
    }
    SkipDigitsCommasStops(s, p, e);
  }
  /** A statement line such as `원화 출금 금액 1,234원`. */
  const WonLine: string := WithdrawalLabel + " 1,234\U{C6D0}"

  /** Such a line yields the withdrawal capture `1,234`. */
  lemma WonExample()
    ensures FirstWon(WonLine, WithdrawalLabel) == Some("1,234")
  {
    var s := WonLine;
    assert |WithdrawalLabel| == 8 && s[0..8] == WithdrawalLabel;
    assert s[8] == ' ' && s[9..14] == "1,234" && s[14] == '\U{C6D0}';
    WonAtComplete(s, WithdrawalLabel, 0, 9, 14, "1,234");
  }


  /** The won pattern for one label, as a matcher. */
  function WonPattern(key: string): (string, nat) -> Option<string>
  {
    (s: string, i: nat) => WonAt(s, key, i)
  }

  /** `line.match(/label\s*([\d,]+)원/)`, the capture. */
  function FirstWon(line: string, key: string): Option<string>
  {
    Leftmost(line, 0, WonPattern(key))
  }

  /** The value of `wonAmount`: `parseInt` of the capture without commas,
      which is NaN when the capture held commas only. */
  datatype Won = Amount(value: nat) | NotANumber

  /** `parseInt(capture.replace(/,/g, ''), 10)`. */
  function ParseWon(capture: string): (w: Won)
    ensures w.NotANumber? <==> forall k :: 0 <= k < |capture| ==> !IsDigit(capture[k])
    ensures w.Amount? ==> w.value == DecimalValue(DigitsOf(capture))
  {
    var d := DigitsOf(capture);
    if |d| == 0 then
      assert forall k :: 0 <= k < |capture| ==> capture[k] !in d;
      NotANumber
    else
      assert d[0] in Filter(capture, IsDigit);
      Amount(DecimalValue(d))
  }

  /** What a line says about the won amount: the withdrawal label first,
      the deposit label only when the withdrawal pattern does not match. */
  function WonOf(line: string): (w: Option<Won>)
    ensures FirstWon(line, WithdrawalLabel).Some? ==> w == Some(ParseWon(FirstWon(line, WithdrawalLabel).value))
    ensures FirstWon(line, WithdrawalLabel).None? ==>
              w == if FirstWon(line, DepositLabel).Some? then Some(ParseWon(FirstWon(line, DepositLabel).value)) else None
  {
    var outMatch := FirstWon(line, WithdrawalLabel);
    var inMatch := FirstWon(line, DepositLabel);
    if outMatch.Some? then Some(ParseWon(outMatch.value))
    else if inMatch.Some? then Some(ParseWon(inMatch.value))
    else None
  }

  // ----- what one line contributes -----

  /** A foreign-amount label line with a six-digit value; `if (val)` skips
      a zero value. */
  function LabelValue(line: string): (v: Option<real>)
    ensures v.Some? <==> ForeignLabel(line) && SixDigitValue(line).Some? && SixDigitValue(line).value != 0.0
    ensures v.Some? ==> v == SixDigitValue(line) && v.value > 0.0
  {
    if ForeignLabel(line) then
      var val := SixDigitValue(line);
      if val.Some? && val.value != 0.0 then val else None
    else None
  }

  /** A rate label line whose six-digit value lies in the window
      [1000, 2000]. */
  function RateValue(line: string): (v: Option<real>)
    ensures v.Some? <==> RateLabel(line) && SixDigitValue(line).Some?
                         && 1000.0 <= SixDigitValue(line).value <= 2000.0
    ensures v.Some? ==> v == SixDigitValue(line)
  {
    if RateLabel(line) then
      var val := SixDigitValue(line);
      if val.Some? && val.value != 0.0 && val.value >= 1000.0 && val.value <= 2000.0 then val else None
    else None
  }

  // ----- last wins, first wins -----

  /** What the last line that says something says (a variable overwritten
      on every hit of a forward scan). */
  function LastHit<T>(lines: seq<string>, f: string -> Option<T>): (r: Option<T>)
    ensures r.None? <==> forall j :: 0 <= j < |lines| ==> f(lines[j]).None?
  {
    if lines == [] then None
    else
      var n := |lines| - 1;
      assert forall j :: 0 <= j < n ==> lines[..n][j] == lines[j];
      if f(lines[n]).Some? then f(lines[n]) else LastHit(lines[..n], f)
  }

  lemma {:induction false} LastHitIsLast<T>(lines: seq<string>, f: string -> Option<T>, j: nat)
    requires j < |lines| && f(lines[j]).Some?
    requires forall k :: j < k < |lines| ==> f(lines[k]).None?
    ensures LastHit(lines, f) == f(lines[j])
  {
    var n := |lines| - 1;
    if j < n {
      assert lines[..n][j] == lines[j];
      assert forall k :: j < k < n ==> lines[..n][k] == lines[k];
      LastHitIsLast(lines[..n], f, j);
    }
  }

  /** What the first line that says something says (a variable set only
      while it still holds its initial value). */
  function FirstHit<T>(lines: seq<string>, f: string -> Option<T>): (r: Option<T>)
    ensures r.None? <==> forall j :: 0 <= j < |lines| ==> f(lines[j]).None?
  {
    if lines == [] then None
    else
      var n := |lines| - 1;
      assert forall j :: 0 <= j < n ==> lines[..n][j] == lines[j];
      var r := FirstHit(lines[..n], f);
      if r.Some? then r else f(lines[n])
  }

  lemma {:induction false} FirstHitIsFirst<T>(lines: seq<string>, f: string -> Option<T>, j: nat)
    requires j < |lines| && f(lines[j]).Some?
    requires forall k :: 0 <= k < j ==> f(lines[k]).None?
    ensures FirstHit(lines, f) == f(lines[j])
  {
    var n := |lines| - 1;
    assert forall k :: 0 <= k < n ==> lines[..n][k] == lines[k];
    if j < n {
      FirstHitIsFirst(lines[..n], f, j);
    }
  }

  lemma {:induction false} LastHitValue<T>(lines: seq<string>, f: string -> Option<T>)
    requires LastHit(lines, f).Some?
    ensures exists j :: 0 <= j < |lines| && f(lines[j]) == LastHit(lines, f)
  {
    var n := |lines| - 1;
    if f(lines[n]).None? {
      LastHitValue(lines[..n], f);
      var j :| 0 <= j < n && f(lines[..n][j]) == LastHit(lines[..n], f);
      assert lines[..n][j] == lines[j];
    }
  }

  lemma LastHitSnoc<T>(lines: seq<string>, line: string, f: string -> Option<T>)
    ensures LastHit(lines + [line], f) == if f(line).Some? then f(line) else LastHit(lines, f)
  {
    assert (lines + [line])[..|lines|] == lines;
  }

  lemma FirstHitSnoc<T>(lines: seq<string>, line: string, f: string -> Option<T>)
    ensures FirstHit(lines + [line], f) == if FirstHit(lines, f).Some? then FirstHit(lines, f) else f(line)
  {
    assert (lines + [line])[..|lines|] == lines;
  }

  // ----- the primary foreign-amount tier -----

  /** `lines[i + 1] || ''`: the line after `i`, or the empty string after
      the last one. */
  function NextLine(lines: seq<string>, i: nat): string
  {
    if i + 1 < |lines| then lines[i + 1] else ""
  }

  /** A marker line whose next line holds an amount: that amount. */
  function PrimaryAt(lines: seq<string>, i: nat): (v: Option<real>)
    requires i < |lines|
    ensures v.Some? <==> HasTradeMarker(lines[i]) && FirstAmount(NextLine(lines, i)).Some?
    ensures v.Some? ==> v.value >= 0.0 && v.value * 100.0 == FirstAmount(NextLine(lines, i)).value as real
  {
    if HasTradeMarker(lines[i]) then
      var m := FirstAmount(NextLine(lines, i));
      if m.Some? then Some(m.value as real / 100.0) else None
    else None
  }

  /** The indexed loop with `break`: the first marker line from `i` on whose
      next line holds an amount. */
  function PrimaryFrom(lines: seq<string>, i: nat): (v: Option<real>)
    requires i <= |lines|
    ensures v.Some? ==> v.value >= 0.0
    decreases |lines| - i
  {
    if i == |lines| then None
    else if PrimaryAt(lines, i).Some? then PrimaryAt(lines, i)
    else PrimaryFrom(lines, i + 1)
  }

  /** The loop stops at the first marker line whose next line holds an
      amount. */
  lemma {:induction false} PrimaryFromIsFirst(lines: seq<string>, i: nat, j: nat)
    requires i <= j < |lines| && PrimaryAt(lines, j).Some?
    requires forall k :: i <= k < j ==> PrimaryAt(lines, k).None?
    ensures PrimaryFrom(lines, i) == PrimaryAt(lines, j)
    decreases j - i
  {
    if i < j {
      PrimaryFromIsFirst(lines, i + 1, j);
    }
  }

  /** Without such a line the amount found so far stands. */
  lemma {:induction false} PrimaryFromNone(lines: seq<string>, i: nat)
    requires i <= |lines|
    ensures PrimaryFrom(lines, i).None? <==> forall j :: i <= j < |lines| ==> PrimaryAt(lines, j).None?
    decreases |lines| - i
  {
    if i < |lines| && PrimaryAt(lines, i).None? {
      PrimaryFromNone(lines, i + 1);
    }
  }

  // ----- parseOCRText -----

  /** The object `parseOCRText` returns. */
  datatype OcrResult = OcrResult(date: string, foreignAmount: real, exchangeRate: real, kind: TxType,
                                 confidence: real, wonAmount: Won)

  function GetOr<T>(o: Option<T>, default: T): T
  {
    if o.Some? then o.value else default
  }

  /** The foreign amount: the primary tier's value unless it is zero, else
      the last labelled six-digit value, else 0. */
  function ForeignAmount(lines: seq<string>): (a: real)
    ensures a >= 0.0
    ensures PrimaryFrom(lines, 0).Some? && PrimaryFrom(lines, 0).value != 0.0 ==> a == PrimaryFrom(lines, 0).value
    ensures (PrimaryFrom(lines, 0).None? || PrimaryFrom(lines, 0).value == 0.0) ==>
              a == GetOr(LastHit(lines, LabelValue), 0.0)
  {
    var primary := PrimaryFrom(lines, 0);
    var labelled := LastHit(lines, LabelValue);
    assert labelled.Some? ==> labelled.value > 0.0 by {
      if labelled.Some? {
        LastHitValue(lines, LabelValue);
      }
    }
    if primary.Some? && primary.value != 0.0 then primary.value else GetOr(labelled, 0.0)
  }

  /** The result `parseOCRText` returns for the lines of a text. */
  function Expected(lines: seq<string>): (r: OcrResult)
    ensures r.confidence == 0.8
    ensures r.exchangeRate == 0.0 || 1000.0 <= r.exchangeRate <= 2000.0
    ensures r.foreignAmount >= 0.0
  {
    var rate := FirstHit(lines, RateValue);
    assert rate.Some? ==> 1000.0 <= rate.value <= 2000.0 by {
      if rate.Some? {
        FirstHitValue(lines, RateValue);
      }
    }
    OcrResult(GetOr(LastHit(lines, DateOf), ""), ForeignAmount(lines), GetOr(rate, 0.0),
              GetOr(LastHit(lines, TypeOf), Buy), 0.8, GetOr(LastHit(lines, WonOf), Amount(0)))
  }

  lemma {:induction false} FirstHitValue<T>(lines: seq<string>, f: string -> Option<T>)
    requires FirstHit(lines, f).Some?
    ensures exists j :: 0 <= j < |lines| && f(lines[j]) == FirstHit(lines, f)
  {
    var n := |lines| - 1;
    if FirstHit(lines[..n], f).Some? {
      FirstHitValue(lines[..n], f);
      var j :| 0 <= j < n && f(lines[..n][j]) == FirstHit(lines[..n], f);
      assert lines[..n][j] == lines[j];
    }
  }

  /** The first loop of `parseOCRText`: every line is tried against every
      field; date, foreign amount, won amount and type keep the last hit,
      the rate keeps the first. */
  method ScanLines(lines: seq<string>) returns (date: string, foreignAmount: real, exchangeRate: real,
                                                 kind: Option<TxType>, wonAmount: Won)
    ensures date == GetOr(LastHit(lines, DateOf), "")
    ensures foreignAmount == GetOr(LastHit(lines, LabelValue), 0.0)
    ensures exchangeRate == GetOr(FirstHit(lines, RateValue), 0.0)
    ensures kind == LastHit(lines, TypeOf)
    ensures wonAmount == GetOr(LastHit(lines, WonOf), Amount(0))
  {
    date, foreignAmount, exchangeRate, kind, wonAmount := "", 0.0, 0.0, None, Amount(0);
    var i := 0;
    while i < |lines|
      invariant 0 <= i <= |lines|
      invariant date == GetOr(LastHit(lines[..i], DateOf), "")
      invariant foreignAmount == GetOr(LastHit(lines[..i], LabelValue), 0.0)
      invariant exchangeRate == GetOr(FirstHit(lines[..i], RateValue), 0.0)
      invariant exchangeRate == 0.0 <==> FirstHit(lines[..i], RateValue).None?
      invariant wonAmount == GetOr(LastHit(lines[..i], WonOf), Amount(0))
      invariant kind == LastHit(lines[..i], TypeOf)
    {
      date := ScanDate(lines, i, date);
      foreignAmount := ScanLabel(lines, i, foreignAmount);
      exchangeRate := ScanRate(lines, i, exchangeRate);
      wonAmount := ScanWon(lines, i, wonAmount);
      kind := ScanType(lines, i, kind);
      i := i + 1;
    }
    assert lines[..i] == lines;
  }

  /** The date step of the first loop: a line with a date replaces it. */
  method ScanDate(lines: seq<string>, i: nat, date0: string) returns (date: string)
    requires i < |lines|
    requires date0 == GetOr(LastHit(lines[..i], DateOf), "")
    ensures date == GetOr(LastHit(lines[..i + 1], DateOf), "")
  {
    var line := lines[i];
    PrefixSnoc(lines, i);
    LastHitSnoc(lines[..i], line, DateOf);
    date := date0;
    var dateMatch := FirstDate(line);
    if dateMatch.Some? {
      date := RenderDate(dateMatch.value);
    }
  }

  /** The foreign-amount label step: a labelled non-zero six-digit value
      replaces the amount. */
  method ScanLabel(lines: seq<string>, i: nat, foreignAmount0: real) returns (foreignAmount: real)
    requires i < |lines|
    requires foreignAmount0 == GetOr(LastHit(lines[..i], LabelValue), 0.0)
    ensures foreignAmount == GetOr(LastHit(lines[..i + 1], LabelValue), 0.0)
  {
    var line := lines[i];
    PrefixSnoc(lines, i);
    LastHitSnoc(lines[..i], line, LabelValue);
    foreignAmount := foreignAmount0;
    if ForeignLabel(line) {
      var val := SixDigitValue(line);
      if val.Some? && val.value != 0.0 {
        foreignAmount := val.value;
      }
    }
  }

  /** The rate step: only while the rate is still 0, a labelled value
      inside [1000, 2000] sets it. */
  method ScanRate(lines: seq<string>, i: nat, exchangeRate0: real) returns (exchangeRate: real)
    requires i < |lines|
    requires exchangeRate0 == GetOr(FirstHit(lines[..i], RateValue), 0.0)
    requires exchangeRate0 == 0.0 <==> FirstHit(lines[..i], RateValue).None?
    ensures exchangeRate == GetOr(FirstHit(lines[..i + 1], RateValue), 0.0)
    ensures exchangeRate == 0.0 <==> FirstHit(lines[..i + 1], RateValue).None?
  {
    var line := lines[i];
    PrefixSnoc(lines, i);
    FirstHitSnoc(lines[..i], line, RateValue);
    exchangeRate := exchangeRate0;
    if exchangeRate == 0.0 && RateLabel(line) {
      var val := SixDigitValue(line);
      if val.Some? && val.value != 0.0 && val.value >= 1000.0 && val.value <= 2000.0 {
        exchangeRate := val.value;
      }
    }
  }

  /** The won step: the withdrawal pattern, else the deposit pattern,
      replaces the won amount. */
  method ScanWon(lines: seq<string>, i: nat, wonAmount0: Won) returns (wonAmount: Won)
    requires i < |lines|
    requires wonAmount0 == GetOr(LastHit(lines[..i], WonOf), Amount(0))
    ensures wonAmount == GetOr(LastHit(lines[..i + 1], WonOf), Amount(0))
  {
    var line := lines[i];
    PrefixSnoc(lines, i);
    LastHitSnoc(lines[..i], line, WonOf);
    wonAmount := wonAmount0;
    var wonOutMatch := FirstWon(line, WithdrawalLabel);
    var wonInMatch := FirstWon(line, DepositLabel);
    if wonOutMatch.Some? {
      wonAmount := ParseWon(wonOutMatch.value);
    } else if wonInMatch.Some? {
      wonAmount := ParseWon(wonInMatch.value);
    }
  }

  /** The type step: a `사기` or `팔기` match replaces the type. */
  method ScanType(lines: seq<string>, i: nat, kind0: Option<TxType>) returns (kind: Option<TxType>)
    requires i < |lines|
    requires kind0 == LastHit(lines[..i], TypeOf)
    ensures kind == LastHit(lines[..i + 1], TypeOf)
  {
    var line := lines[i];
    PrefixSnoc(lines, i);
    LastHitSnoc(lines[..i], line, TypeOf);
    kind := kind0;
    var typeMatch := FirstType(line);
    if typeMatch.Some? {
      if typeMatch.value == ('\U{C0AC}', '\U{AE30}') {
        kind := Some(Buy);
      } else if typeMatch.value == ('\U{D314}', '\U{AE30}') {
        kind := Some(Sell);
      } else {
        assert TypeOf(line).None?;
      }
    } else {
      assert TypeOf(line).None?;
    }
  }

  /** The second loop: the first marker line whose next line holds an
      amount sets the foreign amount and stops the loop; without one the
      amount stays `current`. */
  method PrimaryTier(lines: seq<string>, current: real) returns (foreignAmount: real)
    ensures foreignAmount == GetOr(PrimaryFrom(lines, 0), current)
  {
    foreignAmount := current;
    var i := 0;
    while i < |lines|
      invariant 0 <= i <= |lines|
      invariant foreignAmount == current
      invariant PrimaryFrom(lines, 0) == PrimaryFrom(lines, i)
    {
      if HasTradeMarker(lines[i]) {
        var nextLine := NextLine(lines, i);
        var amountMatch := FirstAmount(nextLine);
        if amountMatch.Some? {
          foreignAmount := amountMatch.value as real / 100.0;
          break;
        }
      }
      i := i + 1;
    }
  }

  /** The third loop: the labelled six-digit values again, the last one
      winning. */
  method LabelFallback(lines: seq<string>) returns (foreignAmount: real)
    ensures foreignAmount == GetOr(LastHit(lines, LabelValue), 0.0)
  {
    foreignAmount := 0.0;
    var j := 0;
    while j < |lines|
      invariant 0 <= j <= |lines|
      invariant foreignAmount == GetOr(LastHit(lines[..j], LabelValue), 0.0)
    {
      var line := lines[j];
      assert lines[..j + 1][..j] == lines[..j] && lines[..j + 1][j] == line;
      if ForeignLabel(line) {
        var val := SixDigitValue(line);
        if val.Some? && val.value != 0.0 {
          foreignAmount := val.value;
        }
      }
      j := j + 1;
    }
    assert lines[..j] == lines;
  }

  /** `parseOCRText(text)`. `text` is `None` when the argument is not a
      string: `text.split` then throws and the `catch` returns null. */
  method ParseOcrText(text: Option<string>) returns (r: Option<OcrResult>)
    ensures r.None? <==> text.None?
    ensures text.Some? ==> r == Some(Expected(Lines(text.value)))
  {
    if text.None? {
      return None;
    }
    var lines := Lines(text.value);
    var date, foreignAmount, exchangeRate, kind, wonAmount := ScanLines(lines);
    foreignAmount := PrimaryTier(lines, foreignAmount);
    if foreignAmount == 0.0 {
      foreignAmount := LabelFallback(lines);
    }
    r := Some(OcrResult(date, foreignAmount, exchangeRate, GetOr(kind, Buy), 0.8, wonAmount));
  }

  // ----- the field rules -----

  /** `exchangeRate` comes from the first rate line inside the window;
      later lines never replace it, and it is 0 when no line qualifies. */
  lemma RateIsFirstInWindow(lines: seq<string>, j: nat)
    requires j < |lines| && RateValue(lines[j]).Some?
    requires forall k :: 0 <= k < j ==> RateValue(lines[k]).None?
    ensures Expected(lines).exchangeRate == SixDigitValue(lines[j]).value
  {
    FirstHitIsFirst(lines, RateValue, j);
  }

  lemma NoRateLine(lines: seq<string>)
    requires forall k :: 0 <= k < |lines| ==> RateValue(lines[k]).None?
    ensures Expected(lines).exchangeRate == 0.0
  {
  }

  /** `date` is the rendering of the last line with a date, or empty. */
  lemma DateIsLastMatch(lines: seq<string>, j: nat)
    requires j < |lines| && FirstDate(lines[j]).Some?
    requires forall k :: j < k < |lines| ==> FirstDate(lines[k]).None?
    ensures Expected(lines).date == RenderDate(FirstDate(lines[j]).value)
  {
    forall k | j < k < |lines| ensures DateOf(lines[k]).None? {
    }
    LastHitIsLast(lines, DateOf, j);
  }

  lemma NoDateLine(lines: seq<string>)
    requires forall k :: 0 <= k < |lines| ==> FirstDate(lines[k]).None?
    ensures Expected(lines).date == ""
  {
    assert forall k :: 0 <= k < |lines| ==> DateOf(lines[k]).None?;
  }

  /** `type` is what the last line with a `사기` or `팔기` marker says, and
      `USD 사기` when no line says anything. */
  lemma TypeIsLastMarker(lines: seq<string>, j: nat)
    requires j < |lines| && TypeOf(lines[j]).Some?
    requires forall k :: j < k < |lines| ==> TypeOf(lines[k]).None?
    ensures Expected(lines).kind == TypeOf(lines[j]).value
  {
    LastHitIsLast(lines, TypeOf, j);
  }

  lemma TypeDefaultsToBuy(lines: seq<string>)
    requires forall k :: 0 <= k < |lines| ==> TypeOf(lines[k]).None?
    ensures Expected(lines).kind == Buy
  {
  }

  /** `wonAmount` is what the last line with a won pattern says, the
      withdrawal label winning on that line; 0 when there is none. */
  lemma WonIsLastMatch(lines: seq<string>, j: nat)
    requires j < |lines| && WonOf(lines[j]).Some?
    requires forall k :: j < k < |lines| ==> WonOf(lines[k]).None?
    ensures Expected(lines).wonAmount == WonOf(lines[j]).value
  {
    LastHitIsLast(lines, WonOf, j);
  }

  lemma NoWonLine(lines: seq<string>)
    requires forall k :: 0 <= k < |lines| ==> WonOf(lines[k]).None?
    ensures Expected(lines).wonAmount == Amount(0)
  {
  }

  /** The primary tier: the first marker line whose next line holds an
      amount overrides every labelled value, unless that amount is zero. */
  lemma PrimaryOverridesLabel(lines: seq<string>, j: nat)
    requires j < |lines| && PrimaryAt(lines, j).Some? && PrimaryAt(lines, j).value != 0.0
    requires forall k :: 0 <= k < j ==> PrimaryAt(lines, k).None?
    ensures Expected(lines).foreignAmount == PrimaryAt(lines, j).value
  {
    PrimaryFromIsFirst(lines, 0, j);
  }

  /** The label tier: without a usable primary amount, the last labelled
      six-digit value is used. */
  lemma LabelTierIsLastLabel(lines: seq<string>, j: nat)
    requires forall k :: 0 <= k < |lines| ==> PrimaryAt(lines, k).None?
    requires j < |lines| && LabelValue(lines[j]).Some?
    requires forall k :: j < k < |lines| ==> LabelValue(lines[k]).None?
    ensures Expected(lines).foreignAmount == SixDigitValue(lines[j]).value
  {
    PrimaryFromNone(lines, 0);
    LastHitIsLast(lines, LabelValue, j);
  }
}
