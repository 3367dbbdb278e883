/**
  Durations written like `5s`, `500ms` or `1m30s` (crates/cli/src/cli.rs), in exact seconds.
 */
module Durations {
  import opened Wrappers

  datatype Unit = Millis | Seconds | Minutes | Hours

  /** One number and its unit, as written. */
  datatype Segment = Segment(whole: string, fraction: Option<string>, unit: Unit)

  /** The characters with the Unicode property White_Space. */
  predicate IsSpace(c: char) {
    || '\U{9}' <= c <= '\U{D}' || c == ' ' || c == '\U{85}' || c == '\U{A0}' || c == '\U{1680}'
    || '\U{2000}' <= c <= '\U{200A}' || c == '\U{2028}' || c == '\U{2029}' || c == '\U{202F}' || c == '\U{205F}' || c == '\U{3000}'
  }

  predicate IsDigit(c: char) {
    '0' <= c <= '9'
  }

  predicate InNumber(c: char) {
    IsDigit(c) || c == '.'
  }

  function TrimStart(text: string): string {
    if text != [] && IsSpace(text[0]) then TrimStart(text[1..]) else text
  }

  function TrimEnd(text: string): string {
    if text != [] && IsSpace(text[|text| - 1]) then TrimEnd(text[..|text| - 1]) else text
  }

  function Trim(text: string): string {
    TrimEnd(TrimStart(text))
  }

  /** How far the text stays inside a number, or outside one. */
  function RunLength(text: string, number: bool): (n: nat)
    ensures n <= |text| && (n == 0 <==> text == [] || InNumber(text[0]) != number)
  {
    if text != [] && InNumber(text[0]) == number then 1 + RunLength(text[1..], number) else 0
  }

  lemma {:induction false} RunIsAlike(text: string, number: bool)
    ensures forall i :: 0 <= i < RunLength(text, number) ==> InNumber(text[i]) == number
  {
    if RunLength(text, number) > 0 {
      RunIsAlike(text[1..], number);
    }
  }

  predicate AllInNumber(s: string) {
    forall i :: 0 <= i < |s| ==> InNumber(s[i])
  }

  function FirstPoint(digits: string): (i: nat)
    ensures i <= |digits| && (i < |digits| ==> digits[i] == '.')
  {
    if digits == [] || digits[0] == '.' then 0 else 1 + FirstPoint(digits[1..])
  }

  lemma {:induction false} NoPointBefore(digits: string)
    ensures forall i :: 0 <= i < FirstPoint(digits) ==> digits[i] != '.'
  {
    if FirstPoint(digits) > 0 {
      NoPointBefore(digits[1..]);
    }
  }

  predicate AllDigits(s: string) {
    forall i :: 0 <= i < |s| ==> IsDigit(s[i])
  }

  function DigitValue(c: char): nat {
    if IsDigit(c) then c as int - '0' as int else 0
  }

  function Digits(digits: string): nat {
    if digits == [] then 0 else 10 * Digits(digits[..|digits| - 1]) + DigitValue(digits[|digits| - 1])
  }

  function Shifted(value: real, places: nat): real
    decreases places
  {
    if places == 0 then value else Shifted(value / 10.0, places - 1)
  }

  function Decimal(whole: string, fraction: string): real {
    Shifted(Digits(whole + fraction) as real, |fraction|)
  }

  /** At most one point, and at least one digit. */
  function ParseNumber(digits: string, unit: Unit): Option<Segment> {
    var point := FirstPoint(digits);
    var whole := digits[..point];
    var fraction := if point < |digits| then Some(digits[point + 1..]) else None;
    if fraction.Some? && FirstPoint(fraction.value) < |fraction.value| then None
    else if whole == [] && (fraction.None? || fraction.value == []) then None
    else Some(Segment(whole, fraction, unit))
  }

  function UnitText(unit: Unit): string {
    match unit
    case Millis => ['m', 's']
    case Seconds => ['s']
    case Minutes => ['m']
    case Hours => ['h']
  }

  function ParseUnit(text: string): Option<Unit> {
    if text == UnitText(Millis) then Some(Millis)
    else if text == UnitText(Seconds) then Some(Seconds)
    else if text == UnitText(Minutes) then Some(Minutes)
    else if text == UnitText(Hours) then Some(Hours)
    else None
  }

  function InSeconds(value: real, unit: Unit): real {
    match unit
    case Millis => value / 1000.0
    case Seconds => value
    case Minutes => value * 60.0
    case Hours => value * 3600.0
  }

  function Places(s: Segment): string {
    if s.fraction.Some? then s.fraction.value else []
  }

  /** The seconds a segment stands for. */
  function Amount(s: Segment): real {
    InSeconds(Decimal(s.whole, Places(s)), s.unit)
  }

  /** A segment, and the text after it. */
  datatype First = First(segment: Segment, rest: string)

  function ParseFirst(text: string): Option<First> {
    var digits := RunLength(text, true);
    var after := text[digits..];
    var unitEnd := RunLength(after, false);
    var unit := ParseUnit(after[..unitEnd]);
    if unit.None? then None else
    var segment := ParseNumber(text[..digits], unit.value);
    if segment.None? then None else Some(First(segment.value, after[unitEnd..]))
  }

  /** What `first` reads until nothing is left; it must consume something each time. */
  function ReadAll(first: string -> Option<First>, text: string): Option<seq<Segment>>
    decreases |text|
  {
    if text == [] then Some([]) else
    var next := first(text);
    if next.None? || |next.value.rest| >= |text| then None
    else Then([next.value.segment], ReadAll(first, next.value.rest))
  }

  function Sum(segments: seq<Segment>): real {
    if segments == [] then 0.0 else Amount(segments[0]) + Sum(segments[1..])
  }

  function Total(segments: Option<seq<Segment>>): Option<real> {
    if segments.None? || segments.value == [] then None else Some(Sum(segments.value))
  }

  function Parse(text: string): Option<real> {
    Total(ReadAll(ParseFirst, Trim(text)))
  }

  method AddUp(first: string -> Option<First>, text: string) returns (seconds: Option<real>)
    requires forall t: string {:trigger first(t)} :: t != [] && first(t).Some? ==> |first(t).value.rest| < |t|
    ensures seconds == Total(ReadAll(first, text))
  {
    if text == [] {
      return None;
    }
    ghost var read: seq<Segment> := [];
    assert forall all: seq<Segment> :: read + all == all;
    var total, rest := 0.0, text;
    while rest != []
      invariant total == Sum(read) && (rest == [] ==> read != [])
      invariant ReadAll(first, text) == Then(read, ReadAll(first, rest))
      decreases |rest|
    {
      var next := first(rest);
      if next.None? {
        return None;
      }
      ReadOneMore(read, next.value.segment, ReadAll(first, next.value.rest));
      total := total + Amount(next.value.segment);
      rest, read := next.value.rest, read + [next.value.segment];
    }
    assert read + [] == read;
    return Some(total);
  }

  method ParseDuration(text: string) returns (duration: Option<real>)
    ensures duration == Parse(text)
  {
    ParseFirstConsumes();
    duration := AddUp(ParseFirst, Trim(text));
  }

  function Then(read: seq<Segment>, rest: Option<seq<Segment>>): Option<seq<Segment>> {
    if rest.None? then None else Some(read + rest.value)
  }

  lemma ReadOneMore(read: seq<Segment>, next: Segment, rest: Option<seq<Segment>>)
    ensures Sum(read + [next]) == Sum(read) + Amount(next)
    ensures Then(read + [next], rest) == Then(read, Then([next], rest))
  {
    SumOfBoth(read, [next]);
    if rest.Some? {
      assert read + [next] + rest.value == read + ([next] + rest.value);
    }
  }

  lemma {:induction false} SumOfBoth(a: seq<Segment>, b: seq<Segment>)
    ensures Sum(a + b) == Sum(a) + Sum(b)
  {
    if a == [] {
      assert a + b == b;
    } else {
      assert (a + b)[1..] == a[1..] + b;
      SumOfBoth(a[1..], b);
    }
  }

  // ---- What is accepted, and what it means ---------------------------------------

  predicate IsNumber(s: Segment) {
    && AllDigits(s.whole)
    && (s.fraction.Some? ==> AllDigits(s.fraction.value))
    && (s.whole == [] ==> s.fraction.Some? && s.fraction.value != [])
  }

  function NumberText(s: Segment): string {
    s.whole + if s.fraction.Some? then ['.'] + s.fraction.value else []
  }

  function SegmentText(s: Segment): string {
    NumberText(s) + UnitText(s.unit)
  }

  function Print(segments: seq<Segment>): string {
    if segments == [] then [] else SegmentText(segments[0]) + Print(segments[1..])
  }

  predicate AllNumbers(segments: seq<Segment>) {
    forall i :: 0 <= i < |segments| ==> IsNumber(segments[i])
  }

  lemma {:induction false} RunIs(run: string, rest: string, number: bool)
    requires (forall i :: 0 <= i < |run| ==> InNumber(run[i]) == number)
    requires rest == [] || InNumber(rest[0]) != number
    ensures RunLength(run + rest, number) == |run|
  {
    if run != [] {
      assert (run + rest)[1..] == run[1..] + rest;
      RunIs(run[1..], rest, number);
    } else {
      assert run + rest == rest;
    }
  }

  lemma {:induction false} PointAfter(whole: string, rest: string)
    requires AllDigits(whole) && (rest == [] || rest[0] == '.')
    ensures FirstPoint(whole + rest) == |whole|
  {
    if whole != [] {
      assert (whole + rest)[1..] == whole[1..] + rest;
      PointAfter(whole[1..], rest);
    } else {
      assert whole + rest == rest;
    }
  }

  lemma NumberIsRead(s: Segment)
    requires IsNumber(s)
    ensures NumberText(s) != [] && AllInNumber(NumberText(s))
    ensures ParseNumber(NumberText(s), s.unit) == Some(s)
  {
    var tail := if s.fraction.Some? then ['.'] + s.fraction.value else [];
    PointAfter(s.whole, tail);
    assert NumberText(s)[..|s.whole|] == s.whole;
    if s.fraction.Some? {
      assert NumberText(s)[|s.whole| + 1..] == s.fraction.value;
    }
  }

  lemma UnitIsRead(unit: Unit)
    ensures ParseUnit(UnitText(unit)) == Some(unit)
    ensures forall i :: 0 <= i < |UnitText(unit)| ==> !InNumber(UnitText(unit)[i]) && !IsSpace(UnitText(unit)[i])
  {
  }

  lemma PrintStartsWithANumber(segments: seq<Segment>)
    requires AllNumbers(segments) && segments != []
    ensures Print(segments) != [] && InNumber(Print(segments)[0])
  {
    NumberIsRead(segments[0]);
  }

  lemma SegmentIsRead(s: Segment, rest: string)
    requires IsNumber(s) && (rest == [] || InNumber(rest[0]))
    ensures ParseFirst(SegmentText(s) + rest) == Some(First(s, rest))
  {
    var number, unit := NumberText(s), UnitText(s.unit);
    var text := number + unit + rest;
    NumberIsRead(s);
    UnitIsRead(s.unit);
    assert text == number + (unit + rest);
    RunIs(number, unit + rest, true);
    assert text[..|number|] == number && text[|number|..] == unit + rest;
    RunIs(unit, rest, false);
    assert (unit + rest)[..|unit|] == unit && (unit + rest)[|unit|..] == rest;
  }

  lemma ReadIsSegment(text: string)
    requires ParseFirst(text).Some?
    ensures var first := ParseFirst(text).value; IsNumber(first.segment) && text == SegmentText(first.segment) + first.rest
  {
    var digits := RunLength(text, true);
    RunIsAlike(text, true);
    var after := text[digits..];
    var unitEnd := RunLength(after, false);
    var s := ParseFirst(text).value.segment;
    NumberHasDigits(text[..digits], s.unit);
    assert text[..digits] == NumberText(s) && after[..unitEnd] == UnitText(s.unit);
    assert text == text[..digits] + after[..unitEnd] + after[unitEnd..];
  }

  lemma ParseFirstConsumes()
    ensures forall text: string {:trigger ParseFirst(text)} ::
              text != [] && ParseFirst(text).Some? ==> |ParseFirst(text).value.rest| < |text|
  {
  }

  /** Whether `first` reads exactly one segment, whatever may follow it. */
  ghost predicate ReadsSegments(first: string -> Option<First>) {
    && (forall s: Segment, rest: string {:trigger first(SegmentText(s) + rest)} ::
          IsNumber(s) && (rest == [] || InNumber(rest[0])) ==> first(SegmentText(s) + rest) == Some(First(s, rest)))
    && (forall text: string {:trigger first(text)} :: first(text).Some? ==>
          IsNumber(first(text).value.segment) && text == SegmentText(first(text).value.segment) + first(text).value.rest)
  }

  lemma ParseFirstReadsSegments()
    ensures ReadsSegments(ParseFirst)
  {
    forall s: Segment, rest: string | IsNumber(s) && (rest == [] || InNumber(rest[0]))
      ensures ParseFirst(SegmentText(s) + rest) == Some(First(s, rest))
    {
      SegmentIsRead(s, rest);
    }
    forall text: string | ParseFirst(text).Some?
      ensures var first := ParseFirst(text).value; IsNumber(first.segment) && text == SegmentText(first.segment) + first.rest
    {
      ReadIsSegment(text);
    }
  }

  /** A printed list of segments reads as that list. */
  lemma {:induction false} PrintedReadsBack(first: string -> Option<First>, segments: seq<Segment>)
    requires ReadsSegments(first) && AllNumbers(segments)
    ensures ReadAll(first, Print(segments)) == Some(segments)
  {
    if segments != [] {
      PrintedReadsBack(first, segments[1..]);
      if segments[1..] != [] {
        PrintStartsWithANumber(segments[1..]);
      }
      PrintStartsWithANumber(segments[..1]);
      assert [segments[0]] + segments[1..] == segments;
    }
  }

  lemma NumberHasDigits(digits: string, unit: Unit)
    requires AllInNumber(digits) && ParseNumber(digits, unit).Some?
    ensures var s := ParseNumber(digits, unit).value; IsNumber(s) && NumberText(s) == digits
  {
    var point := FirstPoint(digits);
    NoPointBefore(digits);
    if point < |digits| {
      NoPointBefore(digits[point + 1..]);
    }
  }

  /** Whatever reads is the printing of what was read. */
  lemma {:induction false} WhatReadsIsPrinted(first: string -> Option<First>, text: string)
    requires ReadsSegments(first) && ReadAll(first, text).Some?
    ensures AllNumbers(ReadAll(first, text).value) && Print(ReadAll(first, text).value) == text
    decreases |text|
  {
    if text != [] {
      var next := first(text).value;
      WhatReadsIsPrinted(first, next.rest);
      assert ReadAll(first, text).value[1..] == ReadAll(first, next.rest).value;
    }
  }

  ghost predicate IsWritten(text: string, segments: seq<Segment>) {
    segments != [] && AllNumbers(segments) && Print(segments) == text
  }

  lemma ReadIffWritten(first: string -> Option<First>, text: string, segments: seq<Segment>)
    requires ReadsSegments(first)
    ensures IsWritten(text, segments) <==> ReadAll(first, text) == Some(segments) && segments != []
  {
    if IsWritten(text, segments) {
      PrintedReadsBack(first, segments);
    }
    if ReadAll(first, text) == Some(segments) {
      WhatReadsIsPrinted(first, text);
    }
  }

  /** Exactly the printed non-empty lists of segments are accepted, spaces around them aside, and each is its sum. */
  lemma AcceptsExactlyPrintedSegments(text: string, seconds: real)
    ensures Parse(text) == Some(seconds) <==> exists segments :: IsWritten(Trim(text), segments) && Sum(segments) == seconds
  {
    ParseFirstReadsSegments();
    var read := ReadAll(ParseFirst, Trim(text));
    if Parse(text).Some? {
      ReadIffWritten(ParseFirst, Trim(text), read.value);
    }
    forall segments | IsWritten(Trim(text), segments) ensures Parse(text) == Some(Sum(segments)) {
      ReadIffWritten(ParseFirst, Trim(text), segments);
    }
  }

  // ---- The numbers -------------------------------------------------------------------

  function NaturalText(n: nat): string {
    if n < 10 then [(n as char) + '0'] else NaturalText(n / 10) + [((n % 10) as char) + '0']
  }

  lemma {:induction false} NaturalReadsBack(n: nat)
    ensures NaturalText(n) != [] && AllDigits(NaturalText(n)) && Digits(NaturalText(n)) == n
  {
    if n < 10 {
      assert NaturalText(n)[..0] == [];
    } else {
      NaturalReadsBack(n / 10);
      assert NaturalText(n)[..|NaturalText(n)| - 1] == NaturalText(n / 10);
    }
  }

  function TenTo(places: nat): real {
    if places == 0 then 1.0 else 10.0 * TenTo(places - 1)
  }

  lemma {:induction false} ShiftedIsDivided(value: real, places: nat)
    ensures Shifted(value, places) * TenTo(places) == value
    decreases places
  {
    if places > 0 {
      ShiftedIsDivided(value / 10.0, places - 1);
      var shifted, power := Shifted(value, places), TenTo(places - 1);
      assert shifted * (10.0 * power) == 10.0 * (shifted * power);
    }
  }

  lemma {:induction false} LeadingZeros(zeros: string, digits: string)
    requires forall i :: 0 <= i < |zeros| ==> zeros[i] == '0'
    ensures Digits(zeros + digits) == Digits(digits)
  {
    var text := zeros + digits;
    if digits != [] {
      assert text[..|text| - 1] == zeros + digits[..|digits| - 1];
      LeadingZeros(zeros, digits[..|digits| - 1]);
    } else if zeros != [] {
      assert text[..|text| - 1] == zeros[..|zeros| - 1] + digits;
      LeadingZeros(zeros[..|zeros| - 1], digits);
    }
  }

  /** The digits of `n`, with any zeros before them, are worth n. */
  lemma DigitsAreWorth(zeros: string, n: nat)
    requires forall i :: 0 <= i < |zeros| ==> zeros[i] == '0'
    ensures Digits(zeros + NaturalText(n)) == n
  {
    NaturalReadsBack(n);
    LeadingZeros(zeros, NaturalText(n));
  }

  /** A point before the last `|fraction|` digits divides by that power of ten. */
  lemma PointDivides(whole: string, fraction: string)
    ensures Decimal(whole, fraction) * TenTo(|fraction|) == Digits(whole + fraction) as real
  {
    ShiftedIsDivided(Digits(whole + fraction) as real, |fraction|);
  }

  // ---- Composition ---------------------------------------------------------------

  lemma {:induction false} PrintOfBoth(a: seq<Segment>, b: seq<Segment>)
    ensures Print(a + b) == Print(a) + Print(b)
  {
    if a == [] {
      assert a + b == b;
    } else {
      assert (a + b)[1..] == a[1..] + b;
      PrintOfBoth(a[1..], b);
    }
  }

  lemma {:induction false} PrintHasNoSpace(segments: seq<Segment>)
    requires AllNumbers(segments)
    ensures forall i :: 0 <= i < |Print(segments)| ==> !IsSpace(Print(segments)[i])
  {
    if segments != [] {
      NumberIsRead(segments[0]);
      UnitIsRead(segments[0].unit);
      PrintHasNoSpace(segments[1..]);
    }
  }

  predicate StartsInSpace(text: string) {
    text != [] && IsSpace(text[0])
  }

  predicate EndsInSpace(text: string) {
    text != [] && IsSpace(text[|text| - 1])
  }

  lemma {:induction false} TrimStartSplits(text: string) returns (spaces: string)
    ensures text == spaces + TrimStart(text) && (spaces != [] <==> StartsInSpace(text))
    ensures !StartsInSpace(TrimStart(text)) && forall i :: 0 <= i < |spaces| ==> IsSpace(spaces[i])
  {
    spaces := [];
    if StartsInSpace(text) {
      spaces := TrimStartSplits(text[1..]);
      spaces := [text[0]] + spaces;
    }
  }

  lemma {:induction false} TrimEndSplits(text: string) returns (spaces: string)
    ensures text == TrimEnd(text) + spaces && (spaces != [] <==> EndsInSpace(text))
    ensures !EndsInSpace(TrimEnd(text)) && forall i :: 0 <= i < |spaces| ==> IsSpace(spaces[i])
  {
    spaces := [];
    if EndsInSpace(text) {
      spaces := TrimEndSplits(text[..|text| - 1]);
      spaces := spaces + [text[|text| - 1]];
    }
  }

  lemma {:induction false} SpacesBefore(spaces: string, text: string)
    requires (forall i :: 0 <= i < |spaces| ==> IsSpace(spaces[i])) && !StartsInSpace(text)
    ensures TrimStart(spaces + text) == text
  {
    if spaces == [] {
      assert spaces + text == text;
    } else {
      assert (spaces + text)[1..] == spaces[1..] + text;
      SpacesBefore(spaces[1..], text);
    }
  }

  lemma {:induction false} SpacesAfter(text: string, spaces: string)
    requires (forall i :: 0 <= i < |spaces| ==> IsSpace(spaces[i])) && !EndsInSpace(text)
    ensures TrimEnd(text + spaces) == text
  {
    if spaces == [] {
      assert text + spaces == text;
    } else {
      assert (text + spaces)[..|text + spaces| - 1] == text + spaces[..|spaces| - 1];
      SpacesAfter(text, spaces[..|spaces| - 1]);
    }
  }

  predicate AllSpace(s: string) {
    forall i :: 0 <= i < |s| ==> IsSpace(s[i])
  }

  /** A text is spaces, what trimming leaves, and spaces. */
  lemma TrimSplits(text: string) returns (before: string, after: string)
    requires Trim(text) != []
    ensures text == before + Trim(text) + after && AllSpace(before) && AllSpace(after)
    ensures !StartsInSpace(Trim(text)) && !EndsInSpace(Trim(text))
    ensures (before != [] <==> StartsInSpace(text)) && (after != [] <==> EndsInSpace(text))
  {
    before := TrimStartSplits(text);
    after := TrimEndSplits(TrimStart(text));
    assert TrimStart(text)[0] == Trim(text)[0];
  }

  lemma TrimIs(before: string, core: string, after: string)
    requires AllSpace(before) && AllSpace(after) && core != [] && !StartsInSpace(core) && !EndsInSpace(core)
    ensures Trim(before + core + after) == core
  {
    assert before + core + after == before + (core + after);
    SpacesBefore(before, core + after);
    SpacesAfter(core, after);
  }

  lemma SpaceDoesNotRead(first: string -> Option<First>, text: string, i: nat)
    requires ReadsSegments(first) && i < |text| && IsSpace(text[i])
    ensures ReadAll(first, text).None?
  {
    if ReadAll(first, text).Some? {
      WhatReadsIsPrinted(first, text);
      PrintHasNoSpace(ReadAll(first, text).value);
    }
  }

  lemma BothRead(first: string -> Option<First>, left: seq<Segment>, right: seq<Segment>)
    requires ReadsSegments(first) && AllNumbers(left) && AllNumbers(right)
    ensures ReadAll(first, Print(left) + Print(right)) == Some(left + right)
  {
    PrintOfBoth(left, right);
    PrintedReadsBack(first, left + right);
  }

  /** Texts that read, one after the other, read as both; with a space between them they do not read. */
  lemma ReadTogetherIff(
      first: string -> Option<First>, a: string, left: seq<Segment>, gap: string, b: string, right: seq<Segment>)
    requires ReadsSegments(first) && AllSpace(gap)
    requires IsWritten(a, left) && IsWritten(b, right)
    ensures ReadAll(first, a + gap + b) == if gap == [] then Some(left + right) else None
  {
    if gap == [] {
      assert a + gap + b == a + b;
      BothRead(first, left, right);
    } else {
      assert (a + gap + b)[|a|] == gap[0];
      SpaceDoesNotRead(first, a + gap + b, |a|);
    }
  }

  lemma CoreHasTheirEnds(a: string, gap: string, b: string)
    requires a != [] && b != [] && !StartsInSpace(a) && !EndsInSpace(b)
    ensures a + gap + b != [] && !StartsInSpace(a + gap + b) && !EndsInSpace(a + gap + b)
  {
    assert (a + gap + b)[0] == a[0] && (a + gap + b)[|a + gap + b| - 1] == b[|b| - 1];
  }

  lemma SixParts(before: string, a: string, gap1: string, gap2: string, b: string, after: string)
    ensures (before + a + gap1) + (gap2 + b + after) == before + (a + (gap1 + gap2) + b) + after
  {
  }

  lemma TrimOfBoth(a: string, b: string) returns (gap: string)
    requires Trim(a) != [] && Trim(b) != []
    ensures Trim(a + b) == Trim(a) + gap + Trim(b)
    ensures AllSpace(gap) && (gap != [] <==> EndsInSpace(a) || StartsInSpace(b))
  {
    var before, gap1 := TrimSplits(a);
    var gap2, after := TrimSplits(b);
    gap := gap1 + gap2;
    SixParts(before, Trim(a), gap1, gap2, Trim(b), after);
    CoreHasTheirEnds(Trim(a), gap, Trim(b));
    TrimIs(before, Trim(a) + gap + Trim(b), after);
  }

  lemma TotalOfBoth(left: seq<Segment>, x: real, right: seq<Segment>, y: real)
    requires left != [] && Sum(left) == x && Sum(right) == y
    ensures Total(Some(left + right)) == Some(x + y)
  {
    SumOfBoth(left, right);
  }

  lemma WhatParses(first: string -> Option<First>, text: string, seconds: real) returns (segments: seq<Segment>)
    requires ReadsSegments(first) && Total(ReadAll(first, text)) == Some(seconds)
    ensures IsWritten(text, segments) && Sum(segments) == seconds
  {
    segments := ReadAll(first, text).value;
    ReadIffWritten(first, text, segments);
  }

  lemma {:induction false} TotalsTogetherIff(first: string -> Option<First>, a: string, x: real, gap: string, b: string, y: real)
    requires ReadsSegments(first) && AllSpace(gap)
    requires Total(ReadAll(first, a)) == Some(x) && Total(ReadAll(first, b)) == Some(y)
    ensures Total(ReadAll(first, a + gap + b)) == if gap == [] then Some(x + y) else None
  {
    var left := WhatParses(first, a, x);
    var right := WhatParses(first, b, y);
    ReadTogetherIff(first, a, left, gap, b, right);
    TotalOfBoth(left, x, right, y);
  }

  /** Two accepted texts side by side are accepted, as their sum, exactly when there is no space between them. */
  lemma {:induction false} ParsesTogetherIff(a: string, x: real, b: string, y: real)
    requires Parse(a) == Some(x) && Parse(b) == Some(y)
    ensures Parse(a + b) == if EndsInSpace(a) || StartsInSpace(b) then None else Some(x + y)
  {
    ParseFirstReadsSegments();
    var gap := TrimOfBoth(a, b);
    TotalsTogetherIff(ParseFirst, Trim(a), x, gap, Trim(b), y);
  }

  // ---- The units --------------------------------------------------------------------

  /** An hour is sixty minutes, a minute sixty seconds, a second a thousand milliseconds. */
  lemma UnitsRelate(x: real)
    ensures InSeconds(x, Seconds) == x && InSeconds(1000.0 * x, Millis) == x
    ensures InSeconds(x, Minutes) == InSeconds(60.0 * x, Seconds) && InSeconds(x, Hours) == InSeconds(60.0 * x, Minutes)
  {
  }

  lemma UnitsAreWritten()
    ensures UnitText(Millis) == "ms" && UnitText(Seconds) == "s" && UnitText(Minutes) == "m" && UnitText(Hours) == "h"
  {
  }

  /** Blanks, tabs and line ends around a text do not matter. */
  lemma SpacesAroundDoNotMatter(before: string, text: string, after: string)
    requires forall i :: 0 <= i < |before| ==> before[i] in {' ', '\t', '\n', '\r'}
    requires forall i :: 0 <= i < |after| ==> after[i] in {' ', '\t', '\n', '\r'}
    ensures Parse(before + text + after) == Parse(text)
  {
    var whole := before + text + after;
    if Trim(text) != [] {
      var b, a := TrimSplits(text);
      assert whole == (before + b) + Trim(text) + (a + after);
      TrimIs(before + b, Trim(text), a + after);
    } else {
      OnlySpaces(text);
      AllTrimmed(whole);
      assert Trim(whole) == Trim(text);
    }
  }

  lemma OnlySpaces(text: string)
    requires Trim(text) == []
    ensures AllSpace(text)
  {
    var spaces := TrimStartSplits(text);
    var others := TrimEndSplits(TrimStart(text));
  }

  lemma {:induction false} AllTrimmed(text: string)
    requires AllSpace(text)
    ensures Trim(text) == []
  {
    if text != [] {
      AllTrimmed(text[1..]);
    }
  }
}
