/** Text that is a join of lines: what the log view's buffer holds. */
module LogText {

  /** A shown log entry; two entries are the same only if they are the same object. */
  class LogEntry {
    /** What is inserted, and the text it is shown as. */
    const markup: string
    const text: string

    constructor (markup: string, text: string)
      ensures this.markup == markup && this.text == text
    {
      this.markup := markup;
      this.text := text;
    }
  }

  const PARAGRAPH_SEPARATOR: char := '\U{2029}'

  function Newlines(s: string): nat {
    if s == "" then 0 else (if s[0] == '\n' then 1 else 0) + Newlines(s[1..])
  }

  /** How many text lines the page counts an entry as. */
  function LinesOf(e: LogEntry): nat {
    1 + Newlines(e.markup)
  }

  function AllLines(es: seq<LogEntry>): seq<nat> {
    seq(|es|, i requires 0 <= i < |es| => LinesOf(es[i]))
  }

  function Sum(ns: seq<nat>): nat {
    if ns == [] then 0 else ns[0] + Sum(ns[1..])
  }

  /** The full render: the entries' texts, one newline between them. */
  function Join(es: seq<LogEntry>): string {
    if es == [] then "" else if |es| == 1 then es[0].text else es[0].text + "\n" + Join(es[1..])
  }

  // ---- The text buffer's lines ---------------------------------------------

  /** The buffer ends a line at LF, CR, CR LF and the paragraph separator. */
  predicate EndsLine(s: string)
    requires s != ""
  {
    s[0] == '\n' || s[0] == PARAGRAPH_SEPARATOR || (s[0] == '\r' && !(|s| > 1 && s[1] == '\n'))
  }

  /** Where the text line `line` begins; a line past the last one begins at the end. */
  function LineStart(s: string, line: nat): (at: nat)
    ensures at <= |s|
  {
    if line == 0 || s == "" then 0
    else 1 + LineStart(s[1..], if EndsLine(s) then line - 1 else line)
  }

  /** How many line ends there are. */
  function Breaks(s: string): nat {
    if s == "" then 0 else (if EndsLine(s) then 1 else 0) + Breaks(s[1..])
  }

  predicate IsWholeLines(s: string) {
    s == "" || s[|s| - 1] == '\n'
  }

  lemma {:induction false} BreaksOfBoth(a: string, b: string)
    requires IsWholeLines(a)
    ensures Breaks(a + b) == Breaks(a) + Breaks(b)
  {
    if a == "" {
      assert a + b == b;
    } else {
      assert (a + b)[1..] == a[1..] + b;
      assert EndsLine(a + b) == EndsLine(a);
      BreaksOfBoth(a[1..], b);
    }
  }

  /** After whole lines, the text that follows begins at exactly the line they make. */
  lemma {:induction false} LineStartAfter(a: string, b: string, line: nat)
    requires IsWholeLines(a)
    ensures line < Breaks(a) ==> LineStart(a + b, line) < |a|
    ensures line >= Breaks(a) ==> LineStart(a + b, line) == |a| + LineStart(b, line - Breaks(a))
  {
    if a == "" {
      assert a + b == b;
    } else {
      assert (a + b)[1..] == a[1..] + b;
      assert EndsLine(a + b) == EndsLine(a);
      if line > 0 {
        LineStartAfter(a[1..], b, if EndsLine(a) then line - 1 else line);
      } else {
        HasBreak(a);
      }
    }
  }

  lemma {:induction false} HasBreak(a: string)
    requires a != "" && IsWholeLines(a)
    ensures Breaks(a) > 0
  {
    if |a| > 1 {
      HasBreak(a[1..]);
    }
  }

  // ---- Cutting off the top ---------------------------------------------------

  /** The first entries of a longer render. */
  function Top(es: seq<LogEntry>): string {
    if es == [] then "" else es[0].text + "\n" + Top(es[1..])
  }

  /** How many lines they really take. */
  function Taken(es: seq<LogEntry>): nat {
    if es == [] then 0 else Breaks(es[0].text + "\n") + Taken(es[1..])
  }

  lemma {:induction false} TopTakes(es: seq<LogEntry>)
    ensures IsWholeLines(Top(es)) && Breaks(Top(es)) == Taken(es)
  {
    if es != [] {
      TopTakes(es[1..]);
      BreaksOfBoth(es[0].text + "\n", Top(es[1..]));
    }
  }

  lemma {:induction false} JoinFromTop(es: seq<LogEntry>, first: nat)
    requires first < |es|
    ensures Join(es) == Top(es[..first]) + Join(es[first..])
  {
    if first == 0 {
      assert es[0..] == es;
    } else {
      JoinFromTop(es[1..], first - 1);
      assert es[..first][1..] == es[1..][..first - 1] && es[1..][first - 1..] == es[first..];
      assert es[..first][0] == es[0];
    }
  }

  /** What the page counts for the first entries is what they take; past the end of the text more is as good. */
  predicate CutIsRight(es: seq<LogEntry>, first: nat)
    requires first < |es|
  {
    var counted := Sum(AllLines(es)[..first]);
    counted == Taken(es[..first]) || (counted > Taken(es[..first]) && Join(es[first..]) == "")
  }

  /** Where the page cuts a render to drop the first entries. */
  function CutAt(es: seq<LogEntry>, first: nat): (at: nat)
    requires first < |es|
    ensures at <= |Join(es)|
  {
    LineStart(Join(es), Sum(AllLines(es)[..first]))
  }

  /** Deleting the lines counted for the first entries of a render leaves the render of the others if and only if the count is right. */
  lemma CutLeavesTheRestIff(es: seq<LogEntry>, first: nat)
    requires first < |es|
    ensures Join(es)[CutAt(es, first)..] == Join(es[first..]) <==> CutIsRight(es, first)
    ensures |Join(es)| - CutAt(es, first) == |Join(es[first..])| ==> CutIsRight(es, first)
  {
    var top, rest := Top(es[..first]), Join(es[first..]);
    JoinFromTop(es, first);
    TopTakes(es[..first]);
    LineStartAfter(top, rest, Sum(AllLines(es)[..first]));
    assert (top + rest)[|top|..] == rest;
  }

  /** An entry is counted as the lines it takes. */
  predicate CountsRight(e: LogEntry) {
    LinesOf(e) == Breaks(e.text + "\n")
  }

  lemma {:induction false} EachCountsRight(es: seq<LogEntry>, first: nat)
    requires first < |es| && forall i :: 0 <= i < first ==> CountsRight(es[i])
    ensures Sum(AllLines(es)[..first]) == Taken(es[..first])
  {
    if first > 0 {
      EachCountsRight(es[1..], first - 1);
      assert AllLines(es)[..first][1..] == AllLines(es[1..])[..first - 1];
      assert es[..first][1..] == es[1..][..first - 1] && es[..first][0] == es[0];
    }
  }

  // ---- Which entries are counted right ---------------------------------------

  predicate IsPlainAt(s: string, i: nat)
    requires i < |s|
  {
    s[i] != PARAGRAPH_SEPARATOR && (s[i] == '\r' ==> i + 1 < |s| && s[i + 1] == '\n')
  }

  /** No line end but LF and CR LF. */
  predicate PlainLineEnds(s: string) {
    forall i :: 0 <= i < |s| ==> IsPlainAt(s, i)
  }

  lemma PlainFromSecond(s: string)
    requires s != ""
    ensures PlainLineEnds(s) <==> PlainLineEnds(s[1..]) && (EndsLine(s) ==> s[0] == '\n')
  {
    assert IsPlainAt(s, 0) <==> (EndsLine(s) ==> s[0] == '\n');
    forall i | 0 < i < |s|
      ensures IsPlainAt(s, i) <==> IsPlainAt(s[1..], i - 1)
    {
    }
    assert PlainLineEnds(s) ==> forall i :: 0 <= i < |s[1..]| ==> IsPlainAt(s, i + 1) && IsPlainAt(s[1..], i);
  }

  lemma {:induction false} BreaksAreNewlinesIff(s: string)
    ensures Breaks(s) >= Newlines(s)
    ensures Breaks(s) == Newlines(s) <==> PlainLineEnds(s)
  {
    if s != "" {
      BreaksAreNewlinesIff(s[1..]);
      PlainFromSecond(s);
    }
  }

  lemma {:induction false} NewlinesSnoc(s: string)
    ensures Newlines(s + "\n") == Newlines(s) + 1
  {
    if s == "" {
      assert s + "\n" == "\n" && "\n"[1..] == "";
    } else {
      assert (s + "\n")[1..] == s[1..] + "\n";
      NewlinesSnoc(s[1..]);
    }
  }

  /** Where the shown text has the newlines of the markup, an entry is counted right if and only if no line of it ends in anything but LF or CR LF. */
  lemma CountsRightIff(e: LogEntry)
    requires Newlines(e.text) == Newlines(e.markup)
    ensures CountsRight(e) <==> PlainLineEnds(e.text + "\n")
  {
    NewlinesSnoc(e.text);
    BreaksAreNewlinesIff(e.text + "\n");
  }

  /** What a markup parser may make of carriage returns: CR LF and CR alone are LF. */
  function Normalised(s: string): string {
    if s == "" then ""
    else if s[0] == '\r' then "\n" + Normalised(if |s| > 1 && s[1] == '\n' then s[2..] else s[1..])
    else [s[0]] + Normalised(s[1..])
  }

  lemma {:induction false} NormalisedBreaks(s: string)
    ensures Breaks(Normalised(s) + "\n") >= Newlines(s) + 1
    ensures Breaks(Normalised(s) + "\n") == Newlines(s) + 1 <==> PlainLineEnds(s)
  {
    if s == "" {
      assert "" + "\n" == "\n" && "\n"[1..] == "";
    } else {
      PlainFromSecond(s);
      var shown := Normalised(s) + "\n";
      if s[0] == '\r' && |s| > 1 && s[1] == '\n' {
        PlainFromSecond(s[1..]);
        assert s[1..][1..] == s[2..] && shown[1..] == Normalised(s[2..]) + "\n";
        NormalisedBreaks(s[2..]);
      } else {
        assert shown[1..] == Normalised(s[1..]) + "\n";
        NormalisedBreaks(s[1..]);
      }
    }
  }

  /** Where the markup's carriage returns are shown as newlines, an entry is counted right if and only if its markup has plain line ends. */
  lemma NormalisedCountsRightIff(e: LogEntry)
    requires e.text == Normalised(e.markup)
    ensures CountsRight(e) <==> PlainLineEnds(e.markup)
  {
    NormalisedBreaks(e.markup);
  }

  /** However the entries are shown, if none of them is counted as more than it takes, the top is cut right if and only if each entry cut off is counted right. */
  lemma CutIsRightIffEach(es: seq<LogEntry>, first: nat)
    requires first < |es| && forall i :: 0 <= i < first ==> LinesOf(es[i]) <= Breaks(es[i].text + "\n")
    ensures CutIsRight(es, first) <==> forall i :: 0 <= i < first ==> CountsRight(es[i])
  {
    CountedAtMost(es, first);
  }

  lemma {:induction false} CountedAtMost(es: seq<LogEntry>, first: nat)
    requires first < |es| && forall i :: 0 <= i < first ==> LinesOf(es[i]) <= Breaks(es[i].text + "\n")
    ensures Sum(AllLines(es)[..first]) <= Taken(es[..first])
    ensures Sum(AllLines(es)[..first]) == Taken(es[..first]) <==> forall i :: 0 <= i < first ==> CountsRight(es[i])
  {
    if first > 0 {
      CountedAtMost(es[1..], first - 1);
      assert AllLines(es)[..first][1..] == AllLines(es[1..])[..first - 1];
      assert es[..first][1..] == es[1..][..first - 1] && es[..first][0] == es[0];
      assert (forall i :: 0 <= i < first ==> CountsRight(es[i]))
        <==> CountsRight(es[0]) && (forall i :: 0 <= i < first - 1 ==> CountsRight(es[1..][i])) by {
        assert forall i :: 0 <= i < first - 1 ==> es[1..][i] == es[i + 1];
        assert forall i :: 0 < i < first ==> es[i] == es[1..][i - 1];
      }
    }
  }

  /** Shown with the newlines of their markup: the top is cut right if and only if every entry cut off has plain line ends. */
  lemma CutIsRightIffPlain(es: seq<LogEntry>, first: nat)
    requires first < |es| && forall i :: 0 <= i < first ==> Newlines(es[i].text) == Newlines(es[i].markup)
    ensures CutIsRight(es, first) <==> forall i :: 0 <= i < first ==> PlainLineEnds(es[i].text + "\n")
  {
    forall i | 0 <= i < first
      ensures LinesOf(es[i]) <= Breaks(es[i].text + "\n") && (CountsRight(es[i]) <==> PlainLineEnds(es[i].text + "\n"))
    {
      NewlinesSnoc(es[i].text);
      BreaksAreNewlinesIff(es[i].text + "\n");
      CountsRightIff(es[i]);
    }
    CutIsRightIffEach(es, first);
  }

  /** Shown with newlines for carriage returns: if and only if every markup has plain line ends. */
  lemma NormalisedCutIsRightIff(es: seq<LogEntry>, first: nat)
    requires first < |es| && forall i :: 0 <= i < first ==> es[i].text == Normalised(es[i].markup)
    ensures CutIsRight(es, first) <==> forall i :: 0 <= i < first ==> PlainLineEnds(es[i].markup)
  {
    forall i | 0 <= i < first
      ensures LinesOf(es[i]) <= Breaks(es[i].text + "\n") && (CountsRight(es[i]) <==> PlainLineEnds(es[i].markup))
    {
      NormalisedBreaks(es[i].markup);
      NormalisedCountsRightIff(es[i]);
    }
    CutIsRightIffEach(es, first);
  }

  // ---- Appending -----------------------------------------------------------

  /** What appending does to the text: a newline goes before an entry unless there is no text yet. */
  function AppendText(text: string, es: seq<LogEntry>): string
    decreases es
  {
    if es == [] then text
    else AppendText((if |text| > 0 then text + "\n" else text) + es[0].text, es[1..])
  }

  /** Once there is text, appending puts the render of the rest below it. */
  lemma {:induction false} AppendBelow(text: string, es: seq<LogEntry>)
    requires text != "" && es != []
    ensures AppendText(text, es) == text + "\n" + Join(es)
    decreases es
  {
    if |es| == 1 {
      assert es[1..] == [];
    } else {
      AppendBelow(text + "\n" + es[0].text, es[1..]);
      assert text + "\n" + es[0].text + "\n" + Join(es[1..]) == text + "\n" + (es[0].text + "\n" + Join(es[1..]));
    }
  }

  lemma {:induction false} JoinOfBoth(a: seq<LogEntry>, b: seq<LogEntry>)
    requires a != [] && b != []
    ensures Join(a + b) == Join(a) + "\n" + Join(b)
  {
    JoinFromTop(a + b, |a|);
    assert (a + b)[..|a|] == a && (a + b)[|a|..] == b;
    TopOfAll(a);
  }

  lemma {:induction false} TopOfAll(a: seq<LogEntry>)
    requires a != []
    ensures Top(a) == Join(a) + "\n"
  {
    if |a| > 1 {
      TopOfAll(a[1..]);
    } else {
      assert a[1..] == [];
    }
  }

  /** Once there is text, appending continues the render. */
  lemma AppendToText(shown: seq<LogEntry>, es: seq<LogEntry>)
    requires Join(shown) != ""
    ensures AppendText(Join(shown), es) == Join(shown + es)
  {
    if es == [] {
      assert shown + es == shown;
    } else {
      AppendBelow(Join(shown), es);
      JoinOfBoth(shown, es);
    }
  }

  /** Text is never longer than a render of the same entries with that text before them. */
  lemma {:induction false} AppendLength(text: string, es: seq<LogEntry>)
    ensures |AppendText(text, es)| <= |text| + |Join(es)| + (if es == [] || text == "" then 0 else 1)
    decreases es
  {
    if es != [] {
      AppendLength((if |text| > 0 then text + "\n" else text) + es[0].text, es[1..]);
    }
  }

  /** When appending `es` to a view of `shown` gives what re-rendering would give. */
  predicate AppendFits(shown: seq<LogEntry>, es: seq<LogEntry>) {
    || es == []
    || Join(shown) != ""
    || (shown == [] && (|es| == 1 || es[0].text != ""))
  }

  /** Exactly then: an entry that renders to nothing at the very top swallows the newline after it. */
  lemma AppendIsRenderIff(shown: seq<LogEntry>, es: seq<LogEntry>)
    ensures AppendText(Join(shown), es) == Join(shown + es) <==> AppendFits(shown, es)
  {
    if es == [] {
      assert shown + es == shown;
    } else if Join(shown) != "" {
      AppendToText(shown, es);
    } else if shown == [] {
      assert shown + es == es && [es[0]] + es[1..] == es;
      if es[0].text != "" {
        assert "" + es[0].text == es[0].text == Join([es[0]]);
        AppendToText([es[0]], es[1..]);
      } else {
        assert "" + es[0].text == "";
        AppendLength("", es[1..]);
      }
    } else {
      AppendLength("", es);
      EmptyTopIsLonger(shown, es);
    }
  }

  /** A non-empty view with an empty render holds one empty entry; a render below it begins with a newline. */
  lemma EmptyTopIsLonger(shown: seq<LogEntry>, es: seq<LogEntry>)
    requires shown != [] && Join(shown) == "" && es != []
    ensures |Join(shown + es)| == |Join(es)| + 1
  {
    assert |shown| > 1 ==> |Join(shown)| >= 1;
    assert (shown + es)[1..] == es;
  }
}
