/**
  The incremental log view (apps/linux/UI/LogsPage.cs): a text buffer and two parallel
  lists, trimmed at the top and appended at the end, brought up to date by one posted
  callback however many changes there were.
 */
module LogView {
  import opened LogText

  /** `posted` counts the callbacks waiting on the main loop. */
  datatype View = View(
    visible: seq<LogEntry>,
    shown: seq<LogEntry>,
    shownLines: seq<nat>,
    buffer: string,
    syncQueued: bool,
    posted: nat)
  {
    /** The lists belong together. */
    predicate Consistent() {
      shownLines == AllLines(shown)
    }

    /** The text is what rendering everything shown would give. */
    predicate IsRender() {
      buffer == Join(shown)
    }
  }

  // ---- The edits, on values -------------------------------------------

  function Appended(v: View, es: seq<LogEntry>): View {
    v.(shown := v.shown + es, shownLines := v.shownLines + AllLines(es), buffer := AppendText(v.buffer, es))
  }

  function Rebuilt(v: View): View {
    Appended(v.(shown := [], shownLines := [], buffer := ""), v.visible)
  }

  /** Where `e` is first shown; past the end if it is not. */
  function FirstIndex(es: seq<LogEntry>, e: LogEntry): (at: nat)
    ensures at <= |es| && e !in es[..at] && (at < |es| ==> es[at] == e)
  {
    if es == [] then 0
    else if es[0] == e then 0
    else
      var rest := FirstIndex(es[1..], e);
      assert es[..1 + rest] == [es[0]] + es[1..][..rest];
      1 + rest
  }

  /** What is still shown from `first` on is how what is visible now begins. */
  predicate Continues(shown: seq<LogEntry>, now: seq<LogEntry>, first: nat) {
    first < |shown| && shown[first..] <= now
  }

  /** What is visible now is what was shown without its first entries, and more below. */
  predicate Trims(shown: seq<LogEntry>, now: seq<LogEntry>) {
    now != [] && Continues(shown, now, FirstIndex(shown, now[0]))
  }

  predicate CanTrim(v: View) {
    Trims(v.shown, v.visible)
  }

  function TrimmedTop(v: View, first: nat): View
    requires first <= |v.shown| && v.Consistent()
  {
    if first == 0 then v else
    v.(shown := v.shown[first..],
       shownLines := v.shownLines[first..],
       buffer := v.buffer[LineStart(v.buffer, Sum(v.shownLines[..first]))..])
  }

  /** The view after a successful trim and append. */
  function Followed(v: View): View
    requires v.Consistent() && CanTrim(v)
  {
    var first := FirstIndex(v.shown, v.visible[0]);
    Appended(TrimmedTop(v, first), v.visible[|v.shown| - first..])
  }

  function Synced(v: View): View
    requires v.Consistent()
  {
    var w := v.(syncQueued := false);
    if CanTrim(w) then Followed(w) else Rebuilt(w)
  }

  datatype Event = Changed(visible: seq<LogEntry>) | ThemeChanged | CallbackRuns

  function Next(v: View, e: Event): View
    requires v.Consistent()
  {
    match e
    case Changed(visible) =>
      var w := v.(visible := visible);
      if v.syncQueued then w else w.(syncQueued := true, posted := v.posted + 1)
    case ThemeChanged => Rebuilt(v)
    case CallbackRuns => if v.posted == 0 then v else Synced(v.(posted := v.posted - 1))
  }

  lemma AppendedIsConsistent(v: View, es: seq<LogEntry>)
    requires v.Consistent()
    ensures Appended(v, es).Consistent()
  {
    assert AllLines(v.shown + es) == AllLines(v.shown) + AllLines(es);
  }

  lemma TrimmedIsConsistent(v: View, first: nat)
    requires first <= |v.shown| && v.Consistent()
    ensures TrimmedTop(v, first).Consistent()
  {
    assert AllLines(v.shown[first..]) == AllLines(v.shown)[first..];
  }

  lemma NextIsConsistent(v: View, e: Event)
    requires v.Consistent()
    ensures Next(v, e).Consistent()
  {
    match e
    case Changed(_) =>
    case ThemeChanged => AppendedIsConsistent(v.(shown := [], shownLines := [], buffer := ""), v.visible);
    case CallbackRuns =>
      if v.posted > 0 {
        SyncedIsConsistent(v.(posted := v.posted - 1));
      }
  }

  lemma SyncedIsConsistent(v: View)
    requires v.Consistent()
    ensures Synced(v).Consistent()
  {
    var w := v.(syncQueued := false);
    if CanTrim(w) {
      var first := FirstIndex(w.shown, w.visible[0]);
      TrimmedIsConsistent(w, first);
      AppendedIsConsistent(TrimmedTop(w, first), w.visible[|w.shown| - first..]);
    } else {
      AppendedIsConsistent(w.(shown := [], shownLines := [], buffer := ""), w.visible);
    }
  }

  /** The page just created over `visible`. */
  function Created(visible: seq<LogEntry>): View {
    Rebuilt(View(visible, [], [], "", false, 0))
  }

  function Run(visible: seq<LogEntry>, events: seq<Event>): (v: View)
    ensures v.Consistent()
  {
    if events == [] then Created(visible)
    else
      var before := Run(visible, events[..|events| - 1]);
      NextIsConsistent(before, events[|events| - 1]);
      Next(before, events[|events| - 1])
  }

  // ---- Coalescing ------------------------------------------------------

  /** In every run at most one callback waits, and the view is out of date only while one does. */
  lemma {:induction false} CoalescingLosesNothing(visible: seq<LogEntry>, events: seq<Event>)
    ensures var v := Run(visible, events);
            && v.posted == (if v.syncQueued then 1 else 0)
            && (v.shown != v.visible ==> v.syncQueued)
  {
    if events != [] {
      var before := Run(visible, events[..|events| - 1]);
      CoalescingLosesNothing(visible, events[..|events| - 1]);
      if events[|events| - 1].CallbackRuns? && before.posted > 0 {
        SyncedShowsVisible(before.(posted := before.posted - 1));
      }
    }
  }

  lemma SyncedShowsVisible(v: View)
    requires v.Consistent()
    ensures Synced(v).shown == v.visible && !Synced(v).syncQueued && Synced(v).posted == v.posted
  {
    var w := v.(syncQueued := false);
    if CanTrim(w) {
      var first := FirstIndex(w.shown, w.visible[0]);
      assert w.shown[first..] == w.visible[..|w.shown| - first];
    }
  }

  // ---- The buffer -------------------------------------------------------

  /** A view opened over `visible` is a full render of it if and only if nothing follows an empty first entry. */
  lemma RebuiltIsRenderIff(v: View)
    ensures Rebuilt(v).IsRender() <==> |v.visible| <= 1 || v.visible[0].text != ""
  {
    AppendIsRenderIff([], v.visible);
    assert [] + v.visible == v.visible;
  }

  /**
    A trim and append keeps a render a render if and only if the page counts the lines it
    cuts off right, and what it appends fits what it kept.
   */
  lemma FollowedIsRenderIff(v: View)
    requires v.Consistent() && v.IsRender() && CanTrim(v)
    ensures var first := FirstIndex(v.shown, v.visible[0]);
            var kept := |v.shown| - first;
            Followed(v).IsRender() <==>
              CutIsRight(v.shown, first) && AppendFits(v.visible[..kept], v.visible[kept..])
  {
    var first := FirstIndex(v.shown, v.visible[0]);
    var kept, rest := v.visible[..|v.shown| - first], v.visible[|v.shown| - first..];
    var t := TrimmedTop(v, first);
    assert t.shown == v.shown[first..] == kept && kept + rest == v.visible;
    CutLeavesTheRestIff(v.shown, first);
    if first == 0 {
      assert v.shown[0..] == v.shown && AllLines(v.shown)[..0] == [] && v.shown[..0] == [];
    } else {
      assert t.buffer == Join(v.shown)[CutAt(v.shown, first)..];
    }
    if CutIsRight(v.shown, first) {
      AppendIsRenderIff(kept, rest);
    } else {
      AppendedToTheWrongText(t.buffer, kept, rest);
    }
  }

  /** Appending does not make good for a cut in the wrong place. */
  lemma AppendedToTheWrongText(text: string, kept: seq<LogEntry>, rest: seq<LogEntry>)
    requires kept != [] && |text| != |Join(kept)|
    ensures AppendText(text, rest) != Join(kept + rest)
  {
    if rest == [] {
      assert kept + rest == kept;
    } else {
      JoinOfBoth(kept, rest);
      if text == "" {
        AppendLength("", rest);
      } else {
        AppendBelow(text, rest);
      }
    }
  }

  /** Nothing follows a first entry that renders to nothing. */
  predicate OpensVisibly(es: seq<LogEntry>) {
    |es| <= 1 || es[0].text != ""
  }

  // ---- All runs -----------------------------------------------------------

  /** The view was given these collections only. */
  ghost predicate Given(allowed: iset<seq<LogEntry>>, visible: seq<LogEntry>, events: seq<Event>) {
    && visible in allowed
    && forall i :: 0 <= i < |events| && events[i].Changed? ==> events[i].visible in allowed
  }

  /** Each of them opens visibly, and where one goes over into another by losing its top, the lines it loses are counted right. */
  ghost predicate Followable(allowed: iset<seq<LogEntry>>) {
    && (forall es :: es in allowed ==> OpensVisibly(es))
    && (forall es, now :: es in allowed && now in allowed && Trims(es, now) ==> CutIsRight(es, FirstIndex(es, now[0])))
  }

  lemma SyncedIsRender(allowed: iset<seq<LogEntry>>, v: View)
    requires v.Consistent() && v.IsRender() && v.shown in allowed && v.visible in allowed && Followable(allowed)
    ensures Synced(v).IsRender() && Synced(v).visible == v.visible
  {
    var w := v.(syncQueued := false);
    if CanTrim(w) {
      FollowedIsRenderIff(w);
      var kept := |w.shown| - FirstIndex(w.shown, w.visible[0]);
      if kept < |w.visible| {
        assert w.visible[..kept][0] == w.visible[0];
      }
    } else {
      RebuiltIsRenderIff(w);
    }
  }

  lemma NextIsRender(allowed: iset<seq<LogEntry>>, v: View, e: Event)
    requires v.Consistent() && v.IsRender() && v.shown in allowed && v.visible in allowed && Followable(allowed)
    requires e.Changed? ==> e.visible in allowed
    ensures Next(v, e).IsRender() && Next(v, e).shown in allowed && Next(v, e).visible in allowed
  {
    match e
    case Changed(_) =>
    case ThemeChanged =>
      RebuiltIsRenderIff(v);
      assert [] + v.visible == v.visible;
    case CallbackRuns =>
      if v.posted > 0 {
        SyncedIsRender(allowed, v.(posted := v.posted - 1));
        SyncedShowsVisible(v.(posted := v.posted - 1));
      }
  }

  lemma {:induction false} RunIsRender(allowed: iset<seq<LogEntry>>, visible: seq<LogEntry>, events: seq<Event>)
    requires Given(allowed, visible, events) && Followable(allowed)
    ensures var v := Run(visible, events); v.IsRender() && v.shown in allowed && v.visible in allowed
  {
    if events == [] {
      RebuiltIsRenderIff(View(visible, [], [], "", false, 0));
      assert [] + visible == visible;
    } else {
      RunIsRender(allowed, visible, events[..|events| - 1]);
      NextIsRender(allowed, Run(visible, events[..|events| - 1]), events[|events| - 1]);
    }
  }

  predicate AllCountRight(es: seq<LogEntry>) {
    forall i :: 0 <= i < |es| ==> CountsRight(es[i])
  }

  /** Every collection the view was ever given opens visibly, and its entries are counted as the lines they take. */
  predicate GivenWell(visible: seq<LogEntry>, events: seq<Event>) {
    && OpensVisibly(visible) && AllCountRight(visible)
    && forall i :: 0 <= i < |events| && events[i].Changed? ==> OpensVisibly(events[i].visible) && AllCountRight(events[i].visible)
  }

  lemma WellIsFollowable(allowed: iset<seq<LogEntry>>)
    requires forall es :: es in allowed ==> OpensVisibly(es) && AllCountRight(es)
    ensures Followable(allowed)
  {
    forall es, now | es in allowed && now in allowed && Trims(es, now)
      ensures CutIsRight(es, FirstIndex(es, now[0]))
    {
      EachCountsRight(es, FirstIndex(es, now[0]));
    }
  }

  /** The incremental view refines the full render: after any run, the buffer is the join of what is shown. */
  lemma {:induction false} ViewIsRender(visible: seq<LogEntry>, events: seq<Event>)
    requires GivenWell(visible, events)
    ensures var v := Run(visible, events);
            && v.buffer == Join(v.shown)
            && |v.shownLines| == |v.shown|
            && (forall i :: 0 <= i < |v.shown| ==> v.shownLines[i] == Breaks(v.shown[i].text + "\n"))
            && (!v.syncQueued ==> v.buffer == Join(v.visible))
  {
    var allowed := iset es: seq<LogEntry> | OpensVisibly(es) && AllCountRight(es);
    WellIsFollowable(allowed);
    CoalescingLosesNothing(visible, events);
    RunIsRender(allowed, visible, events);
  }

  /** The two events that bring a view of `es` to `now`. */
  function To(now: seq<LogEntry>): seq<Event> {
    [Changed(now), CallbackRuns]
  }

  lemma ToIsFollowed(es: seq<LogEntry>, now: seq<LogEntry>)
    requires Trims(es, now)
    ensures var w := Created(es).(visible := now);
            Run(es, []) == Created(es) && CanTrim(w) && Run(es, To(now)) == Followed(w)
  {
    var events := To(now);
    assert [] + es == es;
    assert events[..1] == [Changed(now)] && events[..1][..0] == [];
    assert Run(es, events[..1]) == Next(Created(es), Changed(now));
  }

  /**
    Whatever collections may be given: every view of them is always a full render if and
    only if none has something after a blank first entry, and no lines are counted wrong
    that one of them loses in going over into another.
   */
  lemma {:induction false} ViewIsRenderIff(allowed: iset<seq<LogEntry>>)
    ensures (forall visible, events :: Given(allowed, visible, events) ==> Run(visible, events).IsRender())
       <==> Followable(allowed)
  {
    if Followable(allowed) {
      forall visible, events | Given(allowed, visible, events)
        ensures Run(visible, events).IsRender()
      {
        RunIsRender(allowed, visible, events);
      }
    } else if es :| es in allowed && !OpensVisibly(es) {
      RebuiltIsRenderIff(View(es, [], [], "", false, 0));
      assert Given(allowed, es, []) && !Run(es, []).IsRender();
    } else {
      var es, now :| es in allowed && now in allowed && Trims(es, now) && !CutIsRight(es, FirstIndex(es, now[0]));
      WrongCountShows(es, now);
      assert Given(allowed, es, To(now));
    }
  }

  lemma WrongCountShows(es: seq<LogEntry>, now: seq<LogEntry>)
    requires OpensVisibly(es) && Trims(es, now) && !CutIsRight(es, FirstIndex(es, now[0]))
    ensures !Run(es, To(now)).IsRender()
  {
    var w := Created(es).(visible := now);
    ToIsFollowed(es, now);
    RebuiltIsRenderIff(View(es, [], [], "", false, 0));
    assert [] + es == es;
    assert w.shown == es && w.IsRender();
    FollowedIsRenderIff(w);
  }

  lemma SecondLine(end: char, rest: string)
    requires (end == '\r' || end == '\n') && rest != "" && rest[0] != '\n'
    ensures LineStart(['a', end] + rest, 1) == 2
  {
    var text := ['a', end] + rest;
    assert text[1..] == [end] + rest && text[1..][1..] == rest;
    assert LineStart(rest, 0) == 0;
  }

  /**
    A carriage return in an entry, shown as it is or as a newline, ends a line the page does
    not count: when the entry goes, the rest of it stays.
   */
  lemma CarriageReturnBreaksTheView(a: LogEntry, c: LogEntry)
    requires (a.text == "a\rb" || a.text == "a\nb") && c.text == "c" && Newlines(a.markup) == 0 && a != c
    ensures var v := Run([a, c], To([c]));
            Run([a, c], []).IsRender() && v.shown == [c] && !v.syncQueued && v.buffer == "b\nc"
  {
    var es := [a, c];
    assert FirstIndex(es, c) == 1 && es[1..] == [c];
    ToIsFollowed(es, [c]);
    RebuiltIsRenderIff(View(es, [], [], "", false, 0));
    assert [] + es == es;
    var text := Join(es);
    assert Join([c]) == c.text && text == a.text + "\n" + c.text;
    assert text == ['a', a.text[1]] + "b\nc";
    var lines := AllLines(es)[..1];
    assert lines == [1] && lines[1..] == [] && Sum(lines) == 1;
    SecondLine(a.text[1], "b\nc");
    assert text[2..] == "b\nc" && [c][1..] == [];
  }

  lemma OpenedOnABlank(blank: LogEntry, a: LogEntry)
    requires blank.text == "" && a.text == "a" && Newlines(blank.markup) == Newlines(a.markup) == 0
    ensures Run([blank, a], []) == View([blank, a], [blank, a], [1, 1], "a", false, 0)
  {
    var es := [blank, a];
    assert AppendText("", es) == AppendText("", [a]) == "a" by {
      assert es[1..] == [a] && "" + blank.text == "" && "" + a.text == "a" && [a][1..] == [];
    }
    assert AllLines(es) == [1, 1];
  }

  /**
    What the condition is for: a blank first line and an entry after it lose their
    separator, and the next trim of the top then deletes the second entry's text as well.
   */
  lemma BlankFirstEntryBreaksTheView(blank: LogEntry, a: LogEntry, b: LogEntry)
    requires blank.text == "" && a.text == "a" && b.text == "b" && blank != a
    requires Newlines(blank.markup) == Newlines(a.markup) == 0
    ensures var v := Run([blank, a], [Changed([a, b]), CallbackRuns]);
            && !Run([blank, a], []).IsRender()
            && v.shown == [a, b] && !v.syncQueued && v.buffer == "b" && Join(v.shown) == "a\nb"
  {
    var es := [blank, a];
    var v0 := Run(es, []);
    OpenedOnABlank(blank, a);
    assert Join([a]) == "a" && es[1..] == [a];
    var events := [Changed([a, b]), CallbackRuns];
    assert events[..1] == [Changed([a, b])] && events[..1][..0] == [];
    var v1 := Next(v0, events[0]);
    assert Run(es, events[..1]) == v1;
    assert FirstIndex(es, a) == 1;
    assert es[1..] == [a] == [a, b][..1];
    assert v1.shownLines[..1] == [1] && Sum([1]) == 1 by {
      assert [1][1..] == [];
    }
    assert LineStart("a", 1) == 1 by {
      assert "a"[1..] == "";
    }
    var w := v1.(posted := 0, syncQueued := false);
    assert CanTrim(w);
    var t := TrimmedTop(w, 1);
    assert t.buffer == "";
    assert [a, b][1..] == [b] && AppendText("", [b]) == "b" by {
      assert "" + b.text == "b" && [b][1..] == [];
    }
    assert Run(es, events) == Followed(w);
    assert [a, b][1..] == [b] && Join([b]) == "b";
  }

  // ---- When trimming is possible -----------------------------------------

  predicate Distinct(es: seq<LogEntry>) {
    forall i, j :: 0 <= i < j < |es| ==> es[i] != es[j]
  }

  /** A non-empty suffix of what is shown begins what is visible. */
  predicate Overlaps(shown: seq<LogEntry>, now: seq<LogEntry>) {
    exists first :: 0 <= first < |shown| && shown[first..] <= now
  }

  /** For distinct entries a trim succeeds exactly when some non-empty suffix of what is shown begins what is visible. */
  lemma {:induction false} TrimsIffOverlapping(v: View)
    requires Distinct(v.shown)
    ensures CanTrim(v) <==> Overlaps(v.shown, v.visible)
  {
    if Overlaps(v.shown, v.visible) {
      var first :| 0 <= first < |v.shown| && v.shown[first..] <= v.visible;
      assert v.visible[0] == v.shown[first..][0] == v.shown[first];
      var at := FirstIndex(v.shown, v.visible[0]);
      assert forall k :: 0 <= k < at ==> v.shown[..at][k] == v.shown[k] != v.visible[0];
      assert at <= first;
    }
  }

  // ---- What is shown is what was given last -------------------------------------

  function LastGiven(visible: seq<LogEntry>, events: seq<Event>): seq<LogEntry> {
    if events == [] then visible
    else if events[|events| - 1].Changed? then events[|events| - 1].visible
    else LastGiven(visible, events[..|events| - 1])
  }

  /** The page shows the collection as it was given last; right after a theme change, and whenever no callback waits. */
  lemma {:induction false} ShowsWhatWasGivenLast(visible: seq<LogEntry>, events: seq<Event>)
    ensures var v := Run(visible, events);
            && v.visible == LastGiven(visible, events)
            && (!v.syncQueued || events == [] || events[|events| - 1].ThemeChanged? ==> v.shown == LastGiven(visible, events))
  {
    CoalescingLosesNothing(visible, events);
    assert [] + visible == visible;
    if events != [] {
      var before := Run(visible, events[..|events| - 1]);
      ShowsWhatWasGivenLast(visible, events[..|events| - 1]);
      assert [] + before.visible == before.visible;
      if events[|events| - 1].CallbackRuns? && before.posted > 0 {
        SyncedShowsVisible(before.(posted := before.posted - 1));
      }
    }
  }
}
