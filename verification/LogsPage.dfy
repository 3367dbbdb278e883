/**
  The log page's local functions in their own form: the buffer and the lists edited in
  place (apps/linux/UI/LogsPage.cs), each proved to do what LogView says on values.
 */
module LogsPage {
  import opened LogText
  import opened LogView

  class Page {
    var visible: seq<LogEntry>
    var shown: seq<LogEntry>
    var shownLines: seq<nat>
    var buffer: string
    var syncQueued: bool
    var posted: nat
    /** How many entries were rendered so far. */
    var rendered: nat

    ghost function State(): View
      reads this
    {
      View(visible, shown, shownLines, buffer, syncQueued, posted)
    }

    ghost predicate Valid()
      reads this
    {
      State().Consistent()
    }

    constructor (visible: seq<LogEntry>)
      ensures Valid() && State() == Created(visible)
    {
      this.visible := visible;
      shown, shownLines, buffer := [], [], "";
      syncQueued, posted, rendered := false, 0, 0;
      new;
      Rebuild();
    }

    /** Appends `entries` below what is shown, with one insertion. */
    method Append(entries: seq<LogEntry>)
      requires Valid()
      modifies this`shown, this`shownLines, this`buffer, this`rendered
      ensures Valid() && State() == Appended(old(State()), entries)
      ensures rendered == old(rendered) + |entries|
    {
      if |entries| == 0 {
        assert AllLines(entries) == [];
        return;
      }
      var inserted := "";
      assert buffer + inserted == buffer && entries[0..] == entries;
      var i := 0;
      while i < |entries|
        invariant 0 <= i <= |entries|
        invariant shown == old(shown) + entries[..i]
        invariant shownLines == old(shownLines) + AllLines(entries)[..i]
        invariant AppendText(buffer + inserted, entries[i..]) == AppendText(old(buffer), entries)
        invariant buffer == old(buffer) && rendered == old(rendered) + i
      {
        ghost var before := buffer + inserted;
        if |inserted| > 0 || |buffer| > 0 {
          inserted := inserted + "\n";
        }
        var text := entries[i].text;
        inserted := inserted + text;
        rendered := rendered + 1;
        shown := shown + [entries[i]];
        shownLines := shownLines + [1 + Newlines(entries[i].markup)];
        assert entries[i..][1..] == entries[i + 1..];
        assert buffer + inserted == (if |before| > 0 then before + "\n" else before) + text;
        i := i + 1;
      }
      buffer := buffer + inserted;
    }

    /** Renders everything visible from scratch. */
    method Rebuild()
      modifies this`shown, this`shownLines, this`buffer, this`rendered
      ensures Valid() && State() == Rebuilt(old(State()))
      ensures rendered == old(rendered) + |visible|
    {
      buffer := "";
      shown := [];
      shownLines := [];
      Append(visible);
    }

    method FindIndex(entry: LogEntry) returns (at: nat)
      ensures at == FirstIndex(shown, entry)
    {
      at := 0;
      while at < |shown| && shown[at] != entry
        invariant at <= |shown|
        invariant FirstIndex(shown, entry) == at + FirstIndex(shown[at..], entry)
      {
        assert shown[at..][1..] == shown[at + 1..];
        at := at + 1;
      }
    }

    method TakeSum(count: nat) returns (lines: nat)
      requires count <= |shownLines|
      ensures lines == Sum(shownLines[..count])
    {
      lines := 0;
      var i := count;
      while i > 0
        invariant 0 <= i <= count
        invariant lines == Sum(shownLines[i..count])
      {
        assert shownLines[i - 1..count][1..] == shownLines[i..count];
        lines := shownLines[i - 1] + lines;
        i := i - 1;
      }
    }

    /** Whether everything shown from `first` on is, object by object, how `now` begins. */
    method StillShown(now: seq<LogEntry>, first: nat) returns (same: bool)
      requires first < |shown|
      ensures same == Continues(shown, now, first)
    {
      var kept := |shown| - first;
      if kept > |now| {
        return false;
      }
      var i := 0;
      while i < kept
        invariant 0 <= i <= kept
        invariant forall k :: 0 <= k < i ==> shown[first..][k] == now[k]
      {
        if shown[first + i] != now[i] {
          assert shown[first..][i] != now[i];
          return false;
        }
        i := i + 1;
      }
      assert shown[first..] == now[..kept];
      return true;
    }

    /** If what is shown only lost its top and gained at its end, edits the buffer accordingly. */
    method TrimAndAppend() returns (done: bool)
      requires Valid()
      modifies this`shown, this`shownLines, this`buffer, this`rendered
      ensures Valid() && done == CanTrim(old(State()))
      ensures State() == if done then Followed(old(State())) else old(State())
      ensures rendered == old(rendered) + if done then |visible| - (|old(shown)| - FirstIndex(old(shown), visible[0])) else 0
    {
      var now := visible;
      if |shown| == 0 || |now| == 0 {
        return false;
      }
      var first := FindIndex(now[0]);
      if first == |shown| {
        return false;
      }
      var kept := |shown| - first;
      var continued := StillShown(now, first);
      if !continued {
        return false;
      }
      if first > 0 {
        var lines := TakeSum(first);
        var cut := LineStart(buffer, lines);
        buffer := buffer[cut..];
        shown := shown[first..];
        shownLines := shownLines[first..];
      }
      Append(now[kept..]);
      return true;
    }

    /** What is still shown is not rendered again, if the rest can be trimmed off and appended. */
    method Sync()
      requires Valid()
      modifies this
      ensures Valid() && State() == Synced(old(State()))
      ensures rendered == old(rendered) + |visible| -
                if Trims(old(shown), visible) then |old(shown)| - FirstIndex(old(shown), visible[0]) else 0
    {
      syncQueued := false;
      var trimmed := TrimAndAppend();
      if !trimmed {
        Rebuild();
      }
    }

    /** The collection behind the page changed. */
    method OnCollectionChanged(now: seq<LogEntry>)
      requires Valid()
      modifies this
      ensures Valid() && State() == Next(old(State()), Changed(now))
    {
      visible := now;
      if syncQueued {
        return;
      }
      syncQueued := true;
      posted := posted + 1;
    }

    method OnThemeChanged()
      requires Valid()
      modifies this
      ensures Valid() && State() == Next(old(State()), ThemeChanged)
    {
      Rebuild();
    }

    /** The main loop runs one posted callback, if there is one. */
    method RunPosted()
      requires Valid()
      modifies this
      ensures Valid() && State() == Next(old(State()), CallbackRuns)
    {
      if posted > 0 {
        posted := posted - 1;
        Sync();
      }
    }
  }
}
