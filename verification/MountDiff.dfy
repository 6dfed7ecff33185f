/** The mount listener: compare the mount table with a saved copy, report the difference, save again. */
module MountDiff {
  import opened Options
  import opened Tokens

  /** MSG_BUFF, the size of a line buffer. */
  const MSG_BUFF := 4096

  /** How much one fgets reads: up to a newline, the buffer's room or the end. */
  function LineLength(s: string, room: nat): (n: nat)
    ensures n <= |s| && n <= room
    ensures s != [] && room > 0 ==> n > 0
  {
    if s == [] || room == 0 then 0
    else if s[0] == '\n' then 1
    else 1 + LineLength(s[1..], room - 1)
  }

  /** What successive fgets calls return. */
  function Lines(s: string): seq<string>
    decreases |s|
  {
    if s == [] then []
    else
      var n := LineLength(s, MSG_BUFF - 1);
      [s[..n]] + Lines(s[n..])
  }

  /** A difference the listener acts on. */
  datatype Event = Mount(line: string) | Umount(line: string)

  /** The lines of `more` that `less` does not have. */
  function Extra(more: seq<string>, less: seq<string>): seq<string> {
    if more == [] then []
    else (if more[0] in less then [] else [more[0]]) + Extra(more[1..], less)
  }

  function Report(mount: bool, lines: seq<string>): (r: seq<Event>)
    ensures |r| == |lines|
  {
    seq(|lines|, i requires 0 <= i < |lines| => if mount then Mount(lines[i]) else Umount(lines[i]))
  }

  /** What one compare reports, from the saved lines to the current ones. */
  function Events(saved: seq<string>, current: seq<string>): seq<Event> {
    if |current| > |saved| then Report(true, Extra(current, saved))
    else if |current| < |saved| then Report(false, Extra(saved, current))
    else []
  }

  /** What one compare leaves in the saved copy: nothing is copied when the line counts agree. */
  function Saved(saved: seq<string>, current: seq<string>): seq<string> {
    if |current| == |saved| then saved else current
  }

  // print_dev.

  /** A line print_dev can take apart. */
  predicate HasDevice(line: string) {
    Strtok(line, {' '}).Token?
  }

  predicate AllHaveDevice(lines: seq<string>) {
    forall i :: 0 <= i < |lines| ==> HasDevice(lines[i])
  }

  predicate IsDiskAlias(device: string) {
    "/dev/disk/" <= device
  }

  /** A call of the save-udev script. */
  datatype Call = Call(device: string, action: string)

  function CallsOf(events: seq<Event>): seq<Call> {
    if events == [] then []
    else CallOf(events[0]) + CallsOf(events[1..])
  }

  function CallOf(e: Event): seq<Call> {
    var t := Strtok(e.line, {' '});
    if t.NoToken? || IsDiskAlias(t.text) then []
    else [Call(t.text, if e.Mount? then "mount" else "umount")]
  }

  // Facts about the pure parts that the loops use.

  lemma {:induction false} LinesConcat(s: string)
    ensures Flat(Lines(s)) == s
    decreases |s|
  {
    if s != [] {
      var n := LineLength(s, MSG_BUFF - 1);
      LinesConcat(s[n..]);
      assert s == s[..n] + s[n..];
    }
  }

  function Flat(lines: seq<string>): string {
    if lines == [] then [] else lines[0] + Flat(lines[1..])
  }

  lemma LinesNext(s: string)
    requires s != []
    ensures var n := LineLength(s, MSG_BUFF - 1);
            n > 0 && Lines(s) == [s[..n]] + Lines(s[n..])
  {}

  lemma {:induction false} CallsAppend(a: seq<Event>, b: seq<Event>)
    ensures CallsOf(a + b) == CallsOf(a) + CallsOf(b)
  {
    hide CallOf;
    if a == [] {
      assert a + b == b;
    } else {
      assert (a + b)[1..] == a[1..] + b;
      CallsAppend(a[1..], b);
    }
  }

  lemma CallsOne(e: Event)
    ensures CallsOf([e]) == CallOf(e)
  {
    hide CallOf;
    assert [e][1..] == [];
    assert CallOf(e) + [] == CallOf(e);
  }

  lemma ReportNext(mount: bool, line: string, lines: seq<string>)
    ensures Report(mount, [line] + lines) == [if mount then Mount(line) else Umount(line)] + Report(mount, lines)
    ensures Report(mount, []) == []
  {}

  class MountListener {
    /** The file watched and the saved copy; None is a file that cannot be opened. */
    var table: Option<string>
    var copy: Option<string>
    /** What has been reported so far. */
    ghost var events: seq<Event>
    var calls: seq<Call>

    ghost predicate Valid()
      reads this
    {
      calls == CallsOf(events)
    }

    constructor (table: Option<string>)
      ensures this.table == table && copy == None && events == [] && Valid()
    {
      this.table, copy, events, calls := table, None, [], [];
    }

    /** sync_files: copy the watched file, character by character. */
    method SyncFiles()
      modifies this`copy
      ensures copy == if table.Some? then table else old(copy)
    {
      if table.None? {
        return;
      }
      var input, output := table.value, "";
      var i := 0;
      while i < |input|
        invariant i <= |input| && output == input[..i]
      {
        output := output + [input[i]];
        i := i + 1;
      }
      assert input[..|input|] == input;
      copy := Some(output);
    }

    /** print_dev: the script is called for every device that is no alias under /dev/disk. */
    method PrintDev(line: string, mount: bool)
      requires HasDevice(line) && Valid()
      modifies this`calls, this`events
      ensures events == old(events) + [if mount then Mount(line) else Umount(line)] && Valid()
    {
      ghost var e := if mount then Mount(line) else Umount(line);
      CallsAppend(events, [e]);
      CallsOne(e);
      events := events + [e];
      var output := Strtok(line, {' '}).text;
      if "/dev/disk/" <= output {
        return;
      }
      calls := calls + [Call(output, if mount then "mount" else "umount")];
    }

    /** compare: -1 without both files, 1 for equally many lines, 0 after a report and a sync. */
    method Compare() returns (code: int)
      requires Valid()
      requires table.Some? ==> AllHaveDevice(Lines(table.value))
      requires copy.Some? ==> AllHaveDevice(Lines(copy.value))
      modifies this`copy, this`events, this`calls
      ensures Valid()
      ensures old(copy).None? || table.None? ==> code == -1 && copy == old(copy) && events == old(events)
      ensures old(copy).Some? && table.Some? ==>
                var saved, current := Lines(old(copy).value), Lines(table.value);
                && code == (if |saved| == |current| then 1 else 0)
                && events == old(events) + Events(saved, current)
                && copy.Some? && Lines(copy.value) == Saved(saved, current)
                && (code == 0 ==> copy == table)
    {
      hide Lines, HasDevice, CallsOf;
      var n1 := GetNumLines(table);
      var n2 := GetNumLines(copy);
      if n1 == -1 || n2 == -1 {
        return -1;
      }
      assert events + [] == events;
      if n1 == n2 {
        return 1;
      }
      if n1 > n2 {
        ReportExtra(table.value, copy.value, true);
      } else {
        ReportExtra(copy.value, table.value, false);
      }
      SyncFiles();
      code := 0;
    }

    /** The loop over the lines of the longer file. */
    method ReportExtra(longer: string, shorter: string, mount: bool)
      requires Valid() && AllHaveDevice(Lines(longer))
      modifies this`events, this`calls
      ensures Valid()
      ensures events == old(events) + Report(mount, Extra(Lines(longer), Lines(shorter)))
    {
      hide *;
      ghost var less := Lines(shorter);
      ghost var goal := events + Report(mount, Extra(Lines(longer), less));
      var rest := longer;
      while rest != []
        invariant Valid() && AllHaveDevice(Lines(rest))
        invariant events + Report(mount, Extra(Lines(rest), less)) == goal
        decreases |rest|
      {
        var line, behind := Fgets(rest);
        ExtraNext(line, Lines(behind), less);
        DeviceNext(line, Lines(behind));
        var dev := FindLine(line, shorter);
        if !dev {
          ReportNext(mount, line, Extra(Lines(behind), less));
          ghost var here := Report(mount, Extra(Lines(behind), less));
          assert events + ([if mount then Mount(line) else Umount(line)] + here)
              == (events + [if mount then Mount(line) else Umount(line)]) + here;
          PrintDev(line, mount);
        }
        rest := behind;
      }
      NothingLeft(mount, less);
    }
  }

  /** fgets, on a text that is not used up. */
  method Fgets(s: string) returns (line: string, rest: string)
    requires s != []
    ensures Lines(s) == [line] + Lines(rest) && |rest| < |s|
  {
    LinesNext(s);
    var n := LineLength(s, MSG_BUFF - 1);
    return s[..n], s[n..];
  }

  /** getnumlines */
  method GetNumLines(file: Option<string>) returns (lines: int)
    ensures lines == if file.None? then -1 else |Lines(file.value)|
  {
    hide *;
    if file.None? {
      return -1;
    }
    lines := 0;
    var rest := file.value;
    while rest != []
      invariant lines + |Lines(rest)| == |Lines(file.value)|
      decreases |rest|
    {
      var line, behind := Fgets(rest);
      rest := behind;
      lines := lines + 1;
    }
    NoLines();
  }

  lemma NoLines()
    ensures Lines([]) == []
  {}

  /** The inner loop: is this line in the other file? */
  method FindLine(line: string, file: string) returns (found: bool)
    ensures found <==> line in Lines(file)
  {
    hide *;
    found := false;
    var rest := file;
    while rest != []
      invariant !found && (line in Lines(file) <==> line in Lines(rest))
      decreases |rest|
    {
      var other, behind := Fgets(rest);
      if other == line {
        return true;
      }
      rest := behind;
    }
    NoLines();
  }

  lemma ExtraNext(line: string, lines: seq<string>, less: seq<string>)
    ensures Extra([line] + lines, less) ==
            if line in less then Extra(lines, less) else [line] + Extra(lines, less)
  {
    assert ([line] + lines)[1..] == lines;
    assert [] + Extra(lines, less) == Extra(lines, less);
  }

  lemma DeviceNext(line: string, lines: seq<string>)
    requires AllHaveDevice([line] + lines)
    ensures HasDevice(line) && AllHaveDevice(lines)
  {
    hide HasDevice;
    var all := [line] + lines;
    assert all[0] == line;
    assert forall i :: 0 <= i < |lines| ==> lines[i] == all[i + 1];
  }

  lemma NothingLeft(mount: bool, less: seq<string>)
    ensures Report(mount, Extra(Lines([]), less)) == []
  {}

  // Runs.

  /** The saved lines after all tables but the first, which the initial sync copies, have been compared. */
  function SavedAfter(tables: seq<seq<string>>): seq<string>
    requires tables != []
  {
    var n := |tables| - 1;
    if n == 0 then tables[0] else Saved(SavedAfter(tables[..n]), tables[n])
  }

  function EventsOver(tables: seq<seq<string>>): seq<Event>
    requires tables != []
  {
    var n := |tables| - 1;
    if n == 0 then [] else EventsOver(tables[..n]) + Events(SavedAfter(tables[..n]), tables[n])
  }

  function AllLines(texts: seq<string>): (r: seq<seq<string>>)
    ensures |r| == |texts|
    ensures forall i :: 0 <= i < |r| ==> r[i] == Lines(texts[i])
  {
    seq(|texts|, i requires 0 <= i < |texts| => Lines(texts[i]))
  }

  lemma FirstLook(tables: seq<seq<string>>)
    requires tables != []
    ensures SavedAfter(tables[..1]) == tables[0] && EventsOver(tables[..1]) == []
  {}

  lemma NextLook(tables: seq<seq<string>>, k: nat)
    requires 1 <= k < |tables|
    ensures SavedAfter(tables[..k + 1]) == Saved(SavedAfter(tables[..k]), tables[k])
    ensures EventsOver(tables[..k + 1]) == EventsOver(tables[..k]) + Events(SavedAfter(tables[..k]), tables[k])
  {
    hide Events, Saved;
    assert tables[..k + 1][..k] == tables[..k];
  }

  /** main: sync once, then compare whenever poll reports; texts[k] is what the table holds at the k-th look. */
  method Watch(texts: seq<string>) returns (listener: MountListener)
    requires texts != []
    requires forall i :: 0 <= i < |texts| ==> AllHaveDevice(Lines(texts[i]))
    ensures fresh(listener) && listener.Valid()
    ensures listener.events == EventsOver(AllLines(texts))
    ensures listener.copy.Some? && Lines(listener.copy.value) == SavedAfter(AllLines(texts))
  {
    hide Lines, HasDevice, AllHaveDevice, Events, Saved, SavedAfter, EventsOver, AllLines, CallsOf;
    listener := new MountListener(Some(texts[0]));
    listener.SyncFiles();
    ghost var tables := AllLines(texts);
    FirstLook(tables);
    for k := 1 to |texts|
      invariant fresh(listener) && listener.Valid()
      invariant listener.copy.Some? && Lines(listener.copy.value) == SavedAfter(tables[..k])
      invariant AllHaveDevice(Lines(listener.copy.value))
      invariant listener.events == EventsOver(tables[..k])
    {
      listener.table := Some(texts[k]);
      SavedHasDevice(SavedAfter(tables[..k]), Lines(texts[k]));
      NextLook(tables, k);
      var code := listener.Compare();
    }
    assert tables[..|texts|] == tables;
  }

  lemma SavedHasDevice(saved: seq<string>, current: seq<string>)
    requires AllHaveDevice(saved) && AllHaveDevice(current)
    ensures AllHaveDevice(Saved(saved, current))
  {}
}
