/** When the reported events tell the truth about the mount table. */
module MountTheory {
  import opened MountDiff
  import opened Tokens

  /** The table as a set of lines. */
  function Table(lines: seq<string>): set<string> {
    set line | line in lines
  }

  /** What a reader of the events believes to be mounted. */
  function Replay(table: set<string>, events: seq<Event>): set<string>
    decreases |events|
  {
    if events == [] then table
    else Replay(match events[0] { case Mount(line) => table + {line} case Umount(line) => table - {line} }, events[1..])
  }

  lemma {:induction false} ReplayAppend(table: set<string>, a: seq<Event>, b: seq<Event>)
    ensures Replay(table, a + b) == Replay(Replay(table, a), b)
    decreases |a|
  {
    if a == [] {
      assert a + b == b;
    } else {
      assert (a + b)[1..] == a[1..] + b;
      var next := match a[0] { case Mount(line) => table + {line} case Umount(line) => table - {line} };
      ReplayAppend(next, a[1..], b);
    }
  }

  lemma {:induction false} ReplayMounts(table: set<string>, lines: seq<string>)
    ensures Replay(table, Report(true, lines)) == table + Table(lines)
    decreases |lines|
  {
    if lines != [] {
      assert Report(true, lines)[1..] == Report(true, lines[1..]);
      ReplayMounts(table + {lines[0]}, lines[1..]);
      TableNext(lines);
    }
  }

  lemma {:induction false} ReplayUmounts(table: set<string>, lines: seq<string>)
    ensures Replay(table, Report(false, lines)) == table - Table(lines)
    decreases |lines|
  {
    if lines != [] {
      assert Report(false, lines)[1..] == Report(false, lines[1..]);
      ReplayUmounts(table - {lines[0]}, lines[1..]);
      TableNext(lines);
    }
  }

  lemma TableNext(lines: seq<string>)
    requires lines != []
    ensures Table(lines) == {lines[0]} + Table(lines[1..])
  {
    assert lines == [lines[0]] + lines[1..];
  }

  lemma {:induction false} ExtraTable(more: seq<string>, less: seq<string>)
    ensures Table(Extra(more, less)) == Table(more) - Table(less)
  {
    if more != [] {
      ExtraTable(more[1..], less);
      TableNext(more);
      if more[0] !in less {
        var extra := Extra(more, less);
        TableNext(extra);
        assert extra[1..] == Extra(more[1..], less);
      } else {
        assert [] + Extra(more[1..], less) == Extra(more[1..], less);
      }
    }
  }

  /** A change the line counts give away: more lines and none gone, fewer and none new, or the same lines. */
  predicate Monotone(before: seq<string>, after: seq<string>) {
    if |after| > |before| then Table(before) <= Table(after)
    else if |after| < |before| then Table(after) <= Table(before)
    else Table(after) == Table(before)
  }

  /** One compare reports the change exactly when the change is monotone. */
  lemma {:induction false} CompareReplays(saved: seq<string>, current: seq<string>)
    ensures Replay(Table(saved), Events(saved, current)) == Table(current) <==> Monotone(saved, current)
  {
    hide Table;
    if |current| > |saved| {
      ReplayMounts(Table(saved), Extra(current, saved));
      ExtraTable(current, saved);
    } else if |current| < |saved| {
      ReplayUmounts(Table(saved), Extra(saved, current));
      ExtraTable(saved, current);
    }
  }

  /** The saved copy always has as many lines as the table last seen. */
  lemma {:induction false} SavedLength(tables: seq<seq<string>>)
    requires tables != []
    ensures |SavedAfter(tables)| == |tables[|tables| - 1]|
  {}

  predicate ReplaysUpTo(tables: seq<seq<string>>, n: nat)
    requires n <= |tables|
  {
    forall k :: 1 <= k <= n ==> Replay(Table(tables[0]), EventsOver(tables[..k])) == Table(tables[k - 1])
  }

  predicate MonotoneUpTo(tables: seq<seq<string>>, n: nat)
    requires n <= |tables|
  {
    forall k :: 1 <= k < n ==> Monotone(tables[k - 1], tables[k])
  }

  /**
   Over any run: replaying the events gives the table after every look if and only if every
   change between two looks is monotone; then the saved copy holds the lines of the table too.
   */
  lemma {:induction false} RunReplays(tables: seq<seq<string>>, n: nat)
    requires 1 <= n <= |tables|
    ensures ReplaysUpTo(tables, n) <==> MonotoneUpTo(tables, n)
    ensures MonotoneUpTo(tables, n) ==>
              forall k :: 1 <= k <= n ==> Table(SavedAfter(tables[..k])) == Table(tables[k - 1])
    decreases n
  {
    hide Table, Replay, Monotone, EventsOver, SavedAfter, Events, Saved;
    if n == 1 {
      StartReplays(tables);
    } else {
      var m := n - 1;
      RunReplays(tables, m);
      UpToNext(tables, m);
      if MonotoneUpTo(tables, m) {
        StepReplays(tables, m);
      }
    }
  }

  lemma StartReplays(tables: seq<seq<string>>)
    requires tables != []
    ensures Replay(Table(tables[0]), EventsOver(tables[..1])) == Table(tables[0])
    ensures SavedAfter(tables[..1]) == tables[0]
  {}

  lemma UpToNext(tables: seq<seq<string>>, m: nat)
    requires 1 <= m < |tables|
    ensures MonotoneUpTo(tables, m + 1) <==> MonotoneUpTo(tables, m) && Monotone(tables[m - 1], tables[m])
    ensures ReplaysUpTo(tables, m + 1) <==>
            ReplaysUpTo(tables, m) && Replay(Table(tables[0]), EventsOver(tables[..m + 1])) == Table(tables[m])
  {
    hide Table, Replay, Monotone, EventsOver;
  }

  lemma {:induction false} StepReplays(tables: seq<seq<string>>, m: nat)
    requires 1 <= m < |tables|
    requires Replay(Table(tables[0]), EventsOver(tables[..m])) == Table(tables[m - 1])
    requires Table(SavedAfter(tables[..m])) == Table(tables[m - 1])
    ensures Replay(Table(tables[0]), EventsOver(tables[..m + 1])) == Table(tables[m])
            <==> Monotone(tables[m - 1], tables[m])
    ensures Monotone(tables[m - 1], tables[m]) ==> Table(SavedAfter(tables[..m + 1])) == Table(tables[m])
  {
    hide Table, Replay, Events;
    var saved, current := SavedAfter(tables[..m]), tables[m];
    assert tables[..m + 1][..m] == tables[..m];
    SavedLength(tables[..m]);
    CompareReplays(saved, current);
    ReplayAppend(Table(tables[0]), EventsOver(tables[..m]), Events(saved, current));
    assert Monotone(saved, current) <==> Monotone(tables[m - 1], current);
  }

  // The changes a mount table goes through.

  predicate Distinct(lines: seq<string>) {
    forall i, j :: 0 <= i < j < |lines| ==> lines[i] != lines[j]
  }

  lemma {:induction false} DistinctSize(lines: seq<string>)
    requires Distinct(lines)
    ensures |Table(lines)| == |lines|
  {
    if lines != [] {
      DistinctSize(lines[1..]);
      TableNext(lines);
      assert lines[0] !in lines[1..];
    }
  }

  /** With distinct lines, a change that only adds or only removes is monotone, and nothing else is. */
  lemma {:induction false} AddOrRemoveIsMonotone(before: seq<string>, after: seq<string>)
    requires Distinct(before) && Distinct(after)
    ensures Monotone(before, after) <==> Table(before) <= Table(after) || Table(after) <= Table(before)
  {
    DistinctSize(before);
    DistinctSize(after);
    hide Table;
    var b, a := Table(before), Table(after);
    if b <= a {
      SubsetSize(b, a);
    }
    if a <= b {
      SubsetSize(a, b);
    }
  }

  lemma {:induction false} SubsetSize(a: set<string>, b: set<string>)
    requires a <= b
    ensures |a| <= |b| && (|a| == |b| ==> a == b)
  {
    assert b == a + (b - a) && a !! (b - a);
    assert |b| == |a| + |b - a|;
    if |a| == |b| {
      assert b - a == {};
    }
  }

  /**
   A swap that is never made good: one line goes and another comes between two looks, then a third
   one comes. The reader of the events learns of the new ones only and keeps the first for good.
   */
  lemma SwapLost()
    ensures var tables := AllLines(["a\n", "b\n", "b\nc\n"]);
            && EventsOver(tables[..2]) == [] && SavedAfter(tables[..2]) == ["a\n"]
            && EventsOver(tables) == [Mount("b\n"), Mount("c\n")]
            && SavedAfter(tables) == tables[2] == ["b\n", "c\n"]
            && Replay(Table(tables[0]), EventsOver(tables)) == Table(tables[2]) + {"a\n"}
            && "a\n" !in Table(tables[2])
  {
    hide Lines, Replay, SavedAfter, EventsOver, Saved, Extra, Report;
    var tables := AllLines(["a\n", "b\n", "b\nc\n"]);
    SwapLines();
    FirstLook(tables);
    NextLook(tables, 1);
    NextLook(tables, 2);
    assert tables[..3] == tables;
    SwapEvents();
    assert Events(["a\n"], ["b\n"]) == [];
    ReplayMounts(Table(tables[0]), ["b\n", "c\n"]);
    assert Table(tables[0]) == {"a\n"} by { assert tables[0] == ["a\n"]; }
    assert "a\n"[0] == 'a' && "b\n"[0] == 'b' && "c\n"[0] == 'c';
    assert [] + Report(true, ["b\n", "c\n"]) == Report(true, ["b\n", "c\n"]);
  }

  lemma SwapEvents()
    ensures Events(["a\n"], ["b\n", "c\n"]) == [Mount("b\n"), Mount("c\n")] == Report(true, ["b\n", "c\n"])
    ensures Saved(["a\n"], ["b\n"]) == ["a\n"] && Saved(["a\n"], ["b\n", "c\n"]) == ["b\n", "c\n"]
  {
    var more, less := ["b\n", "c\n"], ["a\n"];
    assert "b\n"[0] == 'b' && "c\n"[0] == 'c' && "a\n"[0] == 'a';
    assert more[1..] == ["c\n"] && ["c\n"][1..] == [];
    assert Extra(["c\n"], less) == ["c\n"] + [];
    assert Extra(more, less) == more;
  }

  lemma SwapLines()
    ensures Lines("a\n") == ["a\n"] && Lines("b\n") == ["b\n"] && Lines("b\nc\n") == ["b\n", "c\n"]
  {
    OneLine('a', "");
    OneLine('b', "");
    OneLine('c', "");
    OneLine('b', "c\n");
    assert "b\n" + "c\n" == "b\nc\n";
  }

  lemma OneLine(c: char, rest: string)
    requires c != '\n'
    ensures Lines([c, '\n'] + rest) == [[c, '\n']] + Lines(rest)
    ensures [c, '\n'] + "" == [c, '\n'] && Lines("") == []
  {
    var s := [c, '\n'] + rest;
    assert s[1..][0] == '\n';
    assert LineLength(s[1..], MSG_BUFF - 2) == 1;
    assert LineLength(s, MSG_BUFF - 1) == 2;
    assert s[..2] == [c, '\n'] && s[2..] == rest;
  }

  /** The copy is a true copy after every change of the number of lines, whatever happened before. */
  lemma {:induction false} SavedIsCurrent(tables: seq<seq<string>>)
    requires |tables| >= 2 && |tables[|tables| - 1]| != |tables[|tables| - 2]|
    ensures SavedAfter(tables) == tables[|tables| - 1]
  {
    var n := |tables| - 1;
    SavedLength(tables[..n]);
  }

  /** The script is called exactly for the reported devices that are no disk alias. */
  lemma {:induction false} CallsExact(events: seq<Event>, c: Call)
    ensures c in CallsOf(events) <==>
            !IsDiskAlias(c.device) && exists e :: e in events && HasDevice(e.line) && CallOf(e) == [c]
  {
    hide HasDevice;
    if events != [] {
      CallsExact(events[1..], c);
      CallFor(events[0], c);
      assert events == [events[0]] + events[1..];
    }
  }

  lemma CallFor(e: Event, c: Call)
    ensures c in CallOf(e) <==> CallOf(e) == [c]
    ensures CallOf(e) == [c] ==> HasDevice(e.line) && !IsDiskAlias(c.device)
  {}

  // Lines and calls, written out.

  /** fgets with a buffer of 4096 characters: a line that fits is one piece. */
  lemma {:induction false} ShortLine(l: string, rest: string)
    requires '\n' !in l && |l| <= 4094
    ensures Lines(l + "\n" + rest) == [l + "\n"] + Lines(rest)
  {
    var s := l + "\n" + rest;
    NewlineAt(s, |l|, MSG_BUFF - 1);
    assert s[..|l| + 1] == l + "\n" && s[|l| + 1..] == rest;
  }

  lemma {:induction false} NewlineAt(s: string, n: nat, room: nat)
    requires n < |s| && n < room && s[n] == '\n' && forall i :: 0 <= i < n ==> s[i] != '\n'
    ensures LineLength(s, room) == n + 1
  {
    if n > 0 {
      NewlineAt(s[1..], n - 1, room - 1);
    }
  }

  lemma {:induction false} NoNewline(s: string, room: nat)
    requires forall i :: 0 <= i < |s| && i < room ==> s[i] != '\n'
    ensures LineLength(s, room) == if |s| < room then |s| else room
  {
    if s != [] && room > 0 {
      NoNewline(s[1..], room - 1);
    }
  }

  /** A longer one is cut behind 4095 characters, and the end of the file ends a line. */
  lemma {:induction false} LongLine(s: string)
    requires s != "" && forall i :: 0 <= i < |s| && i < 4095 ==> s[i] != '\n'
    ensures |s| <= 4095 ==> Lines(s) == [s]
    ensures |s| > 4095 ==> Lines(s) == [s[..4095]] + Lines(s[4095..])
  {
    NoNewline(s, MSG_BUFF - 1);
    if |s| <= 4095 {
      assert s[..|s|] == s && s[|s|..] == "";
      assert Lines("") == [];
    }
  }

  lemma {:induction false} SpacesPassed(spaces: string, s: string)
    requires forall i :: 0 <= i < |spaces| ==> spaces[i] == ' '
    ensures Strtok(spaces + s, {' '}) == Strtok(s, {' '})
  {
    if spaces == "" {
      assert spaces + s == s;
    } else {
      assert (spaces + s)[1..] == spaces[1..] + s;
      SpacesPassed(spaces[1..], s);
    }
  }

  /**
   What the script is called with for a line: its first word, and "mount" for a line that has come,
   "umount" for one that has gone; not at all when the word begins with /dev/disk/.
   */
  lemma {:induction false} CallIs(spaces: string, device: string, x: string)
    requires forall i :: 0 <= i < |spaces| ==> spaces[i] == ' '
    requires device != "" && ' ' !in device && (x == "" || x[0] == ' ')
    ensures var line := spaces + (device + x);
            && CallOf(Mount(line)) == (if "/dev/disk/" <= device then [] else [Call(device, "mount")])
            && CallOf(Umount(line)) == (if "/dev/disk/" <= device then [] else [Call(device, "umount")])
  {
    var s := device + x;
    SpacesPassed(spaces, s);
    RunLengthOfPrefix(device, x, {' '});
    assert s[0] == device[0] && s[..|device|] == device;
  }

  /** The calls are those of the events, one after the other. */
  lemma {:induction false} CallsInOrder(a: seq<Event>, e: Event, b: seq<Event>)
    ensures CallsOf(a + [e] + b) == CallsOf(a) + CallOf(e) + CallsOf(b)
  {
    hide CallOf;
    CallsAppend(a + [e], b);
    CallsAppend(a, [e]);
    CallsOne(e);
  }
}
