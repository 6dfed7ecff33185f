/** `sset` with a comma list of numbers: one item for every channel that is used, in order. */
module MixerLists {
  import opened CText
  import opened Options
  import opened Tokens
  import opened Percent
  import opened ControlIds
  import opened MixerSet
  import opened MixerTheory
  import opened MixerSteps

  predicate AllNumbers(ds: seq<string>) {
    forall i :: 0 <= i < |ds| ==> IsNumber(ds[i])
  }

  /** The items not yet used, and the percent signs playback channels have appended. */
  function ListText(ds: seq<string>, k: nat): string {
    Join(ds, ',') + Percents(k)
  }

  /** Percent signs left when the first item has been read; the last item takes one with it. */
  function SignsLeft(ds: seq<string>, k: nat): nat {
    if |ds| == 1 && k > 0 then k - 1 else k
  }

  function AfterItem(ds: seq<string>, k: nat): string
    requires ds != []
  {
    ListText(ds[1..], SignsLeft(ds, k))
  }

  lemma ListNext(ds: seq<string>, k: nat)
    requires ds != []
    ensures ListText(ds, k) == ds[0] + if |ds| == 1 then Percents(k) else "," + ListText(ds[1..], k)
    ensures |ds| == 1 ==> AfterItem(ds, k) == Percents(SignsLeft(ds, k))
  {
    if |ds| == 1 {
      assert Join(ds[1..], ',') == [];
    } else {
      var more := Join(ds[1..], ',');
      assert ds[0] + [','] + more + Percents(k) == ds[0] + ("," + (more + Percents(k)));
    }
  }

  lemma ListGrows(ds: seq<string>, k: nat)
    ensures ListText(ds, k) + "%" == ListText(ds, k + 1)
  {
    PercentsNext(Join(ds, ','), k);
  }

  // One item.

  /** The level of the first item: a percentage only for the last one. */
  function ItemLevel(side: Side, ds: seq<string>, grown: bool, noCheck: bool): int
    requires ds != [] && AllNumbers(ds)
  {
    CaptureWanted(side, ds[0], grown && |ds| == 1, noCheck)
  }

  function ItemSide(side: Side, chn: nat, ds: seq<string>, grown: bool, noCheck: bool): Side
    requires side.Valid() && chn < CHANNELS && ds != [] && AllNumbers(ds)
  {
    if side.hasVolume then side.(levels := side.levels[chn := ItemLevel(side, ds, grown, noCheck)]) else side
  }

  lemma SetNumber(side: Side, chn: nat, s: string, noCheck: bool)
    requires side.Valid() && chn < CHANNELS && StartsWithDigit(s)
    requires var n := ReadNumber(s);
             !StartsWith(n.rest, '+') && !StartsWith(n.rest, '-') && !n.amount.Decibel?
    ensures var n, v := ReadNumber(s), SetVolume(side, chn, s, noCheck);
            && v.rest == DropOne(n.rest, ',')
            && v.side ==
               if side.hasVolume then
                 var val := if n.amount.PercentOf? then ToLevel(n.amount.percent, side.min, side.max)
                            else n.amount.value;
                 side.(levels := side.levels[chn := CheckRange(val, side.min, side.max, noCheck)])
               else side
  {
    hide ReadNumber, ToLevel, CheckRange;
    assert DropOne(s, ':') == s;
  }

  lemma {:induction false} ItemReads(ds: seq<string>, k: nat)
    requires ds != [] && AllNumbers(ds)
    ensures var n, d := ReadNumber(ListText(ds, k)), ds[0];
            && StartsWithDigit(ListText(ds, k))
            && n.amount ==
               (if |ds| == 1 && k > 0 then PercentOf(NatValue(d) as real) else Absolute(Saturate(NatValue(d))))
            && !StartsWith(n.rest, '+') && !StartsWith(n.rest, '-')
            && DropOne(n.rest, ',') == AfterItem(ds, k)
  {
    hide ReadNumber, NatValue, Saturate, Join, ListText;
    var d, s := ds[0], ListText(ds, k);
    ListNext(ds, k);
    assert s[0] == d[0];
    if |ds| == 1 && k > 0 {
      ReadPercent(d, Percents(k));
      PercentsNext(d, k - 1);
    } else {
      var tail := if |ds| == 1 then "" else "," + ListText(ds[1..], k);
      NumberReads(false, d, None, NoUnit, tail);
      assert "" + ("" + tail) == tail;
      assert s == d + tail;
      assert |ds| > 1 ==> tail[1..] == ListText(ds[1..], k);
    }
  }

  lemma {:induction false} ItemSet(side: Side, chn: nat, ds: seq<string>, k: nat, noCheck: bool)
    requires side.Valid() && chn < CHANNELS && ds != [] && AllNumbers(ds)
    ensures var v := SetVolume(side, chn, ListText(ds, k), noCheck);
            v.rest == AfterItem(ds, k) && v.side == ItemSide(side, chn, ds, k > 0, noCheck)
  {
    hide SetVolume, ReadNumber, NatValue, Saturate, ToLevel, CheckRange, ListText, AfterItem;
    ItemReads(ds, k);
    SetNumber(side, chn, ListText(ds, k), noCheck);
  }

  lemma ItemIsBehind(ds: seq<string>, k: nat)
    requires ds != []
    ensures var s, rest := ListText(ds, k), AfterItem(ds, k);
            |rest| <= |s| && s[|s| - |rest|..] == rest
  {
    hide Join, ListText;
    ListNext(ds, k);
    if |ds| == 1 && k > 0 {
      PercentsNext(ds[0], k - 1);
      assert Percents(k) == "%" + Percents(k - 1);
    } else if |ds| > 1 {
      var s, rest := ListText(ds, k), AfterItem(ds, k);
      assert s == ds[0] + "," + rest;
    }
  }

  /** Where a direction finds a number, its volume is set. */
  lemma TurnNumber(dir: Direction, side: Side, chn: nat, arg: string, off: nat, noCheck: bool)
    requires side.Valid() && chn < CHANNELS && off <= |arg| && StartsWithDigit(arg[off..])
    ensures var t, text := TakeTurn(dir, side, chn, arg, off, noCheck), arg + Percents(Growth(dir));
            var v := SetVolume(side, chn, text[off..], noCheck);
            t.known && t.arg == text && t.side == v.side && t.off == |text| - |v.rest|
  {
    hide SetVolume, SwitchWord, GetBool, SkipWord, StartsWithDigit;
    NumberIsNoWord(dir, arg[off..]);
    assert Percents(1) == "%" && arg + Percents(0) == arg;
  }

  lemma GrownText(dir: Direction, arg: string, off: nat, ds: seq<string>, k: nat)
    requires off <= |arg| && arg[off..] == ListText(ds, k)
    ensures (arg + Percents(Growth(dir)))[off..] == ListText(ds, k + Growth(dir))
  {
    hide ListText;
    var signs := Percents(Growth(dir));
    assert (arg + signs)[off..] == arg[off..] + signs;
    if dir.Playback? {
      ListGrows(ds, k);
      assert signs == "%";
    } else {
      assert arg[off..] + "" == arg[off..];
    }
  }

  /** One direction of one channel takes the first item. */
  lemma {:induction false} TurnItem(dir: Direction, side: Side, chn: nat, arg: string, off: nat, ds: seq<string>,
                                    k: nat, noCheck: bool)
    requires side.Valid() && chn < CHANNELS && off <= |arg| && ds != [] && AllNumbers(ds)
    requires arg[off..] == ListText(ds, k)
    ensures var t := TakeTurn(dir, side, chn, arg, off, noCheck);
            && t.known && t.arg == arg + Percents(Growth(dir))
            && t.arg[off..] == ListText(ds, k + Growth(dir))
            && t.arg[t.off..] == AfterItem(ds, k + Growth(dir))
            && t.side == ItemSide(side, chn, ds, k + Growth(dir) > 0, noCheck)
  {
    hide TakeTurn, SetVolume, ListText, AfterItem, ItemSide, AllNumbers, StartsWithDigit, Side.Valid;
    var n := k + Growth(dir);
    ItemReads(ds, k);
    TurnNumber(dir, side, chn, arg, off, noCheck);
    GrownText(dir, arg, off, ds, k);
    ItemSet(side, chn, ds, n, noCheck);
    ItemIsBehind(ds, n);
    Suffix(arg + Percents(Growth(dir)), off, |AfterItem(ds, n)|);
  }

  lemma Suffix(s: string, off: nat, n: nat)
    requires off <= |s| && n <= |s| - off
    ensures s[|s| - n..] == s[off..][|s| - off - n..]
  {}

  // When the items are used up.

  /** Nothing, or percent signs: no argument at all. */
  predicate Spent(s: string) {
    s == "" || s[0] == '%'
  }

  lemma SpentIsNoWord(dir: Direction, s: string)
    requires Spent(s)
    ensures SwitchWord(dir, s).None? && !("toggle" <= s) && !StartsNumber(s) && SkipForeign(dir, s).None?
  {
    hide SwitchWord, SkipWord;
    SpentNoSwitch(dir, s);
    SpentNotSkipped(s, "cap"); SpentNotSkipped(s, "rec"); SpentNotSkipped(s, "nocap"); SpentNotSkipped(s, "norec");
    SpentNotSkipped(s, "mute"); SpentNotSkipped(s, "off"); SpentNotSkipped(s, "unmute"); SpentNotSkipped(s, "on");
  }

  lemma SpentNoSwitch(dir: Direction, s: string)
    requires Spent(s)
    ensures SwitchWord(dir, s).None?
  {}

  lemma SpentNotSkipped(s: string, w: string)
    requires Spent(s) && w != [] && 'a' <= w[0] <= 'z'
    ensures SkipWord(s, w).None?
  {
    hide AfterWord;
    if s != "" {
      Differ(s, w, 0);
    }
  }

  lemma TurnSpent(dir: Direction, side: Side, chn: nat, arg: string, off: nat, noCheck: bool)
    requires side.Valid() && chn < CHANNELS && off <= |arg| && Spent(arg[off..])
    ensures TakeTurn(dir, side, chn, arg, off, noCheck) == Turn(side, arg, off, false, false)
  {
    hide SwitchWord, SkipForeign, StartsNumber, SetVolume, GetBool, SkipWord;
    SpentIsNoWord(dir, arg[off..]);
  }

  lemma RoundSpent(st: State, sel: Selection, chn: nat, multi: bool, noCheck: bool)
    requires st.Valid() && chn < CHANNELS && Spent(st.arg[st.off..]) && (multi || st.off == 0)
    ensures var r := Round(st, sel, chn, multi, noCheck);
            r.elem == st.elem && r.arg == st.arg && r.off == st.off && r.done == st.done
  {
    hide TakeTurn, Side.Valid, Spent;
    TurnSpent(Playback, st.elem.playback, chn, st.arg, st.off, noCheck);
    TurnSpent(Capture, st.elem.capture, chn, st.arg, st.off, noCheck);
  }

  /** An argument that holds nothing more changes nothing. */
  lemma {:induction false} RoundsSpent(st: State, sel: Selection, chn: nat, multi: bool, noCheck: bool)
    requires st.Valid() && chn <= CHANNELS && Spent(st.arg[st.off..]) && (multi || st.off == 0)
    ensures var r := Rounds(st, sel, chn, multi, noCheck);
            r.elem == st.elem && r.arg == st.arg && r.done == st.done
    decreases CHANNELS - chn
  {
    hide Round, Spent, Elem.Valid;
    if chn < CHANNELS {
      RoundSpent(st, sel, chn, multi, noCheck);
      var next := Round(st, sel, chn, multi, noCheck);
      if !next.Stuck() {
        RoundsSpent(next, sel, chn + 1, multi, noCheck);
      }
    }
  }

  // Rounds.

  predicate UsedAny(sel: Selection, e: Elem, chn: nat)
    requires e.Valid() && chn < CHANNELS
  {
    Used(Playback, sel, e.playback, chn) || Used(Capture, sel, e.capture, chn)
  }

  /** How many channels from chn on, and in front of c, take an item. */
  function Rank(sel: Selection, e: Elem, chn: nat, c: nat): nat
    requires e.Valid() && c < CHANNELS
    decreases c - chn
  {
    if chn >= c then 0 else (if UsedAny(sel, e, chn) then 1 else 0) + Rank(sel, e, chn + 1, c)
  }

  function SideAfter(dir: Direction, sel: Selection, e: Elem, chn: nat, ds: seq<string>, k: nat, noCheck: bool): Side
    requires e.Valid() && chn < CHANNELS && ds != [] && AllNumbers(ds)
  {
    if Used(dir, sel, SideOf(e, dir), chn)
    then ItemSide(SideOf(e, dir), chn, ds, Grown(sel, e, chn, k) > 0, noCheck) else SideOf(e, dir)
  }

  lemma ItemPlayed(st: State, sel: Selection, chn: nat, ds: seq<string>, k: nat, noCheck: bool)
    requires st.Valid() && chn < CHANNELS && chn in sel.mask && ds != [] && AllNumbers(ds)
    requires st.arg[st.off..] == ListText(ds, k)
    ensures var r, kp := PlaybackTurn(st, sel, chn, noCheck), Grown(sel, st.elem, chn, k);
            && r.knowsPlayback == st.knowsPlayback && r.knowsCapture == st.knowsCapture
            && st.off <= |r.arg| && r.arg[st.off..] == ListText(ds, kp)
            && r.arg[r.off..] ==
               (if Used(Playback, sel, st.elem.playback, chn) then AfterItem(ds, kp) else ListText(ds, kp))
            && r.elem.capture == st.elem.capture
            && r.elem.playback == SideAfter(Playback, sel, st.elem, chn, ds, k, noCheck)
  {
    hide TakeTurn, ListText, AfterItem, ItemSide, Side.Valid, AllNumbers;
    TurnItem(Playback, st.elem.playback, chn, st.arg, st.off, ds, k, noCheck);
  }

  lemma ItemCaptured(st: State, start: nat, sel: Selection, chn: nat, ds: seq<string>, k: nat, noCheck: bool)
    requires st.Valid() && chn < CHANNELS && chn in sel.mask && ds != [] && AllNumbers(ds) && start <= |st.arg|
    requires st.arg[start..] == ListText(ds, k)
    ensures var r, side := CaptureTurn(st, start, sel, chn, noCheck), st.elem.capture;
            && r.knowsPlayback == st.knowsPlayback && r.knowsCapture == st.knowsCapture
            && r.arg[r.off..] ==
               (if Used(Capture, sel, side, chn) then AfterItem(ds, k) else st.arg[st.off..])
            && r.elem.playback == st.elem.playback
            && r.elem.capture ==
               if Used(Capture, sel, side, chn) then ItemSide(side, chn, ds, k > 0, noCheck) else side
  {
    hide TakeTurn, ListText, AfterItem, ItemSide, Side.Valid, AllNumbers;
    TurnItem(Capture, st.elem.capture, chn, st.arg, start, ds, k, noCheck);
  }

  lemma {:induction false} RoundItem(st: State, sel: Selection, chn: nat, ds: seq<string>, k: nat, noCheck: bool)
    requires st.Valid() && chn < CHANNELS && ds != [] && AllNumbers(ds) && !st.Stuck()
    requires st.arg[st.off..] == ListText(ds, k)
    ensures var r, kp := Round(st, sel, chn, true, noCheck), Grown(sel, st.elem, chn, k);
            && !r.Stuck()
            && r.arg[r.off..] == (if UsedAny(sel, st.elem, chn) then AfterItem(ds, kp) else ListText(ds, k))
            && r.elem.playback == SideAfter(Playback, sel, st.elem, chn, ds, k, noCheck)
            && r.elem.capture == SideAfter(Capture, sel, st.elem, chn, ds, k, noCheck)
  {
    hide PlaybackTurn, CaptureTurn, ListText, AfterItem, ItemSide, AllNumbers;
    if chn in sel.mask {
      ItemPlayed(st, sel, chn, ds, k, noCheck);
      ItemCaptured(PlaybackTurn(st, sel, chn, noCheck), st.off, sel, chn, ds, Grown(sel, st.elem, chn, k), noCheck);
    }
  }

  /** The level at channel c: its item if there is one left for it, else what it was. */
  function ListLevel(dir: Direction, sel: Selection, e: Elem, chn: nat, c: nat, ds: seq<string>, k: nat,
                     noCheck: bool): int
    requires e.Valid() && c < CHANNELS && AllNumbers(ds)
  {
    var side, i := SideOf(e, dir), Rank(sel, e, chn, c);
    if Used(dir, sel, side, c) && side.hasVolume && i < |ds|
    then ItemLevel(side, ds[i..], k > 0 || PlayedWithin(sel, e.playback, chn, c), noCheck)
    else side.levels[c]
  }

  lemma {:induction false} RankSame(sel: Selection, a: Elem, b: Elem, chn: nat, c: nat)
    requires a.Valid() && b.Valid() && c < CHANNELS
    requires a.playback.channels == b.playback.channels && a.capture.channels == b.capture.channels
    ensures Rank(sel, a, chn, c) == Rank(sel, b, chn, c)
    decreases c - chn
  {
    if chn < c {
      RankSame(sel, a, b, chn + 1, c);
    }
  }

  /** The level of a later channel, seen from behind the round of channel chn. */
  lemma {:induction false} LevelNext(dir: Direction, sel: Selection, e: Elem, next: Elem, chn: nat, c: nat,
                                     ds: seq<string>, k: nat, noCheck: bool)
    requires e.Valid() && next.Valid() && chn < c < CHANNELS && AllNumbers(ds) && ds != []
    requires SameElemShape(e, next) && SameChannel(SideOf(e, dir), SideOf(next, dir), c)
    ensures var used, kp := UsedAny(sel, e, chn), Grown(sel, e, chn, k);
            var ds', k' := if used then ds[1..] else ds, if used then SignsLeft(ds, kp) else k;
            AllNumbers(ds') &&
            ListLevel(dir, sel, next, chn + 1, c, ds', k', noCheck) == ListLevel(dir, sel, e, chn, c, ds, k, noCheck)
  {
    hide CaptureWanted, IsNumber, PlayedWithin;
    var i := Rank(sel, e, chn + 1, c);
    RankSame(sel, e, next, chn + 1, c);
    WithinNext(sel, e.playback, next.playback, chn, c);
    if UsedAny(sel, e, chn) && i < |ds| {
      assert ds[1..][i..] == ds[i + 1..];
    }
    forall d: string, grown: bool | IsNumber(d)
      ensures CaptureWanted(SideOf(e, dir), d, grown, noCheck) == CaptureWanted(SideOf(next, dir), d, grown, noCheck)
    {
      SameCaptureWanted(SideOf(e, dir), SideOf(next, dir), d, noCheck);
    }
  }

  /**
   Of a comma list the n-th channel that is used gets the n-th number: a raw level, and for the
   last number a percentage once playback has appended a sign. Channels behind the list keep
   their levels.
   */
  lemma {:induction false} RoundsList(dir: Direction, st: State, sel: Selection, chn: nat, ds: seq<string>, k: nat,
                                      noCheck: bool)
    requires st.Valid() && chn <= CHANNELS && AllNumbers(ds) && (ds == [] || !st.Stuck())
    requires st.arg[st.off..] == ListText(ds, k)
    ensures var after := SideOf(Rounds(st, sel, chn, true, noCheck).elem, dir);
            forall c :: chn <= c < CHANNELS ==>
              after.levels[c] == ListLevel(dir, sel, st.elem, chn, c, ds, k, noCheck)
    decreases CHANNELS - chn
  {
    hide Round, ListText, ListLevel, AllNumbers, SameElemShape;
    if ds == [] {
      NothingLeft(dir, st.elem, sel, chn, k, noCheck);
      RoundsSpent(st, sel, chn, true, noCheck);
    } else if chn < CHANNELS {
      var e, next := st.elem, Round(st, sel, chn, true, noCheck);
      var used, kp := UsedAny(sel, e, chn), Grown(sel, e, chn, k);
      var ds', k' := if used then ds[1..] else ds, if used then SignsLeft(ds, kp) else k;
      RoundItem(st, sel, chn, ds, k, noCheck);
      RoundInRange(st, sel, chn, true, noCheck);
      TailNumbers(ds);
      RoundsList(dir, next, sel, chn + 1, ds', k', noCheck);
      forall c | chn <= c < CHANNELS
        ensures SideOf(Rounds(st, sel, chn, true, noCheck).elem, dir).levels[c]
                == ListLevel(dir, sel, e, chn, c, ds, k, noCheck)
      {
        if c == chn {
          RoundsFrame(next, sel, chn + 1, true, noCheck, chn);
          LevelHere(dir, sel, e, chn, ds, k, noCheck);
        } else {
          RoundFrame(st, sel, chn, true, noCheck, c);
          LevelNext(dir, sel, e, next.elem, chn, c, ds, k, noCheck);
        }
      }
    }
  }

  lemma TailNumbers(ds: seq<string>)
    requires AllNumbers(ds) && ds != []
    ensures AllNumbers(ds[1..])
  {}

  lemma NothingLeft(dir: Direction, e: Elem, sel: Selection, chn: nat, k: nat, noCheck: bool)
    requires e.Valid()
    ensures Spent(ListText([], k))
    ensures AllNumbers([])
    ensures forall c :: chn <= c < CHANNELS ==>
              ListLevel(dir, sel, e, chn, c, [], k, noCheck) == SideOf(e, dir).levels[c]
  {}

  lemma LevelHere(dir: Direction, sel: Selection, e: Elem, chn: nat, ds: seq<string>, k: nat, noCheck: bool)
    requires e.Valid() && chn < CHANNELS && AllNumbers(ds) && ds != []
    ensures ListLevel(dir, sel, e, chn, chn, ds, k, noCheck)
            == SideAfter(dir, sel, e, chn, ds, k, noCheck).levels[chn]
  {
    hide ItemLevel;
    assert ds[0..] == ds;
    assert PlayedWithin(sel, e.playback, chn, chn) <==> Played(sel, e.playback, chn);
  }

  /** `sset` with a comma list of two or more numbers. */
  lemma {:induction false} SsetList(dir: Direction, elem: Elem, ds: seq<string>, noCheck: bool)
    requires elem.Valid() && AllNumbers(ds) && |ds| >= 2
    ensures var after, sel := Sset(elem, [Join(ds, ',')], noCheck), StartSession(elem).sel;
            && SameElemShape(elem, after)
            && forall c :: 0 <= c < CHANNELS ==>
                 SideOf(after, dir).levels[c] == ListLevel(dir, sel, elem, 0, c, ds, 0, noCheck)
  {
    hide Arguments, ChannelsMask, DirMask, Rounds, ListLevel, Join, AllNumbers, SameElemShape;
    var ses, text := StartSession(elem), Join(ds, ',');
    assert text + Percents(0) == text;
    ItemReads(ds, 0);
    ListHasComma(ds);
    DigitHasNoWords(text, ses.sel);
    assert ses.sel.(mask := ses.sel.mask) == ses.sel;
    RoundsList(dir, State(elem, text, 0, true, true, false), ses.sel, 0, ds, 0, noCheck);
    ArgumentInRange(ses, text, noCheck);
    OneOfOne(ses, text, noCheck);
  }

  /** On playback: a raw level for every number but the last, the percentage of the last, nothing behind it. */
  lemma {:induction false} SsetListPlayback(elem: Elem, ds: seq<string>, c: nat, noCheck: bool)
    requires elem.Valid() && AllNumbers(ds) && |ds| >= 2 && c < CHANNELS
    requires elem.playback.channels[c] && elem.playback.hasVolume
    ensures var side, after := elem.playback, Sset(elem, [Join(ds, ',')], noCheck).playback;
            var i := Rank(StartSession(elem).sel, elem, 0, c);
            after.levels[c] ==
            if i < |ds| - 1 then CheckRange(Saturate(NatValue(ds[i])), side.min, side.max, noCheck)
            else if i == |ds| - 1 then Wanted(side, ds[i], noCheck)
            else side.levels[c]
  {
    hide Sset, Join, Wanted, CheckRange, Saturate, NatValue, Rank, IsNumber;
    var sel := StartSession(elem).sel;
    SsetList(Playback, elem, ds, noCheck);
    var i := Rank(sel, elem, 0, c);
    if i < |ds| {
      assert ds[i..][0] == ds[i];
    }
    assert Played(sel, elem.playback, c) && Used(Playback, sel, elem.playback, c);
    assert PlayedWithin(sel, elem.playback, 0, c);
    var after := Sset(elem, [Join(ds, ',')], noCheck);
    assert SideOf(after, Playback).levels[c] == ListLevel(Playback, sel, elem, 0, c, ds, 0, noCheck);
  }

  lemma ListHasComma(ds: seq<string>)
    requires |ds| >= 2
    ensures ',' in Join(ds, ',')
  {
    assert Join(ds, ',')[|ds[0]|] == ',';
  }
}
