/** What `sset` returns, and what makes it stop: numbers, switch words, and texts no one understands. */
module MixerCodes {
  import opened CText
  import opened Options
  import opened Percent
  import opened ControlIds
  import opened MixerSet
  import opened MixerTheory
  import opened MixerSteps
  import opened MixerLists
  import opened MixerCapture

  /** The value returned after some arguments. */
  function Code(elem: Elem, texts: seq<string>, noCheck: bool, ignoreError: bool): int
    requires elem.Valid()
  {
    ReturnCode(Arguments(StartSession(elem), texts, noCheck).0, ignoreError)
  }

  // Numbers count as done where there is a volume.

  lemma SetOk(side: Side, chn: nat, s: string, noCheck: bool)
    requires side.Valid() && chn < CHANNELS && StartsWithDigit(s)
    ensures SetVolume(side, chn, s, noCheck).ok <==> side.hasVolume && !ReadNumber(s).amount.Decibel?
  {
    hide ReadNumber, ToLevel, CheckRange;
    assert DropOne(s, ':') == s;
  }

  lemma {:induction false} NoDecibel(d: string, k: nat)
    requires IsNumber(d)
    ensures !ReadNumber(d + Percents(k)).amount.Decibel? && StartsWithDigit(d + Percents(k))
  {
    hide ReadNumber, NatValue, Saturate;
    assert (d + Percents(k))[0] == d[0];
    if k > 0 {
      ReadPercent(d, Percents(k));
    } else {
      NumberReads(false, d, None, NoUnit, "");
      assert d + ("" + ("" + "")) == d + Percents(0);
    }
  }

  lemma {:induction false} TurnNumberDone(dir: Direction, side: Side, chn: nat, d: string, k: nat, noCheck: bool)
    requires side.Valid() && chn < CHANNELS && IsNumber(d)
    ensures TakeTurn(dir, side, chn, d + Percents(k), 0, noCheck).done <==> side.hasVolume
  {
    hide SetVolume, SwitchWord, GetBool, SkipWord, IsNumber, StartsWithDigit;
    var arg, n := d + Percents(k), k + Growth(dir);
    assert arg[0..] == arg;
    NoDecibel(d, k);
    NoDecibel(d, n);
    NumberIsNoWord(dir, arg);
    PercentsNext(d, k);
    assert (d + Percents(n))[0..] == d + Percents(n);
    SetOk(side, chn, d + Percents(n), noCheck);
  }

  /** A channel that sets a volume in some direction. */
  predicate SetsVolume(sel: Selection, e: Elem, c: nat)
    requires e.Valid() && c < CHANNELS
  {
    (Played(sel, e.playback, c) && e.playback.hasVolume) || (Captured(sel, e.capture, c) && e.capture.hasVolume)
  }

  lemma PlayedDone(st: State, sel: Selection, chn: nat, d: string, k: nat, noCheck: bool)
    requires st.Valid() && chn < CHANNELS && chn in sel.mask && IsNumber(d) && st.arg == d + Percents(k) && st.off == 0
    ensures PlaybackTurn(st, sel, chn, noCheck).done <==>
            st.done || (Played(sel, st.elem.playback, chn) && st.elem.playback.hasVolume)
  {
    hide TakeTurn, Side.Valid;
    TurnNumberDone(Playback, st.elem.playback, chn, d, k, noCheck);
  }

  lemma CapturedDone(st: State, sel: Selection, chn: nat, d: string, k: nat, noCheck: bool)
    requires st.Valid() && chn < CHANNELS && chn in sel.mask && IsNumber(d) && st.arg == d + Percents(k)
    ensures CaptureTurn(st, 0, sel, chn, noCheck).done <==>
            st.done || (Captured(sel, st.elem.capture, chn) && st.elem.capture.hasVolume)
  {
    hide TakeTurn, Side.Valid;
    TurnNumberDone(Capture, st.elem.capture, chn, d, k, noCheck);
  }

  lemma {:induction false} RoundNumberDone(st: State, sel: Selection, chn: nat, d: string, k: nat, noCheck: bool)
    requires st.Valid() && chn < CHANNELS && IsNumber(d) && st.arg == d + Percents(k) && st.off == 0 && !st.Stuck()
    ensures Round(st, sel, chn, false, noCheck).done <==> st.done || SetsVolume(sel, st.elem, chn)
  {
    hide PlaybackTurn, CaptureTurn, Wanted;
    if chn in sel.mask {
      var played := PlaybackTurn(st, sel, chn, noCheck);
      NumberPlayed(st, sel, chn, d, k, noCheck);
      PlayedDone(st, sel, chn, d, k, noCheck);
      CapturedDone(played, sel, chn, d, k + if Played(sel, st.elem.playback, chn) then 1 else 0, noCheck);
    }
  }

  predicate SomeVolume(sel: Selection, e: Elem, chn: nat)
    requires e.Valid() && chn <= CHANNELS
  {
    exists c :: chn <= c < CHANNELS && SetsVolume(sel, e, c)
  }

  lemma SomeVolumeNext(sel: Selection, e: Elem, next: Elem, chn: nat)
    requires e.Valid() && next.Valid() && chn < CHANNELS && SameElemShape(e, next)
    ensures SomeVolume(sel, e, chn) <==> SetsVolume(sel, e, chn) || SomeVolume(sel, next, chn + 1)
  {
    assert forall c :: 0 <= c < CHANNELS ==> SetsVolume(sel, e, c) == SetsVolume(sel, next, c);
  }

  lemma {:induction false} RoundsNumberDone(st: State, sel: Selection, chn: nat, d: string, k: nat, noCheck: bool)
    requires st.Valid() && chn <= CHANNELS && IsNumber(d) && st.arg == d + Percents(k) && st.off == 0 && !st.Stuck()
    ensures var r := Rounds(st, sel, chn, false, noCheck);
            !r.Stuck() && (r.done <==> st.done || SomeVolume(sel, st.elem, chn))
    decreases CHANNELS - chn
  {
    hide Round, Wanted, CaptureWanted, SetsVolume, SomeVolume, SameElemShape;
    if chn == CHANNELS {
      NoVolumeBehind(sel, st.elem);
    } else {
      var next := Round(st, sel, chn, false, noCheck);
      RoundNumber(st, sel, chn, d, k, noCheck);
      RoundNumberDone(st, sel, chn, d, k, noCheck);
      RoundInRange(st, sel, chn, false, noCheck);
      SomeVolumeNext(sel, st.elem, next.elem, chn);
      RoundsNumberDone(next, sel, chn + 1, d, k + if Played(sel, st.elem.playback, chn) then 1 else 0, noCheck);
    }
  }

  lemma NoVolumeBehind(sel: Selection, e: Elem)
    requires e.Valid()
    ensures !SomeVolume(sel, e, CHANNELS)
  {}

  /** A number returns 1 if and only if some channel has a volume it sets. */
  lemma {:induction false} NumberCode(elem: Elem, d: string, noCheck: bool, ignoreError: bool)
    requires elem.Valid() && IsNumber(d)
    ensures Code(elem, [d], noCheck, ignoreError) ==
            if exists c :: 0 <= c < 32 && ((elem.playback.channels[c] && elem.playback.hasVolume)
                                           || (elem.capture.channels[c] && elem.capture.hasVolume)) then 1
            else if ignoreError then 0 else -1
  {
    hide Arguments, ChannelsMask, DirMask, Rounds;
    var ses := StartSession(elem);
    DigitHasNoWords(d, ses.sel);
    assert ses.sel.(mask := ses.sel.mask) == ses.sel;
    assert ',' !in d;
    assert d + Percents(0) == d;
    RoundsNumberDone(State(elem, d, 0, true, true, false), ses.sel, 0, d, 0, noCheck);
    OneOfOne(ses, d, noCheck);
    EveryoneSets(elem);
  }

  lemma EveryoneSets(elem: Elem)
    requires elem.Valid()
    ensures SomeVolume(StartSession(elem).sel, elem, 0) <==>
            exists c :: 0 <= c < 32 && ((elem.playback.channels[c] && elem.playback.hasVolume)
                                        || (elem.capture.channels[c] && elem.capture.hasVolume))
  {
    var sel := StartSession(elem).sel;
    assert forall c :: 0 <= c < CHANNELS ==>
        (SetsVolume(sel, elem, c) <==> (elem.playback.channels[c] && elem.playback.hasVolume)
                                       || (elem.capture.channels[c] && elem.capture.hasVolume));
  }

  // Switch words.

  lemma TurnWordDone(dir: Direction, side: Side, chn: nat, w: string, noCheck: bool)
    requires side.Valid() && chn < CHANNELS
    ensures AskedFor(dir, w).Some? && side.hasSwitch ==> TakeTurn(dir, side, chn, w, 0, noCheck).done
    ensures AskedFor(Other(dir), w).Some? ==> !TakeTurn(dir, side, chn, w, 0, noCheck).done
  {
    hide SetVolume, GetBool, SwitchWord, AskedFor, SkipForeign, SkipWord, StartsNumber;
    assert w[0..] == w;
    assert Other(Other(dir)) == dir;
    if AskedFor(dir, w).Some? {
      WordIsTried(dir, w);
    }
    if AskedFor(Other(dir), w).Some? {
      WordIsTried(Other(dir), w);
      WordIsForeign(dir, w);
    }
  }

  lemma {:induction false} RoundWordDone(dir: Direction, st: State, sel: Selection, chn: nat, w: string, noCheck: bool)
    requires st.Valid() && chn < CHANNELS && AskedFor(dir, w).Some? && st.arg == w && st.off == 0 && !st.Stuck()
    requires SideOf(st.elem, dir).hasSwitch
    ensures Round(st, sel, chn, false, noCheck).done <==> st.done || Used(dir, sel, SideOf(st.elem, dir), chn)
  {
    hide TakeTurn, AskedFor, Side.Valid;
    assert Other(Playback) == Capture && Other(Capture) == Playback;
    TurnWordDone(Playback, st.elem.playback, chn, w, noCheck);
    if chn in sel.mask {
      WordPlayed(dir, st, sel, chn, w, noCheck);
      TurnWordDone(Capture, PlaybackTurn(st, sel, chn, noCheck).elem.capture, chn, w, noCheck);
    }
  }

  predicate SomeUsed(dir: Direction, sel: Selection, side: Side, chn: nat)
    requires side.Valid() && chn <= CHANNELS
  {
    exists c :: chn <= c < CHANNELS && Used(dir, sel, side, c)
  }

  lemma SomeUsedNext(dir: Direction, sel: Selection, a: Side, b: Side, chn: nat)
    requires a.Valid() && b.Valid() && chn < CHANNELS && a.channels == b.channels
    ensures SomeUsed(dir, sel, a, chn) <==> Used(dir, sel, a, chn) || SomeUsed(dir, sel, b, chn + 1)
  {
    assert forall c :: 0 <= c < CHANNELS ==> Used(dir, sel, a, c) == Used(dir, sel, b, c);
  }

  lemma {:induction false} RoundsWordDone(dir: Direction, st: State, sel: Selection, chn: nat, w: string, noCheck: bool)
    requires st.Valid() && chn <= CHANNELS && AskedFor(dir, w).Some? && st.arg == w && st.off == 0 && !st.Stuck()
    requires SideOf(st.elem, dir).hasSwitch
    ensures var r := Rounds(st, sel, chn, false, noCheck);
            !r.Stuck() && (r.done <==> st.done || SomeUsed(dir, sel, SideOf(st.elem, dir), chn))
    decreases CHANNELS - chn
  {
    hide Round, AskedFor, Used, SomeUsed;
    if chn == CHANNELS {
      NoneBehind(dir, sel, SideOf(st.elem, dir));
    } else {
      var next := Round(st, sel, chn, false, noCheck);
      RoundWord(dir, st, sel, chn, w, noCheck);
      RoundWordDone(dir, st, sel, chn, w, noCheck);
      SomeUsedNext(dir, sel, SideOf(st.elem, dir), SideOf(next.elem, dir), chn);
      RoundsWordDone(dir, next, sel, chn + 1, w, noCheck);
    }
  }

  lemma NoneBehind(dir: Direction, sel: Selection, side: Side)
    requires side.Valid()
    ensures !SomeUsed(dir, sel, side, CHANNELS)
  {}

  /** A switch word is taken for neither channel nor direction. */
  lemma {:induction false} WordSelectsNothing(dir: Direction, w: string, sel: Selection)
    requires AskedFor(dir, w).Some?
    ensures ChannelsMask(w, sel.mask) == (sel.mask, w) && DirMask(w, sel) == (sel, w) && w != "" && ',' !in w
  {
    var words := CHANNEL_WORDS;
    WordLetters(dir, w);
    hide AskedFor, AfterBlank;
    forall i | 0 <= i < |words|
      ensures !Begins(w, words[i].0)
    {
      if |w| >= |words[i].0| {
        Differ(w, words[i].0, 0);
      }
    }
    NoMask(w, words);
    assert !Begins(w, "playback") && !Begins(w, "capture");
  }

  lemma WordLetters(dir: Direction, w: string)
    requires AskedFor(dir, w).Some?
    ensures 2 <= |w| <= 6 && w[0] in "mouncr" && ',' !in w
    ensures w[0] == 'c' ==> |w| == 3 && w[1] == 'a'
    ensures w[0] == 'r' ==> |w| == 3 && w[2] == 'c'
  {
    assert "mute"[0] == 'm' && "off"[0] == 'o' && "unmute"[0] == 'u' && "on"[0] == 'o';
    assert "cap"[0] == 'c' && "cap"[1] == 'a' && "rec"[0] == 'r' && "rec"[2] == 'c';
    assert "nocap"[0] == 'n' && "norec"[0] == 'n';
  }

  /** A switch word by itself: the switches of its direction, nothing else, and whether it counts as done. */
  lemma {:induction false} SsetWord(dir: Direction, elem: Elem, w: string, noCheck: bool, ignoreError: bool)
    requires elem.Valid() && AskedFor(dir, w).Some? && SideOf(elem, dir).hasSwitch
    ensures var after, side := Sset(elem, [w], noCheck), SideOf(elem, dir);
            && SideOf(after, Other(dir)) == SideOf(elem, Other(dir)) && SideOf(after, dir).levels == side.levels
            && (forall c :: 0 <= c < CHANNELS ==>
                  SideOf(after, dir).switches[c] ==
                  if side.channels[c] then AskedFor(dir, w).value else side.switches[c])
            && Code(elem, [w], noCheck, ignoreError) ==
               if exists c :: 0 <= c < CHANNELS && side.channels[c] then 1 else if ignoreError then 0 else -1
  {
    hide Arguments, ChannelsMask, DirMask, Rounds, AskedFor;
    var ses := StartSession(elem);
    var st := State(elem, w, 0, true, true, false);
    WordSelectsNothing(dir, w, ses.sel);
    assert ses.sel.(mask := ses.sel.mask) == ses.sel;
    RoundsWord(dir, st, ses.sel, 0, w, noCheck);
    RoundsWordDone(dir, st, ses.sel, 0, w, noCheck);
    OneOfOne(ses, w, noCheck);
    assert forall c :: 0 <= c < CHANNELS ==>
        (Used(dir, ses.sel, SideOf(elem, dir), c) <==> SideOf(elem, dir).channels[c]);
  }

  // Texts that are not understood.

  /** A first letter with which no word begins, and no number. */
  predicate IsUnknown(s: string) {
    s != "" && s[0] !in "mouncrtfwpMOUNCRTFWP" && s[0] !in "0123456789+-:"
  }

  lemma UnknownLetter(s: string)
    requires IsUnknown(s)
    ensures Lower(s[0]) !in {'m', 'o', 'u', 'n', 'c', 'r', 't', 'f', 'w', 'p'}
    ensures !StartsNumber(s) && s[0] != ':'
  {
    var a := "mouncrtfwpMOUNCRTFWP";
    assert a[0] == 'm' && a[1] == 'o' && a[2] == 'u' && a[3] == 'n' && a[4] == 'c' && a[5] == 'r' && a[6] == 't';
    assert a[7] == 'f' && a[8] == 'w' && a[9] == 'p' && a[10] == 'M' && a[11] == 'O' && a[12] == 'U' && a[13] == 'N';
    assert a[14] == 'C' && a[15] == 'R' && a[16] == 'T' && a[17] == 'F' && a[18] == 'W' && a[19] == 'P';
    var b := "0123456789+-:";
    assert b[0] == '0' && b[1] == '1' && b[2] == '2' && b[3] == '3' && b[4] == '4' && b[5] == '5' && b[6] == '6';
    assert b[7] == '7' && b[8] == '8' && b[9] == '9' && b[10] == '+' && b[11] == '-' && b[12] == ':';
  }

  lemma UnknownSkipped(s: string, w: string)
    requires s != "" && s[0] != ':' && w != "" && Lower(s[0]) != Lower(w[0])
    ensures SkipWord(s, w).None?
  {
    hide AfterWord;
    Differ(s, w, 0);
  }

  lemma {:induction false} TurnUnknown(dir: Direction, side: Side, chn: nat, s: string, noCheck: bool)
    requires side.Valid() && chn < CHANNELS && IsUnknown(s)
    ensures TakeTurn(dir, side, chn, s, 0, noCheck) == Turn(side, s, 0, false, false)
  {
    assert s[0..] == s;
    UnknownLetter(s);
    UnknownNoSwitch(dir, s);
    hide IsUnknown, SetVolume, GetBool, SkipWord, SwitchWord, StartsNumber;
    UnknownSkipped(s, "cap"); UnknownSkipped(s, "rec"); UnknownSkipped(s, "nocap"); UnknownSkipped(s, "norec");
    UnknownSkipped(s, "mute"); UnknownSkipped(s, "off"); UnknownSkipped(s, "unmute"); UnknownSkipped(s, "on");
  }

  lemma UnknownNoSwitch(dir: Direction, s: string)
    requires s != "" && Lower(s[0]) !in {'m', 'o', 'u', 'n', 'c', 'r', 't', 'f', 'w', 'p'}
    ensures SwitchWord(dir, s).None? && !("toggle" <= s)
  {}

  lemma {:induction false} RoundUnknown(st: State, sel: Selection, chn: nat, multi: bool, noCheck: bool)
    requires st.Valid() && chn < CHANNELS && IsUnknown(st.arg) && st.off == 0
    ensures var r := Round(st, sel, chn, multi, noCheck);
            && r.elem == st.elem && r.arg == st.arg && r.off == 0 && r.done == st.done
            && r.knowsPlayback == (st.knowsPlayback && !Used(Playback, sel, st.elem.playback, chn))
            && r.knowsCapture == (st.knowsCapture && !Used(Capture, sel, st.elem.capture, chn))
  {
    hide TakeTurn, Side.Valid, IsUnknown;
    TurnUnknown(Playback, st.elem.playback, chn, st.arg, noCheck);
    TurnUnknown(Capture, st.elem.capture, chn, st.arg, noCheck);
  }

  lemma {:induction false} RoundsUnknown(st: State, sel: Selection, chn: nat, multi: bool, noCheck: bool)
    requires st.Valid() && chn <= CHANNELS && IsUnknown(st.arg) && st.off == 0 && !st.Stuck()
    ensures var r := Rounds(st, sel, chn, multi, noCheck);
            && r.elem == st.elem && r.arg == st.arg && r.done == st.done
            && (r.Stuck() <==>
                  && (!st.knowsPlayback || SomeUsed(Playback, sel, st.elem.playback, chn))
                  && (!st.knowsCapture || SomeUsed(Capture, sel, st.elem.capture, chn)))
    decreases CHANNELS - chn
  {
    hide Round, Used, SomeUsed, IsUnknown;
    if chn == CHANNELS {
      NoneBehind(Playback, sel, st.elem.playback);
      NoneBehind(Capture, sel, st.elem.capture);
    } else {
      var next := Round(st, sel, chn, multi, noCheck);
      RoundUnknown(st, sel, chn, multi, noCheck);
      SomeUsedNext(Playback, sel, st.elem.playback, st.elem.playback, chn);
      SomeUsedNext(Capture, sel, st.elem.capture, st.elem.capture, chn);
      if !next.Stuck() {
        RoundsUnknown(next, sel, chn + 1, multi, noCheck);
      }
    }
  }

  lemma {:induction false} UnknownSelectsNothing(s: string, sel: Selection)
    requires IsUnknown(s)
    ensures ChannelsMask(s, sel.mask) == (sel.mask, s) && DirMask(s, sel) == (sel, s)
  {
    var words := CHANNEL_WORDS;
    UnknownLetter(s);
    hide IsUnknown, AfterBlank;
    forall i | 0 <= i < |words|
      ensures !Begins(s, words[i].0)
    {
      Differ(s, words[i].0, 0);
    }
    NoMask(s, words);
    Differ(s, "playback", 0);
    Differ(s, "capture", 0);
  }

  /**
   A text no direction understands: the element stays. Where both directions have channels the
   command ends there and returns 0, whatever follows.
   */
  lemma {:induction false} SsetUnknown(elem: Elem, s: string, more: seq<string>, noCheck: bool, ignoreError: bool)
    requires elem.Valid() && IsUnknown(s)
    ensures Sset(elem, [s], noCheck) == elem
    ensures (exists c :: 0 <= c < CHANNELS && elem.playback.channels[c])
            && (exists c :: 0 <= c < CHANNELS && elem.capture.channels[c]) ==>
              Sset(elem, [s] + more, noCheck) == elem && Code(elem, [s] + more, noCheck, ignoreError) == 0
    ensures !((exists c :: 0 <= c < CHANNELS && elem.playback.channels[c])
              && (exists c :: 0 <= c < CHANNELS && elem.capture.channels[c])) ==>
              Code(elem, [s], noCheck, ignoreError) == if ignoreError then 0 else -1
  {
    hide ChannelsMask, DirMask, Rounds, IsUnknown, Argument, Arguments;
    var ses := StartSession(elem);
    UnknownArgument(elem, s, noCheck);
    OneOfOne(ses, s, noCheck);
    if Argument(ses, s, noCheck).0.Stuck() {
      EndsThere(ses, s, more, noCheck);
    }
  }

  lemma EndsThere(ses: Session, s: string, more: seq<string>, noCheck: bool)
    requires ses.elem.Valid() && !ses.Stuck() && Argument(ses, s, noCheck).0.Stuck()
    ensures Arguments(ses, [s] + more, noCheck).0 == Argument(ses, s, noCheck).0
  {
    hide Argument;
    assert ([s] + more)[1..] == more;
  }

  lemma {:induction false} UnknownArgument(elem: Elem, s: string, noCheck: bool)
    requires elem.Valid() && IsUnknown(s)
    ensures var after := Argument(StartSession(elem), s, noCheck).0;
            && after.elem == elem && !after.done
            && (after.Stuck() <==> (exists c :: 0 <= c < CHANNELS && elem.playback.channels[c])
                                   && (exists c :: 0 <= c < CHANNELS && elem.capture.channels[c]))
  {
    hide ChannelsMask, DirMask, Rounds;
    var ses := StartSession(elem);
    UnknownSelectsNothing(s, ses.sel);
    assert ses.sel.(mask := ses.sel.mask) == ses.sel;
    RoundsUnknown(State(elem, s, 0, true, true, false), ses.sel, 0, ',' in s, noCheck);
    assert forall c :: 0 <= c < CHANNELS ==> (Used(Playback, ses.sel, elem.playback, c) <==> elem.playback.channels[c]);
    assert forall c :: 0 <= c < CHANNELS ==> (Used(Capture, ses.sel, elem.capture, c) <==> elem.capture.channels[c]);
  }

  // Pieces of the command language by themselves.

  /** A word to be passed over: in any letters, with any ending, after a colon or none, up to its separator. */
  lemma {:induction false} WordPassed(colon: bool, v: string, w: string, end: string, x: string, on: bool, orig: bool)
    requires Begins(v, w) && w != "" && 'a' <= w[0] <= 'z' && forall i :: 0 <= i < |v| ==> v[i] != ',' && v[i] != ':'
    requires (end == "" && x == "") || end == "," || end == ":"
    ensures var s := (if colon then ":" else "") + (v + (end + x));
            SkipWord(s, w) == Some(x) && GetBool(s, w, on, orig) == (on, x)
  {
    hide AfterWord;
    var t := v + (end + x);
    var s := (if colon then ":" else "") + t;
    assert v[0] != ':' && t[0] == v[0];
    assert DropOne(s, ':') == t by {
      if colon { assert s[1..] == t; } else { assert s == t; }
    }
    AfterWordIs(v, end + x);
    assert Begins(t, w) by { assert forall i :: 0 <= i < |w| ==> t[i] == v[i]; }
    assert end != "" ==> (end + x)[1..] == x;
  }

  lemma {:induction false} AfterWordIs(v: string, x: string)
    requires forall i :: 0 <= i < |v| ==> v[i] != ',' && v[i] != ':'
    requires x == "" || x[0] == ',' || x[0] == ':'
    ensures AfterWord(v + x) == x
  {
    if v == "" {
      assert v + x == x;
    } else {
      assert (v + x)[1..] == v[1..] + x;
      AfterWordIs(v[1..], x);
    }
  }

  /** Decibels are refused without a decibel scale, and nothing is set. */
  lemma {:induction false} DecibelRefused(side: Side, chn: nat, neg: bool, d: string, frac: Option<string>, x: string,
                                          noCheck: bool)
    requires side.Valid() && chn < CHANNELS && IsNumber(d) && (frac.Some? ==> IsNumber(frac.value))
    ensures var v := SetVolume(side, chn, Signed(neg, d + (FractionText(frac) + ("dB" + x))), noCheck);
            v.side == side && !v.ok
  {
    hide ReadNumber, ToLevel, CheckRange, IsNumber;
    var s := Signed(neg, d + (FractionText(frac) + ("dB" + x)));
    NumberReads(neg, d, frac, DB, x);
    SignedStarts(neg, d, FractionText(frac) + ("dB" + x));
  }

  /**
   set_volume_simple on any written number: raw or in percent, with a fraction or not, negative or
   not, absolute or a step from the present level; one comma behind it is passed.
   */
  lemma {:induction false} VolumeReads(side: Side, chn: nat, neg: bool, d: string, frac: Option<string>, percent: bool,
                                       step: string, x: string, noCheck: bool)
    requires side.Valid() && chn < CHANNELS && IsNumber(d) && (frac.Some? ==> IsNumber(frac.value))
    requires step in {"", "+", "-"} && (step == "" ==> !StartsWith(x, '+') && !StartsWith(x, '-'))
    requires !percent && step == "" ==> EndsNumber(x, frac)
    ensures var s := Signed(neg, d + (FractionText(frac) + ((if percent then "%" else "") + (step + x))));
            var v, level := SetVolume(side, chn, s, noCheck), side.levels[chn];
            var value := if percent then ToLevel(Decimal(neg, d, frac), side.min, side.max)
                         else Saturate(if neg then -(NatValue(d) as int) else NatValue(d));
            var wanted := if step == "" then value else if step == "+" then level + value else level - value;
            && v.rest == DropOne(x, ',') && v.ok == side.hasVolume
            && v.side == if side.hasVolume
                         then side.(levels := side.levels[chn := CheckRange(wanted, side.min, side.max, noCheck)])
                         else side
  {
    hide ReadNumber, ToLevel, CheckRange, IsNumber, NatValue, Saturate, Decimal, FractionText, Signed, EndsNumber;
    var unit, rest := if percent then PerCent else NoUnit, step + x;
    if !percent {
      StepEnds(step, x, frac);
    }
    NumberReads(neg, d, frac, unit, rest);
    SignedStarts(neg, d, FractionText(frac) + ((if percent then "%" else "") + rest));
    assert step == "" ==> rest == x;
    assert step != "" ==> rest[0] == step[0] && rest[1..] == x;
  }

  lemma StepEnds(step: string, x: string, frac: Option<string>)
    requires step in {"", "+", "-"} && (step == "" ==> EndsNumber(x, frac))
    ensures EndsNumber(step + x, frac)
  {
    if step == "" {
      assert step + x == x;
    } else {
      assert (step + x)[0] == step[0];
    }
  }

  lemma SignedStarts(neg: bool, d: string, x: string)
    requires IsNumber(d)
    ensures var s := Signed(neg, d + x);
            !StartsWith(s, ':') && (StartsWithDigit(s) || StartsWith(s, '-'))
  {
    assert (d + x)[0] == d[0];
  }

  /** get_integer reads a written number, a percentage of the range or not, and one comma behind it. */
  lemma {:induction false} IntegerReads(neg: bool, d: string, frac: Option<string>, percent: bool, x: string,
                                        min: int, max: int, noCheck: bool)
    requires IsNumber(d) && (frac.Some? ==> IsNumber(frac.value))
    requires !percent ==> !StartsWithDigit(x) && !StartsWith(x, '%') && (frac.None? ==> !StartsWith(x, '.'))
    ensures var value := if percent then ToLevel(Decimal(neg, d, frac), min, max)
                         else Saturate(if neg then -(NatValue(d) as int) else NatValue(d));
            var s := Signed(neg, d + (FractionText(frac) + ((if percent then "%" else "") + x)));
            GetInteger(s, min, max, noCheck) == Scan(CheckRange(value, min, max, noCheck), DropOne(x, ','))
  {
    hide Strtol, Strtod, ToLevel, CheckRange, NatValue, Saturate, Decimal, IsNumber, FractionText, Signed;
    var end := (if percent then "%" else "") + x;
    var tail := FractionText(frac) + end;
    assert if percent then end[0] == '%' && end[1..] == x else end == x;
    PastFraction(frac, end);
    StrtodSigned(neg, d, frac, end);
    StrtolSigned(neg, d, tail);
    SignedStarts(neg, d, tail);
    assert DropOne(end, '%') == x;
  }

  /** Without a number get_integer gives the minimum and moves behind a colon only. */
  lemma NoInteger(s: string, min: int, max: int, noCheck: bool)
    requires s == "" || (!('0' <= s[0] <= '9') && s[0] != '-' && s[0] != ':')
    ensures GetInteger(s, min, max, noCheck) == Scan(min, s)
    ensures GetInteger(":" + s, min, max, noCheck) == Scan(min, s)
  {
    assert (":" + s)[1..] == s;
  }
}
