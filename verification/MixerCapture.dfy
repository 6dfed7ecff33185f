/**
 The word `capture` of `sset`. It selects the direction only where it is a whole argument; in
 front of a comma it is a switch word, and the numbers behind it are a list for both directions.
 */
module MixerCapture {
  import opened CText
  import opened Options
  import opened Tokens
  import opened ControlIds
  import opened MixerSet
  import opened MixerTheory
  import opened MixerSteps
  import opened MixerLists

  /** Of texts that do not begin with `playback`, exactly `capture` alone turns playback off. */
  lemma CaptureSelectsIff(s: string, sel: Selection)
    requires sel.playback && !Begins(s, "playback")
    ensures !DirMask(s, sel).0.playback <==> |s| == 7 && Begins(s, "capture")
    ensures DirMask(s, sel).0.playback ==> DirMask(s, sel) == (sel, s)
  {}

  // The whole argument.

  lemma {:induction false} CaptureAlone(ses: Session, noCheck: bool)
    requires ses.elem.Valid()
    ensures Argument(ses, "capture", noCheck)
            == (ses.(sel := ses.sel.(playback := false, capture := true)), "capture")
  {
    hide Rounds, FindMask, AfterBlank;
    CaptureIsNoChannel("capture");
    assert IsCapture("capture");
    assert forall i :: 0 <= i < |"capture"| ==> !IsBlank("capture"[i]);
    NothingBlank("capture");
    assert ses.sel.(mask := ses.sel.mask) == ses.sel;
    PlaybackIsOther("capture");
  }

  lemma {:induction false} NothingBlank(s: string)
    requires forall i :: 0 <= i < |s| ==> !IsBlank(s[i])
    ensures AfterBlank(s) == ""
  {
    if s != "" {
      NothingBlank(s[1..]);
    }
  }

  lemma CaptureIsNoChannel(s: string)
    requires "cap" <= s
    ensures FindMask(s, CHANNEL_WORDS).None?
  {
    var words := CHANNEL_WORDS;
    assert s[0] == 'c' && s[1] == 'a' by { assert "cap"[0] == 'c' && "cap"[1] == 'a' && s[..3] == "cap"; }
    forall i | 0 <= i < |words|
      ensures !Begins(s, words[i].0)
    {
      Differ(s, words[i].0, if i == 4 then 1 else 0);
    }
    NoMask(s, words);
  }

  lemma PlaybackIsOther(s: string)
    requires "cap" <= s
    ensures !Begins(s, "playback")
  {
    assert s[0] == "cap"[0] == 'c';
    Differ(s, "playback", 0);
  }

  /** The direction holds for the arguments that follow: a number sets capture channels only, as a raw level. */
  lemma {:induction false} SsetCaptureNumber(elem: Elem, d: string, noCheck: bool)
    requires elem.Valid() && IsNumber(d)
    ensures var after := Sset(elem, ["capture", d], noCheck);
            && after.playback == elem.playback
            && (elem.capture.hasVolume ==> forall c :: 0 <= c < CHANNELS && elem.capture.channels[c] ==>
                  after.capture.levels[c] == CaptureWanted(elem.capture, d, false, noCheck))
  {
    hide Arguments, ChannelsMask, DirMask, Rounds, CaptureWanted;
    var ses := StartSession(elem);
    var next := ses.(sel := ses.sel.(playback := false, capture := true));
    CaptureAlone(ses, noCheck);
    DigitHasNoWords(d, next.sel);
    assert next.sel.(mask := next.sel.mask) == next.sel;
    assert ',' !in d;
    assert d + Percents(0) == d;
    var st := State(elem, d, 0, true, true, false);
    RoundsDirection(st, next.sel, 0, false, noCheck);
    if elem.capture.hasVolume {
      RoundsCapture(st, next.sel, 0, d, 0, noCheck);
    }
    FirstOfTwo(ses, "capture", d, noCheck);
  }

  lemma FirstOfTwo(ses: Session, a: string, b: string, noCheck: bool)
    requires ses.elem.Valid() && !ses.Stuck()
    ensures var next := Argument(ses, a, noCheck).0;
            !next.Stuck() ==> Arguments(ses, [a, b], noCheck).0 == Argument(next, b, noCheck).0
  {
    hide Argument, Arguments;
    var next := Argument(ses, a, noCheck).0;
    TwoArguments(ses, a, b, noCheck);
    if !next.Stuck() {
      OneOfOne(next, b, noCheck);
    }
  }

  lemma TwoArguments(ses: Session, a: string, b: string, noCheck: bool)
    requires ses.elem.Valid() && !ses.Stuck()
    ensures Arguments(ses, [a, b], noCheck).0 == Arguments(Argument(ses, a, noCheck).0, [b], noCheck).0
  {
    hide Argument;
    assert [a, b][1..] == [b];
  }

  // In front of a comma.

  /** A word that starts with `cap` and ends before the comma. */
  predicate IsCapWord(w: string) {
    "cap" <= w && forall i :: 0 <= i < |w| ==> !IsWordEnd(w[i])
  }

  lemma {:induction false} AfterWordAt(w: string, x: string)
    requires forall i :: 0 <= i < |w| ==> !IsWordEnd(w[i])
    ensures AfterWord(w + ("," + x)) == "," + x
  {
    if w == "" {
      assert w + ("," + x) == "," + x;
    } else {
      assert (w + ("," + x))[1..] == w[1..] + ("," + x);
      AfterWordAt(w[1..], x);
    }
  }

  lemma CapWordStarts(w: string, x: string)
    requires IsCapWord(w)
    ensures var s := w + ("," + x);
            "cap" <= s && s[0] == 'c' && Begins(s, "cap") && DropOne(s, ':') == s && DropSeparator(AfterWord(s)) == x
  {
    hide AfterWord;
    var s := w + ("," + x);
    AfterWordAt(w, x);
    assert ("," + x)[1..] == x;
    assert w[..3] == "cap" && s[..3] == w[..3];
    assert s[0] == "cap"[0] && s[1] == "cap"[1] && s[2] == "cap"[2];
  }

  /** Playback passes over the word. */
  lemma {:induction false} CapSkipped(side: Side, chn: nat, arg: string, off: nat, w: string, x: string, noCheck: bool)
    requires side.Valid() && chn < CHANNELS && off <= |arg| && IsCapWord(w) && arg[off..] == w + ("," + x)
    ensures TakeTurn(Playback, side, chn, arg, off, noCheck) == Turn(side, arg, |arg| - |x|, false, true)
  {
    hide SetVolume, GetBool, AfterWord, Begins, IsCapWord;
    CapWordStarts(w, x);
    CapIsNoPlaybackWord(arg[off..]);
  }

  lemma CapIsNoPlaybackWord(s: string)
    requires s != "" && s[0] == 'c'
    ensures SwitchWord(Playback, s).None? && !("toggle" <= s) && !StartsNumber(s)
  {}

  /** Capture takes it as its switch word. */
  lemma {:induction false} CapTaken(side: Side, chn: nat, arg: string, off: nat, w: string, x: string, noCheck: bool)
    requires side.Valid() && chn < CHANNELS && off <= |arg| && IsCapWord(w) && arg[off..] == w + ("," + x)
    requires side.hasSwitch
    ensures TakeTurn(Capture, side, chn, arg, off, noCheck)
            == Turn(Switched(side, chn, true), arg, |arg| - |x|, true, true)
  {
    hide SetVolume, SkipWord, SkipForeign, AfterWord, Begins, IsCapWord;
    CapWordStarts(w, x);
  }

  lemma RestBehind(arg: string, off: nat, w: string, x: string)
    requires off <= |arg| && arg[off..] == w + ("," + x)
    ensures |x| <= |arg| && arg[|arg| - |x|..] == x
  {
    Suffix(arg, off, |x|);
    assert (w + ("," + x))[|w| + 1..] == x;
  }

  function SwitchedOn(sel: Selection, e: Elem, chn: nat): Side
    requires e.Valid() && chn < CHANNELS
  {
    if Used(Capture, sel, e.capture, chn) then Switched(e.capture, chn, true) else e.capture
  }

  lemma CapPlayed(st: State, sel: Selection, chn: nat, w: string, x: string, noCheck: bool)
    requires st.Valid() && chn < CHANNELS && chn in sel.mask && IsCapWord(w) && st.arg[st.off..] == w + ("," + x)
    ensures var r := PlaybackTurn(st, sel, chn, noCheck);
            && r.elem == st.elem && r.arg == st.arg
            && r.knowsPlayback == st.knowsPlayback && r.knowsCapture == st.knowsCapture
            && (if Used(Playback, sel, st.elem.playback, chn) then r.arg[r.off..] == x else r == st)
  {
    hide TakeTurn, IsCapWord, Side.Valid;
    CapSkipped(st.elem.playback, chn, st.arg, st.off, w, x, noCheck);
    RestBehind(st.arg, st.off, w, x);
  }

  lemma CapCaptured(st: State, start: nat, sel: Selection, chn: nat, w: string, x: string, noCheck: bool)
    requires st.Valid() && chn < CHANNELS && chn in sel.mask && IsCapWord(w) && start <= |st.arg|
    requires st.arg[start..] == w + ("," + x) && st.elem.capture.hasSwitch
    ensures var r := CaptureTurn(st, start, sel, chn, noCheck);
            && r.elem.playback == st.elem.playback && r.elem.capture == SwitchedOn(sel, st.elem, chn)
            && r.knowsPlayback == st.knowsPlayback && r.knowsCapture == st.knowsCapture
            && (if Used(Capture, sel, st.elem.capture, chn) then r.arg[r.off..] == x else r == st)
  {
    hide TakeTurn, IsCapWord, Switched, Side.Valid;
    CapTaken(st.elem.capture, chn, st.arg, start, w, x, noCheck);
    RestBehind(st.arg, start, w, x);
  }

  /** The round that reads the word: the first channel used by either direction. */
  lemma {:induction false} RoundCap(st: State, sel: Selection, chn: nat, w: string, x: string, noCheck: bool)
    requires st.Valid() && chn < CHANNELS && IsCapWord(w) && st.arg[st.off..] == w + ("," + x)
    requires st.elem.capture.hasSwitch && !st.Stuck()
    ensures var r := Round(st, sel, chn, true, noCheck);
            && !r.Stuck() && r.elem.playback == st.elem.playback && r.elem.capture == SwitchedOn(sel, st.elem, chn)
            && (if UsedAny(sel, st.elem, chn) then r.arg[r.off..] == x else r == st)
  {
    hide PlaybackTurn, CaptureTurn, IsCapWord, Switched;
    if chn in sel.mask {
      CapPlayed(st, sel, chn, w, x, noCheck);
      CapCaptured(PlaybackTurn(st, sel, chn, noCheck), st.off, sel, chn, w, x, noCheck);
    }
  }

  /** The first channel from chn on that either direction uses. */
  function FirstUsed(sel: Selection, e: Elem, chn: nat): (f: nat)
    requires e.Valid() && chn <= CHANNELS
    ensures chn <= f <= CHANNELS
    decreases CHANNELS - chn
  {
    if chn == CHANNELS || UsedAny(sel, e, chn) then chn else FirstUsed(sel, e, chn + 1)
  }

  lemma LevelAfterSwitch(dir: Direction, sel: Selection, e: Elem, next: Elem, chn: nat, c: nat, ds: seq<string>, k: nat,
                         noCheck: bool)
    requires e.Valid() && next.Valid() && c < CHANNELS && AllNumbers(ds)
    requires next.playback == e.playback && e.capture.(switches := next.capture.switches) == next.capture
    ensures ListLevel(dir, sel, next, chn, c, ds, k, noCheck) == ListLevel(dir, sel, e, chn, c, ds, k, noCheck)
  {
    hide CaptureWanted, PlayedWithin;
    RankSame(sel, e, next, chn, c);
    var i := Rank(sel, e, chn, c);
    if i < |ds| {
      assert ds[i..][0] == ds[i];
      SameCaptureWanted(SideOf(e, dir), SideOf(next, dir), ds[i], noCheck);
    }
  }

  /** What is left of the element once the word has been read by channel f: the list from the next channel on. */
  predicate ListedFrom(dir: Direction, sel: Selection, e: Elem, after: Elem, chn: nat, f: nat, ds: seq<string>,
                       noCheck: bool)
    requires e.Valid() && after.Valid() && AllNumbers(ds)
  {
    && (forall c :: chn <= c < CHANNELS ==>
          SideOf(after, dir).levels[c] ==
          if c <= f then SideOf(e, dir).levels[c] else ListLevel(dir, sel, e, f + 1, c, ds, 0, noCheck))
    && (f < CHANNELS && Used(Capture, sel, e.capture, f) ==> after.capture.switches[f])
  }

  lemma {:induction false} CapListHere(dir: Direction, st: State, next: State, sel: Selection, chn: nat,
                                       ds: seq<string>, noCheck: bool)
    requires st.Valid() && next.Valid() && chn < CHANNELS && AllNumbers(ds) && !next.Stuck()
    requires next.elem.playback == st.elem.playback && next.elem.capture == SwitchedOn(sel, st.elem, chn)
    requires next.arg[next.off..] == ListText(ds, 0)
    ensures ListedFrom(dir, sel, st.elem, Rounds(next, sel, chn + 1, true, noCheck).elem, chn, chn, ds, noCheck)
  {
    hide Rounds, Round, ListText, ListLevel, AllNumbers;
    var m := chn + 1;
    RoundsList(dir, next, sel, m, ds, 0, noCheck);
    RoundsFrame(next, sel, m, true, noCheck, chn);
    forall c | m <= c < CHANNELS
      ensures ListLevel(dir, sel, next.elem, m, c, ds, 0, noCheck)
              == ListLevel(dir, sel, st.elem, m, c, ds, 0, noCheck)
    {
      LevelAfterSwitch(dir, sel, st.elem, next.elem, m, c, ds, 0, noCheck);
    }
  }

  lemma ListedEarlier(dir: Direction, sel: Selection, e: Elem, after: Elem, chn: nat, f: nat, ds: seq<string>,
                      noCheck: bool)
    requires e.Valid() && after.Valid() && AllNumbers(ds) && chn < f
    requires ListedFrom(dir, sel, e, after, chn + 1, f, ds, noCheck)
    requires chn < CHANNELS ==> SameElemChannel(e, after, chn)
    ensures ListedFrom(dir, sel, e, after, chn, f, ds, noCheck)
  {
    hide ListLevel;
  }

  /**
   A word that starts with `cap`, a comma and a list of numbers: the first channel that is used
   reads the word, which turns its capture switch on, and the list begins with the next channel.
   */
  lemma {:induction false} RoundsCapList(dir: Direction, st: State, sel: Selection, chn: nat, w: string,
                                         ds: seq<string>, noCheck: bool)
    requires st.Valid() && chn <= CHANNELS && AllNumbers(ds) && !st.Stuck() && st.elem.capture.hasSwitch
    requires IsCapWord(w) && st.arg[st.off..] == w + ("," + ListText(ds, 0))
    ensures ListedFrom(dir, sel, st.elem, Rounds(st, sel, chn, true, noCheck).elem, chn,
                       FirstUsed(sel, st.elem, chn), ds, noCheck)
    decreases CHANNELS - chn
  {
    hide Round, ListText, ListLevel, AllNumbers, IsCapWord, ListedFrom, Elem.Valid;
    if chn == CHANNELS {
      ListedAtEnd(dir, sel, st.elem, ds, noCheck);
    } else {
      var next := Round(st, sel, chn, true, noCheck);
      RoundCap(st, sel, chn, w, ListText(ds, 0), noCheck);
      if UsedAny(sel, st.elem, chn) {
        CapListHere(dir, st, next, sel, chn, ds, noCheck);
      } else {
        RoundsCapList(dir, st, sel, chn + 1, w, ds, noCheck);
        RoundsFrame(st, sel, chn + 1, true, noCheck, chn);
        ListedEarlier(dir, sel, st.elem, Rounds(st, sel, chn + 1, true, noCheck).elem, chn,
                      FirstUsed(sel, st.elem, chn + 1), ds, noCheck);
      }
    }
  }

  lemma ListedAtEnd(dir: Direction, sel: Selection, e: Elem, ds: seq<string>, noCheck: bool)
    requires e.Valid() && AllNumbers(ds)
    ensures ListedFrom(dir, sel, e, e, CHANNELS, CHANNELS, ds, noCheck)
  {}

  lemma CapListHasNoWords(w: string, x: string, sel: Selection)
    requires IsCapWord(w)
    ensures var s := w + ("," + x);
            ChannelsMask(s, sel.mask) == (sel.mask, s) && DirMask(s, sel) == (sel, s) && ',' in s
  {
    hide FindMask, AfterBlank, AfterWord;
    var s := w + ("," + x);
    CapWordStarts(w, x);
    CaptureIsNoChannel(s);
    PlaybackIsOther(s);
    assert s[|w|] == ',';
    assert forall i :: 0 <= i < 7 ==> Lower("capture"[i]) != ',';
    assert Lower(s[|w|]) == ',';
  }

  /** The same for a whole command, `capture,50` among them: it is no direction and sets playback as well. */
  lemma {:induction false} SsetCapList(dir: Direction, elem: Elem, w: string, ds: seq<string>, noCheck: bool)
    requires elem.Valid() && elem.capture.hasSwitch && AllNumbers(ds) && IsCapWord(w)
    ensures var after, sel := Sset(elem, [w + ("," + Join(ds, ','))], noCheck), StartSession(elem).sel;
            var f := FirstUsed(sel, elem, 0);
            SameElemShape(elem, after) && ListedFrom(dir, sel, elem, after, 0, f, ds, noCheck)
  {
    hide Arguments, ChannelsMask, DirMask, Rounds, ListedFrom, Join, AllNumbers, IsCapWord, SameElemShape;
    var ses, x := StartSession(elem), Join(ds, ',');
    var text := w + ("," + x);
    assert x + Percents(0) == x;
    CapListHasNoWords(w, x, ses.sel);
    assert ses.sel.(mask := ses.sel.mask) == ses.sel;
    RoundsCapList(dir, State(elem, text, 0, true, true, false), ses.sel, 0, w, ds, noCheck);
    ArgumentInRange(ses, text, noCheck);
    OneOfOne(ses, text, noCheck);
  }

  /** One input: `capture,50` turns the capture switch of channel 0 on and sets playback channel 1 to 50 percent. */
  lemma {:induction false} CaptureFifty(elem: Elem, noCheck: bool)
    requires elem.Valid() && elem.playback.hasVolume && elem.capture.hasSwitch
    requires elem.playback.channels[0] && elem.playback.channels[1] && elem.capture.channels[0]
    ensures var after := Sset(elem, ["capture,50"], noCheck);
            after.playback.levels[1] == Wanted(elem.playback, "50", noCheck) && after.capture.switches[0]
  {
    hide Sset, Wanted, IsNumber;
    var ds, sel := ["50"], StartSession(elem).sel;
    FiftyList();
    SsetCapList(Playback, elem, "capture", ds, noCheck);
    assert Used(Playback, sel, elem.playback, 0) && FirstUsed(sel, elem, 0) == 0;
    assert Played(sel, elem.playback, 1) && PlayedWithin(sel, elem.playback, 1, 1);
    assert Rank(sel, elem, 1, 1) == 0 && ds[0..] == ds;
    var after := Sset(elem, ["capture,50"], noCheck);
    assert SideOf(after, Playback).levels[1] == ListLevel(Playback, sel, elem, 1, 1, ds, 0, noCheck);
  }

  lemma FiftyList()
    ensures IsNumber("50") && AllNumbers(["50"]) && IsCapWord("capture")
    ensures "capture" + ("," + Join(["50"], ',')) == "capture,50"
  {
    assert "capture"[..3] == "cap";
  }
}
