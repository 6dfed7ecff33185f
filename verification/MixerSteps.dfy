/** `sset` arguments that change what is there: steps up and down, and the word `toggle`. */
module MixerSteps {
  import opened CText
  import opened Options
  import opened Percent
  import opened ControlIds
  import opened MixerSet
  import opened MixerTheory

  // Steps.

  predicate IsSign(c: char) {
    c == '+' || c == '-'
  }

  /** A step: how far, whether in percent, and which way. */
  datatype Step = Step(number: string, percent: bool, sign: char)
  {
    predicate Valid() {
      IsNumber(number) && IsSign(sign)
    }
  }

  /** How a step is written, and the percent signs playback channels have appended. */
  function StepText(step: Step, k: nat): string {
    step.number + ((if step.percent then "%" else "") + ([step.sign] + Percents(k)))
  }

  /** How far a step goes: raw levels, or the level the percentage would set. */
  function Stride(side: Side, step: Step): int
    requires step.Valid()
  {
    if step.percent then ToLevel(NatValue(step.number) as real, side.min, side.max) else Saturate(NatValue(step.number))
  }

  function Moved(level: int, sign: char, stride: int): int {
    if sign == '+' then level + stride else level - stride
  }

  function SteppedLevel(side: Side, chn: nat, step: Step, noCheck: bool): int
    requires side.Valid() && chn < CHANNELS && step.Valid()
  {
    CheckRange(Moved(side.levels[chn], step.sign, Stride(side, step)), side.min, side.max, noCheck)
  }

  function Stepped(side: Side, chn: nat, step: Step, noCheck: bool): Side
    requires side.Valid() && chn < CHANNELS && step.Valid()
  {
    if side.hasVolume then side.(levels := side.levels[chn := SteppedLevel(side, chn, step, noCheck)]) else side
  }

  lemma {:induction false} PercentSet(side: Side, chn: nat, d: string, sign: char, tail: string, noCheck: bool)
    requires side.Valid() && chn < CHANNELS && IsNumber(d) && IsSign(sign)
    ensures SetVolume(side, chn, d + ("%" + ([sign] + tail)), noCheck).side
            == Stepped(side, chn, Step(d, true, sign), noCheck)
  {
    hide ReadNumber, ToLevel, CheckRange, NatValue;
    var rest := "%" + ([sign] + tail);
    var s := d + rest;
    ReadPercent(d, rest);
    assert rest[1..] == [sign] + tail;
    assert s[0] == d[0];
    assert DropOne(s, ':') == s;
  }

  lemma {:induction false} StepSet(side: Side, chn: nat, step: Step, k: nat, noCheck: bool)
    requires side.Valid() && chn < CHANNELS && step.Valid()
    ensures SetVolume(side, chn, StepText(step, k), noCheck).side == Stepped(side, chn, step, noCheck)
  {
    hide SetVolume, CheckRange, Saturate, NatValue, ToLevel;
    var tail := [step.sign] + Percents(k);
    if step.percent {
      PercentSet(side, chn, step.number, step.sign, Percents(k), noCheck);
    } else {
      assert "" + tail == tail;
      if side.hasVolume {
        PlainNumber(side, chn, step.number, tail, noCheck);
      } else {
        NoVolume(side, chn, StepText(step, k), noCheck);
      }
    }
  }

  lemma StepTextNext(step: Step, k: nat)
    ensures StepText(step, k) + "%" == StepText(step, k + 1)
    ensures step.Valid() ==> StartsWithDigit(StepText(step, k))
  {
    PercentsNext(step.number, k);
    var unit := if step.percent then "%" else "";
    assert StepText(step, k) + "%" == step.number + (unit + ([step.sign] + (Percents(k) + "%")));
  }

  function Growth(dir: Direction): nat {
    if dir.Playback? then 1 else 0
  }

  lemma {:induction false} TurnStep(dir: Direction, side: Side, chn: nat, step: Step, k: nat, noCheck: bool)
    requires side.Valid() && chn < CHANNELS && step.Valid()
    ensures var t := TakeTurn(dir, side, chn, StepText(step, k), 0, noCheck);
            && t.arg == StepText(step, k + Growth(dir)) && t.known
            && t.side == Stepped(side, chn, step, noCheck)
  {
    hide SetVolume, SwitchWord, GetBool, SkipWord, StepText, Stepped, IsNumber;
    var arg := StepText(step, k);
    var text := StepText(step, k + Growth(dir));
    assert arg[0..] == arg && text[0..] == text;
    StepTextNext(step, k);
    NumberIsNoWord(dir, arg);
    StepSet(side, chn, step, k + Growth(dir), noCheck);
  }

  /** What one channel's turn makes of a side. */
  function StepsSide(dir: Direction, sel: Selection, side: Side, chn: nat, step: Step, noCheck: bool): Side
    requires side.Valid() && chn < CHANNELS && step.Valid()
  {
    if Used(dir, sel, side, chn) then Stepped(side, chn, step, noCheck) else side
  }

  function Grown(sel: Selection, e: Elem, chn: nat, k: nat): nat
    requires e.Valid() && chn < CHANNELS
  {
    if Used(Playback, sel, e.playback, chn) then k + 1 else k
  }

  lemma StepPlayed(st: State, sel: Selection, chn: nat, step: Step, k: nat, noCheck: bool)
    requires st.Valid() && chn < CHANNELS && chn in sel.mask && step.Valid()
    requires st.arg == StepText(step, k) && st.off == 0
    ensures var r := PlaybackTurn(st, sel, chn, noCheck);
            && r.knowsPlayback == st.knowsPlayback && r.knowsCapture == st.knowsCapture
            && r.arg == StepText(step, Grown(sel, st.elem, chn, k))
            && r.elem.capture == st.elem.capture
            && r.elem.playback == StepsSide(Playback, sel, st.elem.playback, chn, step, noCheck)
  {
    hide TakeTurn, Stepped, StepText, Side.Valid;
    TurnStep(Playback, st.elem.playback, chn, step, k, noCheck);
  }

  lemma StepCaptured(st: State, sel: Selection, chn: nat, step: Step, k: nat, noCheck: bool)
    requires st.Valid() && chn < CHANNELS && chn in sel.mask && step.Valid()
    requires st.arg == StepText(step, k)
    ensures var r := CaptureTurn(st, 0, sel, chn, noCheck);
            && r.knowsPlayback == st.knowsPlayback && r.knowsCapture == st.knowsCapture
            && r.arg == st.arg && r.elem.playback == st.elem.playback
            && r.elem.capture == StepsSide(Capture, sel, st.elem.capture, chn, step, noCheck)
  {
    hide TakeTurn, Stepped, StepText, Side.Valid;
    TurnStep(Capture, st.elem.capture, chn, step, k, noCheck);
  }

  lemma RoundStep(st: State, sel: Selection, chn: nat, step: Step, k: nat, noCheck: bool)
    requires st.Valid() && chn < CHANNELS && step.Valid()
    requires st.arg == StepText(step, k) && st.off == 0 && !st.Stuck()
    ensures var r := Round(st, sel, chn, false, noCheck);
            && r.off == 0 && !r.Stuck() && r.arg == StepText(step, Grown(sel, st.elem, chn, k))
            && r.elem.playback == StepsSide(Playback, sel, st.elem.playback, chn, step, noCheck)
            && r.elem.capture == StepsSide(Capture, sel, st.elem.capture, chn, step, noCheck)
  {
    hide PlaybackTurn, CaptureTurn, Stepped, StepText, Side.Valid;
    if chn in sel.mask {
      StepPlayed(st, sel, chn, step, k, noCheck);
      StepCaptured(PlaybackTurn(st, sel, chn, noCheck), sel, chn, step, Grown(sel, st.elem, chn, k), noCheck);
    }
  }

  /** A step moves every selected channel of either direction by its stride, and no other channel. */
  lemma {:induction false} RoundsStep(dir: Direction, st: State, sel: Selection, chn: nat, step: Step, k: nat,
                                      noCheck: bool)
    requires st.Valid() && chn <= CHANNELS && step.Valid()
    requires st.arg == StepText(step, k) && st.off == 0 && !st.Stuck()
    ensures var after, side := SideOf(Rounds(st, sel, chn, false, noCheck).elem, dir), SideOf(st.elem, dir);
            forall c :: chn <= c < CHANNELS ==>
              after.levels[c] ==
              if Used(dir, sel, side, c) && side.hasVolume then SteppedLevel(side, c, step, noCheck)
              else side.levels[c]
    decreases CHANNELS - chn
  {
    hide Round, SteppedLevel, StepText;
    if chn < CHANNELS {
      RoundStep(st, sel, chn, step, k, noCheck);
      var next := Round(st, sel, chn, false, noCheck);
      var side, then' := SideOf(st.elem, dir), SideOf(next.elem, dir);
      assert then' == StepsSide(dir, sel, side, chn, step, noCheck);
      RoundsStep(dir, next, sel, chn + 1, step, Grown(sel, st.elem, chn, k), noCheck);
      RoundsFrame(next, sel, chn + 1, false, noCheck, chn);
      forall c | chn < c < CHANNELS
        ensures SteppedLevel(then', c, step, noCheck) == SteppedLevel(side, c, step, noCheck)
      {
        SameStep(side, then', c, step, noCheck);
      }
    }
  }

  lemma SameStep(a: Side, b: Side, c: nat, step: Step, noCheck: bool)
    requires a.Valid() && b.Valid() && c < CHANNELS && step.Valid()
    requires a.min == b.min && a.max == b.max && a.levels[c] == b.levels[c]
    ensures SteppedLevel(a, c, step, noCheck) == SteppedLevel(b, c, step, noCheck)
  {}

  /** `sset` with a number, an optional percent sign, and a sign behind it. */
  lemma {:induction false} SsetStep(dir: Direction, elem: Elem, step: Step, noCheck: bool)
    requires elem.Valid() && step.Valid()
    ensures var text := StepText(step, 0);
            var after, side := SideOf(Sset(elem, [text], noCheck), dir), SideOf(elem, dir);
            && SameShape(side, after)
            && forall c :: 0 <= c < CHANNELS ==>
                 after.levels[c] ==
                 if side.channels[c] && side.hasVolume then SteppedLevel(side, c, step, noCheck)
                 else side.levels[c]
  {
    hide Arguments, ChannelsMask, DirMask, Rounds, SteppedLevel, StepText;
    var ses, text := StartSession(elem), StepText(step, 0);
    StepTextNext(step, 0);
    NoComma(step);
    DigitHasNoWords(text, ses.sel);
    assert ses.sel.(mask := ses.sel.mask) == ses.sel;
    RoundsStep(dir, State(elem, text, 0, true, true, false), ses.sel, 0, step, 0, noCheck);
    ArgumentInRange(ses, text, noCheck);
    OneOfOne(ses, text, noCheck);
  }

  lemma NoComma(step: Step)
    requires step.Valid()
    ensures ',' !in StepText(step, 0)
  {}

  /**
   A step up and the same step down lead back exactly if every channel either stays within its
   range or starts at the end to which a step that was cut short falls back.
   */
  lemma {:induction false} StepUpDown(dir: Direction, elem: Elem, d: string, percent: bool)
    requires elem.Valid() && IsNumber(d) && SideOf(elem, dir).InRange() && SideOf(elem, dir).hasVolume
    ensures var side := SideOf(elem, dir);
            var stride := Stride(side, Step(d, percent, '+'));
            var up := Sset(elem, [StepText(Step(d, percent, '+'), 0)], false);
            var after := SideOf(Sset(up, [StepText(Step(d, percent, '-'), 0)], false), dir);
            after.levels == side.levels <==>
            forall c :: 0 <= c < CHANNELS && side.channels[c] ==>
              if stride >= 0 then side.levels[c] + stride <= side.max || side.levels[c] == side.min
              else side.min <= side.levels[c] + stride || side.levels[c] == side.max
  {
    hide Sset, Saturate, NatValue, ToLevel, StepText;
    var side, up := SideOf(elem, dir), Sset(elem, [StepText(Step(d, percent, '+'), 0)], false);
    var after := SideOf(Sset(up, [StepText(Step(d, percent, '-'), 0)], false), dir);
    var stride := Stride(side, Step(d, percent, '+'));
    SsetStep(dir, elem, Step(d, percent, '+'), false);
    SsetStep(dir, up, Step(d, percent, '-'), false);
    assert Stride(SideOf(up, dir), Step(d, percent, '-')) == stride;
    forall c | 0 <= c < CHANNELS
      ensures after.levels[c] == side.levels[c] <==>
              (side.channels[c] ==>
                 if stride >= 0 then side.levels[c] + stride <= side.max || side.levels[c] == side.min
                 else side.min <= side.levels[c] + stride || side.levels[c] == side.max)
    {
    }
  }

  // Steps in percent.

  /** The level of a percentage is the one of a range that starts at 0, moved up by the minimum. */
  lemma {:induction false} LevelShift(p: real, min: int, max: int)
    ensures ToLevel(p, min, max) == ToLevel(p, 0, max - min) + min
  {
    hide Ceil;
    var x := p * (max - min) as real * 0.01;
    CeilIs(x + min as real, Ceil(x + 0.0) + min);
  }

  /** What a step of some percent is taken for: the percentage of the width, rounded up. */
  function Width(side: Side, d: string): int
    requires IsNumber(d)
  {
    ToLevel(NatValue(d) as real, 0, side.max - side.min)
  }

  /** The code moves by the percentage of the width plus the minimum of the range. */
  lemma {:induction false} PercentStride(side: Side, d: string, sign: char)
    requires IsNumber(d) && IsSign(sign)
    ensures Stride(side, Step(d, true, sign)) == Width(side, d) + side.min
  {
    hide ToLevel, NatValue;
    LevelShift(NatValue(d) as real, side.min, side.max);
  }

  /** When the two lead to the same level: no minimum, one level only, or both beyond the same end. */
  predicate StepMeant(side: Side, chn: nat, d: string, sign: char, noCheck: bool)
    requires side.Valid() && chn < CHANNELS && IsNumber(d)
  {
    var meant := Moved(side.levels[chn], sign, Width(side, d));
    var done := Moved(meant, sign, side.min);
    || side.min == 0
    || (!noCheck && (|| side.min == side.max
                     || (meant >= side.max && done >= side.max)
                     || (meant <= side.min && done <= side.min)))
  }

  lemma ClampSame(x: int, y: int, min: int, max: int, noCheck: bool)
    requires min <= max
    ensures CheckRange(x, min, max, noCheck) == CheckRange(y, min, max, noCheck) <==>
            || x == y
            || (!noCheck && (min == max || (x >= max && y >= max) || (x <= min && y <= min)))
  {}

  /**
   `sset` with a step in percent: a channel that is used moves by that percentage of the width
   if and only if StepMeant holds; otherwise the minimum of the range has got in.
   */
  lemma {:induction false} PercentStepIff(dir: Direction, elem: Elem, d: string, sign: char, c: nat, noCheck: bool)
    requires elem.Valid() && IsNumber(d) && IsSign(sign) && c < CHANNELS
    requires SideOf(elem, dir).hasVolume && SideOf(elem, dir).channels[c]
    ensures var side := SideOf(elem, dir);
            var after := SideOf(Sset(elem, [StepText(Step(d, true, sign), 0)], noCheck), dir);
            after.levels[c] == CheckRange(Moved(side.levels[c], sign, Width(side, d)), side.min, side.max, noCheck)
            <==> StepMeant(side, c, d, sign, noCheck)
  {
    hide Sset, ToLevel, NatValue, CheckRange, StepText;
    var side := SideOf(elem, dir);
    SsetStep(dir, elem, Step(d, true, sign), noCheck);
    PercentStride(side, d, sign);
    var meant := Moved(side.levels[c], sign, Width(side, d));
    ClampSame(Moved(meant, sign, side.min), meant, side.min, side.max, noCheck);
  }

  /** One input: 5 percent more, in a range from 100 to 200 at 150, is the maximum and not 155. */
  lemma {:induction false} PercentStepOff(elem: Elem)
    requires elem.Valid() && elem.playback.hasVolume && elem.playback.channels[0]
    requires elem.playback.min == 100 && elem.playback.max == 200 && elem.playback.levels[0] == 150
    ensures Sset(elem, ["5%+"], false).playback.levels[0] == 200
    ensures CheckRange(Moved(150, '+', ToLevel(5.0, 0, 100)), 100, 200, false) == 155
  {
    hide Sset, ToLevel;
    FivePercent();
    SsetStep(Playback, elem, Step("5", true, '+'), false);
    PercentStride(elem.playback, "5", '+');
    assert "5%+" == StepText(Step("5", true, '+'), 0);
    assert SideOf(Sset(elem, ["5%+"], false), Playback).levels[0] == 200;
  }

  lemma FivePercent()
    ensures IsNumber("5") && NatValue("5") == 5 && ToLevel(5.0, 0, 100) == 5
  {
    assert "5"[..0] == "";
    CeilIs(5.0 * 100.0 * 0.01 + 0.0, 5);
  }

  // The word `toggle`.

  function Knows(st: State, dir: Direction): bool {
    match dir
    case Playback => st.knowsPlayback
    case Capture => st.knowsCapture
  }

  /** What the word makes of a side: without a switch it is not understood. */
  function ToggledSide(dir: Direction, sel: Selection, side: Side, chn: nat): Side
    requires side.Valid() && chn < CHANNELS
  {
    if Used(dir, sel, side, chn) && side.hasSwitch then Switched(side, chn, !side.switches[chn]) else side
  }

  lemma ToggleIsNoWord(dir: Direction)
    ensures SwitchWord(dir, "toggle").None? && !StartsNumber("toggle") && SkipForeign(dir, "toggle").None?
    ensures SkipWord("toggle", "toggle") == Some("")
  {
    hide SwitchWord, AfterWord, SkipWord;
    var s := "toggle";
    assert s[0] == 't';
    ToggleNoSwitch(dir);
    NotSkipped(s, "cap"); NotSkipped(s, "rec"); NotSkipped(s, "nocap"); NotSkipped(s, "norec");
    NotSkipped(s, "mute"); NotSkipped(s, "off"); NotSkipped(s, "unmute"); NotSkipped(s, "on");
    Skipped(s);
  }

  lemma ToggleNoSwitch(dir: Direction)
    ensures SwitchWord(dir, "toggle").None?
  {
    assert "toggle"[0] == 't';
  }

  lemma NotSkipped(s: string, w: string)
    requires s != [] && s[0] != ':' && w != [] && Lower(s[0]) != Lower(w[0])
    ensures SkipWord(s, w).None?
  {
    hide AfterWord;
    Differ(s, w, 0);
  }

  lemma Skipped(s: string)
    requires s != [] && forall i :: 0 <= i < |s| ==> !IsWordEnd(s[i])
    ensures SkipWord(s, s) == Some("")
  {
    hide AfterWord;
    assert Begins(s, s);
    NoWordEnd(s);
  }

  lemma {:induction false} NoWordEnd(s: string)
    requires forall i :: 0 <= i < |s| ==> !IsWordEnd(s[i])
    ensures AfterWord(s) == ""
  {
    if s != [] {
      NoWordEnd(s[1..]);
    }
  }

  lemma TurnToggle(dir: Direction, side: Side, chn: nat, noCheck: bool)
    requires side.Valid() && chn < CHANNELS
    ensures var t := TakeTurn(dir, side, chn, "toggle", 0, noCheck);
            && t.arg == "toggle" && t.known == side.hasSwitch
            && t.side == if side.hasSwitch then Switched(side, chn, !side.switches[chn]) else side
  {
    hide SetVolume, SwitchWord, GetBool, SkipWord, SkipForeign, StartsNumber;
    assert "toggle"[0..] == "toggle";
    ToggleIsNoWord(dir);
  }

  lemma TogglePlayed(st: State, sel: Selection, chn: nat, noCheck: bool)
    requires st.Valid() && chn < CHANNELS && chn in sel.mask && st.arg == "toggle" && st.off == 0
    ensures var r := PlaybackTurn(st, sel, chn, noCheck);
            && r.arg == "toggle" && r.elem.capture == st.elem.capture
            && r.elem.playback == ToggledSide(Playback, sel, st.elem.playback, chn)
            && (st.elem.playback.hasSwitch ==> r.knowsPlayback == st.knowsPlayback)
            && r.knowsCapture == st.knowsCapture
  {
    hide TakeTurn, Switched, Side.Valid;
    TurnToggle(Playback, st.elem.playback, chn, noCheck);
  }

  lemma ToggleCaptured(st: State, sel: Selection, chn: nat, noCheck: bool)
    requires st.Valid() && chn < CHANNELS && chn in sel.mask && st.arg == "toggle"
    ensures var r := CaptureTurn(st, 0, sel, chn, noCheck);
            && r.arg == "toggle" && r.elem.playback == st.elem.playback
            && r.elem.capture == ToggledSide(Capture, sel, st.elem.capture, chn)
            && (st.elem.capture.hasSwitch ==> r.knowsCapture == st.knowsCapture)
            && r.knowsPlayback == st.knowsPlayback
  {
    hide TakeTurn, Switched, Side.Valid;
    TurnToggle(Capture, st.elem.capture, chn, noCheck);
  }

  lemma RoundToggle(st: State, sel: Selection, chn: nat, noCheck: bool)
    requires st.Valid() && chn < CHANNELS && st.arg == "toggle" && st.off == 0
    ensures var r := Round(st, sel, chn, false, noCheck);
            && r.arg == "toggle" && (!r.Stuck() ==> r.off == 0)
            && r.elem.playback == ToggledSide(Playback, sel, st.elem.playback, chn)
            && r.elem.capture == ToggledSide(Capture, sel, st.elem.capture, chn)
            && (st.elem.playback.hasSwitch ==> r.knowsPlayback == st.knowsPlayback)
            && (st.elem.capture.hasSwitch ==> r.knowsCapture == st.knowsCapture)
  {
    hide PlaybackTurn, CaptureTurn, Switched, Side.Valid;
    if chn in sel.mask {
      TogglePlayed(st, sel, chn, noCheck);
      ToggleCaptured(PlaybackTurn(st, sel, chn, noCheck), sel, chn, noCheck);
    }
  }

  /** The word flips the switch of every selected channel once and changes no other. */
  lemma {:induction false} RoundsToggle(dir: Direction, st: State, sel: Selection, chn: nat, noCheck: bool)
    requires st.Valid() && chn <= CHANNELS && st.arg == "toggle" && st.off == 0
    requires SideOf(st.elem, dir).hasSwitch && Knows(st, dir)
    ensures var after, side := SideOf(Rounds(st, sel, chn, false, noCheck).elem, dir), SideOf(st.elem, dir);
            && after.levels == side.levels
            && forall c :: chn <= c < CHANNELS ==>
                 after.switches[c] == if Used(dir, sel, side, c) then !side.switches[c] else side.switches[c]
    decreases CHANNELS - chn
  {
    hide Round;
    if chn < CHANNELS {
      RoundToggle(st, sel, chn, noCheck);
      var next := Round(st, sel, chn, false, noCheck);
      assert SideOf(next.elem, dir) == ToggledSide(dir, sel, SideOf(st.elem, dir), chn);
      RoundsToggle(dir, next, sel, chn + 1, noCheck);
      RoundsFrame(next, sel, chn + 1, false, noCheck, chn);
    }
  }

  lemma ToggleSelectsNothing(sel: Selection)
    ensures ChannelsMask("toggle", sel.mask) == (sel.mask, "toggle") && DirMask("toggle", sel) == (sel, "toggle")
  {
    var words, s := CHANNEL_WORDS, "toggle";
    assert s[0] == 't';
    forall i | 0 <= i < |words|
      ensures !Begins(s, words[i].0)
    {
      Differ(s, words[i].0, 0);
    }
    NoMask(s, words);
    Differ(s, "playback", 0);
    Differ(s, "capture", 0);
  }

  lemma {:induction false} SsetToggle(dir: Direction, elem: Elem, noCheck: bool)
    requires elem.Valid() && SideOf(elem, dir).hasSwitch
    ensures var after, side := SideOf(Sset(elem, ["toggle"], noCheck), dir), SideOf(elem, dir);
            && SameShape(side, after) && after.levels == side.levels
            && forall c :: 0 <= c < CHANNELS ==>
                 after.switches[c] == if side.channels[c] then !side.switches[c] else side.switches[c]
  {
    hide Arguments, ChannelsMask, DirMask, Rounds;
    var ses, text := StartSession(elem), "toggle";
    ToggleSelectsNothing(ses.sel);
    assert ses.sel.(mask := ses.sel.mask) == ses.sel;
    assert ',' !in text;
    RoundsToggle(dir, State(elem, text, 0, true, true, false), ses.sel, 0, noCheck);
    ArgumentInRange(ses, text, noCheck);
    OneOfOne(ses, text, noCheck);
  }

  /** Toggling twice changes nothing. */
  lemma {:induction false} ToggleTwice(dir: Direction, elem: Elem, noCheck: bool)
    requires elem.Valid() && SideOf(elem, dir).hasSwitch
    ensures SideOf(Sset(Sset(elem, ["toggle"], noCheck), ["toggle"], noCheck), dir) == SideOf(elem, dir)
  {
    hide Sset;
    var once := Sset(elem, ["toggle"], noCheck);
    SsetToggle(dir, elem, noCheck);
    SsetToggle(dir, once, noCheck);
    var a, b := SideOf(elem, dir), SideOf(Sset(once, ["toggle"], noCheck), dir);
    assert a.switches == b.switches;
  }
}
