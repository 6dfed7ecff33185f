/** What `sset` does to an element: which channels change, to what, and what always holds. */
module MixerTheory {
  import opened CText
  import opened Options
  import opened Percent
  import opened ControlIds
  import opened MixerSet

  // Levels stay in range, and the fixed parts of an element stay what they are.

  /** Only levels and switches differ. */
  predicate SameShape(a: Side, b: Side) {
    a.(levels := b.levels, switches := b.switches) == b
  }

  predicate SameElemShape(a: Elem, b: Elem) {
    SameShape(a.playback, b.playback) && SameShape(a.capture, b.capture)
  }

  lemma {:induction false} SetVolumeInRange(side: Side, chn: nat, s: string, noCheck: bool)
    requires side.Valid() && chn < CHANNELS
    ensures SameShape(side, SetVolume(side, chn, s, noCheck).side)
    ensures !noCheck && side.InRange() ==> SetVolume(side, chn, s, noCheck).side.InRange()
  {
    hide ReadNumber, ToLevel, DropOne, CheckRange;
  }

  lemma {:induction false} TurnInRange(dir: Direction, side: Side, chn: nat, arg: string, off: nat, noCheck: bool)
    requires side.Valid() && chn < CHANNELS && off <= |arg|
    ensures SameShape(side, TakeTurn(dir, side, chn, arg, off, noCheck).side)
    ensures !noCheck && side.InRange() ==> TakeTurn(dir, side, chn, arg, off, noCheck).side.InRange()
  {
    hide SetVolume, GetBool, SwitchWord, SkipWord, SkipForeign;
    var text := if dir.Playback? then arg + "%" else arg;
    SetVolumeInRange(side, chn, text[off..], noCheck);
  }

  lemma {:induction false} RoundInRange(st: State, sel: Selection, chn: nat, multi: bool, noCheck: bool)
    requires st.Valid() && chn < CHANNELS
    ensures SameElemShape(st.elem, Round(st, sel, chn, multi, noCheck).elem)
    ensures !noCheck && st.elem.InRange() ==> Round(st, sel, chn, multi, noCheck).elem.InRange()
  {
    hide TakeTurn, Side.InRange;
    var played := PlaybackTurn(st, sel, chn, noCheck);
    TurnInRange(Playback, st.elem.playback, chn, st.arg, st.off, noCheck);
    TurnInRange(Capture, played.elem.capture, chn, played.arg, st.off, noCheck);
  }

  lemma {:induction false} RoundsInRange(st: State, sel: Selection, chn: nat, multi: bool, noCheck: bool)
    requires st.Valid() && chn <= CHANNELS
    ensures SameElemShape(st.elem, Rounds(st, sel, chn, multi, noCheck).elem)
    ensures !noCheck && st.elem.InRange() ==> Rounds(st, sel, chn, multi, noCheck).elem.InRange()
    decreases CHANNELS - chn
  {
    hide Round, Elem.InRange;
    if chn < CHANNELS {
      RoundInRange(st, sel, chn, multi, noCheck);
      var next := Round(st, sel, chn, multi, noCheck);
      if !next.Stuck() {
        RoundsInRange(next, sel, chn + 1, multi, noCheck);
      }
    }
  }

  lemma {:induction false} ArgumentInRange(ses: Session, text: string, noCheck: bool)
    requires ses.elem.Valid()
    ensures SameElemShape(ses.elem, Argument(ses, text, noCheck).0.elem)
    ensures !noCheck && ses.elem.InRange() ==> Argument(ses, text, noCheck).0.elem.InRange()
  {
    hide Rounds, ChannelsMask, DirMask, Elem.InRange;
    var (mask, p) := ChannelsMask(text, ses.sel.mask);
    var (sel, q) := DirMask(p, ses.sel.(mask := mask));
    RoundsInRange(State(ses.elem, q, 0, ses.knowsPlayback, ses.knowsCapture, ses.done), sel, 0, ',' in q, noCheck);
  }

  lemma {:induction false} ArgumentsInRange(ses: Session, texts: seq<string>, noCheck: bool)
    requires ses.elem.Valid()
    ensures SameElemShape(ses.elem, Arguments(ses, texts, noCheck).0.elem)
    ensures !noCheck && ses.elem.InRange() ==> Arguments(ses, texts, noCheck).0.elem.InRange()
    decreases |texts|
  {
    hide Argument, Elem.InRange;
    if texts != [] && !ses.Stuck() {
      ArgumentInRange(ses, texts[0], noCheck);
      ArgumentsInRange(Argument(ses, texts[0], noCheck).0, texts[1..], noCheck);
    }
  }

  /** A command of a session: which element, and the texts behind its identifier. */
  datatype Command = Command(which: nat, texts: seq<string>)

  predicate AllValid(mixer: seq<Elem>) {
    forall i :: 0 <= i < |mixer| ==> mixer[i].Valid()
  }

  /** Commands for elements that do not exist are refused. */
  function RunCommands(mixer: seq<Elem>, commands: seq<Command>, noCheck: bool): (r: seq<Elem>)
    requires AllValid(mixer)
    ensures |r| == |mixer| && AllValid(r)
    decreases |commands|
  {
    if commands == [] then mixer
    else
      var c := commands[0];
      if c.which < |mixer| then
        RunCommands(mixer[c.which := Sset(mixer[c.which], c.texts, noCheck)], commands[1..], noCheck)
      else RunCommands(mixer, commands[1..], noCheck)
  }

  /** Over any run with range checking on, every level of every element stays in its element's own range. */
  lemma {:induction false} RunInRange(mixer: seq<Elem>, commands: seq<Command>)
    requires AllValid(mixer) && forall i :: 0 <= i < |mixer| ==> mixer[i].InRange()
    ensures var after := RunCommands(mixer, commands, false);
            forall i :: 0 <= i < |mixer| ==> after[i].InRange() && SameElemShape(mixer[i], after[i])
    decreases |commands|
  {
    hide Arguments, Elem.InRange, Elem.Valid;
    if commands != [] {
      var c := commands[0];
      if c.which < |mixer| {
        ArgumentsInRange(StartSession(mixer[c.which]), c.texts, false);
        RunInRange(mixer[c.which := Sset(mixer[c.which], c.texts, false)], commands[1..]);
      } else {
        RunInRange(mixer, commands[1..]);
      }
    }
  }

  // What is not selected does not change.

  predicate SameChannel(a: Side, b: Side, c: nat)
    requires a.Valid() && b.Valid() && c < CHANNELS
  {
    a.levels[c] == b.levels[c] && a.switches[c] == b.switches[c]
  }

  predicate SameElemChannel(a: Elem, b: Elem, c: nat)
    requires a.Valid() && b.Valid() && c < CHANNELS
  {
    SameChannel(a.playback, b.playback, c) && SameChannel(a.capture, b.capture, c)
  }

  lemma {:induction false} TurnFrame(dir: Direction, side: Side, chn: nat, arg: string, off: nat, noCheck: bool, c: nat)
    requires side.Valid() && chn < CHANNELS && off <= |arg| && c < CHANNELS && c != chn
    requires TakeTurn(dir, side, chn, arg, off, noCheck).side.Valid()
    ensures SameChannel(side, TakeTurn(dir, side, chn, arg, off, noCheck).side, c)
  {
    hide GetBool, SwitchWord, SkipWord, SkipForeign, ReadNumber, ToLevel, CheckRange, DropOne;
  }

  lemma {:induction false} HalvesFrame(st: State, start: nat, sel: Selection, chn: nat, noCheck: bool, c: nat)
    requires st.Valid() && start <= |st.arg| && chn < CHANNELS && c < CHANNELS && c != chn
    ensures SameElemChannel(st.elem, PlaybackTurn(st, sel, chn, noCheck).elem, c)
    ensures SameElemChannel(st.elem, CaptureTurn(st, start, sel, chn, noCheck).elem, c)
  {
    hide TakeTurn, Side.Valid, SameChannel;
    SameSelf(st.elem.playback, c);
    SameSelf(st.elem.capture, c);
    TurnValid(Playback, st.elem.playback, chn, st.arg, st.off, noCheck);
    TurnFrame(Playback, st.elem.playback, chn, st.arg, st.off, noCheck, c);
    TurnValid(Capture, st.elem.capture, chn, st.arg, start, noCheck);
    TurnFrame(Capture, st.elem.capture, chn, st.arg, start, noCheck, c);
  }

  lemma SameSelf(a: Side, c: nat)
    requires a.Valid() && c < CHANNELS
    ensures SameChannel(a, a, c)
  {}

  lemma {:induction false} RoundFrame(st: State, sel: Selection, chn: nat, multi: bool, noCheck: bool, c: nat)
    requires st.Valid() && chn < CHANNELS && c < CHANNELS && (c != chn || c !in sel.mask)
    ensures SameElemChannel(st.elem, Round(st, sel, chn, multi, noCheck).elem, c)
  {
    hide PlaybackTurn, CaptureTurn, Elem.Valid;
    if chn in sel.mask {
      var played := PlaybackTurn(st, sel, chn, noCheck);
      HalvesFrame(st, st.off, sel, chn, noCheck, c);
      HalvesFrame(played, st.off, sel, chn, noCheck, c);
    }
  }

  /** Channels outside the mask, or already passed, are left alone. */
  lemma {:induction false} RoundsFrame(st: State, sel: Selection, chn: nat, multi: bool, noCheck: bool, c: nat)
    requires st.Valid() && chn <= CHANNELS && c < CHANNELS && (c < chn || c !in sel.mask)
    ensures SameElemChannel(st.elem, Rounds(st, sel, chn, multi, noCheck).elem, c)
    decreases CHANNELS - chn
  {
    hide Round, Elem.Valid;
    if chn < CHANNELS {
      RoundFrame(st, sel, chn, multi, noCheck, c);
      var next := Round(st, sel, chn, multi, noCheck);
      if !next.Stuck() {
        RoundsFrame(next, sel, chn + 1, multi, noCheck, c);
      }
    }
  }

  /** A direction that is not selected is left alone. */
  lemma {:induction false} RoundsDirection(st: State, sel: Selection, chn: nat, multi: bool, noCheck: bool)
    requires st.Valid() && chn <= CHANNELS
    ensures !sel.playback ==> Rounds(st, sel, chn, multi, noCheck).elem.playback == st.elem.playback
    ensures !sel.capture ==> Rounds(st, sel, chn, multi, noCheck).elem.capture == st.elem.capture
    decreases CHANNELS - chn
  {
    hide Round, Elem.Valid;
    if chn < CHANNELS {
      RoundDirection(st, sel, chn, multi, noCheck);
      var next := Round(st, sel, chn, multi, noCheck);
      if !next.Stuck() {
        RoundsDirection(next, sel, chn + 1, multi, noCheck);
      }
    }
  }

  lemma RoundDirection(st: State, sel: Selection, chn: nat, multi: bool, noCheck: bool)
    requires st.Valid() && chn < CHANNELS
    ensures !sel.playback ==> Round(st, sel, chn, multi, noCheck).elem.playback == st.elem.playback
    ensures !sel.capture ==> Round(st, sel, chn, multi, noCheck).elem.capture == st.elem.capture
  {
    hide TakeTurn;
  }

  /** One argument changes nothing outside the channel mask and the direction it leaves selected. */
  lemma {:induction false} ArgumentFrame(ses: Session, text: string, noCheck: bool, c: nat)
    requires ses.elem.Valid() && c < CHANNELS
    ensures var after := Argument(ses, text, noCheck).0;
            && (c !in after.sel.mask ==> SameElemChannel(ses.elem, after.elem, c))
            && (!after.sel.playback ==> after.elem.playback == ses.elem.playback)
            && (!after.sel.capture ==> after.elem.capture == ses.elem.capture)
  {
    hide Rounds, ChannelsMask, DirMask, Elem.Valid;
    var (mask, p) := ChannelsMask(text, ses.sel.mask);
    var (sel, q) := DirMask(p, ses.sel.(mask := mask));
    var st := State(ses.elem, q, 0, ses.knowsPlayback, ses.knowsCapture, ses.done);
    RoundsDirection(st, sel, 0, ',' in q, noCheck);
    if c !in sel.mask {
      RoundsFrame(st, sel, 0, ',' in q, noCheck, c);
    }
  }

  // How a number is written and read.

  datatype Unit = NoUnit | PerCent | DB

  function UnitText(unit: Unit): string {
    match unit
    case NoUnit => ""
    case PerCent => "%"
    case DB => "dB"
  }

  function FractionText(frac: Option<string>): string {
    if frac.Some? then "." + frac.value else ""
  }

  function Signed(neg: bool, s: string): string {
    if neg then "-" + s else s
  }

  /** The value of digits and fraction digits. */
  function Decimal(neg: bool, d: string, frac: Option<string>): real
    requires IsNumber(d) && (frac.Some? ==> IsNumber(frac.value))
  {
    var value := NatValue(d) as real + FractionValue(frac);
    if neg then -value else value
  }

  function FractionValue(frac: Option<string>): real
    requires frac.Some? ==> IsNumber(frac.value)
  {
    if frac.Some? then NatValue(frac.value) as real / Pow10(|frac.value|) as real else 0.0
  }

  /** What a written number means: a percentage with its fraction, a raw level without it. */
  function Meant(neg: bool, d: string, frac: Option<string>, unit: Unit): Amount
    requires IsNumber(d) && (frac.Some? ==> IsNumber(frac.value))
  {
    match unit
    case NoUnit => Absolute(Saturate(if neg then -(NatValue(d) as int) else NatValue(d)))
    case PerCent => PercentOf(Decimal(neg, d, frac))
    case DB => Decibel
  }

  /** A text that cannot be taken for more of a number. */
  predicate EndsNumber(s: string, frac: Option<string>) {
    !StartsWithDigit(s) && !StartsWith(s, '%') && !("dB" <= s) && (frac.None? ==> !StartsWith(s, '.'))
  }

  lemma {:induction false} StrtolSigned(neg: bool, d: string, rest: string)
    requires IsNumber(d) && !StartsWithDigit(rest)
    ensures Strtol(Signed(neg, d + rest)) ==
            Scan(Saturate(if neg then -(NatValue(d) as int) else NatValue(d)), rest)
  {
    hide Strtol, NatValue;
    if neg {
      StrtolMinusDigits(d, rest);
      assert "-" + d + rest == "-" + (d + rest);
    } else {
      StrtolDigits(d, rest);
    }
  }

  lemma {:induction false} FractionReads(f: string, rest: string)
    requires IsNumber(f) && !StartsWithDigit(rest)
    ensures Fraction(f + rest) == FractionValue(Some(f))
  {
    hide NatValue, DigitRun, Pow10;
    DigitRunOfPrefix(f, rest);
    assert (f + rest)[..|f|] == f;
  }

  lemma {:induction false} MagnitudeReads(d: string, tail: string)
    requires IsNumber(d) && !StartsWithDigit(tail)
    ensures Magnitude(d + tail) == NatValue(d) as real + if StartsWith(tail, '.') then Fraction(tail[1..]) else 0.0
  {
    hide NatValue, DigitRun, Fraction;
    DigitRunOfPrefix(d, tail);
    var u := d + tail;
    assert u[..|d|] == d && u[|d|..] == tail;
  }

  lemma {:induction false} StrtodSigned(neg: bool, d: string, frac: Option<string>, rest: string)
    requires IsNumber(d) && (frac.Some? ==> IsNumber(frac.value))
    requires !StartsWithDigit(rest) && (frac.None? ==> !StartsWith(rest, '.'))
    ensures Strtod(Signed(neg, d + (FractionText(frac) + rest))) == Decimal(neg, d, frac)
  {
    hide NatValue, Magnitude, Fraction, FractionValue;
    var tail := FractionText(frac) + rest;
    var u := d + tail;
    assert u[0] == d[0];
    assert ("-" + u)[1..] == u;
    MagnitudeReads(d, tail);
    if frac.Some? {
      assert tail[1..] == frac.value + rest;
      FractionReads(frac.value, rest);
    } else {
      assert tail == rest;
      NoFraction();
    }
  }

  lemma NoFraction()
    ensures FractionValue(None) == 0.0
  {}

  lemma {:induction false} PastFraction(frac: Option<string>, end: string)
    requires frac.Some? ==> IsNumber(frac.value)
    requires !StartsWithDigit(end) && (frac.None? ==> !StartsWith(end, '.'))
    ensures var tail := FractionText(frac) + end;
            !StartsWithDigit(tail) && (if StartsWith(tail, '.') then Strtol(tail[1..]).rest else tail) == end
  {
    hide Strtol, NatValue, Saturate;
    var tail := FractionText(frac) + end;
    if frac.Some? {
      assert tail[1..] == frac.value + end;
      StrtolDigits(frac.value, end);
    } else {
      assert tail == end;
    }
  }

  lemma UnitReads(unit: Unit, frac: Option<string>, rest: string)
    requires unit.NoUnit? ==> EndsNumber(rest, frac)
    ensures var end := UnitText(unit) + rest;
            && !StartsWithDigit(end) && (frac.None? ==> !StartsWith(end, '.'))
            && (StartsWith(end, '%') <==> unit.PerCent?) && (unit.PerCent? ==> end[1..] == rest)
            && ("dB" <= end <==> unit.DB?) && (unit.DB? ==> end[2..] == rest)
            && (unit.NoUnit? ==> end == rest)
  {
    if unit.DB? {
      var end := "dB" + rest;
      assert end[..2] == "dB" && end[2..] == rest && end[0] == 'd';
    } else if unit.PerCent? {
      var end := "%" + rest;
      assert end[0] == '%' && end[1..] == rest;
    } else {
      assert "" + rest == rest;
    }
  }

  /** Reading a written number gives what it means and stops behind its unit. */
  lemma {:induction false} NumberReads(neg: bool, d: string, frac: Option<string>, unit: Unit, rest: string)
    requires IsNumber(d) && (frac.Some? ==> IsNumber(frac.value))
    requires unit.NoUnit? ==> EndsNumber(rest, frac)
    ensures ReadNumber(Signed(neg, d + (FractionText(frac) + (UnitText(unit) + rest)))) ==
            Number(Meant(neg, d, frac, unit), rest)
  {
    hide Strtol, Strtod, NatValue, Saturate, Decimal, UnitText, FractionText, EndsNumber, IsNumber, Signed;
    var end := UnitText(unit) + rest;
    UnitReads(unit, frac, rest);
    PastFraction(frac, end);
    StrtodSigned(neg, d, frac, end);
    StrtolSigned(neg, d, FractionText(frac) + end);
  }

  // A plain number.

  function Percents(k: nat): (s: string)
    ensures |s| == k
    ensures k > 0 ==> s[0] == '%'
  {
    seq(k, _ => '%')
  }

  lemma PercentsNext(d: string, k: nat)
    ensures Percents(k) + "%" == Percents(k + 1)
    ensures d + Percents(k) + "%" == d + Percents(k + 1)
    ensures Percents(k + 1)[1..] == Percents(k)
  {
    assert Percents(k) + "%" == Percents(k + 1);
    assert d + Percents(k) + "%" == d + (Percents(k) + "%");
  }

  predicate IsNumber(d: string) {
    d != [] && AllDigits(d)
  }

  lemma {:induction false} ReadPercent(d: string, tail: string)
    requires IsNumber(d) && StartsWith(tail, '%')
    ensures ReadNumber(d + tail) == Number(PercentOf(NatValue(d) as real), tail[1..])
  {
    hide Strtol, NatValue, DigitRun;
    var s := d + tail;
    StrtolDigits(d, tail);
    DigitRunOfPrefix(d, tail);
    assert s[..|d|] == d && s[|d|..] == tail && s[0] == d[0];
  }

  /** The level a plain number sets on a playback channel. */
  function Wanted(side: Side, d: string, noCheck: bool): int
    requires IsNumber(d)
  {
    CheckRange(ToLevel(NatValue(d) as real, side.min, side.max), side.min, side.max, noCheck)
  }

  lemma {:induction false} SetPercent(side: Side, chn: nat, d: string, k: nat, noCheck: bool)
    requires side.Valid() && chn < CHANNELS && IsNumber(d) && k > 0
    ensures SetVolume(side, chn, d + Percents(k), noCheck).side ==
            if side.hasVolume then side.(levels := side.levels[chn := Wanted(side, d, noCheck)]) else side
  {
    hide ReadNumber, ToLevel, CheckRange, NatValue;
    ReadPercent(d, Percents(k));
    PercentsNext(d, k - 1);
    var s := d + Percents(k);
    assert s[0] == d[0];
    assert DropOne(s, ':') == s;
  }

  lemma NumberIsNoWord(dir: Direction, s: string)
    requires StartsWithDigit(s)
    ensures SwitchWord(dir, s).None? && !("toggle" <= s) && StartsNumber(s)
  {}

  lemma {:induction false} PlaybackNumber(side: Side, chn: nat, d: string, k: nat, noCheck: bool)
    requires side.Valid() && chn < CHANNELS && IsNumber(d)
    ensures var t := TakeTurn(Playback, side, chn, d + Percents(k), 0, noCheck);
            && t.arg == d + Percents(k + 1) && t.known
            && t.side == if side.hasVolume then side.(levels := side.levels[chn := Wanted(side, d, noCheck)]) else side
  {
    hide SetVolume, Wanted, SwitchWord, GetBool, SkipWord;
    var arg := d + Percents(k);
    assert arg[0..] == arg && arg[0] == d[0];
    NumberIsNoWord(Playback, arg);
    PercentsNext(d, k);
    assert (arg + "%")[0..] == arg + "%";
    SetPercent(side, chn, d, k + 1, noCheck);
  }

  /** Without '%' a number is a level; a sign behind it makes it a step from the present level. */
  lemma {:induction false} PlainNumber(side: Side, chn: nat, d: string, tail: string, noCheck: bool)
    requires side.Valid() && chn < CHANNELS && IsNumber(d) && side.hasVolume
    requires tail == "" || tail[0] == '+' || tail[0] == '-'
    ensures SetVolume(side, chn, d + tail, noCheck).side ==
            var level, step := side.levels[chn], Saturate(NatValue(d));
            var wanted := if tail == "" then step else if tail[0] == '+' then level + step else level - step;
            side.(levels := side.levels[chn := CheckRange(wanted, side.min, side.max, noCheck)])
  {
    hide Strtol, NatValue, CheckRange, Saturate;
    var s := d + tail;
    assert s[0] == d[0];
    StrtolDigits(d, tail);
    assert DropOne(s, ':') == s;
    assert ReadNumber(s) == Number(Absolute(Saturate(NatValue(d))), tail);
  }

  /** The level a plain number sets on a capture channel: a percentage only if its text has grown before. */
  function CaptureWanted(side: Side, d: string, grown: bool, noCheck: bool): int
    requires IsNumber(d)
  {
    if grown then Wanted(side, d, noCheck) else CheckRange(Saturate(NatValue(d)), side.min, side.max, noCheck)
  }

  lemma {:induction false} CaptureNumber(side: Side, chn: nat, d: string, k: nat, noCheck: bool)
    requires side.Valid() && chn < CHANNELS && IsNumber(d)
    ensures var t := TakeTurn(Capture, side, chn, d + Percents(k), 0, noCheck);
            && t.arg == d + Percents(k) && t.known
            && t.side == if side.hasVolume
                         then side.(levels := side.levels[chn := CaptureWanted(side, d, k > 0, noCheck)]) else side
  {
    hide SetVolume, Wanted, SwitchWord, GetBool, SkipWord, CheckRange, NatValue, Saturate;
    var arg := d + Percents(k);
    assert arg[0..] == arg && arg[0] == d[0];
    NumberIsNoWord(Capture, arg);
    if k > 0 {
      SetPercent(side, chn, d, k, noCheck);
    } else if side.hasVolume {
      PlainNumber(side, chn, d, "", noCheck);
    } else {
      NoVolume(side, chn, arg, noCheck);
    }
  }

  lemma NoVolume(side: Side, chn: nat, s: string, noCheck: bool)
    requires side.Valid() && chn < CHANNELS && !side.hasVolume
    ensures SetVolume(side, chn, s, noCheck).side == side
  {
    hide ReadNumber, ToLevel, CheckRange, DropOne;
  }

  predicate Played(sel: Selection, side: Side, chn: nat)
    requires side.Valid() && chn < CHANNELS
  {
    chn in sel.mask && sel.playback && side.channels[chn]
  }

  predicate Captured(sel: Selection, side: Side, chn: nat)
    requires side.Valid() && chn < CHANNELS
  {
    chn in sel.mask && sel.capture && side.channels[chn]
  }

  /** How many channels from chn on a playback argument is used for. */
  function PlayedFrom(sel: Selection, side: Side, chn: nat): nat
    requires side.Valid() && chn <= CHANNELS
    decreases CHANNELS - chn
  {
    if chn == CHANNELS then 0 else (if Played(sel, side, chn) then 1 else 0) + PlayedFrom(sel, side, chn + 1)
  }

  lemma {:induction false} NumberPlayed(st: State, sel: Selection, chn: nat, d: string, k: nat, noCheck: bool)
    requires st.Valid() && chn < CHANNELS && chn in sel.mask
    requires IsNumber(d) && st.arg == d + Percents(k) && st.off == 0
    ensures var r, side := PlaybackTurn(st, sel, chn, noCheck), st.elem.playback;
            && r.knowsPlayback == st.knowsPlayback && r.knowsCapture == st.knowsCapture
            && r.elem.capture == st.elem.capture
            && r.arg == d + Percents(k + if Played(sel, side, chn) then 1 else 0)
            && r.elem.playback ==
               if Played(sel, side, chn) && side.hasVolume
               then side.(levels := side.levels[chn := Wanted(side, d, noCheck)]) else side
  {
    hide TakeTurn, Wanted, Side.Valid;
    PlaybackNumber(st.elem.playback, chn, d, k, noCheck);
  }

  lemma {:induction false} NumberCaptured(st: State, sel: Selection, chn: nat, d: string, k: nat, noCheck: bool)
    requires st.Valid() && chn < CHANNELS && chn in sel.mask && IsNumber(d) && st.arg == d + Percents(k)
    ensures var r, side := CaptureTurn(st, 0, sel, chn, noCheck), st.elem.capture;
            && r.knowsPlayback == st.knowsPlayback && r.knowsCapture == st.knowsCapture
            && r.elem.playback == st.elem.playback
            && r.elem.capture ==
               if Captured(sel, side, chn) && side.hasVolume
               then side.(levels := side.levels[chn := CaptureWanted(side, d, k > 0, noCheck)]) else side
  {
    hide TakeTurn, CaptureWanted, Side.Valid;
    CaptureNumber(st.elem.capture, chn, d, k, noCheck);
  }

  function NumberOnCapture(sel: Selection, e: Elem, chn: nat, d: string, k: nat, noCheck: bool): Side
    requires e.Valid() && chn < CHANNELS && IsNumber(d)
  {
    var side, grown := e.capture, k > 0 || Played(sel, e.playback, chn);
    if Captured(sel, side, chn) && side.hasVolume
    then side.(levels := side.levels[chn := CaptureWanted(side, d, grown, noCheck)]) else side
  }

  lemma {:induction false} RoundNumber(st: State, sel: Selection, chn: nat, d: string, k: nat, noCheck: bool)
    requires st.Valid() && chn < CHANNELS && IsNumber(d) && st.arg == d + Percents(k) && st.off == 0 && !st.Stuck()
    ensures var r, side := Round(st, sel, chn, false, noCheck), st.elem.playback;
            && r.off == 0 && r.knowsPlayback == st.knowsPlayback && r.knowsCapture == st.knowsCapture
            && r.arg == d + Percents(k + if Played(sel, side, chn) then 1 else 0)
            && r.elem.playback ==
               (if Played(sel, side, chn) && side.hasVolume
                then side.(levels := side.levels[chn := Wanted(side, d, noCheck)]) else side)
            && r.elem.capture == NumberOnCapture(sel, st.elem, chn, d, k, noCheck)
  {
    hide PlaybackTurn, CaptureTurn, Wanted, CaptureWanted;
    if chn in sel.mask {
      NumberPlayed(st, sel, chn, d, k, noCheck);
      var played := PlaybackTurn(st, sel, chn, noCheck);
      NumberCaptured(played, sel, chn, d, k + if Played(sel, st.elem.playback, chn) then 1 else 0, noCheck);
    }
  }

  /** Every selected playback channel ends at the same level; the text gains one '%' for each of them. */
  lemma {:induction false} RoundsNumber(st: State, sel: Selection, chn: nat, d: string, k: nat, noCheck: bool)
    requires st.Valid() && chn <= CHANNELS && IsNumber(d) && st.arg == d + Percents(k) && st.off == 0 && !st.Stuck()
    ensures var r, side := Rounds(st, sel, chn, false, noCheck), st.elem.playback;
            && !r.Stuck() && r.arg == d + Percents(k + PlayedFrom(sel, side, chn))
            && (side.hasVolume ==> forall c :: chn <= c < CHANNELS && Played(sel, side, c) ==>
                  r.elem.playback.levels[c] == Wanted(side, d, noCheck))
    decreases CHANNELS - chn
  {
    hide Round, Wanted;
    if chn < CHANNELS {
      var side := st.elem.playback;
      RoundNumber(st, sel, chn, d, k, noCheck);
      var next := Round(st, sel, chn, false, noCheck);
      SameWanted(side, next.elem.playback, d, noCheck);
      SamePlayed(sel, side, next.elem.playback, chn + 1);
      RoundsNumber(next, sel, chn + 1, d, k + if Played(sel, side, chn) then 1 else 0, noCheck);
      RoundsFrame(next, sel, chn + 1, false, noCheck, chn);
    }
  }

  /** Some playback channel from chn to c has made the text longer. */
  predicate PlayedWithin(sel: Selection, side: Side, chn: nat, c: nat)
    requires side.Valid() && c < CHANNELS
  {
    exists b :: chn <= b <= c && Played(sel, side, b)
  }

  /** On capture channels the same number is a raw level until the first playback channel has had its turn. */
  lemma {:induction false} RoundsCapture(st: State, sel: Selection, chn: nat, d: string, k: nat, noCheck: bool)
    requires st.Valid() && chn <= CHANNELS && IsNumber(d) && st.arg == d + Percents(k) && st.off == 0 && !st.Stuck()
    requires st.elem.capture.hasVolume
    ensures var r, e := Rounds(st, sel, chn, false, noCheck), st.elem;
            forall c :: chn <= c < CHANNELS && Captured(sel, e.capture, c) ==>
              r.elem.capture.levels[c] ==
              CaptureWanted(e.capture, d, k > 0 || PlayedWithin(sel, e.playback, chn, c), noCheck)
    decreases CHANNELS - chn
  {
    hide Round, CaptureWanted, Wanted;
    if chn < CHANNELS {
      var e := st.elem;
      RoundNumber(st, sel, chn, d, k, noCheck);
      var next := Round(st, sel, chn, false, noCheck);
      SameCaptureWanted(e.capture, next.elem.capture, d, noCheck);
      RoundsCapture(next, sel, chn + 1, d, k + if Played(sel, e.playback, chn) then 1 else 0, noCheck);
      RoundsFrame(next, sel, chn + 1, false, noCheck, chn);
      forall c | chn <= c < CHANNELS
        ensures PlayedWithin(sel, e.playback, chn, c) <==>
                Played(sel, e.playback, chn) || PlayedWithin(sel, next.elem.playback, chn + 1, c)
      {
        WithinNext(sel, e.playback, next.elem.playback, chn, c);
      }
    }
  }

  lemma WithinNext(sel: Selection, a: Side, b: Side, chn: nat, c: nat)
    requires a.Valid() && b.Valid() && a.channels == b.channels && chn <= c < CHANNELS
    ensures PlayedWithin(sel, a, chn, c) <==> Played(sel, a, chn) || PlayedWithin(sel, b, chn + 1, c)
  {
    if PlayedWithin(sel, a, chn, c) && !Played(sel, a, chn) {
      var i :| chn <= i <= c && Played(sel, a, i);
      assert Played(sel, b, i);
    }
    if PlayedWithin(sel, b, chn + 1, c) {
      var i :| chn + 1 <= i <= c && Played(sel, b, i);
      assert Played(sel, a, i);
    }
  }

  lemma SameCaptureWanted(a: Side, b: Side, d: string, noCheck: bool)
    requires IsNumber(d) && a.min == b.min && a.max == b.max
    ensures forall grown :: CaptureWanted(a, d, grown, noCheck) == CaptureWanted(b, d, grown, noCheck)
  {}

  lemma SameWanted(a: Side, b: Side, d: string, noCheck: bool)
    requires IsNumber(d) && a.min == b.min && a.max == b.max
    ensures Wanted(a, d, noCheck) == Wanted(b, d, noCheck)
  {}

  lemma {:induction false} SamePlayed(sel: Selection, a: Side, b: Side, chn: nat)
    requires a.Valid() && b.Valid() && a.channels == b.channels && chn <= CHANNELS
    ensures PlayedFrom(sel, a, chn) == PlayedFrom(sel, b, chn)
    decreases CHANNELS - chn
  {
    if chn < CHANNELS {
      SamePlayed(sel, a, b, chn + 1);
    }
  }

  /**
   An argument whose words are followed by a plain number sets every selected playback channel
   with volume to the same clamped percent level, although its text grows on the way.
   */
  lemma {:induction false} ArgumentNumber(ses: Session, text: string, d: string, noCheck: bool)
    requires ses.elem.Valid() && !ses.Stuck() && IsNumber(d)
    requires var (mask, p) := ChannelsMask(text, ses.sel.mask);
             p != [] && DirMask(p, ses.sel.(mask := mask)).1 == d
    ensures var (after, text'), side := Argument(ses, text, noCheck), ses.elem.playback;
            && !after.Stuck() && |text'| == |text| + PlayedFrom(after.sel, side, 0)
            && text' == text[..|text| - |d|] + d + Percents(PlayedFrom(after.sel, side, 0))
            && (side.hasVolume ==> forall c :: 0 <= c < CHANNELS && Played(after.sel, side, c) ==>
                  after.elem.playback.levels[c] == Wanted(side, d, noCheck))
  {
    hide Rounds, ChannelsMask, DirMask, Wanted, PlayedFrom;
    var (mask, p) := ChannelsMask(text, ses.sel.mask);
    var (sel, q) := DirMask(p, ses.sel.(mask := mask));
    assert ',' !in d;
    assert d + Percents(0) == d;
    RoundsNumber(State(ses.elem, d, 0, ses.knowsPlayback, ses.knowsCapture, ses.done), sel, 0, d, 0, noCheck);
    var n := PlayedFrom(sel, ses.elem.playback, 0);
    assert text[..|text| - |d|] + (d + Percents(n)) == text[..|text| - |d|] + d + Percents(n);
  }

  /** For 0 to 100 nothing is clamped, and the percentage shown afterwards is known. */
  lemma {:induction false} NumberShown(side: Side, d: string, noCheck: bool)
    requires IsNumber(d) && NatValue(d) <= 100 && side.min < side.max
    ensures var level := Wanted(side, d, noCheck);
            var shown := ToPercent(level, side.min, side.max);
            && side.min <= level <= side.max
            && NatValue(d) <= shown
            && shown as real < NatValue(d) as real + 100.0 / (side.max - side.min) as real + 0.5
            && (side.max - side.min >= 200 ==> shown == NatValue(d))
  {
    hide ToLevel, ToPercent, NatValue;
    LevelInRange(NatValue(d) as real, side.min, side.max);
    SetThenShow(NatValue(d), side.min, side.max);
  }

  /** A number is taken for neither a channel word nor a direction. */
  lemma {:induction false} DigitHasNoWords(d: string, sel: Selection)
    requires StartsWithDigit(d)
    ensures ChannelsMask(d, sel.mask) == (sel.mask, d) && DirMask(d, sel) == (sel, d)
  {
    var words := CHANNEL_WORDS;
    forall i | 0 <= i < |words|
      ensures !Begins(d, words[i].0)
    {
      DigitBegins(d, words[i].0);
    }
    NoMask(d, words);
    DigitBegins(d, "playback");
    DigitBegins(d, "capture");
  }

  /** `sset` with one bare number: every playback channel ends at its percentage. */
  lemma {:induction false} SsetNumber(elem: Elem, d: string, noCheck: bool)
    requires elem.Valid() && IsNumber(d) && elem.playback.hasVolume
    ensures var after := Sset(elem, [d], noCheck).playback;
            && SameShape(elem.playback, after)
            && (forall c :: 0 <= c < CHANNELS && elem.playback.channels[c] ==>
                  after.levels[c] == Wanted(elem.playback, d, noCheck))
  {
    hide Argument, Arguments, ChannelsMask, DirMask, Wanted, PlayedFrom;
    var ses := StartSession(elem);
    DigitHasNoWords(d, ses.sel);
    NumberKeepsSelection(ses, d, noCheck);
    ArgumentNumber(ses, d, d, noCheck);
    ArgumentInRange(ses, d, noCheck);
    OneOfOne(ses, d, noCheck);
  }

  /** The same `sset` on capture channels: a percentage for those at or behind a playback channel, else a raw level. */
  lemma {:induction false} SsetNumberCapture(elem: Elem, d: string, noCheck: bool)
    requires elem.Valid() && IsNumber(d) && elem.capture.hasVolume
    ensures var after := Sset(elem, [d], noCheck).capture;
            forall c :: 0 <= c < CHANNELS && elem.capture.channels[c] ==>
              after.levels[c] ==
              CaptureWanted(elem.capture, d, exists b :: 0 <= b <= c && elem.playback.channels[b], noCheck)
  {
    hide Arguments, ChannelsMask, DirMask, Rounds, CaptureWanted;
    var ses := StartSession(elem);
    DigitHasNoWords(d, ses.sel);
    assert ses.sel.(mask := ses.sel.mask) == ses.sel;
    assert ',' !in d;
    assert d + Percents(0) == d;
    RoundsCapture(State(elem, d, 0, true, true, false), ses.sel, 0, d, 0, noCheck);
    OneOfOne(ses, d, noCheck);
    forall c | 0 <= c < CHANNELS
      ensures PlayedWithin(ses.sel, elem.playback, 0, c) <==> exists b :: 0 <= b <= c && elem.playback.channels[b]
    {
      if b :| 0 <= b <= c && elem.playback.channels[b] {
        assert Played(ses.sel, elem.playback, b);
      }
    }
  }

  lemma NumberKeepsSelection(ses: Session, d: string, noCheck: bool)
    requires ses.elem.Valid() && IsNumber(d)
    ensures ChannelsMask(d, ses.sel.mask) == (ses.sel.mask, d)
    ensures Argument(ses, d, noCheck).0.sel == ses.sel
  {
    hide Rounds, ChannelsMask, DirMask;
    DigitHasNoWords(d, ses.sel);
    assert ses.sel.(mask := ses.sel.mask) == ses.sel;
  }

  lemma OneOfOne(ses: Session, text: string, noCheck: bool)
    requires ses.elem.Valid() && !ses.Stuck()
    ensures Arguments(ses, [text], noCheck).0 == Argument(ses, text, noCheck).0
  {
    hide Argument;
    assert [text][1..] == [];
  }

  lemma DigitBegins(d: string, w: string)
    requires StartsWithDigit(d) && w != [] && 'a' <= w[0] <= 'z'
    ensures !Begins(d, w)
  {
    assert Lower(d[0]) != Lower(w[0]);
  }

  lemma {:induction false} NoMask(s: string, words: seq<(string, set<nat>)>)
    requires forall i :: 0 <= i < |words| ==> !Begins(s, words[i].0)
    ensures FindMask(s, words).None?
    decreases |words|
  {
    hide Begins;
    if words != [] {
      NoMask(s, words[1..]);
    }
  }

  // Switch words.

  /** The words of a direction and what they ask for. */
  function AskedFor(dir: Direction, w: string): Option<bool> {
    match dir
    case Playback =>
      if w == "mute" || w == "off" then Some(false) else if w == "unmute" || w == "on" then Some(true) else None
    case Capture =>
      if w == "nocap" || w == "norec" then Some(false) else if w == "cap" || w == "rec" then Some(true) else None
  }

  function Other(dir: Direction): Direction {
    if dir.Playback? then Capture else Playback
  }

  lemma WordIsTried(dir: Direction, w: string)
    requires AskedFor(dir, w).Some?
    ensures SwitchWord(dir, w) == Some((w, AskedFor(dir, w).value))
    ensures SwitchWord(Other(dir), w).None? && !("toggle" <= w) && !StartsNumber(w) && !StartsWith(w, ':')
  {
    assert w[0] in "mouncr";
    assert w[0] == 'o' || w[0] == 'n' ==> w[1] in "fno";
    assert "unmute"[1] == 'n' && "on"[1] == 'n' && "off"[1] == 'f';
    assert "norec"[2] == 'r' && "nocap"[2] == 'c';
    assert "cap"[0] == 'c' && "rec"[0] == 'r' && "nocap"[0] == "norec"[0] == 'n' && "toggle"[0] == 't';
    assert "mute"[0] == 'm' && "off"[0] == "on"[0] == 'o' && "unmute"[0] == 'u';
  }

  lemma WordIsForeign(dir: Direction, w: string)
    requires AskedFor(Other(dir), w).Some?
    ensures SkipForeign(dir, w).Some?
  {
    hide AfterWord;
    assert Begins(w, w);
    assert !StartsWith(w, ':');
    hide Begins;
  }

  lemma WordTurn(dir: Direction, side: Side, chn: nat, w: string, noCheck: bool)
    requires side.Valid() && chn < CHANNELS && AskedFor(dir, w).Some? && side.hasSwitch
    ensures var t := TakeTurn(dir, side, chn, w, 0, noCheck);
            t.arg == w && t.known && t.side == side.(switches := side.switches[chn := AskedFor(dir, w).value])
  {
    hide AfterWord, SetVolume, SwitchWord, AskedFor, SkipForeign;
    assert w[0..] == w;
    WordIsTried(dir, w);
    assert Begins(w, w);
  }

  lemma WordSkipped(dir: Direction, side: Side, chn: nat, w: string, noCheck: bool)
    requires side.Valid() && chn < CHANNELS && AskedFor(Other(dir), w).Some?
    ensures var t := TakeTurn(dir, side, chn, w, 0, noCheck);
            t.arg == w && t.known && t.side == side
  {
    hide SetVolume, GetBool, SwitchWord, AskedFor, SkipForeign, SkipWord, StartsNumber;
    assert w[0..] == w;
    WordIsTried(Other(dir), w);
    assert Other(Other(dir)) == dir;
    WordIsForeign(dir, w);
  }

  function SideOf(e: Elem, dir: Direction): Side {
    match dir
    case Playback => e.playback
    case Capture => e.capture
  }

  /** The argument is used for this channel in this direction. */
  predicate Used(dir: Direction, sel: Selection, side: Side, chn: nat)
    requires side.Valid() && chn < CHANNELS
  {
    chn in sel.mask && (if dir.Playback? then sel.playback else sel.capture) && side.channels[chn]
  }

  function Switched(side: Side, chn: nat, on: bool): Side
    requires side.Valid() && chn < CHANNELS
  {
    side.(switches := side.switches[chn := on])
  }

  /** Both halves of a round, for a word of direction `dir`. */
  lemma WordPlayed(dir: Direction, st: State, sel: Selection, chn: nat, w: string, noCheck: bool)
    requires st.Valid() && chn < CHANNELS && AskedFor(dir, w).Some? && st.arg == w && st.off == 0 && chn in sel.mask
    requires dir.Playback? ==> st.elem.playback.hasSwitch
    ensures var r, side := PlaybackTurn(st, sel, chn, noCheck), st.elem.playback;
            && r.arg == w && r.knowsPlayback == st.knowsPlayback && r.knowsCapture == st.knowsCapture
            && r.elem.capture == st.elem.capture
            && r.elem.playback ==
               if dir.Playback? && Used(Playback, sel, side, chn)
               then Switched(side, chn, AskedFor(dir, w).value) else side
  {
    hide TakeTurn, Side.Valid, AskedFor;
    if dir.Playback? {
      WordTurn(Playback, st.elem.playback, chn, w, noCheck);
    } else {
      WordSkipped(Playback, st.elem.playback, chn, w, noCheck);
    }
  }

  lemma WordCaptured(dir: Direction, st: State, sel: Selection, chn: nat, w: string, noCheck: bool)
    requires st.Valid() && chn < CHANNELS && AskedFor(dir, w).Some? && st.arg == w && chn in sel.mask
    requires dir.Capture? ==> st.elem.capture.hasSwitch
    ensures var r, side := CaptureTurn(st, 0, sel, chn, noCheck), st.elem.capture;
            && r.arg == w && r.knowsPlayback == st.knowsPlayback && r.knowsCapture == st.knowsCapture
            && r.elem.playback == st.elem.playback
            && r.elem.capture ==
               if dir.Capture? && Used(Capture, sel, side, chn)
               then Switched(side, chn, AskedFor(dir, w).value) else side
  {
    hide TakeTurn, Side.Valid, AskedFor;
    if dir.Capture? {
      WordTurn(Capture, st.elem.capture, chn, w, noCheck);
    } else {
      WordSkipped(Capture, st.elem.capture, chn, w, noCheck);
    }
  }

  lemma {:induction false} RoundWord(dir: Direction, st: State, sel: Selection, chn: nat, w: string, noCheck: bool)
    requires st.Valid() && chn < CHANNELS && AskedFor(dir, w).Some? && st.arg == w && st.off == 0 && !st.Stuck()
    requires SideOf(st.elem, dir).hasSwitch
    ensures var r, side := Round(st, sel, chn, false, noCheck), SideOf(st.elem, dir);
            && r.off == 0 && r.arg == w && !r.Stuck()
            && SideOf(r.elem, Other(dir)) == SideOf(st.elem, Other(dir))
            && SideOf(r.elem, dir) ==
               if Used(dir, sel, side, chn) then Switched(side, chn, AskedFor(dir, w).value) else side
  {
    hide PlaybackTurn, CaptureTurn, Switched, Side.Valid, AskedFor;
    if chn in sel.mask {
      WordPlayed(dir, st, sel, chn, w, noCheck);
      WordCaptured(dir, PlaybackTurn(st, sel, chn, noCheck), sel, chn, w, noCheck);
    }
  }

  /** A switch word sets the switch of every selected channel of its direction and touches nothing else. */
  lemma {:induction false} RoundsWord(dir: Direction, st: State, sel: Selection, chn: nat, w: string, noCheck: bool)
    requires st.Valid() && chn <= CHANNELS && AskedFor(dir, w).Some? && st.arg == w && st.off == 0 && !st.Stuck()
    requires SideOf(st.elem, dir).hasSwitch
    ensures var r, side := Rounds(st, sel, chn, false, noCheck), SideOf(st.elem, dir);
            && r.arg == w && !r.Stuck()
            && SideOf(r.elem, Other(dir)) == SideOf(st.elem, Other(dir)) && SideOf(r.elem, dir).levels == side.levels
            && forall c :: chn <= c < CHANNELS ==>
                 SideOf(r.elem, dir).switches[c] ==
                 if Used(dir, sel, side, c) then AskedFor(dir, w).value else side.switches[c]
    decreases CHANNELS - chn
  {
    hide Round, AskedFor;
    if chn < CHANNELS {
      RoundWord(dir, st, sel, chn, w, noCheck);
      var next := Round(st, sel, chn, false, noCheck);
      RoundsWord(dir, next, sel, chn + 1, w, noCheck);
      RoundsFrame(next, sel, chn + 1, false, noCheck, chn);
    }
  }

  // The words in front of a value.

  /** No word of the channel table is shadowed by an earlier one; each selects its own mask. */
  lemma {:induction false} ChannelWordReads(i: nat, rest: string, mask: set<nat>)
    requires i < |CHANNEL_WORDS|
    ensures ChannelsMask(CHANNEL_WORDS[i].0 + " " + rest, mask) == (CHANNEL_WORDS[i].1, rest)
  {
    hide Begins, AfterBlank, FindMask, CHANNEL_WORDS;
    var words := CHANNEL_WORDS;
    var w := words[i].0;
    var s := w + " " + rest;
    WordsTellApart(s, i, rest);
    assert s == w + (" " + rest);
    BeginsFront(w, " " + rest);
    MaskAt(s, words, i);
    NoBlankInside(i);
    AfterBlankWord(w, rest);
  }

  lemma NoBlankInside(i: nat)
    requires i < |CHANNEL_WORDS|
    ensures var w := CHANNEL_WORDS[i].0; forall k :: 0 <= k < |w| ==> !IsBlank(w[k])
  {}

  lemma BeginsFront(w: string, x: string)
    ensures Begins(w + x, w)
  {}

  lemma {:induction false} AfterBlankWord(w: string, rest: string)
    requires forall k :: 0 <= k < |w| ==> !IsBlank(w[k])
    ensures AfterBlank(w + " " + rest) == rest
  {
    if w == [] {
      assert w + " " + rest == " " + rest;
    } else {
      assert (w + " " + rest)[1..] == w[1..] + " " + rest;
      AfterBlankWord(w[1..], rest);
    }
  }

  lemma {:induction false} MaskAt(s: string, words: seq<(string, set<nat>)>, i: nat)
    requires i < |words| && Begins(s, words[i].0) && forall j :: 0 <= j < i ==> !Begins(s, words[j].0)
    ensures FindMask(s, words) == Some(words[i].1)
    decreases i
  {
    hide Begins;
    if i > 0 {
      MaskAt(s, words[1..], i - 1);
    }
  }

  lemma Differ(s: string, w: string, k: nat)
    requires k < |s| && k < |w| && Lower(s[k]) != Lower(w[k])
    ensures !Begins(s, w)
  {}

  lemma WordsTellApart(s: string, i: nat, rest: string)
    requires i < |CHANNEL_WORDS| && s == CHANNEL_WORDS[i].0 + " " + rest
    ensures forall j :: 0 <= j < i ==> !Begins(s, CHANNEL_WORDS[j].0)
  {
    var words := CHANNEL_WORDS;
    forall j | 0 <= j < i
      ensures !Begins(s, words[j].0)
    {
      var w, v := words[i].0 + " ", words[j].0;
      assert forall k :: 0 <= k < |w| ==> s[k] == w[k];
      if i <= 3 {
        Differ(s, v, 5);
      } else if 5 <= j {
        Differ(s, v, if i == 8 then 0 else 4);
      } else {
        Differ(s, v, 0);
      }
    }
  }
}
