/**
 The mixer's `sset` on a simple element: volumes and switches of up to 32 channels, set from
 the texts of the command line. Each piece of the command language is a function here; module
 MixerElement runs them on an element in place.
 */
module MixerSet {
  import opened CText
  import opened Options
  import opened Percent
  import opened ControlIds

  /** SND_MIXER_SCHN_LAST + 1 */
  const CHANNELS := 32

  datatype Direction = Playback | Capture

  /** One direction of an element without joined controls and without a decibel scale. */
  datatype Side =
    Side(hasVolume: bool, min: int, max: int, hasSwitch: bool,
         channels: seq<bool>, levels: seq<int>, switches: seq<bool>)
  {
    predicate Valid() {
      |channels| == |levels| == |switches| == CHANNELS && (hasVolume ==> min <= max)
    }

    predicate InRange() {
      Valid() && (hasVolume ==> forall c :: 0 <= c < CHANNELS ==> min <= levels[c] <= max)
    }
  }

  datatype Elem = Elem(playback: Side, capture: Side)
  {
    predicate Valid() {
      playback.Valid() && capture.Valid()
    }

    predicate InRange() {
      playback.InRange() && capture.InRange()
    }
  }

  // Numbers.

  /** strtod of a decimal text. */
  function Strtod(s: string): real {
    if StartsWith(s, '-') then -Magnitude(s[1..]) else Magnitude(s)
  }

  function Magnitude(s: string): real {
    var n := DigitRun(s);
    NatValue(s[..n]) as real + if StartsWith(s[n..], '.') then Fraction(s[n..][1..]) else 0.0
  }

  function Fraction(s: string): real {
    var n := DigitRun(s);
    NatValue(s[..n]) as real / Pow10(n) as real
  }

  function DropOne(s: string, c: char): (r: string)
    ensures |r| <= |s|
  {
    if StartsWith(s, c) then s[1..] else s
  }

  /** How a number is meant. */
  datatype Amount = Absolute(value: int) | PercentOf(percent: real) | Decibel

  datatype Number = Number(amount: Amount, rest: string)

  /** A number with its unit. */
  function ReadNumber(s: string): (r: Number)
    ensures |r.rest| <= |s|
  {
    var n := Strtol(s);
    var p := if StartsWith(n.rest, '.') then Strtol(n.rest[1..]).rest else n.rest;
    if StartsWith(p, '%') then Number(PercentOf(Strtod(s)), p[1..])
    else if "dB" <= p then Number(Decibel, p[2..])
    else Number(Absolute(n.value), p)
  }

  /** get_integer: the value, kept in range, and the text behind it. */
  function GetInteger(s: string, min: int, max: int, noCheck: bool): (r: Scan)
    ensures !noCheck && min <= max ==> min <= r.value <= max
  {
    var t := DropOne(s, ':');
    if !StartsWithDigit(t) && !StartsWith(t, '-') then Scan(min, t)
    else
      var n := Strtol(t);
      var p := if StartsWith(n.rest, '.') then Strtol(n.rest[1..]).rest else n.rest;
      var val := if StartsWith(p, '%') then ToLevel(Strtod(t), min, max) else n.value;
      Scan(CheckRange(val, min, max, noCheck), DropOne(DropOne(p, '%'), ','))
  }

  /** What setting a volume leaves: the side, the text behind the number, and success. */
  datatype Volume = Volume(side: Side, rest: string, ok: bool)

  /** set_volume_simple */
  function SetVolume(side: Side, chn: nat, s: string, noCheck: bool): (r: Volume)
    requires side.Valid() && chn < CHANNELS
    ensures |r.rest| <= |s|
  {
    var t := DropOne(s, ':');
    if !StartsWithDigit(t) && !StartsWith(t, '-') then Volume(side, DropOne(t, ','), side.hasVolume)
    else
      var n := ReadNumber(t);
      var relative := StartsWith(n.rest, '+') || StartsWith(n.rest, '-');
      var rest := DropOne(if relative then n.rest[1..] else n.rest, ',');
      if !side.hasVolume || n.amount.Decibel? then Volume(side, rest, false)
      else
        var val := if n.amount.PercentOf? then ToLevel(n.amount.percent, side.min, side.max) else n.amount.value;
        var orig := side.levels[chn];
        var wanted := if StartsWith(n.rest, '+') then orig + val else if relative then orig - val else val;
        Volume(side.(levels := side.levels[chn := CheckRange(wanted, side.min, side.max, noCheck)]), rest, true)
  }

  // Words.

  predicate IsWordEnd(c: char) {
    c == ',' || c == ':'
  }

  /** Behind the word, in front of its separator. */
  function AfterWord(s: string): (r: string)
    ensures |r| <= |s|
  {
    if s == [] || IsWordEnd(s[0]) then s else AfterWord(s[1..])
  }

  function DropSeparator(s: string): (r: string)
    ensures |r| <= |s|
  {
    if s != [] && IsWordEnd(s[0]) then s[1..] else s
  }

  /** get_bool_simple: the switch the word asks for, else the old one. */
  function GetBool(s: string, word: string, on: bool, orig: bool): (r: (bool, string))
    ensures |r.1| <= |s|
  {
    var t := DropOne(s, ':');
    if Begins(t, word) then (on, DropSeparator(AfterWord(t))) else (orig, DropSeparator(t))
  }

  /** simple_skip_word */
  function SkipWord(s: string, word: string): (r: Option<string>)
    ensures r.Some? ==> |r.value| <= |s|
  {
    var t := DropOne(s, ':');
    if Begins(t, word) then Some(DropSeparator(AfterWord(t))) else None
  }

  /** The words that set the switch of a direction, in the order they are tried. */
  function SwitchWord(dir: Direction, s: string): Option<(string, bool)> {
    match dir
    case Playback =>
      if "mute" <= s then Some(("mute", false))
      else if "off" <= s then Some(("off", false))
      else if "unmute" <= s then Some(("unmute", true))
      else if "on" <= s then Some(("on", true))
      else None
    case Capture =>
      if "cap" <= s then Some(("cap", true))
      else if "rec" <= s then Some(("rec", true))
      else if "nocap" <= s then Some(("nocap", false))
      else if "norec" <= s then Some(("norec", false))
      else None
  }

  /** The words of the other direction, which are passed over. */
  function SkipForeign(dir: Direction, s: string): (r: Option<string>)
    ensures r.Some? ==> |r.value| <= |s|
  {
    match dir
    case Playback => FirstOf(SkipWord(s, "cap"), SkipWord(s, "rec"), SkipWord(s, "nocap"), SkipWord(s, "norec"))
    case Capture => FirstOf(SkipWord(s, "mute"), SkipWord(s, "off"), SkipWord(s, "unmute"), SkipWord(s, "on"))
  }

  function FirstOf(a: Option<string>, b: Option<string>, c: Option<string>, d: Option<string>): Option<string> {
    if a.Some? then a else if b.Some? then b else if c.Some? then c else d
  }

  predicate StartsNumber(s: string) {
    StartsWithDigit(s) || StartsWith(s, '-') || StartsWith(s, '+')
  }

  // One channel in one direction.

  /** The side, the argument text, the position behind what was used, whether anything was set or recognised. */
  datatype Turn = Turn(side: Side, arg: string, off: nat, done: bool, known: bool)

  /** What a direction makes of the argument at position `off`. For playback a number gets one more '%'. */
  function TakeTurn(dir: Direction, side: Side, chn: nat, arg: string, off: nat, noCheck: bool): (r: Turn)
    requires side.Valid() && chn < CHANNELS && off <= |arg|
    ensures r.off <= |r.arg|
  {
    var s := arg[off..];
    var word := SwitchWord(dir, s);
    if word.Some? && side.hasSwitch then
      var (on, rest) := GetBool(s, word.value.0, word.value.1, side.switches[chn]);
      Turn(side.(switches := side.switches[chn := on]), arg, |arg| - |rest|, true, true)
    else if "toggle" <= s && side.hasSwitch then
      var rest := SkipWord(s, "toggle");
      Turn(side.(switches := side.switches[chn := !side.switches[chn]]), arg,
           if rest.Some? then |arg| - |rest.value| else off, true, true)
    else if StartsNumber(s) then
      var text := if dir.Playback? then arg + "%" else arg;
      var v := SetVolume(side, chn, text[off..], noCheck);
      Turn(v.side, text, |text| - |v.rest|, v.ok, true)
    else
      var rest := SkipForeign(dir, s);
      if rest.Some? then Turn(side, arg, |arg| - |rest.value|, false, true)
      else Turn(side, arg, off, false, false)
  }

  lemma TurnValid(dir: Direction, side: Side, chn: nat, arg: string, off: nat, noCheck: bool)
    requires side.Valid() && chn < CHANNELS && off <= |arg|
    ensures TakeTurn(dir, side, chn, arg, off, noCheck).side.Valid()
  {
    hide Strtol, ReadNumber, GetBool, SwitchWord, SkipWord, SkipForeign, ToLevel, CheckRange;
  }

  // One argument, over all channels.

  /** The words of an argument select these. */
  datatype Selection = Selection(mask: set<nat>, playback: bool, capture: bool)

  datatype State = State(elem: Elem, arg: string, off: nat, knowsPlayback: bool, knowsCapture: bool, done: bool)
  {
    predicate Valid() {
      elem.Valid() && off <= |arg|
    }

    predicate Stuck() {
      !knowsPlayback && !knowsCapture
    }
  }

  function PlaybackTurn(st: State, sel: Selection, chn: nat, noCheck: bool): (r: State)
    requires st.Valid() && chn < CHANNELS
    ensures r.Valid() && |r.arg| >= |st.arg|
  {
    if sel.playback && st.elem.playback.channels[chn] then
      TurnValid(Playback, st.elem.playback, chn, st.arg, st.off, noCheck);
      var t := TakeTurn(Playback, st.elem.playback, chn, st.arg, st.off, noCheck);
      State(st.elem.(playback := t.side), t.arg, t.off, st.knowsPlayback && t.known, st.knowsCapture, st.done || t.done)
    else st
  }

  /** Capture starts where playback started. */
  function CaptureTurn(st: State, start: nat, sel: Selection, chn: nat, noCheck: bool): (r: State)
    requires st.Valid() && chn < CHANNELS && start <= |st.arg|
    ensures r.Valid() && r.arg == st.arg
  {
    if sel.capture && st.elem.capture.channels[chn] then
      TurnValid(Capture, st.elem.capture, chn, st.arg, start, noCheck);
      var t := TakeTurn(Capture, st.elem.capture, chn, st.arg, start, noCheck);
      State(st.elem.(capture := t.side), t.arg, t.off, st.knowsPlayback, st.knowsCapture && t.known, st.done || t.done)
    else st
  }

  /** One round of the channel loop. */
  function Round(st: State, sel: Selection, chn: nat, multi: bool, noCheck: bool): (r: State)
    requires st.Valid() && chn < CHANNELS
    ensures r.Valid()
  {
    if chn !in sel.mask then st
    else
      var played := PlaybackTurn(st, sel, chn, noCheck);
      var taken := CaptureTurn(played, st.off, sel, chn, noCheck);
      if multi || taken.Stuck() then taken else taken.(off := 0)
  }

  function Rounds(st: State, sel: Selection, chn: nat, multi: bool, noCheck: bool): (r: State)
    requires st.Valid() && chn <= CHANNELS
    ensures r.Valid()
    decreases CHANNELS - chn
  {
    if chn == CHANNELS then st
    else
      var next := Round(st, sel, chn, multi, noCheck);
      if next.Stuck() then next else Rounds(next, sel, chn + 1, multi, noCheck)
  }

  // The words in front.

  predicate IsBlank(c: char) {
    c == ',' || c == ' ' || c == '\t'
  }

  function AfterBlank(s: string): (r: string)
    ensures |r| <= |s|
  {
    if s == [] then s else if IsBlank(s[0]) then s[1..] else AfterBlank(s[1..])
  }

  const CHANNEL_WORDS: seq<(string, set<nat>)> := [
    ("frontleft", {0}), ("frontright", {1}), ("frontcenter", {4}), ("front", {0, 1}), ("center", {4}),
    ("rearleft", {2}), ("rearright", {3}), ("rear", {2, 3}), ("woofer", {5})]

  /** The mask of the first channel word the text starts with. */
  function FindMask(s: string, words: seq<(string, set<nat>)>): Option<set<nat>> {
    if words == [] then None
    else if Begins(s, words[0].0) then Some(words[0].1)
    else FindMask(s, words[1..])
  }

  const ALL_CHANNELS: set<nat> := set c: nat | c < CHANNELS

  /** channels_mask */
  function ChannelsMask(s: string, mask: set<nat>): (r: (set<nat>, string))
    ensures |r.1| <= |s|
  {
    var found := FindMask(s, CHANNEL_WORDS);
    if found.Some? then (found.value, AfterBlank(s)) else (mask, s)
  }

  /** The word `capture` is compared together with its terminator: it must be the whole text. */
  predicate IsCapture(s: string) {
    |s| == 7 && Begins(s, "capture")
  }

  /** dir_mask */
  function DirMask(s: string, sel: Selection): (r: (Selection, string))
    ensures |r.1| <= |s|
  {
    if Begins(s, "playback") then (sel.(playback := true, capture := false), AfterBlank(s))
    else if IsCapture(s) then (sel.(playback := false, capture := true), AfterBlank(s))
    else (sel, s)
  }

  /** What the loop of sset_channels carries from one argument to the next. */
  datatype Session = Session(elem: Elem, sel: Selection, knowsPlayback: bool, knowsCapture: bool, done: bool)
  {
    predicate Stuck() {
      !knowsPlayback && !knowsCapture
    }
  }

  /** One argument: the session behind it and the text it has turned into. */
  function Argument(ses: Session, text: string, noCheck: bool): (r: (Session, string))
    requires ses.elem.Valid()
    ensures r.0.elem.Valid()
  {
    var (mask, p) := ChannelsMask(text, ses.sel.mask);
    var sel1 := ses.sel.(mask := mask);
    if p == [] then (ses.(sel := sel1), text)
    else
      var (sel2, q) := DirMask(p, sel1);
      if q == [] then (ses.(sel := sel2), text)
      else
        var start := State(ses.elem, q, 0, ses.knowsPlayback, ses.knowsCapture, ses.done);
        var st := Rounds(start, sel2, 0, ',' in q, noCheck);
        (Session(st.elem, sel2, st.knowsPlayback, st.knowsCapture, st.done), text[..|text| - |q|] + st.arg)
  }

  /** All arguments, or those up to one that neither direction understands. */
  function Arguments(ses: Session, texts: seq<string>, noCheck: bool): (r: (Session, seq<string>))
    requires ses.elem.Valid()
    ensures r.0.elem.Valid() && |r.1| == |texts|
    decreases |texts|
  {
    if texts == [] || ses.Stuck() then (ses, texts)
    else
      var (next, text) := Argument(ses, texts[0], noCheck);
      var (last, more) := Arguments(next, texts[1..], noCheck);
      (last, [text] + more)
  }

  function StartSession(elem: Elem): Session {
    Session(elem, Selection(ALL_CHANNELS, true, true), true, true, false)
  }

  /** The value sset_channels returns: 1 when something was set, 0 for what it just skips. */
  function ReturnCode(ses: Session, ignoreError: bool): int {
    if ses.Stuck() then 0 else if ses.done then 1 else if ignoreError then 0 else -1
  }

  /** sset_channels: the element afterwards. */
  function Sset(elem: Elem, texts: seq<string>, noCheck: bool): (r: Elem)
    requires elem.Valid()
    ensures r.Valid()
  {
    Arguments(StartSession(elem), texts, noCheck).0.elem
  }
}
