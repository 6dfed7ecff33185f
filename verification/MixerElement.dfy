/** An element whose levels and switches `sset` overwrites, channel by channel. */
module MixerElement {
  import opened CText
  import opened Options
  import opened Percent
  import opened ControlIds
  import opened MixerSet
  import opened LineLexer
  import opened MixerLine

  // The loops that move the text pointer.

  method SkipToWordEnd(s: string) returns (p: string)
    ensures p == AfterWord(s)
  {
    p := s;
    while p != [] && p[0] != ',' && p[0] != ':'
      invariant AfterWord(p) == AfterWord(s)
      decreases |p|
    {
      p := p[1..];
    }
  }

  /** get_bool_simple */
  method GetBoolSimple(s: string, word: string, invert: bool, orig: bool) returns (on: bool, p: string)
    ensures (on, p) == GetBool(s, word, !invert, orig)
  {
    hide Begins, AfterWord;
    p, on := s, orig;
    if StartsWith(p, ':') {
      p := p[1..];
    }
    if Begins(p, word) {
      on := !invert;
      p := SkipToWordEnd(p);
    }
    if StartsWith(p, ',') || StartsWith(p, ':') {
      p := p[1..];
    }
  }

  /** simple_skip_word */
  method SimpleSkipWord(s: string, word: string) returns (p: Option<string>)
    ensures p == SkipWord(s, word)
  {
    hide Begins, AfterWord;
    var x := s;
    if StartsWith(x, ':') {
      x := x[1..];
    }
    if !Begins(x, word) {
      return None;
    }
    x := SkipToWordEnd(x);
    if StartsWith(x, ',') || StartsWith(x, ':') {
      x := x[1..];
    }
    p := Some(x);
  }

  method SkipToBlank(s: string) returns (p: string)
    ensures p == AfterBlank(s)
  {
    p := s;
    while p != [] && !IsBlank(p[0])
      invariant AfterBlank(p) == AfterBlank(s)
      decreases |p|
    {
      p := p[1..];
    }
    if p != [] {
      p := p[1..];
    }
  }

  /** channels_mask: the table is searched in order. */
  method ReadMask(s: string, def: set<nat>) returns (mask: set<nat>, p: string)
    ensures (mask, p) == ChannelsMask(s, def)
  {
    hide Begins, AfterBlank;
    var words := CHANNEL_WORDS;
    var i := 0;
    assert words[0..] == words;
    while i < |words|
      invariant i <= |words| && FindMask(s, words[i..]) == FindMask(s, CHANNEL_WORDS)
    {
      if Begins(s, words[i].0) {
        p := SkipToBlank(s);
        return words[i].1, p;
      }
      assert words[i..][1..] == words[i + 1..];
      i := i + 1;
    }
    assert words[i..] == [];
    return def, s;
  }

  /** dir_mask */
  method ReadDirection(s: string, sel: Selection) returns (r: Selection, p: string)
    ensures (r, p) == DirMask(s, sel)
  {
    hide Begins, AfterBlank;
    r, p := sel, s;
    if Begins(s, "playback") {
      r := sel.(playback := true, capture := false);
      p := SkipToBlank(s);
    } else if |s| == 7 && Begins(s, "capture") {
      r := sel.(playback := false, capture := true);
      p := SkipToBlank(s);
    }
  }

  /** strchr(s, ',') != NULL */
  method HasComma(s: string) returns (multi: bool)
    ensures multi <==> ',' in s
  {
    multi := false;
    var i := 0;
    while i < |s|
      invariant i <= |s| && !multi && ',' !in s[..i]
    {
      if s[i] == ',' {
        return true;
      }
      i := i + 1;
    }
  }

  class SimpleElement {
    var playback: Side
    var capture: Side

    ghost function Value(): Elem
      reads this
    {
      Elem(playback, capture)
    }

    ghost predicate Valid()
      reads this
    {
      Value().Valid()
    }

    constructor (playback: Side, capture: Side)
      requires playback.Valid() && capture.Valid()
      ensures Valid() && Value() == Elem(playback, capture)
    {
      this.playback, this.capture := playback, capture;
    }

    function SideOf(dir: Direction): Side
      reads this
    {
      match dir
      case Playback => playback
      case Capture => capture
    }

    /** The raw setters of the mixer library. */
    method SetLevel(dir: Direction, chn: nat, level: int)
      requires Valid() && chn < CHANNELS
      modifies this
      ensures Valid() && SideOf(dir) == old(SideOf(dir)).(levels := old(SideOf(dir)).levels[chn := level])
      ensures if dir.Playback? then capture == old(capture) else playback == old(playback)
    {
      match dir
      case Playback => playback := playback.(levels := playback.levels[chn := level]);
      case Capture => capture := capture.(levels := capture.levels[chn := level]);
    }

    method SetSwitch(dir: Direction, chn: nat, on: bool)
      requires Valid() && chn < CHANNELS
      modifies this
      ensures Valid() && SideOf(dir) == old(SideOf(dir)).(switches := old(SideOf(dir)).switches[chn := on])
      ensures if dir.Playback? then capture == old(capture) else playback == old(playback)
    {
      match dir
      case Playback => playback := playback.(switches := playback.switches[chn := on]);
      case Capture => capture := capture.(switches := capture.switches[chn := on]);
    }

    /** set_volume_simple: read a number with its unit and set the level it asks for. */
    method SetVolumeSimple(dir: Direction, chn: nat, s: string, noCheck: bool) returns (p: string, ok: bool)
      requires Valid() && chn < CHANNELS
      modifies this
      ensures Valid()
      ensures SetVolume(old(SideOf(dir)), chn, s, noCheck) == Volume(SideOf(dir), p, ok)
      ensures if dir.Playback? then capture == old(capture) else playback == old(playback)
    {
      hide Strtol, Strtod, ToLevel, CheckRange, ReadNumber;
      var side := SideOf(dir);
      var invalid := !side.hasVolume;
      p := DropOne(s, ':');
      if StartsWithDigit(p) || StartsWith(p, '-') {
        var n := ReadNumber(p);
        p := n.rest;
        if n.amount.Decibel? {
          invalid := true;
        }
        var val := 0;
        if !invalid {
          val := if n.amount.PercentOf? then ToLevel(n.amount.percent, side.min, side.max) else n.amount.value;
        }
        if StartsWith(p, '+') || StartsWith(p, '-') {
          if !invalid {
            var orig := side.levels[chn];
            val := if StartsWith(p, '+') then orig + val else orig - val;
          }
          p := p[1..];
        }
        if !invalid {
          SetLevel(dir, chn, CheckRange(val, side.min, side.max, noCheck));
        }
      }
      p := DropOne(p, ',');
      ok := !invalid;
    }

    /** The chain of tests for one channel and one direction. */
    method Take(dir: Direction, chn: nat, arg: string, off: nat, noCheck: bool)
      returns (text: string, next: nat, done: bool, known: bool)
      requires Valid() && chn < CHANNELS && off <= |arg|
      modifies this
      ensures Valid() && next <= |text|
      ensures TakeTurn(dir, old(SideOf(dir)), chn, arg, off, noCheck) == Turn(SideOf(dir), text, next, done, known)
      ensures if dir.Playback? then capture == old(capture) else playback == old(playback)
    {
      hide SetVolume, GetBool, SkipWord, SwitchWord;
      var s := arg[off..];
      var side := SideOf(dir);
      var word := SwitchWord(dir, s);
      text, next, done, known := arg, off, false, true;
      if word.Some? && side.hasSwitch {
        var on, rest := GetBoolSimple(s, word.value.0, !word.value.1, side.switches[chn]);
        SetSwitch(dir, chn, on);
        next, done := |arg| - |rest|, true;
      } else if "toggle" <= s && side.hasSwitch {
        SetSwitch(dir, chn, !side.switches[chn]);
        var rest := SimpleSkipWord(s, "toggle");
        next, done := if rest.Some? then |arg| - |rest.value| else off, true;
      } else if StartsNumber(s) {
        if dir == Playback {
          text := arg + "%";
        }
        var rest, ok := SetVolumeSimple(dir, chn, text[off..], noCheck);
        next, done := |text| - |rest|, ok;
      } else {
        var rest := SkipOther(dir, s);
        if rest.Some? {
          next := |arg| - |rest.value|;
        } else {
          known := false;
        }
      }
    }

    /** The words meant for the other direction. */
    method SkipOther(dir: Direction, s: string) returns (p: Option<string>)
      ensures p == SkipForeign(dir, s)
    {
      hide SkipWord;
      var words := if dir == Playback then ["cap", "rec", "nocap", "norec"] else ["mute", "off", "unmute", "on"];
      p := SimpleSkipWord(s, words[0]);
      if p.None? {
        p := SimpleSkipWord(s, words[1]);
      }
      if p.None? {
        p := SimpleSkipWord(s, words[2]);
      }
      if p.None? {
        p := SimpleSkipWord(s, words[3]);
      }
    }

    /** The playback half of a round. */
    method PlaybackHalf(st: State, sel: Selection, chn: nat, noCheck: bool) returns (r: State)
      requires Valid() && st.Valid() && st.elem == Value() && chn < CHANNELS
      modifies this
      ensures Valid() && r == PlaybackTurn(st, sel, chn, noCheck) && r.elem == Value()
    {
      hide TakeTurn;
      r := st;
      if sel.playback && playback.channels[chn] {
        var text, next, done, known := Take(Playback, chn, st.arg, st.off, noCheck);
        r := State(Elem(playback, capture), text, next, st.knowsPlayback && known, st.knowsCapture, st.done || done);
      }
    }

    /** The capture half; it reads from where the playback half started. */
    method CaptureHalf(st: State, start: nat, sel: Selection, chn: nat, noCheck: bool) returns (r: State)
      requires Valid() && st.Valid() && st.elem == Value() && chn < CHANNELS && start <= |st.arg|
      modifies this
      ensures Valid() && r == CaptureTurn(st, start, sel, chn, noCheck) && r.elem == Value()
    {
      hide TakeTurn;
      r := st;
      if sel.capture && capture.channels[chn] {
        var text, next, done, known := Take(Capture, chn, st.arg, start, noCheck);
        r := State(Elem(playback, capture), text, next, st.knowsPlayback, st.knowsCapture && known, st.done || done);
      }
    }

    /** One round of the channel loop, for a selected channel. */
    method ChannelRound(st: State, sel: Selection, chn: nat, multi: bool, noCheck: bool) returns (r: State)
      requires Valid() && st.Valid() && st.elem == Value() && chn < CHANNELS && chn in sel.mask
      modifies this
      ensures Valid() && r.Valid() && r == Round(st, sel, chn, multi, noCheck) && r.elem == Value()
    {
      hide PlaybackTurn, CaptureTurn, Elem.Valid;
      var played := PlaybackHalf(st, sel, chn, noCheck);
      r := CaptureHalf(played, st.off, sel, chn, noCheck);
      if !r.Stuck() && !multi {
        r := r.(off := 0);
      }
    }

    /** The loop over the channels. */
    method ChannelLoop(st: State, sel: Selection, multi: bool, noCheck: bool) returns (r: State)
      requires Valid() && st.Valid() && st.elem == Value()
      modifies this
      ensures Valid() && r == Rounds(st, sel, 0, multi, noCheck) && r.elem == Value()
    {
      hide Round;
      r := st;
      var chn := 0;
      while chn < CHANNELS
        invariant chn <= CHANNELS && Valid() && r.Valid() && r.elem == Value()
        invariant Rounds(r, sel, chn, multi, noCheck) == Rounds(st, sel, 0, multi, noCheck)
      {
        var next := r;
        if chn in sel.mask {
          next := ChannelRound(r, sel, chn, multi, noCheck);
        } else {
          RoundSkips(r, sel, chn, multi, noCheck);
        }
        ghost var before := r;
        r := next;
        if r.Stuck() {
          return;
        }
        chn := chn + 1;
      }
    }

    /** One argument: the words in front, then the loop over the channels. */
    method OneArgument(sel: Selection, knowsPlayback: bool, knowsCapture: bool, done: bool, text: string, noCheck: bool)
      returns (sel': Selection, st: Session, text': string)
      requires Valid()
      modifies this
      ensures Valid() && st.elem == Value()
      ensures Argument(Session(old(Value()), sel, knowsPlayback, knowsCapture, done), text, noCheck) == (st, text')
      ensures sel' == st.sel
    {
      hide Rounds, ChannelsMask, DirMask, Elem.Valid;
      text' := text;
      var mask, p := ReadMask(text, sel.mask);
      sel' := sel.(mask := mask);
      st := Session(Elem(playback, capture), sel', knowsPlayback, knowsCapture, done);
      if p == [] {
        return;
      }
      var q;
      sel', q := ReadDirection(p, sel');
      st := st.(sel := sel');
      if q == [] {
        return;
      }
      var multi := HasComma(q);
      var state := State(Elem(playback, capture), q, 0, knowsPlayback, knowsCapture, done);
      state := ChannelLoop(state, sel', multi, noCheck);
      text' := text[..|text| - |q|] + state.arg;
      st := Session(state.elem, sel', state.knowsPlayback, state.knowsCapture, state.done);
    }

    /**
     sset_channels: every argument in turn, in the buffer where it stands. A playback number is
     longer afterwards, and what stood behind it may be overwritten.
     */
    method SsetChannels(buf: array<char>, args: seq<nat>, noCheck: bool, ignoreError: bool) returns (code: int)
      requires Valid() && InBuffer(buf[..], args) && LineFits(StartSession(Value()), buf[..], args, noCheck)
      modifies this, buf
      ensures Valid()
      ensures var (ses, b) := LineArguments(StartSession(old(Value())), old(buf[..]), args, noCheck);
              Value() == ses.elem && buf[..] == b && code == ReturnCode(ses, ignoreError)
    {
      hide Argument, LineArguments, LineFits, CString, Longer, Further, WriteString, InBuffer, Side.Valid,
           StartSession, ReturnCode, Session.Stuck;
      StartIs(Value());
      var ses := Session(Elem(playback, capture), Selection(ALL_CHANNELS, true, true), true, true, false);
      ghost var goal := LineArguments(ses, buf[..], args, noCheck);
      var idx := 0;
      assert args[0..] == args;
      while idx < |args|
        invariant idx <= |args| && Valid() && ses.elem.Valid() && ses.elem == Value() && !ses.Stuck()
        invariant InBuffer(buf[..], args) && InBuffer(buf[..], args[idx..])
        invariant LineFits(ses, buf[..], args[idx..], noCheck)
        invariant LineArguments(ses, buf[..], args[idx..], noCheck) == goal
      {
        LineNext(ses, buf[..], args, idx, noCheck);
        ArgumentAt(ses, buf[..], args, idx, noCheck);
        var text := ReadString(buf, args[idx]);
        var sel;
        sel, ses, text := OneArgument(ses.sel, ses.knowsPlayback, ses.knowsCapture, ses.done, text, noCheck);
        StoreString(buf, args[idx], text);
        idx := idx + 1;
        if ses.Stuck() {
          LineStop(ses, buf[..], args[idx..], noCheck);
          StuckCode(ses, ignoreError);
          return 0;
        }
      }
      LineStop(ses, buf[..], args[idx..], noCheck);
      NotStuckCode(ses, ignoreError);
      code := if ses.done then 1 else if ignoreError then 0 else -1;
    }
  }

  lemma StartIs(e: Elem)
    ensures StartSession(e) == Session(e, Selection(ALL_CHANNELS, true, true), true, true, false)
    ensures !StartSession(e).Stuck()
  {}

  lemma StuckCode(ses: Session, ignoreError: bool)
    requires ses.Stuck()
    ensures ReturnCode(ses, ignoreError) == 0
  {}

  lemma NotStuckCode(ses: Session, ignoreError: bool)
    requires !ses.Stuck()
    ensures ReturnCode(ses, ignoreError) == if ses.done then 1 else if ignoreError then 0 else -1
  {}

  lemma ArgumentAt(ses: Session, b: seq<char>, args: seq<nat>, idx: nat, noCheck: bool)
    requires ses.elem.Valid() && InBuffer(b, args) && idx < |args|
    ensures args[idx] <= |b|
    ensures Argument(ses, CString(b, args[idx]), noCheck)
            == (Further(ses, b, args[idx], noCheck), Longer(ses, b, args[idx], noCheck))
    ensures ses == Session(ses.elem, ses.sel, ses.knowsPlayback, ses.knowsCapture, ses.done)
  {
    hide Argument, CString;
  }

  /** The string at a position, character by character. */
  method ReadString(buf: array<char>, at: nat) returns (s: string)
    requires at <= buf.Length
    ensures s == CString(buf[..], at)
  {
    hide CString;
    s := "";
    var k := at;
    while k < buf.Length && buf[k] != NUL
      invariant at <= k <= buf.Length
      invariant s + CString(buf[..], k) == CString(buf[..], at)
    {
      CStringNext(buf[..], k);
      assert [buf[k]] + CString(buf[..], k + 1) == CString(buf[..], k);
      s := s + [buf[k]];
      k := k + 1;
    }
    StringStops(buf[..], k);
  }

  lemma StringStops(b: seq<char>, k: nat)
    requires k <= |b| && (k == |b| || b[k] == NUL)
    ensures CString(b, k) == []
  {}

  method StoreString(buf: array<char>, at: nat, s: string)
    requires at + |s| < buf.Length
    modifies buf
    ensures buf[..] == WriteString(old(buf[..]), at, s)
  {
    forall k | 0 <= k < |s| {
      buf[at + k] := s[k];
    }
    buf[at + |s|] := NUL;
  }

  lemma RoundSkips(st: State, sel: Selection, chn: nat, multi: bool, noCheck: bool)
    requires st.Valid() && chn < CHANNELS && chn !in sel.mask
    ensures Round(st, sel, chn, multi, noCheck) == st
  {}
}
