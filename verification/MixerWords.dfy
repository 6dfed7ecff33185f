/** What the words in front of a number select, and what `sset` returns. */
module MixerWords {
  import opened CText
  import opened Options
  import opened Percent
  import opened ControlIds
  import opened MixerSet
  import opened MixerTheory
  import opened MixerSteps
  import opened MixerLists
  import opened MixerCapture

  // The words and their channels.

  predicate IsChannelWord(w: string) {
    w in {"frontleft", "frontright", "frontcenter", "front", "center", "rearleft", "rearright", "rear", "woofer"}
  }

  /** Front left and right are channels 0 and 1, rear 2 and 3, the center 4, the woofer 5. */
  function ChannelsOf(w: string): set<nat>
    requires IsChannelWord(w)
  {
    if w == "frontleft" then {0} else if w == "frontright" then {1} else if w == "front" then {0, 1}
    else if w == "rearleft" then {2} else if w == "rearright" then {3} else if w == "rear" then {2, 3}
    else if w == "woofer" then {5} else {4}
  }

  predicate IsSeparator(c: char) {
    c == ' ' || c == ',' || c == '\t'
  }

  lemma {:induction false} AfterBlankAt(w: string, c: char, rest: string)
    requires IsSeparator(c) && forall k :: 0 <= k < |w| ==> !IsBlank(w[k])
    ensures AfterBlank(w + [c] + rest) == rest
  {
    if w == [] {
      assert w + [c] + rest == [c] + rest;
      assert ([c] + rest)[1..] == rest;
    } else {
      assert (w + [c] + rest)[1..] == w[1..] + [c] + rest;
      AfterBlankAt(w[1..], c, rest);
    }
  }

  lemma InTable(w: string) returns (i: nat)
    requires IsChannelWord(w)
    ensures i < |CHANNEL_WORDS| && CHANNEL_WORDS[i].0 == w && CHANNEL_WORDS[i].1 == ChannelsOf(w)
  {
    var words := CHANNEL_WORDS;
    i := if w == "frontleft" then 0 else if w == "frontright" then 1 else if w == "frontcenter" then 2
         else if w == "front" then 3 else if w == "center" then 4 else if w == "rearleft" then 5
         else if w == "rearright" then 6 else if w == "rear" then 7 else 8;
    assert words[i].0 == w;
    hide IsChannelWord;
    SameChannels(w, i);
  }

  lemma SameChannels(w: string, i: nat)
    requires i < |CHANNEL_WORDS| && CHANNEL_WORDS[i].0 == w && IsChannelWord(w)
    ensures CHANNEL_WORDS[i].1 == ChannelsOf(w)
  {
    assert |"frontleft"| == 9 && |"frontright"| == 10 && |"frontcenter"| == 11 && |"front"| == 5;
    assert |"center"| == 6 && |"rearleft"| == 8 && |"rearright"| == 9 && |"rear"| == 4 && |"woofer"| == 6;
    assert "frontleft"[0] == 'f' && "rearright"[0] == 'r' && "center"[0] == 'c' && "woofer"[0] == 'w';
  }

  /** A channel word with what ends it is read as its channels. */
  lemma {:induction false} WordMask(w: string, end: string, rest: string, mask: set<nat>)
    requires IsChannelWord(w) && ((end == "" && rest == "") || (|end| == 1 && IsSeparator(end[0])))
    ensures ChannelsMask(w + end + rest, mask) == (ChannelsOf(w), rest)
  {
    hide Begins, AfterBlank, FindMask, CHANNEL_WORDS, IsChannelWord, ChannelsOf;
    var words, s := CHANNEL_WORDS, w + end + rest;
    var i := InTable(w);
    WordsTellApartAt(s, i, end + rest);
    assert s == w + (end + rest);
    BeginsFront(w, end + rest);
    MaskAt(s, words, i);
    NoBlankInside(i);
    if end == "" {
      assert s == w;
      NothingBlank(w);
    } else {
      assert end == [end[0]];
      AfterBlankAt(w, end[0], rest);
    }
  }

  lemma WordsTellApartAt(s: string, i: nat, x: string)
    requires i < |CHANNEL_WORDS| && s == CHANNEL_WORDS[i].0 + x
    requires x == "" || IsSeparator(x[0])
    ensures forall j :: 0 <= j < i ==> !Begins(s, CHANNEL_WORDS[j].0)
  {
    var words := CHANNEL_WORDS;
    var w := words[i].0;
    forall j | 0 <= j < i
      ensures !Begins(s, words[j].0)
    {
      var v := words[j].0;
      assert forall k :: 0 <= k < |w| ==> s[k] == w[k];
      if i == 3 || i == 7 {
        ShortWord(s, w, v, x);
      } else if i < 3 {
        Differ(s, v, 5);
      } else if 5 <= j {
        Differ(s, v, if i == 8 then 0 else 4);
      } else {
        Differ(s, v, 0);
      }
    }
  }

  /** `front` and `rear` come after the longer words that begin with them. */
  lemma ShortWord(s: string, w: string, v: string, x: string)
    requires s == w + x && (x == "" || IsSeparator(x[0]))
    requires (|w| < |v| && 'a' <= v[|w|] <= 'z') || (w != "" && v != "" && Lower(w[0]) != Lower(v[0]))
    ensures !Begins(s, v)
  {
    if |w| < |v| && 'a' <= v[|w|] <= 'z' {
      if x != "" {
        assert s[|w|] == x[0];
        Differ(s, v, |w|);
      }
    } else {
      assert s[0] == w[0];
      Differ(s, v, 0);
    }
  }

  lemma PlaybackIsNoChannel(s: string)
    requires "playback" <= s
    ensures FindMask(s, CHANNEL_WORDS).None?
  {
    var words := CHANNEL_WORDS;
    assert s[0] == "playback"[0] == 'p';
    forall i | 0 <= i < |words|
      ensures !Begins(s, words[i].0)
    {
      Differ(s, words[i].0, 0);
    }
    NoMask(s, words);
  }

  lemma {:induction false} PlaybackRead(end: string, rest: string, sel: Selection)
    requires (end == "" && rest == "") || (|end| == 1 && IsSeparator(end[0]))
    ensures var s := "playback" + end + rest;
            && ChannelsMask(s, sel.mask) == (sel.mask, s)
            && DirMask(s, sel) == (sel.(playback := true, capture := false), rest)
  {
    hide AfterBlank, FindMask;
    var w, s := "playback", "playback" + end + rest;
    assert s[..8] == w;
    PlaybackIsNoChannel(s);
    assert forall k :: 0 <= k < |w| ==> !IsBlank(w[k]);
    if end == "" {
      assert s == w;
      NothingBlank(w);
    } else {
      assert end == [end[0]];
      AfterBlankAt(w, end[0], rest);
    }
    assert Begins(s, w) by { assert forall k :: 0 <= k < 8 ==> s[k] == w[k]; }
  }

  // A number for some channels and directions.

  /** What a number leaves of an element when channels and directions are selected. */
  predicate NumberLeft(e: Elem, after: Elem, mask: set<nat>, playback: bool, capture: bool, d: string, noCheck: bool)
    requires e.Valid() && after.Valid() && IsNumber(d)
  {
    && SameElemShape(e, after)
    && (!playback ==> after.playback == e.playback) && (!capture ==> after.capture == e.capture)
    && (forall c :: 0 <= c < CHANNELS && c !in mask ==> SameElemChannel(e, after, c))
    && (playback && e.playback.hasVolume ==>
          forall c :: 0 <= c < CHANNELS && c in mask && e.playback.channels[c] ==>
            after.playback.levels[c] == Wanted(e.playback, d, noCheck))
  }

  lemma {:induction false} NumberForMask(e: Elem, mask: set<nat>, playback: bool, capture: bool, d: string,
                                         noCheck: bool)
    requires e.Valid() && IsNumber(d)
    ensures var r := Rounds(State(e, d, 0, true, true, false), Selection(mask, playback, capture), 0, false, noCheck);
            r.elem.Valid() && !r.Stuck() && NumberLeft(e, r.elem, mask, playback, capture, d, noCheck)
  {
    hide Rounds, Wanted, SameElemShape, SameElemChannel, IsNumber;
    var st, sel := State(e, d, 0, true, true, false), Selection(mask, playback, capture);
    assert d + Percents(0) == d;
    RoundsNumber(st, sel, 0, d, 0, noCheck);
    RoundsDirection(st, sel, 0, false, noCheck);
    RoundsInRange(st, sel, 0, false, noCheck);
    forall c | 0 <= c < CHANNELS && c !in mask
      ensures SameElemChannel(e, Rounds(st, sel, 0, false, noCheck).elem, c)
    {
      RoundsFrame(st, sel, 0, false, noCheck, c);
    }
  }

  /** The argument is the number alone, for what was selected before. */
  lemma {:induction false} NumberArgument(e: Elem, sel: Selection, d: string, noCheck: bool)
    requires e.Valid() && IsNumber(d)
    ensures var after := Argument(Session(e, sel, true, true, false), d, noCheck).0;
            NumberLeft(e, after.elem, sel.mask, sel.playback, sel.capture, d, noCheck)
  {
    hide Rounds, ChannelsMask, DirMask, NumberLeft, Elem.Valid;
    DigitHasNoWords(d, sel);
    assert sel.(mask := sel.mask) == sel;
    assert ',' !in d;
    NumberForMask(e, sel.mask, sel.playback, sel.capture, d, noCheck);
  }

  /** Words in the same argument in front of the number. */
  lemma {:induction false} WordsArgument(e: Elem, text: string, sel: Selection, p: string, d: string, noCheck: bool)
    requires e.Valid() && IsNumber(d)
    requires ChannelsMask(text, StartSession(e).sel.mask) == (sel.mask, p) && p != ""
    requires DirMask(p, Selection(sel.mask, true, true)) == (sel, d)
    ensures var after := Argument(StartSession(e), text, noCheck).0;
            NumberLeft(e, after.elem, sel.mask, sel.playback, sel.capture, d, noCheck)
  {
    hide Rounds, ChannelsMask, DirMask, NumberLeft, Elem.Valid;
    assert ',' !in d;
    NumberForMask(e, sel.mask, sel.playback, sel.capture, d, noCheck);
  }

  const EVERY: set<nat> := set c: nat | c < 32

  lemma EveryChannel()
    ensures EVERY == ALL_CHANNELS
  {}

  /** `playback d`, in one argument: capture stays, every playback channel goes to d percent. */
  lemma {:induction false} SsetPlaybackNumber(elem: Elem, c: char, d: string, noCheck: bool)
    requires elem.Valid() && IsNumber(d) && IsSeparator(c)
    ensures NumberLeft(elem, Sset(elem, ["playback" + [c] + d], noCheck), EVERY, true, false, d, noCheck)
    ensures Sset(elem, ["playback" + [c] + d], noCheck).capture == elem.capture
  {
    hide Argument, Arguments, ChannelsMask, DirMask, Wanted, SameElemShape, SameElemChannel, EVERY, ALL_CHANNELS;
    EveryChannel();
    var ses, text := StartSession(elem), "playback" + [c] + d;
    PlaybackRead([c], d, ses.sel);
    WordsArgument(elem, text, Selection(EVERY, true, false), text, d, noCheck);
    OneOfOne(ses, text, noCheck);
  }

  lemma {:induction false} PlaybackAlone(ses: Session, noCheck: bool)
    requires ses.elem.Valid()
    ensures Argument(ses, "playback", noCheck).0 == ses.(sel := ses.sel.(playback := true, capture := false))
  {
    hide Rounds, ChannelsMask, DirMask;
    PlaybackRead("", "", ses.sel);
    assert "playback" + "" + "" == "playback";
    assert ses.sel.(mask := ses.sel.mask) == ses.sel;
  }

  /** `playback` and then the number, in two arguments: the same. */
  lemma {:induction false} SsetPlaybackThen(elem: Elem, d: string, noCheck: bool)
    requires elem.Valid() && IsNumber(d)
    ensures NumberLeft(elem, Sset(elem, ["playback", d], noCheck), EVERY, true, false, d, noCheck)
    ensures Sset(elem, ["playback", d], noCheck).capture == elem.capture
  {
    hide Argument, Arguments, Wanted, SameElemShape, SameElemChannel, EVERY, ALL_CHANNELS;
    EveryChannel();
    var ses := StartSession(elem);
    PlaybackAlone(ses, noCheck);
    NumberArgument(elem, Selection(EVERY, true, false), d, noCheck);
    FirstOfTwo(ses, "playback", d, noCheck);
  }

  /** A channel word and the number, in one argument: the channels of the word in both directions, and no others. */
  lemma {:induction false} SsetChannelNumber(elem: Elem, w: string, c: char, d: string, noCheck: bool)
    requires elem.Valid() && IsNumber(d) && IsChannelWord(w) && IsSeparator(c)
    ensures NumberLeft(elem, Sset(elem, [w + [c] + d], noCheck), ChannelsOf(w), true, true, d, noCheck)
  {
    hide Argument, Arguments, ChannelsMask, DirMask, NumberLeft, ChannelsOf, IsChannelWord;
    var ses, text := StartSession(elem), w + [c] + d;
    var sel := Selection(ChannelsOf(w), true, true);
    WordMask(w, [c], d, ses.sel.mask);
    DigitHasNoWords(d, sel);
    WordsArgument(elem, text, sel, d, d, noCheck);
    OneOfOne(ses, text, noCheck);
  }

  /** A channel word, `playback` and the number, in one argument. */
  lemma {:induction false} SsetChannelPlayback(elem: Elem, w: string, c: char, d: string, noCheck: bool)
    requires elem.Valid() && IsNumber(d) && IsChannelWord(w) && IsSeparator(c)
    ensures var text := w + [c] + ("playback" + [c] + d);
            NumberLeft(elem, Sset(elem, [text], noCheck), ChannelsOf(w), true, false, d, noCheck)
  {
    hide Argument, Arguments, ChannelsMask, DirMask, NumberLeft, ChannelsOf, IsChannelWord;
    var p := "playback" + [c] + d;
    var ses, text := StartSession(elem), w + [c] + p;
    var sel := Selection(ChannelsOf(w), true, true);
    WordMask(w, [c], p, ses.sel.mask);
    PlaybackRead([c], d, sel);
    WordsArgument(elem, text, Selection(ChannelsOf(w), true, false), p, d, noCheck);
    OneOfOne(ses, text, noCheck);
  }

  lemma {:induction false} ChannelAlone(ses: Session, w: string, noCheck: bool)
    requires ses.elem.Valid() && IsChannelWord(w)
    ensures Argument(ses, w, noCheck).0 == ses.(sel := ses.sel.(mask := ChannelsOf(w)))
  {
    hide Rounds, ChannelsMask, DirMask, ChannelsOf, IsChannelWord;
    WordMask(w, "", "", ses.sel.mask);
    assert w + "" + "" == w;
  }

  /** A channel word and then the number, in two arguments: `frontleft` and 50 set channel 0 and no other. */
  lemma {:induction false} SsetChannelThen(elem: Elem, w: string, d: string, noCheck: bool)
    requires elem.Valid() && IsNumber(d) && IsChannelWord(w)
    ensures NumberLeft(elem, Sset(elem, [w, d], noCheck), ChannelsOf(w), true, true, d, noCheck)
  {
    hide Argument, Arguments, NumberLeft, ChannelsOf, IsChannelWord;
    var ses := StartSession(elem);
    ChannelAlone(ses, w, noCheck);
    NumberArgument(elem, Selection(ChannelsOf(w), true, true), d, noCheck);
    FirstOfTwo(ses, w, d, noCheck);
  }
}
