/**
 The arguments of `sset` where the program keeps them: strings one behind the other in one
 buffer. A percent sign appended to one of them is written over what stands behind it.
 */
module MixerLine {
  import opened CText
  import opened LineLexer
  import opened MixerSet

  /** A string and its terminator, stored at a position. */
  function WriteString(b: seq<char>, at: nat, s: string): (r: seq<char>)
    requires at + |s| < |b|
    ensures |r| == |b|
  {
    b[..at] + s + [NUL] + b[at + |s| + 1..]
  }

  predicate InBuffer(b: seq<char>, starts: seq<nat>) {
    forall i :: 0 <= i < |starts| ==> starts[i] <= |b|
  }

  /** What the argument at a position becomes. */
  function Longer(ses: Session, b: seq<char>, at: nat, noCheck: bool): string
    requires ses.elem.Valid() && at <= |b|
  {
    Argument(ses, CString(b, at), noCheck).1
  }

  function Further(ses: Session, b: seq<char>, at: nat, noCheck: bool): (r: Session)
    requires ses.elem.Valid() && at <= |b|
    ensures r.elem.Valid()
  {
    Argument(ses, CString(b, at), noCheck).0
  }

  /** The buffer has room for every argument as it grows. */
  predicate LineFits(ses: Session, b: seq<char>, starts: seq<nat>, noCheck: bool)
    requires ses.elem.Valid() && InBuffer(b, starts)
    decreases |starts|
  {
    starts == [] || ses.Stuck() ||
    (&& starts[0] + |Longer(ses, b, starts[0], noCheck)| < |b|
     && LineFits(Further(ses, b, starts[0], noCheck), WriteString(b, starts[0], Longer(ses, b, starts[0], noCheck)),
                 starts[1..], noCheck))
  }

  /** The arguments in turn, each as the earlier ones have left it. */
  function LineArguments(ses: Session, b: seq<char>, starts: seq<nat>, noCheck: bool): (r: (Session, seq<char>))
    requires ses.elem.Valid() && InBuffer(b, starts) && LineFits(ses, b, starts, noCheck)
    ensures r.0.elem.Valid()
    decreases |starts|
  {
    if starts == [] || ses.Stuck() then (ses, b)
    else
      LineArguments(Further(ses, b, starts[0], noCheck),
                    WriteString(b, starts[0], Longer(ses, b, starts[0], noCheck)), starts[1..], noCheck)
  }

  lemma LineNext(ses: Session, b: seq<char>, starts: seq<nat>, idx: nat, noCheck: bool)
    requires ses.elem.Valid() && idx < |starts| && !ses.Stuck() && InBuffer(b, starts)
    requires InBuffer(b, starts[idx..]) && LineFits(ses, b, starts[idx..], noCheck)
    ensures var at := starts[idx];
            var text, next := Longer(ses, b, at, noCheck), Further(ses, b, at, noCheck);
            && at + |text| < |b|
            && var c := WriteString(b, at, text);
               && InBuffer(c, starts) && InBuffer(c, starts[idx + 1..]) && LineFits(next, c, starts[idx + 1..], noCheck)
               && LineArguments(ses, b, starts[idx..], noCheck) == LineArguments(next, c, starts[idx + 1..], noCheck)
  {
    hide Longer, Further, WriteString;
    assert starts[idx..][1..] == starts[idx + 1..];
  }

  lemma LineStop(ses: Session, b: seq<char>, starts: seq<nat>, noCheck: bool)
    requires ses.elem.Valid() && InBuffer(b, starts) && (starts == [] || ses.Stuck())
    ensures LineFits(ses, b, starts, noCheck) && LineArguments(ses, b, starts, noCheck) == (ses, b)
  {}
}
