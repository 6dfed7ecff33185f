/** The two identifiers of the mixer's command line, and the printers whose output they are read from. */
module ControlIds {
  import opened CText
  import opened Options
  import opened Tokens

  datatype Iface = Card | Hwdep | Mixer | Pcm | Rawmidi | Timer | Sequencer

  /** ALSA's name of an interface. */
  function IfaceName(f: Iface): string {
    match f
    case Card => "CARD"
    case Hwdep => "HWDEP"
    case Mixer => "MIXER"
    case Pcm => "PCM"
    case Rawmidi => "RAWMIDI"
    case Timer => "TIMER"
    case Sequencer => "SEQUENCER"
  }

  /** The numbers are `unsigned int`. */
  datatype ControlId =
    ControlId(numid: nat, iface: Iface, name: string, index: nat, device: nat, subdevice: nat)
  {
    predicate Valid() {
      numid <= UINT_MAX && index <= UINT_MAX && device <= UINT_MAX && subdevice <= UINT_MAX
    }
  }

  const UINT_MAX := 0xFFFF_FFFF
  const NAME_SIZE := 64

  /** A freshly allocated identifier with the default interface. */
  const DEFAULT_ID := ControlId(0, Mixer, "", 0, 0, 0)

  // Printing.

  /** An optional number; `%i` of an `unsigned int`. */
  function ShowNumber(key: string, n: nat): string {
    if n == 0 then "" else "," + key + PrintInt(ToInt32(n))
  }

  function ShowNumbers(index: nat, device: nat, subdevice: nat): string {
    ShowNumber("index=", index) + (ShowNumber("device=", device) + ShowNumber("subdevice=", subdevice))
  }

  /** show_control_id */
  function Show(id: ControlId): string {
    "numid=" + PrintNat(id.numid)
    + (",iface=" + IfaceName(id.iface)
       + (",name='" + (id.name + ("'" + ShowNumbers(id.index, id.device, id.subdevice)))))
  }

  // Parsing.

  function Lower(c: char): char {
    if 'A' <= c <= 'Z' then c + ('a' - 'A') else c
  }

  /** !strncasecmp(s, w, strlen(w)) */
  predicate Begins(s: string, w: string) {
    |w| <= |s| && forall i :: 0 <= i < |w| ==> Lower(s[i]) == Lower(w[i])
  }

  function SkipDigits(s: string): (r: string)
    ensures |r| <= |s|
  {
    if StartsWithDigit(s) then SkipDigits(s[1..]) else s
  }

  datatype Field = Bad | Read(id: ControlId, rest: string)

  function ReadIface(s: string, id: ControlId): Field {
    if Begins(s, "card") then Read(id.(iface := Card), s[4..])
    else if Begins(s, "mixer") then Read(id.(iface := Mixer), s[5..])
    else if Begins(s, "pcm") then Read(id.(iface := Pcm), s[3..])
    else if Begins(s, "rawmidi") then Read(id.(iface := Rawmidi), s[7..])
    else if Begins(s, "timer") then Read(id.(iface := Timer), s[5..])
    else if Begins(s, "sequencer") then Read(id.(iface := Sequencer), s[9..])
    else Bad
  }

  /** The name: up to the closing quote, or up to a comma; the buffer keeps 64 characters. */
  function ReadName(s: string, id: ControlId): Field {
    if s != [] && (s[0] == '\'' || s[0] == '"') then
      var n := Before(s[1..], s[0]);
      var behind := s[1..][n..];
      Read(id.(name := First(NAME_SIZE, s[1..][..n])), if behind == [] then behind else behind[1..])
    else
      var n := Before(s, ',');
      Read(id.(name := First(NAME_SIZE, s[..n])), s[n..])
  }

  /** One field, or nothing when no key matches. */
  function ReadField(s: string, id: ControlId): Field {
    if Begins(s, "numid=") then
      var n := Atoi(s[6..]);
      if n <= 0 then Bad else Read(id.(numid := n), SkipDigits(s[6..]))
    else if Begins(s, "iface=") then ReadIface(s[6..], id)
    else if Begins(s, "name=") then ReadName(s[5..], id)
    else if Begins(s, "index=") then Read(id.(index := ToUint32(Atoi(s[6..]))), SkipDigits(s[6..]))
    else if Begins(s, "device=") then Read(id.(device := ToUint32(Atoi(s[7..]))), SkipDigits(s[7..]))
    else if Begins(s, "subdevice=") then Read(id.(subdevice := ToUint32(Atoi(s[10..]))), SkipDigits(s[10..]))
    else Read(id, s)
  }

  lemma ReadFieldShrinks(s: string, id: ControlId)
    ensures ReadField(s, id).Read? ==> |ReadField(s, id).rest| <= |s|
  {
    hide Atoi, Lower;
  }

  lemma BeginsLength(s: string)
    ensures Begins(s, "numid=") || Begins(s, "iface=") || Begins(s, "index=") ==> |s| >= 6
    ensures Begins(s, "name=") ==> |s| >= 5
    ensures Begins(s, "device=") ==> |s| >= 7
    ensures Begins(s, "subdevice=") ==> |s| >= 10
  {}

  /** The loop of the parser: fields separated by commas. Every round consumes a character. */
  function ParseFields(s: string, id: ControlId): Option<ControlId>
    decreases |s|
  {
    if s == [] then Some(id)
    else
      match ReadField(s, id)
      case Bad => None
      case Read(id', rest) =>
        ReadFieldShrinks(s, id);
        if rest == [] then Some(id')
        else if rest[0] == ',' then ParseFields(rest[1..], id')
        else None
  }

  function SkipBlanks(s: string): (r: string)
    ensures |r| <= |s|
  {
    if s != [] && (s[0] == ' ' || s[0] == '\t') then SkipBlanks(s[1..]) else s
  }

  /** parse_control_id */
  function Parse(s: string): Option<ControlId> {
    var t := SkipBlanks(s);
    if t == [] then None else ParseFields(t, DEFAULT_ID)
  }

  // The same as the program does it.

  method DoSkipDigits(s: string) returns (p: string)
    ensures p == SkipDigits(s)
  {
    p := s;
    while StartsWithDigit(p)
      invariant SkipDigits(p) == SkipDigits(s)
      decreases |p|
    {
      p := p[1..];
    }
  }

  method DoSkipBlanks(s: string) returns (p: string)
    ensures p == SkipBlanks(s)
  {
    p := s;
    while p != [] && (p[0] == ' ' || p[0] == '\t')
      invariant SkipBlanks(p) == SkipBlanks(s)
      decreases |p|
    {
      p := p[1..];
    }
  }

  /** Collect at most `size` characters up to `c`, reading on to it. */
  method Collect(s: string, c: char, size: nat) returns (buf: string, p: string)
    ensures buf == First(size, s[..Before(s, c)])
    ensures p == s[Before(s, c)..]
  {
    buf, p := "", s;
    ghost var n := 0;
    while p != [] && p[0] != c
      invariant n <= |s| && p == s[n..] && buf == First(size, s[..n])
      invariant n + Before(p, c) == Before(s, c)
      decreases |p|
    {
      assert s[..n + 1] == s[..n] + [p[0]];
      if |buf| < size {
        buf := buf + [p[0]];
      }
      p := p[1..];
      n := n + 1;
    }
  }

  method DoReadName(s: string, id: ControlId) returns (f: Field)
    ensures f == ReadName(s, id)
  {
    hide First, Before;
    if s != [] && (s[0] == '\'' || s[0] == '"') {
      var c := s[0];
      var buf, p := Collect(s[1..], c, NAME_SIZE);
      if p != [] {
        p := p[1..];
      }
      f := Read(id.(name := buf), p);
    } else {
      var buf, p := Collect(s, ',', NAME_SIZE);
      f := Read(id.(name := buf), p);
    }
  }

  method DoReadField(s: string, id: ControlId) returns (f: Field)
    ensures f == ReadField(s, id)
  {
    hide Begins, Atoi, ReadIface, ReadName, SkipDigits;
    BeginsLength(s);
    var p := s;
    if Begins(p, "numid=") {
      p := p[6..];
      var numid := Atoi(p);
      if numid <= 0 {
        return Bad;
      }
      p := DoSkipDigits(p);
      f := Read(id.(numid := numid), p);
    } else if Begins(p, "iface=") {
      f := ReadIface(p[6..], id);
    } else if Begins(p, "name=") {
      f := DoReadName(p[5..], id);
    } else if Begins(p, "index=") {
      var n := Atoi(p[6..]);
      p := DoSkipDigits(p[6..]);
      f := Read(id.(index := ToUint32(n)), p);
    } else if Begins(p, "device=") {
      var n := Atoi(p[7..]);
      p := DoSkipDigits(p[7..]);
      f := Read(id.(device := ToUint32(n)), p);
    } else if Begins(p, "subdevice=") {
      var n := Atoi(p[10..]);
      p := DoSkipDigits(p[10..]);
      f := Read(id.(subdevice := ToUint32(n)), p);
    } else {
      f := Read(id, p);
    }
  }

  method ParseControlId(str: string) returns (r: Option<ControlId>)
    ensures r == Parse(str)
  {
    hide ReadField;
    var p := DoSkipBlanks(str);
    if p == [] {
      return None;
    }
    var id := DEFAULT_ID;
    while p != []
      invariant ParseFields(p, id) == Parse(str)
      decreases |p|
    {
      ReadFieldShrinks(p, id);
      var f := DoReadField(p, id);
      if f.Bad? {
        return None;
      }
      id, p := f.id, f.rest;
      if p != [] {
        if p[0] == ',' {
          p := p[1..];
        } else {
          return None;
        }
      }
    }
    r := Some(id);
  }

  // Simple control identifiers.

  datatype SimpleId = SimpleId(name: string, index: nat)

  const SIMPLE_SIZE := 128

  /** As sevents_value prints it. */
  function ShowSimple(id: SimpleId): string {
    "'" + (id.name + ("'," + PrintInt(ToInt32(id.index))))
  }

  /** The name and what follows it. */
  function SimpleName(s: string): (string, string) {
    if s != [] && (s[0] == '\'' || s[0] == '"') then
      var n := Before(s[1..], s[0]);
      var behind := s[1..][n..];
      (First(SIMPLE_SIZE - 1, s[1..][..n]), if behind == [] then behind else behind[1..])
    else
      var n := Before(s, ',');
      (First(SIMPLE_SIZE - 1, s[..n]), s[n..])
  }

  /** parse_simple_id */
  function ParseSimple(s: string): Option<SimpleId> {
    var t := SkipBlanks(s);
    if t == [] then None
    else
      var (name, rest) := SimpleName(t);
      if rest == [] then Some(SimpleId(name, 0))
      else if rest[0] != ',' || !StartsWithDigit(rest[1..]) then None
      else Some(SimpleId(name, ToUint32(Atoi(rest[1..]))))
  }

  method ParseSimpleId(str: string) returns (r: Option<SimpleId>)
    ensures r == ParseSimple(str)
  {
    hide First, Before, Atoi, SkipBlanks;
    var p := DoSkipBlanks(str);
    if p == [] {
      return None;
    }
    var buf;
    if p[0] != '"' && p[0] != '\'' {
      buf, p := Collect(p, ',', SIMPLE_SIZE - 1);
    } else {
      var c := p[0];
      buf, p := Collect(p[1..], c, SIMPLE_SIZE - 1);
      if p != [] {
        p := p[1..];
      }
    }
    if p == [] {
      return Some(SimpleId(buf, 0));
    }
    if p[0] != ',' {
      return None;
    }
    p := p[1..];
    if !StartsWithDigit(p) {
      return None;
    }
    r := Some(SimpleId(buf, ToUint32(Atoi(p))));
  }
}
