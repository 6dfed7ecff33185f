/** Which identifiers survive being printed and parsed again: exactly the condition, in both directions. */
module ControlIdTheory {
  import opened CText
  import opened Options
  import opened Tokens
  import opened ControlIds

  lemma BeginsItself(w: string, x: string)
    ensures Begins(w + x, w)
    ensures (w + x)[|w|..] == x
  {}

  /** A text that starts with one word does not start with another that differs in one place. */
  lemma BeginsNot(s: string, w: string, i: nat)
    requires i < |s| && i < |w| && Lower(s[i]) != Lower(w[i])
    ensures !Begins(s, w)
  {}

  lemma {:induction false} SkipDigitsPrefix(d: string, x: string)
    requires AllDigits(d) && !StartsWithDigit(x)
    ensures SkipDigits(d + x) == x
  {
    if d == [] {
      assert d + x == x;
    } else {
      assert (d + x)[1..] == d[1..] + x;
      SkipDigitsPrefix(d[1..], x);
    }
  }

  lemma {:induction false} BeforePrefix(n: string, c: char, x: string)
    requires c !in n
    ensures Before(n + [c] + x, c) == |n|
  {
    if n == [] {
      assert n + [c] + x == [c] + x;
    } else {
      assert (n + [c] + x)[1..] == n[1..] + [c] + x;
      BeforePrefix(n[1..], c, x);
    }
  }

  // Each field on its own.

  lemma FieldNumid(n: nat, x: string, id: ControlId)
    requires n <= UINT_MAX && !StartsWithDigit(x)
    ensures ReadField("numid=" + (PrintNat(n) + x), id) ==
            if 1 <= n <= INT_MAX then Read(id.(numid := n), x) else Bad
  {
    hide Begins, Strtol, SkipDigits, PrintNat;
    BeginsItself("numid=", PrintNat(n) + x);
    StrtolPrintedNat(n, x);
    SkipDigitsPrefix(PrintNat(n), x);
  }

  lemma FieldIface(f: Iface, x: string, id: ControlId)
    ensures ReadField("iface=" + (IfaceName(f) + x), id) ==
            if f.Hwdep? then Bad else Read(id.(iface := f), x)
  {
    hide Begins, Atoi, SkipDigits, ReadName, ReadIface;
    var s := "iface=" + (IfaceName(f) + x);
    BeginsNot(s, "numid=", 0);
    BeginsItself("iface=", IfaceName(f) + x);
    IfaceReads(f, x, id);
  }

  lemma IfaceReads(f: Iface, x: string, id: ControlId)
    ensures ReadIface(IfaceName(f) + x, id) == if f.Hwdep? then Bad else Read(id.(iface := f), x)
  {
    var s := IfaceName(f) + x;
    assert s[0] == IfaceName(f)[0];
    IfaceFirst(s);
    if !f.Hwdep? {
      IfaceBegins(f, x);
    }
    hide Begins;
  }

  /** The first letters tell the interfaces apart. */
  lemma IfaceFirst(s: string)
    requires s != []
    ensures Begins(s, "card") ==> Lower(s[0]) == 'c'
    ensures Begins(s, "mixer") ==> Lower(s[0]) == 'm'
    ensures Begins(s, "pcm") ==> Lower(s[0]) == 'p'
    ensures Begins(s, "rawmidi") ==> Lower(s[0]) == 'r'
    ensures Begins(s, "timer") ==> Lower(s[0]) == 't'
    ensures Begins(s, "sequencer") ==> Lower(s[0]) == 's'
  {}

  function IfaceWord(f: Iface): string {
    match f
    case Card => "card"
    case Hwdep => "hwdep"
    case Mixer => "mixer"
    case Pcm => "pcm"
    case Rawmidi => "rawmidi"
    case Timer => "timer"
    case Sequencer => "sequencer"
  }

  lemma IfaceBegins(f: Iface, x: string)
    ensures Begins(IfaceName(f) + x, IfaceWord(f))
    ensures (IfaceName(f) + x)[|IfaceWord(f)|..] == x
  {
    var a, b := IfaceName(f), IfaceWord(f);
    assert |a| == |b|;
    assert forall i :: 0 <= i < |a| ==> Lower(a[i]) == Lower(b[i]);
    assert forall i :: 0 <= i < |a| ==> (a + x)[i] == a[i];
  }

  lemma FieldName(n: string, x: string, id: ControlId)
    requires '\'' !in n
    ensures ReadField("name='" + (n + ("'" + x)), id) == Read(id.(name := First(NAME_SIZE, n)), x)
  {
    hide Begins, Atoi, SkipDigits, ReadIface, ReadName;
    var s := "name='" + (n + ("'" + x));
    BeginsNot(s, "numid=", 1);
    BeginsNot(s, "iface=", 0);
    assert s == "name=" + ("'" + (n + ("'" + x)));
    BeginsItself("name=", "'" + (n + ("'" + x)));
    NameReads(n, x, id);
  }

  lemma NameReads(n: string, x: string, id: ControlId)
    requires '\'' !in n
    ensures ReadName("'" + (n + ("'" + x)), id) == Read(id.(name := First(NAME_SIZE, n)), x)
  {
    hide First;
    var s := "'" + (n + ("'" + x));
    BeforePrefix(n, '\'', x);
    assert s[1..] == n + ['\''] + x;
    assert s[1..][..|n|] == n && s[1..][|n|..] == ['\''] + x;
    assert (['\''] + x)[1..] == x;
  }

  /** The parser's state behind a field: at the end, at a comma, or lost. */
  function Behind(rest: string, id: ControlId): Option<ControlId> {
    if rest == [] then Some(id)
    else if rest[0] == ',' then ParseFields(rest[1..], id)
    else None
  }

  lemma ParseOne(s: string, id: ControlId)
    requires s != []
    ensures ParseFields(s, id) ==
            if ReadField(s, id).Bad? then None else Behind(ReadField(s, id).rest, ReadField(s, id).id)
  {
    hide ReadField;
  }

  datatype Key = Index | Device | Subdevice

  function KeyWord(k: Key): string {
    match k
    case Index => "index="
    case Device => "device="
    case Subdevice => "subdevice="
  }

  function Put(id: ControlId, k: Key, n: nat): ControlId {
    match k
    case Index => id.(index := n)
    case Device => id.(device := n)
    case Subdevice => id.(subdevice := n)
  }

  lemma FieldKey(k: Key, x: string, id: ControlId)
    ensures ReadField(KeyWord(k) + x, id) == Read(Put(id, k, ToUint32(Atoi(x))), SkipDigits(x))
  {
    var w := KeyWord(k);
    var s := w + x;
    assert s[0] == w[0] && s[1] == w[1];
    BeginsItself(w, x);
    BeginsNot(s, "numid=", 0);
    BeginsNot(s, "name=", 0);
    BeginsNot(s, "iface=", 1);
    match k
    case Index =>
    case Device =>
      BeginsNot(s, "index=", 0);
    case Subdevice =>
      BeginsNot(s, "index=", 0);
      BeginsNot(s, "device=", 0);
  }

  /** A number is printed signed: it comes back if it is no negative `int`. */
  lemma {:induction false} BehindNumber(k: Key, n: nat, x: string, id: ControlId)
    requires n <= UINT_MAX && (x == [] || x[0] == ',')
    requires Put(id, k, 0) == id
    ensures Behind(ShowNumber(KeyWord(k), n) + x, id) ==
            if n <= INT_MAX then Behind(x, Put(id, k, n)) else None
  {
    hide ReadField, Strtol, SkipDigits, PrintNat, KeyWord;
    if n == 0 {
      assert "" + x == x;
    } else {
      var m := ToInt32(n);
      var p := PrintInt(m) + x;
      var s := KeyWord(k) + p;
      assert ShowNumber(KeyWord(k), n) + x == "," + s;
      assert ("," + s)[1..] == s;
      assert s != [];
      ParseOne(s, id);
      FieldKey(k, p, id);
      StrtolPrinted(m, x);
      if n <= INT_MAX {
        SkipDigitsPrefix(PrintNat(m), x);
      } else {
        NegativeStays(m, x);
      }
    }
  }

  lemma NegativeStays(m: int, x: string)
    requires m < 0
    ensures SkipDigits(PrintInt(m) + x) == PrintInt(m) + x
    ensures PrintInt(m) + x != [] && (PrintInt(m) + x)[0] == '-'
  {}

  lemma ShowNumberStart(key: string, n: nat)
    ensures ShowNumber(key, n) == [] || ShowNumber(key, n)[0] == ','
  {}

  lemma {:induction false} BehindNumbers(index: nat, device: nat, subdevice: nat, id: ControlId)
    requires index <= UINT_MAX && device <= UINT_MAX && subdevice <= UINT_MAX
    requires id.index == id.device == id.subdevice == 0
    ensures Behind(ShowNumbers(index, device, subdevice), id) ==
            if index <= INT_MAX && device <= INT_MAX && subdevice <= INT_MAX
            then Some(id.(index := index, device := device, subdevice := subdevice)) else None
  {
    hide ShowNumber, Behind;
    var d, s := ShowNumber("device=", device), ShowNumber("subdevice=", subdevice);
    ShowNumberStart("device=", device);
    ShowNumberStart("subdevice=", subdevice);
    BehindNumber(Index, index, d + s, id);
    var id1 := id.(index := index);
    BehindNumber(Device, device, s, id1);
    var id2 := id1.(device := device);
    assert s + "" == s;
    BehindNumber(Subdevice, subdevice, "", id2);
    BehindEnd(id2.(subdevice := subdevice));
  }

  lemma BehindEnd(id: ControlId)
    ensures Behind("", id) == Some(id)
  {}

  // The first two fields.

  function NamePart(id: ControlId): string {
    "name='" + (id.name + ("'" + ShowNumbers(id.index, id.device, id.subdevice)))
  }

  /** Parsing a printed identifier comes down to parsing from its name on. */
  lemma {:induction false} ParseShow(id: ControlId)
    requires id.Valid()
    ensures Parse(Show(id)) ==
            if 1 <= id.numid <= INT_MAX && !id.iface.Hwdep?
            then ParseFields(NamePart(id), DEFAULT_ID.(numid := id.numid, iface := id.iface)) else None
  {
    hide ReadField, PrintNat, IfaceName, ShowNumbers, ParseFields;
    var tail := "," + NamePart(id);
    var middle := "iface=" + (IfaceName(id.iface) + tail);
    var start := "numid=" + (PrintNat(id.numid) + ("," + middle));
    assert ",name='" + (id.name + ("'" + ShowNumbers(id.index, id.device, id.subdevice))) == tail;
    assert Show(id) == start;
    assert SkipBlanks(start) == start;
    ParseOne(start, DEFAULT_ID);
    FieldNumid(id.numid, "," + middle, DEFAULT_ID);
    if 1 <= id.numid <= INT_MAX {
      var id1 := DEFAULT_ID.(numid := id.numid);
      assert ("," + middle)[1..] == middle;
      ParseOne(middle, id1);
      FieldIface(id.iface, tail, id1);
      assert tail[1..] == NamePart(id);
    }
  }

  // Names that contain the quote.

  /** How many m's a text holds, in either case; every `name=` uses one up. */
  function Ms(s: string): nat {
    if s == [] then 0 else (if Lower(s[0]) == 'm' then 1 else 0) + Ms(s[1..])
  }

  lemma {:induction false} MsAppend(a: string, b: string)
    ensures Ms(a + b) == Ms(a) + Ms(b)
  {
    if a == [] {
      assert a + b == b;
    } else {
      assert (a + b)[1..] == a[1..] + b;
      MsAppend(a[1..], b);
    }
  }

  lemma {:induction false} MsSlice(s: string, i: nat, j: nat)
    requires i <= j <= |s|
    ensures Ms(s[i..j]) <= Ms(s)
  {
    MsAppend(s[..i], s[i..]);
    MsAppend(s[i..j], s[j..]);
    assert s == s[..i] + s[i..] && s[i..] == s[i..j] + s[j..];
  }

  /** One field: the rest is a suffix, and a name it sets is a later stretch with one m fewer. */
  lemma {:induction false} FieldNames(s: string, id: ControlId)
    requires ReadField(s, id).Read?
    ensures var f := ReadField(s, id);
            && Ms(f.rest) <= Ms(s)
            && (f.id.name == id.name || (|f.id.name| <= NAME_SIZE && Ms(f.id.name) < Ms(s)))
  {
    hide Atoi, Ms, ReadName, ReadIface;
    BeginsLength(s);
    var f := ReadField(s, id);
    if Begins(s, "numid=") {
      SkipDigitsMs(s[6..]);
      SuffixMs(s, 6);
    } else if Begins(s, "iface=") {
      SuffixMs(s, 6);
      IfaceMs(s[6..], id);
    } else if Begins(s, "name=") {
      NameMs(s[5..], id);
      NameUsesM(s);
    } else if Begins(s, "index=") {
      SkipDigitsMs(s[6..]);
      SuffixMs(s, 6);
    } else if Begins(s, "device=") {
      SkipDigitsMs(s[7..]);
      SuffixMs(s, 7);
    } else if Begins(s, "subdevice=") {
      SkipDigitsMs(s[10..]);
      SuffixMs(s, 10);
    }
  }

  lemma {:induction false} SuffixMs(s: string, i: nat)
    requires i <= |s|
    ensures Ms(s[i..]) <= Ms(s)
  {
    MsSlice(s, i, |s|);
    assert s[i..|s|] == s[i..];
  }

  lemma {:induction false} SkipDigitsMs(s: string)
    ensures Ms(SkipDigits(s)) <= Ms(s)
  {
    if StartsWithDigit(s) {
      SkipDigitsMs(s[1..]);
    }
  }

  lemma IfaceMs(s: string, id: ControlId)
    requires ReadIface(s, id).Read?
    ensures Ms(ReadIface(s, id).rest) <= Ms(s) && ReadIface(s, id).id.name == id.name
  {
    hide Ms, Lower;
    SuffixMs(s, if Begins(s, "card") then 4 else if Begins(s, "mixer") then 5 else if Begins(s, "pcm") then 3
                else if Begins(s, "rawmidi") then 7 else if Begins(s, "timer") then 5 else 9);
  }

  lemma {:induction false} NameMs(s: string, id: ControlId)
    ensures var f := ReadName(s, id);
            f.Read? && Ms(f.rest) <= Ms(s) && |f.id.name| <= NAME_SIZE && Ms(f.id.name) <= Ms(s)
  {
    hide Ms, Before;
    if s != [] && (s[0] == '\'' || s[0] == '"') {
      var t := s[1..];
      var n := Before(t, s[0]);
      SuffixMs(s, 1);
      SuffixMs(t, n);
      if t[n..] != [] {
        SuffixMs(t[n..], 1);
      }
      FirstMs(t, n);
    } else {
      var n := Before(s, ',');
      SuffixMs(s, n);
      FirstMs(s, n);
    }
  }

  lemma {:induction false} FirstMs(t: string, n: nat)
    requires n <= |t|
    ensures Ms(First(NAME_SIZE, t[..n])) <= Ms(t)
  {
    var k := |First(NAME_SIZE, t[..n])|;
    MsSlice(t, 0, k);
    assert First(NAME_SIZE, t[..n]) == t[0..k];
  }

  lemma {:induction false} NameUsesM(s: string)
    requires Begins(s, "name=")
    ensures Ms(s[5..]) + 1 <= Ms(s)
  {
    assert Lower(s[2]) == Lower("name="[2]) == 'm';
    SuffixMs(s, 2);
    assert s[2..][1..] == s[3..];
    assert Ms(s[2..]) == 1 + Ms(s[3..]);
    SuffixMs(s[3..], 2);
    assert s[3..][2..] == s[5..];
  }

  lemma {:induction false} ParsedName(s: string, id: ControlId)
    requires ParseFields(s, id).Some?
    ensures var name := ParseFields(s, id).value.name;
            name == id.name || (|name| <= NAME_SIZE && Ms(name) < Ms(s))
    decreases |s|
  {
    hide ReadField, Ms;
    if s != [] {
      ParseOne(s, id);
      FieldNames(s, id);
      ReadFieldShrinks(s, id);
      var f := ReadField(s, id);
      if f.rest != [] {
        ParsedName(f.rest[1..], f.id);
        SuffixMs(f.rest, 1);
      }
    }
  }

  lemma {:induction false} NumbersHaveNoM(index: nat, device: nat, subdevice: nat)
    ensures Ms(ShowNumbers(index, device, subdevice)) == 0
  {
    hide ShowNumber, Ms;
    NumberHasNoM(Index, index);
    NumberHasNoM(Device, device);
    NumberHasNoM(Subdevice, subdevice);
    var i, d, s := ShowNumber("index=", index), ShowNumber("device=", device), ShowNumber("subdevice=", subdevice);
    MsAppend(d, s);
    MsAppend(i, d + s);
  }

  lemma {:induction false} NumberHasNoM(k: Key, n: nat)
    ensures Ms(ShowNumber(KeyWord(k), n)) == 0
  {
    hide PrintNat, Lower;
    var w := KeyWord(k);
    NoMs("," + w);
    var p := PrintInt(ToInt32(n));
    NoMs(p);
    MsAppend("," + w, p);
    NoMs("");
  }

  lemma {:induction false} NoMs(s: string)
    requires forall i :: 0 <= i < |s| ==> s[i] != 'm' && s[i] != 'M'
    ensures Ms(s) == 0
  {
    if s != [] {
      assert Lower(s[0]) != 'm';
      NoMs(s[1..]);
    }
  }

  /** A name with a quote in it never comes back: what is read of it first is too short, what is read later too. */
  lemma {:induction false} QuotedNameLost(id: ControlId, id0: ControlId, r: ControlId)
    requires '\'' in id.name && ParseFields(NamePart(id), id0) == Some(r)
    ensures r.name != id.name
  {
    hide ReadField, Ms, ShowNumbers, ParseFields, First, Before, Behind;
    var k := Before(id.name, '\'');
    BeforeIn(id.name, '\'');
    var front, later := id.name[..k], id.name[k + 1..];
    var x := later + ("'" + ShowNumbers(id.index, id.device, id.subdevice));
    assert id.name == front + ("'" + later);
    SameNamePart(id, front, later);
    ParseOne(NamePart(id), id0);
    FieldName(front, x, id0);
    LaterMs(id.name, front, later, id.index, id.device, id.subdevice);
    FirstShorter(NAME_SIZE, front, id.name);
    BehindName(x, id0.(name := First(NAME_SIZE, front)), id.name);
  }

  lemma SameNamePart(id: ControlId, front: string, later: string)
    requires id.name == front + ("'" + later)
    ensures NamePart(id)
            == "name='" + (front + ("'" + (later + ("'" + ShowNumbers(id.index, id.device, id.subdevice)))))
    ensures NamePart(id) != []
  {
    hide ShowNumbers;
  }

  lemma {:induction false} BehindName(x: string, id: ControlId, name: string)
    requires id.name != name && Ms(x) <= Ms(name) && Behind(x, id).Some?
    ensures Behind(x, id).value.name != name
  {
    hide ParseFields, Ms;
    if x != [] {
      ParsedName(x[1..], id);
      SuffixMs(x, 1);
    }
  }

  lemma {:induction false} LaterMs(name: string, front: string, later: string, index: nat, device: nat, subdevice: nat)
    requires name == front + ("'" + later)
    ensures Ms(later + ("'" + ShowNumbers(index, device, subdevice))) <= Ms(name)
  {
    hide Ms, ShowNumbers;
    NumbersHaveNoM(index, device, subdevice);
    NoMs("'");
    MsAppend("'", ShowNumbers(index, device, subdevice));
    MsAppend(later, "'" + ShowNumbers(index, device, subdevice));
    MsAppend(front, "'" + later);
    MsAppend("'", later);
  }

  lemma {:induction false} BeforeIn(s: string, c: char)
    requires c in s
    ensures Before(s, c) < |s|
  {
    if s[0] != c {
      BeforeIn(s[1..], c);
    }
  }

  /** The identifiers the parser reads back from their print. */
  predicate Reprintable(id: ControlId) {
    && 1 <= id.numid <= INT_MAX && !id.iface.Hwdep?
    && '\'' !in id.name && |id.name| <= NAME_SIZE
    && id.index <= INT_MAX && id.device <= INT_MAX && id.subdevice <= INT_MAX
  }

  /** Parsing what was printed gives the identifier back for these and no others. */
  lemma {:induction false} RoundTripIff(id: ControlId)
    requires id.Valid()
    ensures Parse(Show(id)) == Some(id) <==> Reprintable(id)
  {
    hide Show, Parse, ParseFields, NamePart, First;
    ParseShow(id);
    FirstIs(NAME_SIZE, id.name);
    if 1 <= id.numid <= INT_MAX && !id.iface.Hwdep? {
      var id0 := DEFAULT_ID.(numid := id.numid, iface := id.iface);
      if '\'' in id.name {
        if ParseFields(NamePart(id), id0) == Some(id) {
          QuotedNameLost(id, id0, id);
        }
      } else {
        NamePartReads(id, id0);
      }
    }
  }

  lemma {:induction false} NamePartReads(id: ControlId, id0: ControlId)
    requires id.Valid() && '\'' !in id.name && id0.index == id0.device == id0.subdevice == 0
    ensures ParseFields(NamePart(id), id0) ==
            if id.index <= INT_MAX && id.device <= INT_MAX && id.subdevice <= INT_MAX
            then Some(id0.(name := First(NAME_SIZE, id.name), index := id.index, device := id.device,
                           subdevice := id.subdevice))
            else None
  {
    hide ReadField, ShowNumbers, ParseFields, First, Behind;
    var x := ShowNumbers(id.index, id.device, id.subdevice);
    ParseOne(NamePart(id), id0);
    FieldName(id.name, x, id0);
    BehindNumbers(id.index, id.device, id.subdevice, id0.(name := First(NAME_SIZE, id.name)));
  }

  // Simple identifiers.

  predicate SimpleReprintable(id: SimpleId) {
    '\'' !in id.name && |id.name| < SIMPLE_SIZE && id.index <= INT_MAX
  }

  lemma {:induction false} SimpleRoundTripIff(id: SimpleId)
    requires id.index <= UINT_MAX
    ensures ParseSimple(ShowSimple(id)) == Some(id) <==> SimpleReprintable(id)
  {
    hide Before, Strtol, First, PrintNat, ParseSimple;
    var number := PrintInt(ToInt32(id.index));
    if '\'' in id.name {
      var k := Before(id.name, '\'');
      BeforeIn(id.name, '\'');
      var front, later := id.name[..k], id.name[k + 1..];
      var x := later + ("'," + number);
      assert id.name == front + ("'" + later);
      assert ShowSimple(id) == "'" + (front + ("'" + x));
      ParseSimpleAt(front, x);
      FirstShorter(SIMPLE_SIZE - 1, front, id.name);
    } else {
      var x := "," + number;
      assert ShowSimple(id) == "'" + (id.name + ("'" + x));
      ParseSimpleAt(id.name, x);
      assert x[1..] == number && number + "" == number;
      StrtolPrinted(ToInt32(id.index), "");
      FirstIs(SIMPLE_SIZE - 1, id.name);
    }
  }

  lemma ParseSimpleAt(n: string, x: string)
    requires '\'' !in n && x != []
    ensures ParseSimple("'" + (n + ("'" + x))) ==
            if x[0] != ',' || !StartsWithDigit(x[1..]) then None
            else Some(SimpleId(First(SIMPLE_SIZE - 1, n), ToUint32(Atoi(x[1..]))))
  {
    hide First, Atoi;
    var s := "'" + (n + ("'" + x));
    assert SkipBlanks(s) == s;
    BeforePrefix(n, '\'', x);
    assert s[1..] == n + ['\''] + x;
    assert s[1..][..|n|] == n && s[1..][|n|..] == ['\''] + x;
    assert (['\''] + x)[1..] == x;
  }

  lemma FirstShorter(size: nat, front: string, name: string)
    requires |front| < |name|
    ensures First(size, front) != name
  {}

  lemma FirstIs(size: nat, name: string)
    ensures First(size, name) == name <==> |name| <= size
  {}
}
