/** The identifiers as one types them: names bare or quoted, keys in any letters, fields in any order. */
module ControlIdForms {
  import opened CText
  import opened Options
  import opened Tokens
  import opened ControlIds
  import opened ControlIdTheory

  // Simple identifiers.

  predicate IsBareName(n: string) {
    n != "" && ',' !in n && n[0] != ' ' && n[0] != '\t' && n[0] != '"' && n[0] != '\''
  }

  predicate IsQuote(q: char) {
    q == '"' || q == '\''
  }

  /** What the buffer of 128 characters keeps. */
  function Kept(n: string): string {
    if |n| <= 127 then n else n[..127]
  }

  lemma {:induction false} BlanksSkipped(blanks: string, s: string)
    requires forall i :: 0 <= i < |blanks| ==> blanks[i] == ' ' || blanks[i] == '\t'
    ensures SkipBlanks(blanks + s) == SkipBlanks(s)
  {
    if blanks == "" {
      assert blanks + s == s;
    } else {
      assert (blanks + s)[1..] == blanks[1..] + s;
      BlanksSkipped(blanks[1..], s);
    }
  }

  lemma {:induction false} NothingBefore(s: string, c: char)
    requires c !in s
    ensures Before(s, c) == |s|
  {
    if s != "" {
      NothingBefore(s[1..], c);
    }
  }

  lemma {:induction false} BeforeComma(n: string, x: string)
    requires ',' !in n && (x == "" || x[0] == ',')
    ensures Before(n + x, ',') == |n|
  {
    if x == "" {
      assert n + x == n;
      NothingBefore(n, ',');
    } else {
      BeforePrefix(n, ',', x[1..]);
      assert n + [','] + x[1..] == n + x;
    }
  }

  lemma KeptIsFirst(n: string)
    ensures First(SIMPLE_SIZE - 1, n) == Kept(n)
  {}

  /** What stands behind the name decides the index; a name without any has index 0. */
  function WithIndex(name: string, x: string): Option<SimpleId> {
    if x == "" then Some(SimpleId(name, 0))
    else if x[0] == ',' && |x| >= 2 && '0' <= x[1] <= '9' then Some(SimpleId(name, ToUint32(Atoi(x[1..]))))
    else None
  }

  /** A name that needs no quotes, up to the end or a comma. */
  lemma {:induction false} BareName(n: string, x: string)
    requires IsBareName(n) && (x == "" || x[0] == ',')
    ensures ParseSimple(n + x) == WithIndex(Kept(n), x)
  {
    hide Atoi, First;
    var s := n + x;
    assert s[0] == n[0];
    BeforeComma(n, x);
    assert s[..|n|] == n && s[|n|..] == x;
    KeptIsFirst(n);
  }

  /** A name in quotes of either kind; behind the closing one only the end or an index is taken. */
  lemma {:induction false} QuotedName(q: char, n: string, x: string)
    requires IsQuote(q) && q !in n
    ensures ParseSimple([q] + n + [q] + x) == WithIndex(Kept(n), x)
  {
    hide Atoi, First, Before;
    var s := [q] + n + [q] + x;
    assert SkipBlanks(s) == s;
    assert s[1..] == n + [q] + x;
    BeforePrefix(n, q, x);
    assert s[1..][..|n|] == n && s[1..][|n|..] == [q] + x;
    assert ([q] + x)[1..] == x;
    assert SimpleName(s) == (First(SIMPLE_SIZE - 1, n), x);
    KeptIsFirst(n);
  }

  /** Without the closing quote all is name. */
  lemma {:induction false} OpenName(q: char, n: string)
    requires IsQuote(q) && q !in n
    ensures ParseSimple([q] + n) == Some(SimpleId(Kept(n), 0))
  {
    hide First;
    var s := [q] + n;
    assert s[1..] == n;
    NothingBefore(n, q);
    assert n[..|n|] == n && n[|n|..] == "";
    KeptIsFirst(n);
  }

  /** A printed index is read back, and what follows it is not looked at. */
  lemma {:induction false} IndexReads(name: string, i: nat, x: string)
    requires i <= INT_MAX && (x == "" || !('0' <= x[0] <= '9'))
    ensures WithIndex(name, "," + (PrintNat(i) + x)) == Some(SimpleId(name, i))
  {
    hide PrintNat, Strtol;
    var s := "," + (PrintNat(i) + x);
    assert s[1..] == PrintNat(i) + x && s[1] == PrintNat(i)[0];
    StrtolPrintedNat(i, x);
  }

  lemma NoIndex(name: string, x: string)
    requires x == "" || !('0' <= x[0] <= '9')
    ensures WithIndex(name, "," + x).None?
    ensures WithIndex(name, "") == Some(SimpleId(name, 0))
    ensures x != "" && x[0] != ',' ==> WithIndex(name, x).None?
  {}

  /**
   What one types: a name alone has index 0, a name with a comma and a number has that index, and a
   comma without a number is refused. The name may stand in quotes of either kind.
   */
  lemma {:induction false} SimpleForms(n: string, i: nat, x: string)
    requires i <= INT_MAX && (x == "" || !('0' <= x[0] <= '9'))
    ensures IsBareName(n) ==>
              && ParseSimple(n) == Some(SimpleId(Kept(n), 0))
              && ParseSimple(n + ("," + (PrintNat(i) + x))) == Some(SimpleId(Kept(n), i))
              && ParseSimple(n + ("," + x)) == None
    ensures forall q :: IsQuote(q) && q !in n ==>
              && ParseSimple([q] + n + [q]) == Some(SimpleId(Kept(n), 0))
              && ParseSimple([q] + n + [q] + ("," + (PrintNat(i) + x))) == Some(SimpleId(Kept(n), i))
              && ParseSimple([q] + n + [q] + ("," + x)) == None
  {
    hide ParseSimple, Kept, WithIndex, PrintNat, IsBareName;
    IndexReads(Kept(n), i, x);
    NoIndex(Kept(n), x);
    if IsBareName(n) {
      BareName(n, "");
      BareName(n, "," + (PrintNat(i) + x));
      BareName(n, "," + x);
      assert n + "" == n;
    }
    forall q | IsQuote(q) && q !in n
      ensures ParseSimple([q] + n + [q]) == Some(SimpleId(Kept(n), 0))
      ensures ParseSimple([q] + n + [q] + ("," + (PrintNat(i) + x))) == Some(SimpleId(Kept(n), i))
      ensures ParseSimple([q] + n + [q] + ("," + x)) == None
    {
      QuotedName(q, n, "");
      QuotedName(q, n, "," + (PrintNat(i) + x));
      QuotedName(q, n, "," + x);
      assert [q] + n + [q] + "" == [q] + n + [q];
    }
  }

  /** Blanks in front do not count; nothing but blanks is no identifier. */
  lemma {:induction false} SimpleBlanks(blanks: string, s: string)
    requires forall i :: 0 <= i < |blanks| ==> blanks[i] == ' ' || blanks[i] == '\t'
    ensures ParseSimple(blanks + s) == ParseSimple(s) && Parse(blanks + s) == Parse(s)
    ensures ParseSimple(blanks) == None && Parse(blanks) == None
  {
    hide SimpleName, ParseFields;
    BlanksSkipped(blanks, s);
    BlanksSkipped(blanks, "");
    assert blanks + "" == blanks;
  }

  // Control identifiers.

  /** A word in lower case, written in any letters. */
  predicate Spells(s: string, w: string) {
    |s| == |w| && forall i :: 0 <= i < |w| ==> s[i] == w[i] || ('a' <= w[i] <= 'z' && s[i] == w[i] - ('a' - 'A'))
  }

  predicate IsLowerWord(w: string) {
    forall i :: 0 <= i < |w| ==> !('A' <= w[i] <= 'Z')
  }

  lemma SpelledBegins(s: string, w: string, x: string)
    requires Spells(s, w) && IsLowerWord(w)
    ensures Begins(s + x, w) && (s + x)[|w|..] == x
    ensures forall i :: 0 <= i < |w| ==> Lower((s + x)[i]) == w[i]
  {
    forall i | 0 <= i < |w|
      ensures Lower((s + x)[i]) == w[i] == Lower(w[i])
    {
      assert (s + x)[i] == s[i];
    }
  }

  /** One field: its key, then its value. */
  datatype Entry =
    | Numid(key: string, n: nat)
    | IfaceOf(key: string, word: string, f: Iface)
    | NameBare(key: string, name: string)
    | NameQuoted(key: string, q: char, name: string)
    | Number(key: string, which: Key, n: nat)

  function IfaceLower(f: Iface): string {
    match f
    case Card => "card"
    case Hwdep => "hwdep"
    case Mixer => "mixer"
    case Pcm => "pcm"
    case Rawmidi => "rawmidi"
    case Timer => "timer"
    case Sequencer => "sequencer"
  }

  predicate IsEntry(e: Entry) {
    match e
    case Numid(key, n) => Spells(key, "numid=") && 1 <= n <= INT_MAX
    case IfaceOf(key, word, f) => Spells(key, "iface=") && Spells(word, IfaceLower(f)) && !f.Hwdep?
    case NameBare(key, name) => Spells(key, "name=") && ',' !in name && (name != "" ==> !IsQuote(name[0]))
    case NameQuoted(key, q, name) => Spells(key, "name=") && IsQuote(q) && q !in name
    case Number(key, which, n) =>
      && n <= INT_MAX
      && (match which
          case Index => Spells(key, "index=")
          case Device => Spells(key, "device=")
          case Subdevice => Spells(key, "subdevice="))
  }

  function EntryText(e: Entry): string {
    match e
    case Numid(key, n) => key + PrintNat(n)
    case IfaceOf(key, word, _) => key + word
    case NameBare(key, name) => key + name
    case NameQuoted(key, q, name) => key + ([q] + (name + [q]))
    case Number(key, _, n) => key + PrintNat(n)
  }

  /** The parser's buffer takes 64 characters of a name. */
  function Taken(name: string): string {
    if |name| <= 64 then name else name[..64]
  }

  function EntryPut(e: Entry, id: ControlId): ControlId {
    match e
    case Numid(_, n) => id.(numid := n)
    case IfaceOf(_, _, f) => id.(iface := f)
    case NameBare(_, name) => id.(name := Taken(name))
    case NameQuoted(_, _, name) => id.(name := Taken(name))
    case Number(_, Index, n) => id.(index := n)
    case Number(_, Device, n) => id.(device := n)
    case Number(_, Subdevice, n) => id.(subdevice := n)
  }

  lemma NumidReads(key: string, n: nat, x: string, id: ControlId)
    requires Spells(key, "numid=") && 1 <= n <= INT_MAX && !StartsWithDigit(x)
    ensures ReadField(key + (PrintNat(n) + x), id) == Read(id.(numid := n), x)
  {
    hide Begins, Strtol, SkipDigits, PrintNat;
    SpelledBegins(key, "numid=", PrintNat(n) + x);
    StrtolPrintedNat(n, x);
    SkipDigitsPrefix(PrintNat(n), x);
  }

  lemma IfaceStarts(word: string, f: Iface, x: string, id: ControlId)
    requires Spells(word, IfaceLower(f)) && !f.Hwdep?
    ensures ReadIface(word + x, id) == Read(id.(iface := f), x)
  {
    hide Begins;
    var s := word + x;
    SpelledBegins(word, IfaceLower(f), x);
    assert Lower(s[0]) == IfaceLower(f)[0];
    IfaceFirst(s);
  }

  lemma IfaceReads2(key: string, word: string, f: Iface, x: string, id: ControlId)
    requires Spells(key, "iface=") && Spells(word, IfaceLower(f)) && !f.Hwdep?
    ensures ReadField(key + (word + x), id) == Read(id.(iface := f), x)
  {
    hide Begins, Atoi, SkipDigits, ReadName, ReadIface, IfaceLower;
    var s := key + (word + x);
    SpelledBegins(key, "iface=", word + x);
    assert Lower(s[0]) == 'i';
    BeginsNot(s, "numid=", 0);
    IfaceStarts(word, f, x, id);
  }

  lemma NameKey(key: string, v: string, id: ControlId)
    requires Spells(key, "name=")
    ensures ReadField(key + v, id) == ReadName(v, id)
  {
    hide Begins, Atoi, SkipDigits, ReadName, ReadIface;
    var s := key + v;
    SpelledBegins(key, "name=", v);
    assert Lower(s[0]) == 'n' && Lower(s[1]) == 'a';
    BeginsNot(s, "numid=", 1);
    BeginsNot(s, "iface=", 0);
  }

  lemma TakenIsFirst(name: string)
    ensures First(NAME_SIZE, name) == Taken(name)
  {}

  lemma {:induction false} BareNameReads(name: string, x: string, id: ControlId)
    requires ',' !in name && (name != "" ==> !IsQuote(name[0])) && (x == "" || x[0] == ',')
    ensures ReadName(name + x, id) == Read(id.(name := Taken(name)), x)
  {
    hide First;
    var s := name + x;
    BeforeComma(name, x);
    assert s[..|name|] == name && s[|name|..] == x;
    assert name != "" ==> s[0] == name[0];
    TakenIsFirst(name);
  }

  lemma {:induction false} QuotedNameReads(q: char, name: string, x: string, id: ControlId)
    requires IsQuote(q) && q !in name
    ensures ReadName([q] + (name + [q]) + x, id) == Read(id.(name := Taken(name)), x)
  {
    hide First;
    var s := [q] + (name + [q]) + x;
    assert s[1..] == name + [q] + x;
    BeforePrefix(name, q, x);
    assert s[1..][..|name|] == name && s[1..][|name|..] == [q] + x;
    assert ([q] + x)[1..] == x;
    TakenIsFirst(name);
  }

  lemma NumberKey(key: string, which: Key, v: string, id: ControlId)
    requires match which
             case Index => Spells(key, "index=")
             case Device => Spells(key, "device=")
             case Subdevice => Spells(key, "subdevice=")
    ensures ReadField(key + v, id) == Read(Put(id, which, ToUint32(Atoi(v))), SkipDigits(v))
  {
    hide Begins, Atoi, SkipDigits, ReadName, ReadIface;
    var s, w := key + v, KeyWord(which);
    SpelledBegins(key, w, v);
    assert Lower(s[0]) == w[0] && Lower(s[1]) == w[1];
    BeginsNot(s, "numid=", 0);
    BeginsNot(s, "name=", 0);
    BeginsNot(s, "iface=", 1);
    match which
    case Index =>
    case Device =>
      BeginsNot(s, "index=", 0);
    case Subdevice =>
      BeginsNot(s, "index=", 0);
      BeginsNot(s, "device=", 0);
  }

  lemma NumberReads(key: string, which: Key, n: nat, x: string, id: ControlId)
    requires match which
             case Index => Spells(key, "index=")
             case Device => Spells(key, "device=")
             case Subdevice => Spells(key, "subdevice=")
    requires n <= INT_MAX && !StartsWithDigit(x)
    ensures ReadField(key + (PrintNat(n) + x), id) == Read(Put(id, which, n), x)
  {
    hide ReadField, Strtol, PrintNat, Spells, SkipDigits;
    NumberKey(key, which, PrintNat(n) + x, id);
    StrtolPrintedNat(n, x);
    SkipDigitsPrefix(PrintNat(n), x);
  }

  /** A written field is read as what it says, up to the comma or the end. */
  lemma {:induction false} EntryReads(e: Entry, x: string, id: ControlId)
    requires IsEntry(e) && (x == "" || x[0] == ',')
    ensures ReadField(EntryText(e) + x, id) == Read(EntryPut(e, id), x)
  {
    hide ReadField, ReadName, Spells, PrintNat, Taken, IfaceLower;
    match e
    case Numid(key, n) =>
      NumidReads(key, n, x, id);
      assert key + PrintNat(n) + x == key + (PrintNat(n) + x);
    case IfaceOf(key, word, f) =>
      IfaceReads2(key, word, f, x, id);
      assert key + word + x == key + (word + x);
    case NameBare(key, name) =>
      NameKey(key, name + x, id);
      BareNameReads(name, x, id);
      assert key + name + x == key + (name + x);
    case NameQuoted(key, q, name) =>
      NameKey(key, [q] + (name + [q]) + x, id);
      QuotedNameReads(q, name, x, id);
      assert key + ([q] + (name + [q])) + x == key + ([q] + (name + [q]) + x);
    case Number(key, which, n) =>
      NumberReads(key, which, n, x, id);
      assert key + PrintNat(n) + x == key + (PrintNat(n) + x);
  }

  function EntriesText(es: seq<Entry>): string {
    if es == [] then "" else if |es| == 1 then EntryText(es[0]) else EntryText(es[0]) + ("," + EntriesText(es[1..]))
  }

  function EntriesPut(es: seq<Entry>, id: ControlId): ControlId {
    if es == [] then id else EntriesPut(es[1..], EntryPut(es[0], id))
  }

  lemma EntryStarts(e: Entry, x: string)
    requires IsEntry(e)
    ensures EntryText(e) + x != "" && EntryText(e)[0] != ' ' && EntryText(e)[0] != '\t'
  {
    hide PrintNat;
  }

  lemma {:induction false} EntriesRead(es: seq<Entry>, id: ControlId)
    requires forall i :: 0 <= i < |es| ==> IsEntry(es[i])
    ensures ParseFields(EntriesText(es), id) == Some(EntriesPut(es, id))
    decreases |es|
  {
    hide ReadField, EntryText, EntryPut, IsEntry, ParseFields;
    if es == [] {
      NoFields(id);
    } else {
      var x := if |es| == 1 then "" else "," + EntriesText(es[1..]);
      EntryReads(es[0], x, id);
      EntryStarts(es[0], x);
      assert EntryText(es[0]) + "" == EntryText(es[0]);
      ParseOne(EntryText(es[0]) + x, id);
      EntriesRead(es[1..], EntryPut(es[0], id));
      if |es| > 1 {
        assert x[1..] == EntriesText(es[1..]);
      } else {
        assert es[1..] == [];
      }
    }
  }

  lemma NoFields(id: ControlId)
    ensures ParseFields("", id) == Some(id)
  {}

  /**
   Fields in any order, with keys and interfaces in any letters and names bare or in either
   quotes: later ones overwrite earlier ones, and what no field names is 0, empty, and MIXER.
   */
  lemma {:induction false} EntriesParse(es: seq<Entry>)
    requires es != [] && forall i :: 0 <= i < |es| ==> IsEntry(es[i])
    ensures Parse(EntriesText(es)) == Some(EntriesPut(es, ControlId(0, Mixer, "", 0, 0, 0)))
  {
    hide ParseFields, EntryText, EntryPut, IsEntry;
    EntriesRead(es, DEFAULT_ID);
    EntryStarts(es[0], "");
    assert EntriesText(es)[0] == EntryText(es[0])[0];
  }

  /** A comma behind the last field is passed; a text that starts no field is refused unless it is a comma. */
  lemma {:induction false} FieldEnds(e: Entry, s: string, id: ControlId)
    requires IsEntry(e) && s != "" && Lower(s[0]) !in {'n', 'i', 'd', 's'}
    ensures ParseFields(EntryText(e) + ",", id) == Some(EntryPut(e, id))
    ensures ParseFields(s, id) == if s[0] == ',' then ParseFields(s[1..], id) else None
  {
    hide ReadField, EntryText, EntryPut, IsEntry, ParseFields;
    EntryReads(e, ",", id);
    EntryStarts(e, ",");
    ParseOne(EntryText(e) + ",", id);
    NoFields(EntryPut(e, id));
    assert ","[1..] == "";
    NoKey(s, id);
    ParseOne(s, id);
  }

  lemma NoKey(s: string, id: ControlId)
    requires s != "" && Lower(s[0]) !in {'n', 'i', 'd', 's'}
    ensures ReadField(s, id) == Read(id, s)
  {
    hide Begins, ReadIface, ReadName, Atoi, SkipDigits;
    BeginsNot(s, "numid=", 0);
    BeginsNot(s, "iface=", 0);
    BeginsNot(s, "name=", 0);
    BeginsNot(s, "index=", 0);
    BeginsNot(s, "device=", 0);
    BeginsNot(s, "subdevice=", 0);
  }

  /** An interface that is none of the six is refused. */
  lemma {:induction false} NoIface(key: string, v: string, id: ControlId)
    requires Spells(key, "iface=") && (v == "" || Lower(v[0]) !in {'c', 'm', 'p', 'r', 't', 's'})
    ensures ParseFields(key + v, id).None?
  {
    hide Begins, ReadName, Atoi, SkipDigits;
    var s := key + v;
    SpelledBegins(key, "iface=", v);
    assert Lower(s[0]) == 'i';
    BeginsNot(s, "numid=", 0);
    if v != "" {
      IfaceFirst(v);
    } else {
      EmptyBegins();
    }
  }

  lemma EmptyBegins()
    ensures forall w :: w != "" ==> !Begins("", w)
  {}

  // What is printed.

  function IfaceUpper(f: Iface): string {
    match f
    case Card => "CARD"
    case Hwdep => "HWDEP"
    case Mixer => "MIXER"
    case Pcm => "PCM"
    case Rawmidi => "RAWMIDI"
    case Timer => "TIMER"
    case Sequencer => "SEQUENCER"
  }

  /** A number that is shown only when it is not zero. */
  function Shown(key: string, n: nat): string {
    if n == 0 then "" else key + PrintNat(n)
  }

  lemma Regroup(a: string, b: string, c: string, d: string, e: string, f: string, g: string,
                x: string, y: string, z: string)
    ensures a + b + (c + d + (e + (f + (g + (x + (y + z)))))) == a + b + c + d + e + f + g + x + y + z
  {}

  lemma ShownIs(key: string, n: nat)
    requires n <= INT_MAX
    ensures ShowNumber(key, n) == Shown("," + key, n)
  {
    hide PrintNat;
    if n != 0 {
      assert PrintInt(n) == PrintNat(n);
    }
  }

  lemma Keys()
    ensures "," + "index=" == ",index=" && "," + "device=" == ",device=" && "," + "subdevice=" == ",subdevice="
  {}

  /** The print of a control identifier, from left to right. */
  lemma {:induction false} ShowIs(id: ControlId)
    requires id.index <= INT_MAX && id.device <= INT_MAX && id.subdevice <= INT_MAX
    ensures Show(id) ==
            "numid=" + PrintNat(id.numid) + ",iface=" + IfaceUpper(id.iface) + ",name='" + id.name + "'"
            + Shown(",index=", id.index) + Shown(",device=", id.device) + Shown(",subdevice=", id.subdevice)
  {
    hide PrintNat, IfaceName, IfaceUpper, Shown, ShowNumber;
    ShownIs("index=", id.index);
    ShownIs("device=", id.device);
    ShownIs("subdevice=", id.subdevice);
    Keys();
    SameNames(id.iface);
    Regroup("numid=", PrintNat(id.numid), ",iface=", IfaceUpper(id.iface), ",name='", id.name, "'",
            Shown(",index=", id.index), Shown(",device=", id.device), Shown(",subdevice=", id.subdevice));
  }

  lemma SameNames(f: Iface)
    ensures IfaceName(f) == IfaceUpper(f)
  {}

  /** The print of a simple identifier. */
  lemma {:induction false} ShowSimpleIs(id: SimpleId)
    requires id.index <= INT_MAX
    ensures ShowSimple(id) == "'" + id.name + "'," + PrintNat(id.index)
  {
    hide PrintNat;
    assert PrintInt(id.index) == PrintNat(id.index);
  }
}
