/** Enumerated elements: an item is chosen by its name. */
module MixerEnum {
  import opened CText
  import opened Options
  import opened Tokens

  predicate EndsName(s: string) {
    s == [] || s[0] == ',' || s[0] == '\n'
  }

  predicate NameMatches(item: string, s: string) {
    item <= s && EndsName(s[|item|..])
  }

  /** The first item from i on whose name the text starts with. */
  function FindItem(items: seq<string>, s: string, i: nat): (r: Option<nat>)
    requires i <= |items|
    ensures r.Some? ==> i <= r.value < |items| && NameMatches(items[r.value], s)
    decreases |items| - i
  {
    if i == |items| then None
    else if NameMatches(items[i], s) then Some(i)
    else FindItem(items, s, i + 1)
  }

  function SkipSeparators(s: string): (r: string)
    ensures |r| <= |s|
    ensures s != [] && (s[0] == ',' || IsSpace(s[0])) ==> |r| < |s|
  {
    if s != [] && (s[0] == ',' || IsSpace(s[0])) then SkipSeparators(s[1..]) else s
  }

  /** The item chosen so far and whether every name was one of the items. */
  datatype Choice = Choice(item: Option<nat>, understood: bool)

  /** One argument: name after name; each sets the first channel, so the last one stays. */
  function Choose(items: seq<string>, s: string, c: Choice): Choice
    decreases |s|
  {
    if s == [] then c
    else
      var found := FindItem(items, s, 0);
      if found.None? then c.(understood := false)
      else Choose(items, Rest(items, s, found.value), Choice(Some(found.value), c.understood))
  }

  /** The text behind an item and its separators; it is always shorter, even behind an empty name. */
  function Rest(items: seq<string>, s: string, i: nat): (r: string)
    requires s != [] && i < |items| && NameMatches(items[i], s)
    ensures |r| < |s|
  {
    SkipSeparators(s[|items[i]|..])
  }

  function ChooseAll(items: seq<string>, texts: seq<string>, c: Choice): Choice
    decreases |texts|
  {
    if texts == [] || !c.understood then c else ChooseAll(items, texts[1..], Choose(items, texts[0], c))
  }

  /** get_enum_item_index */
  method GetEnumItemIndex(items: seq<string>, s: string) returns (index: int, p: string)
    ensures FindItem(items, s, 0).None? ==> index == -1 && p == s
    ensures FindItem(items, s, 0).Some? ==>
              index == FindItem(items, s, 0).value && p == s[|items[index]|..]
  {
    hide NameMatches;
    var i := 0;
    while i < |items|
      invariant i <= |items| && FindItem(items, s, i) == FindItem(items, s, 0)
    {
      if NameMatches(items[i], s) {
        assert items[i] <= s by { MatchIsPrefix(items[i], s); }
        return i, s[|items[i]|..];
      }
      i := i + 1;
    }
    return -1, s;
  }

  lemma MatchIsPrefix(item: string, s: string)
    requires NameMatches(item, s)
    ensures item <= s
  {}

  method DoSkipSeparators(s: string) returns (p: string)
    ensures p == SkipSeparators(s)
  {
    p := s;
    while p != [] && (p[0] == ',' || IsSpace(p[0]))
      invariant SkipSeparators(p) == SkipSeparators(s)
      decreases |p|
    {
      p := p[1..];
    }
  }

  /** An enumerated element; the first channel holds the item. */
  class EnumElement {
    const items: seq<string>
    var item: nat

    constructor (items: seq<string>, item: nat)
      ensures this.items == items && this.item == item
    {
      this.items, this.item := items, item;
    }

    /** sset_enum: -1 or, with errors ignored, 0 when a name is not understood before anything was set. */
    method SsetEnum(texts: seq<string>, ignoreError: bool) returns (code: int)
      modifies this
      ensures var c := ChooseAll(items, texts, Choice(None, true));
              && item == (if c.item.Some? then c.item.value else old(item))
              && code == if c.item.Some? then 1 else if ignoreError then 0 else -1
    {
      hide FindItem, SkipSeparators, Choose;
      code := if ignoreError then 0 else -1;
      ghost var c := Choice(None, true);
      ghost var goal := ChooseAll(items, texts, c);
      var idx := 0;
      assert texts[0..] == texts;
      while idx < |texts|
        invariant idx <= |texts| && c.understood && ChooseAll(items, texts[idx..], c) == goal
        invariant item == (if c.item.Some? then c.item.value else old(item))
        invariant code == if c.item.Some? then 1 else if ignoreError then 0 else -1
      {
        var p := texts[idx];
        assert texts[idx..][1..] == texts[idx + 1..];
        ghost var next := Choose(items, texts[idx], c);
        while p != []
          invariant Choose(items, p, c) == next && c.understood
          invariant item == (if c.item.Some? then c.item.value else old(item))
          invariant code == if c.item.Some? then 1 else if ignoreError then 0 else -1
          decreases |p|
        {
          ChooseNext(items, p, c);
          var ival, q := GetEnumItemIndex(items, p);
          if ival < 0 {
            ChooseStop(items, texts[idx + 1..], next);
            return;
          }
          item, code := ival, 1;
          c := Choice(Some(ival), true);
          p := DoSkipSeparators(q);
        }
        ChooseEnd(items, c);
        idx := idx + 1;
      }
      assert texts[idx..] == [];
    }
  }

  lemma ChooseNext(items: seq<string>, s: string, c: Choice)
    requires s != []
    ensures var found := FindItem(items, s, 0);
            && (found.None? ==> Choose(items, s, c) == c.(understood := false))
            && (found.Some? ==>
                  && items[found.value] <= s
                  && |SkipSeparators(s[|items[found.value]|..])| < |s|
                  && Choose(items, s, c) ==
                     Choose(items, SkipSeparators(s[|items[found.value]|..]), Choice(Some(found.value), c.understood)))
  {
    hide FindItem, SkipSeparators;
  }

  lemma ChooseEnd(items: seq<string>, c: Choice)
    ensures Choose(items, [], c) == c
  {}

  lemma ChooseStop(items: seq<string>, texts: seq<string>, c: Choice)
    requires !c.understood
    ensures ChooseAll(items, texts, c) == c
  {}

  // What naming an item means.

  /** A name that can stand in a list: no separator in it, and none in front. */
  predicate Listable(name: string) {
    name != [] && !IsSpace(name[0]) && forall i :: 0 <= i < |name| ==> name[i] != ',' && name[i] != '\n'
  }

  /** The first item of that name. */
  function IndexOf(items: seq<string>, name: string, i: nat): Option<nat>
    requires i <= |items|
    decreases |items| - i
  {
    if i == |items| then None else if items[i] == name then Some(i) else IndexOf(items, name, i + 1)
  }

  /** Among listable names, only the equal one matches: no item answers for a longer one. */
  lemma MatchIsEqual(item: string, name: string, tail: string)
    requires Listable(item) && Listable(name) && (tail == [] || tail[0] == ',' || tail[0] == '\n')
    ensures NameMatches(item, name + tail) <==> item == name
  {
    var s := name + tail;
    assert tail != [] ==> s[|name|] == tail[0];
    assert name <= s && s[..|name|] == name && s[|name|..] == tail;
    if item <= s && |item| < |name| {
      assert s[|item|..][0] == name[|item|];
    }
  }

  lemma {:induction false} FindNamed(items: seq<string>, name: string, tail: string, i: nat)
    requires i <= |items| && Listable(name) && (tail == [] || tail[0] == ',' || tail[0] == '\n')
    requires forall k :: 0 <= k < |items| ==> Listable(items[k])
    ensures FindItem(items, name + tail, i) == IndexOf(items, name, i)
    decreases |items| - i
  {
    hide NameMatches, Listable;
    if i < |items| {
      MatchIsEqual(items[i], name, tail);
      FindNamed(items, name, tail, i + 1);
    }
  }

  /** One name of a list: the item is chosen, and what follows its separators is read next. */
  lemma {:induction false} NameStep(items: seq<string>, name: string, tail: string, c: Choice)
    requires forall k :: 0 <= k < |items| ==> Listable(items[k])
    requires name in items && c.understood && (tail == [] || tail[0] == ',' || tail[0] == '\n')
    ensures IndexOf(items, name, 0).Some?
    ensures Choose(items, name + tail, c) ==
            Choose(items, SkipSeparators(tail), Choice(IndexOf(items, name, 0), true))
  {
    hide FindItem, SkipSeparators, Listable, Choose, IndexOf;
    ListableItem(items, name);
    FindNamed(items, name, tail, 0);
    assert items[0..] == items;
    NamedIsFound(items, name, 0);
    ChooseNext(items, name + tail, c);
    assert (name + tail)[|name|..] == tail;
  }

  /** A comma list of item names chooses the last one. */
  lemma {:induction false} LastNameChosen(items: seq<string>, names: seq<string>, c: Choice)
    requires forall k :: 0 <= k < |items| ==> Listable(items[k])
    requires names != [] && c.understood && forall k :: 0 <= k < |names| ==> names[k] in items
    ensures Choose(items, Join(names, ','), c) == Choice(IndexOf(items, names[|names| - 1], 0), true)
    decreases |names|
  {
    hide FindItem, SkipSeparators, Listable, Choose, IndexOf, Join;
    var name := names[0];
    JoinNext(names);
    assert forall k :: 0 <= k < |names[1..]| ==> names[1..][k] == names[k + 1];
    var next := Choice(IndexOf(items, name, 0), true);
    if |names| == 1 {
      assert name + [] == name;
      NameStep(items, name, [], c);
      NoSeparators();
      ChooseEnd(items, next);
    } else {
      var more := Join(names[1..], ',');
      NameStep(items, name, "," + more, c);
      ListableItem(items, names[1]);
      JoinStarts(names[1..]);
      SkipsComma(more);
      LastNameChosen(items, names[1..], next);
    }
  }

  lemma JoinNext(names: seq<string>)
    requires names != []
    ensures Join(names, ',') == if |names| == 1 then names[0] else names[0] + ("," + Join(names[1..], ','))
  {
    if |names| > 1 {
      Regroup(names[0], Join(names[1..], ','));
    }
  }

  lemma Regroup(a: string, b: string)
    ensures a + [','] + b == a + ("," + b)
  {}

  lemma ListableItem(items: seq<string>, name: string)
    requires name in items && forall k :: 0 <= k < |items| ==> Listable(items[k])
    ensures Listable(name) && name != []
  {}

  lemma {:induction false} NamedIsFound(items: seq<string>, name: string, i: nat)
    requires i <= |items| && name in items[i..]
    ensures var r := IndexOf(items, name, i);
            r.Some? && i <= r.value < |items| && items[r.value] == name
    decreases |items| - i
  {
    if items[i] != name {
      assert items[i..] == [items[i]] + items[i + 1..];
      NamedIsFound(items, name, i + 1);
    }
  }

  lemma NoSeparators()
    ensures SkipSeparators([]) == []
  {}

  lemma JoinStarts(names: seq<string>)
    requires names != [] && Listable(names[0])
    ensures var s := Join(names, ','); s != [] && s[0] != ',' && !IsSpace(s[0])
  {
    assert Join(names, ',')[0] == names[0][0];
  }

  lemma SkipsComma(s: string)
    requires s != [] && s[0] != ',' && !IsSpace(s[0])
    ensures SkipSeparators("," + s) == s
  {
    assert ("," + s)[1..] == s;
  }

  // Separators and unknown names.

  predicate IsSeparators(sep: string) {
    && sep != "" && (sep[0] == ',' || sep[0] == '\n')
    && forall i :: 0 <= i < |sep| ==> sep[i] in {',', ' ', '\t', '\n', '\r'}
  }

  lemma {:induction false} SeparatorsSkipped(sep: string, s: string)
    requires forall i :: 0 <= i < |sep| ==> sep[i] in {',', ' ', '\t', '\n', '\r'}
    ensures SkipSeparators(sep + s) == SkipSeparators(s)
  {
    if sep == "" {
      assert sep + s == s;
    } else {
      assert (sep + s)[1..] == sep[1..] + s;
      SeparatorsSkipped(sep[1..], s);
    }
  }

  function Listed(names: seq<string>, sep: string): string {
    if names == [] then "" else if |names| == 1 then names[0] else names[0] + (sep + Listed(names[1..], sep))
  }

  lemma ListedStarts(names: seq<string>, sep: string)
    requires names != [] && Listable(names[0])
    ensures var s := Listed(names, sep); s != "" && SkipSeparators(s) == s
  {
    assert Listed(names, sep)[0] == names[0][0];
  }

  /** Item names with a comma or a newline, and any blanks, between them: the last one is chosen. */
  lemma {:induction false} LastListed(items: seq<string>, names: seq<string>, sep: string, c: Choice)
    requires forall k :: 0 <= k < |items| ==> Listable(items[k])
    requires names != [] && c.understood && forall k :: 0 <= k < |names| ==> names[k] in items
    requires IsSeparators(sep)
    ensures Choose(items, Listed(names, sep), c) == Choice(IndexOf(items, names[|names| - 1], 0), true)
    decreases |names|
  {
    hide FindItem, SkipSeparators, Listable, Choose, IndexOf;
    var name := names[0];
    var next := Choice(IndexOf(items, name, 0), true);
    if |names| == 1 {
      assert name + [] == name;
      NameStep(items, name, [], c);
      NoSeparators();
      ChooseEnd(items, next);
    } else {
      var more := Listed(names[1..], sep);
      assert forall k :: 0 <= k < |names[1..]| ==> names[1..][k] == names[k + 1];
      assert (sep + more)[0] == sep[0];
      NameStep(items, name, sep + more, c);
      SeparatorsSkipped(sep, more);
      ListableItem(items, names[1]);
      ListedStarts(names[1..], sep);
      LastListed(items, names[1..], sep, next);
    }
  }

  lemma {:induction false} NotFound(items: seq<string>, name: string, i: nat)
    requires i <= |items| && name !in items
    ensures IndexOf(items, name, i).None?
    decreases |items| - i
  {
    if i < |items| {
      NotFound(items, name, i + 1);
    }
  }

  /** A name that is no item ends the command; what was chosen before stays. */
  lemma {:induction false} UnknownName(items: seq<string>, name: string, tail: string, c: Choice)
    requires forall k :: 0 <= k < |items| ==> Listable(items[k])
    requires Listable(name) && name !in items && (tail == [] || tail[0] == ',' || tail[0] == '\n')
    ensures Choose(items, name + tail, c) == c.(understood := false)
    ensures forall more :: ChooseAll(items, [name + tail] + more, Choice(c.item, true)) == Choice(c.item, false)
  {
    hide FindItem, SkipSeparators, IndexOf;
    FindNamed(items, name, tail, 0);
    NotFound(items, name, 0);
    ChooseNext(items, name + tail, c);
    ChooseNext(items, name + tail, Choice(c.item, true));
    forall more
      ensures ChooseAll(items, [name + tail] + more, Choice(c.item, true)) == Choice(c.item, false)
    {
      hide Choose;
      assert ([name + tail] + more)[1..] == more;
      ChooseStop(items, more, Choice(c.item, false));
    }
  }
}
