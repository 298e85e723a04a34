/** Rewriting a binary and reading it back is reading it and overlaying the additions. */
module MetadataRoundTrip {
  import opened Common
  import opened Producers
  import opened Metadata
  import opened MetadataRewrite

  function OverlayName(add: Option<string>, was: Option<string>): Option<string> {
    if add.Some? then add else was
  }

  function OverlayProducers(add: Fields, was: Option<Fields>): Option<Fields> {
    if was.Some? then Some(Merge(was.value, add))
    else if add != [] then Some(Merge([], add))
    else None
  }

  /** Additions win; producers are merged. */
  function OverlayMeta(add: Additions, m: Meta): Meta {
    Meta(OverlayName(add.name, m.name), OverlayProducers(add.producers, m.producers), m.texts + add.texts)
  }

  function Overlay(add: Additions, p: Payload): Payload {
    WithMeta(p, OverlayMeta(add, p.meta))
  }

  // ----- while the outermost sections go by -----

  /** What reading the rewritten sections so far has found. */
  function SoFar(add: Additions, m: Meta, names: bool): Meta {
    Meta(if names then OverlayName(add.name, m.name) else m.name,
         if m.producers.Some? then Some(Merge(m.producers.value, add.producers)) else None,
         m.texts)
  }

  function PayloadSoFar(add: Additions, p: Payload, names: bool): Payload {
    WithMeta(p, SoFar(add, p.meta, names))
  }

  lemma {:induction false} NoTitlesInOthers(subs: seq<NameSub>)
    ensures forall i :: 0 <= i < |ReadNames(subs).others| ==> !ReadNames(subs).others[i].Title?
  {
    if subs != [] {
      NoTitlesInOthers(subs[..|subs| - 1]);
    }
  }

  lemma {:induction false} KnownSubsNoTitles(subs: seq<NameSub>)
    ensures forall i :: 0 <= i < |KnownSubs(subs)| ==> KnownSubs(subs)[i].Names?
  {
    if subs != [] {
      KnownSubsNoTitles(subs[1..]);
    }
  }

  lemma {:induction false} ReadNamesAfterTitle(title: seq<NameSub>, subs: seq<NameSub>)
    requires forall i :: 0 <= i < |subs| ==> !subs[i].Title?
    ensures ReadNames(title + subs).title == ReadNames(title).title
    decreases |subs|
  {
    if subs == [] {
      assert title + subs == title;
    } else {
      var all := title + subs;
      assert all[..|all| - 1] == title + subs[..|subs| - 1];
      ReadNamesAfterTitle(title, subs[..|subs| - 1]);
    }
  }

  lemma WrittenTitle(n: ParsedNames)
    ensures ReadNames(WriteNames(n)).title == n.title
  {
    KnownSubsNoTitles(n.others);
    ReadNamesAfterTitle(TitleSubs(n.title), KnownSubs(n.others));
    if n.title.Some? {
      var one := TitleSubs(n.title);
      assert one[..0] == [];
    }
  }

  /** One section: reading its rewritten form updates what has been found so far. */
  lemma SectionReadBack(add: Additions, p: Payload, s: Section, names: bool)
    requires ReadSection(p, s).Ok?
    ensures RewriteSection(add, s).Ok?
    ensures ReadSection(PayloadSoFar(add, p, names), RewriteSection(add, s).value)
         == Ok(PayloadSoFar(add, ReadSection(p, s).value, names || IsNames(s)))
  {
    if s.Custom? {
      var known := Parse(s.name, s.data).value;
      match known
      case KnownProducers(fields) =>
        FromSectionWellFormed(s.data.fields);
        MergeWellFormed(fields, add.producers);
        SectionRoundTrip(Merge(fields, add.producers));
      case KnownNames(n) =>
        WrittenTitle(MergeNames(n, add.name));
      case _ =>
    }
  }

  lemma {:induction false} RewriteKeepsNesting(add: Additions, items: seq<Item>)
    requires RewriteItems(add, items).Ok?
    ensures |RewriteItems(add, items).value| == |items|
    ensures NestsItems(items) <==> NestsItems(RewriteItems(add, items).value)
    ensures forall i :: 0 <= i < |items| ==> (items[i].Sec? <==> RewriteItems(add, items).value[i].Sec?)
  {
    if items != [] {
      RewriteKeepsNesting(add, items[1..]);
      assert RewriteItems(add, items).value[1..] == RewriteItems(add, items[1..]).value;
    }
  }

  ghost predicate Fits(p: Payload, items: seq<Item>) {
    NestsItems(items) && (p.Module? ==> forall i :: 0 <= i < |items| ==> items[i].Sec?)
  }

  lemma FitsTail(p: Payload, q: Payload, items: seq<Item>)
    requires Fits(p, items) && items != [] && (q.Module? <==> p.Module?)
    ensures Fits(q, items[1..])
  {
  }

  lemma {:induction false} ItemsReadBack(add: Additions, p: Payload, items: seq<Item>, names: bool)
    requires Fits(p, items) && ReadItems(p, items).Ok?
    ensures RewriteItems(add, items).Ok?
    ensures Fits(PayloadSoFar(add, p, names), RewriteItems(add, items).value)
    ensures ReadItems(PayloadSoFar(add, p, names), RewriteItems(add, items).value)
         == Ok(PayloadSoFar(add, ReadItems(p, items).value, names || HasNames(items)))
    decreases items
  {
    if items != [] {
      var q, seen := p, names;
      if items[0].Sec? {
        SectionReadBack(add, p, items[0].section, names);
        q, seen := ReadSection(p, items[0].section).value, names || IsNames(items[0].section);
      } else {
        q := Component(p.meta, p.children + [ReadTree(items[0]).value]);
      }
      FitsTail(p, q, items);
      ItemsReadBack(add, q, items[1..], seen);
      RewriteKeepsNesting(add, items);
      assert RewriteItems(add, items).value[1..] == RewriteItems(add, items[1..]).value;
    }
  }

  // ----- what is appended -----

  lemma {:induction false} ReadItemsAppend(p: Payload, a: seq<Item>, b: seq<Item>)
    requires Fits(p, a) && Fits(p, a + b)
    ensures ReadItems(p, a).Err? ==> ReadItems(p, a + b).Err?
    ensures ReadItems(p, a).Ok? ==>
              Fits(ReadItems(p, a).value, b) && ReadItems(p, a + b) == ReadItems(ReadItems(p, a).value, b)
    decreases a
  {
    if a == [] {
      assert a + b == b;
    } else {
      assert (a + b)[1..] == a[1..] + b && (a + b)[0] == a[0];
      if a[0].Sec? {
        var r := ReadSection(p, a[0].section);
        if r.Ok? {
          FitsTail(p, r.value, a);
          FitsTail(p, r.value, a + b);
          ReadItemsAppend(r.value, a[1..], b);
        }
      } else {
        var r := ReadTree(a[0]);
        if r.Ok? {
          var q := Component(p.meta, p.children + [r.value]);
          FitsTail(p, q, a);
          FitsTail(p, q, a + b);
          ReadItemsAppend(q, a[1..], b);
        }
      }
    }
  }

  lemma {:induction false} SectionsFit(p: Payload, items: seq<Item>)
    requires forall i :: 0 <= i < |items| ==> items[i].Sec?
    ensures Fits(p, items)
  {
    if items != [] {
      SectionsFit(p, items[1..]);
    }
  }

  lemma {:induction false} FitsAppend(p: Payload, a: seq<Item>, b: seq<Item>)
    requires Fits(p, a) && Fits(p, b)
    ensures Fits(p, a + b)
  {
    if a == [] {
      assert a + b == b;
    } else {
      assert (a + b)[1..] == a[1..] + b;
      FitsTail(p, p, a);
      FitsAppend(p, a[1..], b);
    }
  }

  function PickTexts(texts: map<string, string>, names: seq<string>): map<string, string> {
    map n | n in texts && n in names :: texts[n]
  }

  lemma TextParses(n: string, text: string)
    requires IsTextName(n)
    ensures Parse(n, Text(text)) == Ok(KnownText(text))
  {
    assert n[0] != 'p' && n[0] != 'n' && n[0] != 'c';
  }

  /** Reading one text section, then the rest. */
  lemma TextFirst(p: Payload, n: string, text: string, rest: seq<Item>)
    requires IsTextName(n) && Fits(p, rest)
    ensures var q := WithMeta(p, p.meta.(texts := p.meta.texts[n := text]));
            var items := [Sec(Custom(n, Text(text)))] + rest;
            Fits(p, items) && Fits(q, rest) && ReadItems(p, items) == ReadItems(q, rest)
  {
    hide Parse;
    hide IsTextName;
    var items := [Sec(Custom(n, Text(text)))] + rest;
    assert items[1..] == rest;
    TextParses(n, text);
  }

  lemma PickFirst(texts: map<string, string>, known: map<string, string>, names: seq<string>)
    requires names != []
    ensures known + PickTexts(texts, names) ==
            (if names[0] in texts then known[names[0] := texts[names[0]]] else known) + PickTexts(texts, names[1..])
  {
    assert names == [names[0]] + names[1..];
  }

  lemma {:induction false} TextsReadBack(add: Additions, p: Payload, names: seq<string>)
    requires forall i :: 0 <= i < |names| ==> IsTextName(names[i])
    ensures Fits(p, NewTexts(add, names))
    ensures ReadItems(p, NewTexts(add, names))
         == Ok(WithMeta(p, p.meta.(texts := p.meta.texts + PickTexts(add.texts, names))))
    decreases names
  {
    hide IsTextName;
    if names == [] {
      assert p.meta.texts + PickTexts(add.texts, names) == p.meta.texts;
    } else {
      hide Fits;
      hide ReadItems;
      hide PickTexts;
      var n := names[0];
      PickFirst(add.texts, p.meta.texts, names);
      if n in add.texts {
        var q := WithMeta(p, p.meta.(texts := p.meta.texts[n := add.texts[n]]));
        TextsReadBack(add, q, names[1..]);
        FitsOther(p, q, NewTexts(add, names[1..]));
        TextFirst(p, n, add.texts[n], NewTexts(add, names[1..]));
      } else {
        TextsReadBack(add, p, names[1..]);
        assert NewTexts(add, names) == NewTexts(add, names[1..]);
      }
    }
  }

  lemma FitsOther(p: Payload, q: Payload, items: seq<Item>)
    requires Fits(q, items) && (q.Module? <==> p.Module?)
    ensures Fits(p, items)
  {
  }

  lemma AllTexts(add: Additions)
    requires KnownAdditions(add)
    ensures PickTexts(add.texts, TEXTS) == add.texts
    ensures forall i :: 0 <= i < |TEXTS| ==> IsTextName(TEXTS[i])
  {
  }

  /** Only the texts that exist can be added. */
  ghost predicate KnownAdditions(add: Additions) {
    forall n :: n in add.texts ==> n in TEXTS
  }

  lemma NamesReadBack(add: Additions, encoding: Encoding, p: Payload, found: bool)
    ensures Fits(p, NewNames(add, encoding, found))
    ensures ReadItems(p, NewNames(add, encoding, found))
         == Ok(if found then p else WithMeta(p, p.meta.(name := OverlayName(add.name, p.meta.name))))
  {
    var items := NewNames(add, encoding, found);
    SectionsFit(p, items);
    if items != [] {
      WrittenTitle(ParsedNames(add.name, []));
      assert [Title(add.name.value)] == WriteNames(ParsedNames(add.name, []));
      assert items[1..] == [];
    }
  }

  lemma ProducersReadBack(add: Additions, p: Payload, found: bool)
    requires !found ==> p.meta.producers.None?
    ensures Fits(p, NewProducers(add, found))
    ensures ReadItems(p, NewProducers(add, found))
         == Ok(if found then p else WithMeta(p, p.meta.(producers := OverlayProducers(add.producers, None))))
  {
    var items := NewProducers(add, found);
    SectionsFit(p, items);
    if items != [] {
      MergeWellFormed([], add.producers);
      SectionRoundTrip(Merge([], add.producers));
      assert items[1..] == [];
    }
  }

  lemma {:induction false} ProducersFoundIff(p: Payload, items: seq<Item>)
    requires Fits(p, items) && ReadItems(p, items).Ok?
    ensures ReadItems(p, items).value.meta.producers.Some? <==> p.meta.producers.Some? || HasProducers(items)
    decreases items
  {
    if items != [] {
      if items[0].Sec? {
        var q := ReadSection(p, items[0].section).value;
        FitsTail(p, q, items);
        ProducersFoundIff(q, items[1..]);
      } else {
        var q := Component(p.meta, p.children + [ReadTree(items[0]).value]);
        FitsTail(p, q, items);
        ProducersFoundIff(q, items[1..]);
      }
    }
  }

  lemma AppendedReadBack(add: Additions, encoding: Encoding, p: Payload, names: bool, producers: bool)
    requires KnownAdditions(add) && (producers <==> p.meta.producers.Some?)
    ensures Fits(PayloadSoFar(add, p, names), Appended(add, encoding, names, producers))
    ensures ReadItems(PayloadSoFar(add, p, names), Appended(add, encoding, names, producers)) == Ok(Overlay(add, p))
  {
    hide NewTexts;
    hide NewNames;
    hide ReadItems;
    hide Fits;
    hide PickTexts;
    hide IsTextName;
    hide KnownAdditions;
    var start := PayloadSoFar(add, p, names);
    var a, b, c := NewNames(add, encoding, names), NewProducers(add, producers), NewTexts(add, TEXTS);
    AllTexts(add);
    NamesReadBack(add, encoding, start, names);
    var afterNames := ReadItems(start, a).value;
    ProducersReadBack(add, afterNames, producers);
    var afterProducers := ReadItems(afterNames, b).value;
    TextsReadBack(add, afterProducers, TEXTS);
    SectionsFit(start, b);
    TextsReadBack(add, start, TEXTS);
    FitsAppend(start, a, b);
    FitsAppend(start, a + b, c);
    ReadItemsAppend(start, a, b);
    ReadItemsAppend(start, a + b, c);
  }

  // ----- the round trip -----

  lemma AppendedAreSections(add: Additions, encoding: Encoding, names: bool, producers: bool)
    ensures forall i :: 0 <= i < |Appended(add, encoding, names, producers)| ==>
              Appended(add, encoding, names, producers)[i].Sec?
  {
    NewTextsAreSections(add, TEXTS);
  }

  lemma {:induction false} NewTextsAreSections(add: Additions, names: seq<string>)
    ensures forall i :: 0 <= i < |NewTexts(add, names)| ==> NewTexts(add, names)[i].Sec?
  {
    if names != [] {
      NewTextsAreSections(add, names[1..]);
    }
  }

  lemma RewrittenNests(add: Additions, t: Tree)
    requires Nests(t) && RewriteTree(add, t).Ok?
    ensures Nests(RewriteTree(add, t).value)
  {
    var items := RewriteItems(add, t.items).value;
    var more := Appended(add, t.encoding, HasNames(t.items), HasProducers(t.items));
    RewriteKeepsNesting(add, t.items);
    AppendedAreSections(add, t.encoding, HasNames(t.items), HasProducers(t.items));
    var p := EmptyPayload(t.encoding);
    SectionsFit(p, more);
    FitsAppend(p, items, more);
  }

  /**
   If a binary can be read, it can be rewritten, and reading the result gives the old
   metadata overlaid with the additions and the old children.
   */
  lemma RewriteThenRead(add: Additions, t: Tree)
    requires Nests(t) && KnownAdditions(add) && ReadTree(t).Ok?
    ensures RewriteTree(add, t).Ok? && Nests(RewriteTree(add, t).value)
    ensures ReadTree(RewriteTree(add, t).value) == Ok(Overlay(add, ReadTree(t).value))
  {
    var p := EmptyPayload(t.encoding);
    var q := ReadTree(t).value;
    ItemsReadBack(add, p, t.items, false);
    assert PayloadSoFar(add, p, false) == p;
    ProducersFoundIff(p, t.items);
    RewrittenNests(add, t);
    var more := Appended(add, t.encoding, HasNames(t.items), HasProducers(t.items));
    AppendedReadBack(add, t.encoding, q, HasNames(t.items), HasProducers(t.items));
    ReadItemsAppend(p, RewriteItems(add, t.items).value, more);
  }

  /** Reading a list of items fails or not whatever was read before. */
  lemma {:induction false} ReadFailsAlike(p: Payload, q: Payload, items: seq<Item>)
    requires Fits(p, items) && Fits(q, items)
    ensures ReadItems(p, items).Ok? <==> ReadItems(q, items).Ok?
    decreases items
  {
    if items != [] {
      if items[0].Sec? {
        var r, r' := ReadSection(p, items[0].section), ReadSection(q, items[0].section);
        if r.Ok? {
          FitsTail(p, r.value, items);
          FitsTail(q, r'.value, items);
          ReadFailsAlike(r.value, r'.value, items[1..]);
        }
      } else if ReadTree(items[0]).Ok? {
        var child := ReadTree(items[0]).value;
        FitsTail(p, Component(p.meta, p.children + [child]), items);
        FitsTail(q, Component(q.meta, q.children + [child]), items);
        ReadFailsAlike(Component(p.meta, p.children + [child]), Component(q.meta, q.children + [child]), items[1..]);
      }
    }
  }

  lemma {:induction false} UnreadableStays(add: Additions, p: Payload, items: seq<Item>)
    requires Fits(p, items) && ReadItems(p, items).Err? && RewriteItems(add, items).Ok?
    ensures Fits(p, RewriteItems(add, items).value) && ReadItems(p, RewriteItems(add, items).value).Err?
    decreases items
  {
    RewriteKeepsNesting(add, items);
    var out := RewriteItems(add, items).value;
    assert out[1..] == RewriteItems(add, items[1..]).value;
    if items[0].Sec? {
      var r := ReadSection(p, items[0].section);
      var r' := ReadSection(p, out[0].section);
      if r.Ok? {
        FitsTail(p, r.value, items);
        UnreadableStays(add, r.value, items[1..]);
        if r'.Ok? {
          FitsTail(p, r'.value, out);
          ReadFailsAlike(r.value, r'.value, out[1..]);
        }
      } else {
        // A section that cannot be read is passed on as it is, or stops the rewrite.
        assert out[0] == items[0];
      }
    } else if ReadTree(items[0]).Ok? {
      var q := Component(p.meta, p.children + [ReadTree(items[0]).value]);
      FitsTail(p, q, items);
      UnreadableStays(add, q, items[1..]);
    }
  }

  /** A binary that cannot be read is not made readable. */
  lemma UnreadableNotRepaired(add: Additions, t: Tree)
    requires Nests(t) && ReadTree(t).Err? && RewriteTree(add, t).Ok?
    ensures Nests(RewriteTree(add, t).value) && ReadTree(RewriteTree(add, t).value).Err?
  {
    var p := EmptyPayload(t.encoding);
    UnreadableStays(add, p, t.items);
    RewrittenNests(add, t);
    ReadItemsAppend(p, RewriteItems(add, t.items).value,
                    Appended(add, t.encoding, HasNames(t.items), HasProducers(t.items)));
  }

  // ----- everything that is not metadata -----

  predicate IsMetadata(i: Item) {
    i.Sec? && i.section.Custom? &&
    (i.section.name == "producers" || IsNames(i.section) || IsTextName(i.section.name))
  }

  function Unrelated(items: seq<Item>): seq<Item> {
    if items == [] then []
    else (if IsMetadata(items[0]) then [] else [items[0]]) + Unrelated(items[1..])
  }

  lemma {:induction false} UnrelatedAppend(a: seq<Item>, b: seq<Item>)
    ensures Unrelated(a + b) == Unrelated(a) + Unrelated(b)
  {
    if a == [] {
      assert a + b == b;
    } else {
      assert (a + b)[1..] == a[1..] + b;
      UnrelatedAppend(a[1..], b);
    }
  }

  lemma {:induction false} ItemsKept(add: Additions, items: seq<Item>)
    requires RewriteItems(add, items).Ok?
    ensures Unrelated(RewriteItems(add, items).value) == Unrelated(items)
  {
    if items != [] {
      ItemsKept(add, items[1..]);
      assert RewriteItems(add, items).value[1..] == RewriteItems(add, items[1..]).value;
    }
  }

  lemma {:induction false} TextsUnrelated(add: Additions, names: seq<string>)
    requires forall i :: 0 <= i < |names| ==> IsTextName(names[i])
    ensures Unrelated(NewTexts(add, names)) == []
  {
    if names != [] {
      TextsUnrelated(add, names[1..]);
      if names[0] in add.texts {
        assert NewTexts(add, names)[1..] == NewTexts(add, names[1..]);
      } else {
        assert NewTexts(add, names) == NewTexts(add, names[1..]);
      }
    }
  }

  /**
   All other sections of the outermost binary, and all nested modules and components with
   everything inside them, are kept as they are and in order.
   */
  lemma OtherSectionsKept(add: Additions, t: Tree)
    requires RewriteTree(add, t).Ok?
    ensures RewriteTree(add, t).value.encoding == t.encoding
    ensures Unrelated(RewriteTree(add, t).value.items) == Unrelated(t.items)
  {
    var names, producers := HasNames(t.items), HasProducers(t.items);
    var a, b, c := NewNames(add, t.encoding, names), NewProducers(add, producers), NewTexts(add, TEXTS);
    ItemsKept(add, t.items);
    TextsUnrelated(add, TEXTS);
    UnrelatedAppend(a, b);
    UnrelatedAppend(a + b, c);
    UnrelatedAppend(RewriteItems(add, t.items).value, Appended(add, t.encoding, names, producers));
  }
}
