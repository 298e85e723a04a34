/**
 wasm-metadata's two streaming passes over a binary, the rewriter and the reader. Both keep
 an explicit stack; both are shown to compute a recursive function of the tree of modules and
 components.
 */
module Metadata {
  import opened Common
  import opened Producers

  // ----- binaries as trees of sections -----

  datatype Encoding = ModuleEncoding | ComponentEncoding

  datatype NameSub = Title(name: string) | Names(id: nat, content: nat) | UnknownNames

  /** What a custom section holds, as far as the section's own parser can tell. */
  datatype Data =
    | ProducersData(fields: Fields)
    | NamesData(subs: seq<NameSub>)
    | Text(text: string)
    | Broken                       // not even recognised
    | Truncated                    // recognised, but reading it fails

  datatype Section = Custom(name: string, data: Data) | Other(id: nat, content: nat)

  /** A section, or a whole nested module or component. */
  datatype Item = Sec(section: Section) | Binary(encoding: Encoding, items: seq<Item>)

  type Tree = t: Item | t.Binary? witness Binary(ModuleEncoding, [])

  /** Modules do not nest. */
  ghost predicate Nests(t: Tree)
    decreases t
  {
    NestsItems(t.items) && (t.encoding == ModuleEncoding ==> forall i :: 0 <= i < |t.items| ==> t.items[i].Sec?)
  }

  ghost predicate NestsItems(items: seq<Item>)
    decreases items
  {
    items == [] || ((items[0].Binary? ==> Nests(items[0])) && NestsItems(items[1..]))
  }

  // ----- the payloads the parser produces -----

  datatype Event = Version(encoding: Encoding) | ModuleSection | ComponentSection | End | SectionEvent(section: Section)

  function Events(t: Tree): seq<Event>
    decreases t
  {
    [Version(t.encoding)] + ItemEvents(t.items) + [End]
  }

  function ItemEvents(items: seq<Item>): seq<Event>
    decreases items
  {
    if items == [] then []
    else
      (if items[0].Sec? then [SectionEvent(items[0].section)]
       else [OpeningEvent(items[0].encoding)] + Events(items[0]))
      + ItemEvents(items[1..])
  }

  function OpeningEvent(e: Encoding): Event {
    if e == ModuleEncoding then ModuleSection else ComponentSection
  }

  // ----- parsing metadata sections -----

  datatype Known = KnownProducers(fields: Fields) | KnownNames(names: ParsedNames) | KnownText(text: string) | NotKnown

  datatype ParsedNames = ParsedNames(title: Option<string>, others: seq<NameSub>)

  datatype Error = Malformed | Unfinished

  function ReadNames(subs: seq<NameSub>): ParsedNames {
    if subs == [] then ParsedNames(None, [])
    else
      var init := ReadNames(subs[..|subs| - 1]);
      var last := subs[|subs| - 1];
      if last.Title? then ParsedNames(Some(last.name), init.others)
      else ParsedNames(init.title, init.others + [last])
  }

  function TitleSubs(title: Option<string>): seq<NameSub> {
    if title.Some? then [Title(title.value)] else []
  }

  /** Subsections the encoder cannot write are dropped. */
  function KnownSubs(subs: seq<NameSub>): seq<NameSub> {
    if subs == [] then []
    else (if subs[0].Names? then [subs[0]] else []) + KnownSubs(subs[1..])
  }

  function WriteNames(n: ParsedNames): seq<NameSub> {
    TitleSubs(n.title) + KnownSubs(n.others)
  }

  predicate IsTextName(name: string) {
    name in {"author", "description", "licenses", "source", "homepage", "revision", "version"}
  }

  /** How a custom section is recognised and parsed; an error stops either pass. */
  function Parse(name: string, data: Data): Result<Known, Error> {
    if name == "producers" then
      match data
      case ProducersData(fields) => Ok(KnownProducers(FromSection(fields)))
      case Truncated => Err(Malformed)
      case _ => Ok(NotKnown)
    else if name == "name" || name == "component-name" then
      match data
      case NamesData(subs) => Ok(KnownNames(ReadNames(subs)))
      case _ => Err(Malformed)
    else if IsTextName(name) then
      match data
      case Text(text) => Ok(KnownText(text))
      case _ => Err(Malformed)
    else Ok(NotKnown)
  }

  // ----- reading -----

  datatype Meta = Meta(name: Option<string>, producers: Option<Fields>, texts: map<string, string>)

  const EmptyMeta := Meta(None, None, map[])

  datatype Payload = Component(meta: Meta, children: seq<Payload>) | Module(meta: Meta)

  function EmptyPayload(e: Encoding): Payload {
    if e == ModuleEncoding then Module(EmptyMeta) else Component(EmptyMeta, [])
  }

  function WithMeta(p: Payload, m: Meta): Payload {
    if p.Module? then Module(m) else Component(m, p.children)
  }

  function UpdateMeta(m: Meta, name: string, known: Known): Meta {
    match known
    case KnownProducers(fields) => m.(producers := Some(fields))
    case KnownNames(names) => if names.title.Some? then m.(name := names.title) else m
    case KnownText(text) => m.(texts := m.texts[name := text])
    case NotKnown => m
  }

  function ReadSection(p: Payload, s: Section): Result<Payload, Error> {
    if s.Other? then Ok(p)
    else
      match Parse(s.name, s.data)
      case Err(e) => Err(e)
      case Ok(known) => Ok(WithMeta(p, UpdateMeta(p.meta, s.name, known)))
  }

  /** Reading, as a recursive function of the tree. */
  function ReadTree(t: Tree): Result<Payload, Error>
    requires Nests(t)
    decreases t
  {
    ReadItems(EmptyPayload(t.encoding), t.items)
  }

  function ReadItems(p: Payload, items: seq<Item>): Result<Payload, Error>
    requires NestsItems(items) && (p.Module? ==> forall i :: 0 <= i < |items| ==> items[i].Sec?)
    decreases items
  {
    if items == [] then Ok(p)
    else
      if items[0].Sec? then
        match ReadSection(p, items[0].section)
        case Err(e) => Err(e)
        case Ok(q) => ReadItems(q, items[1..])
      else
        match ReadTree(items[0])
        case Err(e) => Err(e)
        case Ok(child) => ReadItems(Component(p.meta, p.children + [child]), items[1..])
  }

  /** One turn of the reader's loop; `Done` is the return from inside it. */
  datatype ReadStep = Reading(stack: seq<Payload>) | Done(payload: Payload) | Failed(error: Error)

  function ReadEvent(stack: seq<Payload>, e: Event): ReadStep
    requires ReadAllowed(stack, e)
  {
    var top := |stack| - 1;
    match e
    case Version(encoding) => Reading(if stack == [] then [EmptyPayload(encoding)] else stack)
    case ModuleSection => Reading(stack + [EmptyPayload(ModuleEncoding)])
    case ComponentSection => Reading(stack + [EmptyPayload(ComponentEncoding)])
    case End =>
      if top == 0 then Done(stack[0])
      else Reading(stack[..top - 1] + [Component(stack[top - 1].meta, stack[top - 1].children + [stack[top]])])
    case SectionEvent(s) =>
      match ReadSection(stack[top], s)
      case Err(error) => Failed(error)
      case Ok(p) => Reading(stack[..top] + [p])
  }

  /** What the loop's unwraps and the panic in `push_child` rely on. */
  predicate ReadAllowed(stack: seq<Payload>, e: Event) {
    && (e.End? || e.SectionEvent? ==> stack != [])
    && (e.End? && |stack| > 1 ==> stack[|stack| - 2].Component?)
  }

  /** Running the reader's loop over the remaining payloads, until it returns or they run out. */
  function ReadLoop(stack: seq<Payload>, events: seq<Event>): Option<Result<Payload, Error>>
    decreases |events|
  {
    if events == [] then Some(Err(Unfinished))
    else if !ReadAllowed(stack, events[0]) then None
    else
      match ReadEvent(stack, events[0])
      case Reading(next) => ReadLoop(next, events[1..])
      case Done(p) => Some(Ok(p))
      case Failed(e) => Some(Err(e))
  }

  lemma {:induction false} ReadLoopItems(below: seq<Payload>, p: Payload, items: seq<Item>, rest: seq<Event>)
    requires NestsItems(items) && (p.Module? ==> forall i :: 0 <= i < |items| ==> items[i].Sec?)
    ensures ReadLoop(below + [p], ItemEvents(items) + rest) ==
            match ReadItems(p, items)
            case Err(e) => Some(Err(e))
            case Ok(q) => ReadLoop(below + [q], rest)
    decreases items, 1
  {
    var events := ItemEvents(items) + rest;
    if items == [] {
      assert events == rest;
    } else {
      var tail := ItemEvents(items[1..]) + rest;
      if items[0].Sec? {
        assert events == [SectionEvent(items[0].section)] + tail;
        assert (below + [p])[..|below|] == below;
        var r := ReadSection(p, items[0].section);
        if r.Ok? {
          ReadLoopItems(below, r.value, items[1..], rest);
        }
      } else {
        var t: Tree := items[0];
        assert events == [OpeningEvent(t.encoding)] + (Events(t) + tail);
        ReadLoopTree(below + [p], items[0], tail);
        var r := ReadTree(t);
        if r.Ok? {
          ReadLoopItems(below, Component(p.meta, p.children + [r.value]), items[1..], rest);
        }
      }
    }
  }

  /** A nested binary ends up as a child of the payload below it on the stack. */
  lemma {:induction false} ReadLoopTree(below: seq<Payload>, t: Tree, rest: seq<Event>)
    requires Nests(t) && below != [] && below[|below| - 1].Component?
    ensures ReadLoop(below + [EmptyPayload(t.encoding)], Events(t) + rest) ==
            match ReadTree(t)
            case Err(e) => Some(Err(e))
            case Ok(p) =>
              var parent := below[|below| - 1];
              ReadLoop(below[..|below| - 1] + [Component(parent.meta, parent.children + [p])], rest)
    decreases t, 0
  {
    var stack := below + [EmptyPayload(t.encoding)];
    var afterVersion := ItemEvents(t.items) + ([End] + rest);
    assert Events(t) + rest == [Version(t.encoding)] + afterVersion;
    ReadLoopItems(below, EmptyPayload(t.encoding), t.items, [End] + rest);
    var r := ReadTree(t);
    if r.Ok? {
      var full := below + [r.value];
      assert full[..|full| - 2] == below[..|below| - 1];
      assert ([End] + rest)[1..] == rest;
    }
  }

  /** The stack-driven reader computes the recursive one, and none of its unwraps can fail. */
  lemma ReadLoopIsReadTree(t: Tree)
    requires Nests(t)
    ensures ReadLoop([], Events(t)) == Some(ReadTree(t))
  {
    var start := EmptyPayload(t.encoding);
    assert Events(t) == [Version(t.encoding)] + (ItemEvents(t.items) + [End]);
    assert [] + [start] == [start];
    ReadLoopItems([], start, t.items, [End]);
  }

  /** The reader as it is written: one loop over the payloads, pushing and popping. */
  method ReadBinary(t: Tree) returns (r: Result<Payload, Error>)
    requires Nests(t)
    ensures r == ReadTree(t)
    ensures r.Err? <==> exists i :: Stops(t.items, i)
    ensures r.Ok? ==>
              && (r.value.Module? <==> t.encoding == ModuleEncoding) && MetaRead(t.items, EmptyMeta, r.value.meta)
              && (r.value.Component? ==> ChildrenRead(t.items, [], r.value.children))
  {
    hide MetaRead;
    hide ChildrenRead;
    hide Stops;
    TreeRead(t);
    ReadLoopIsReadTree(t);
    var events := Events(t);
    var stack: seq<Payload> := [];
    for i := 0 to |events|
      invariant ReadLoop(stack, events[i..]) == Some(ReadTree(t))
    {
      assert events[i..][0] == events[i] && events[i..][1..] == events[i + 1..];
      var step := ReadEvent(stack, events[i]);
      if step.Done? {
        return Ok(step.payload);
      }
      if step.Failed? {
        return Err(step.error);
      }
      stack := step.stack;
    }
    return Err(Unfinished);
  }

  // ----- what is read, on the lists themselves -----

  /** The last title, if there is one. */
  ghost predicate TitleIs(subs: seq<NameSub>, title: Option<string>) {
    if title.None? then forall i :: 0 <= i < |subs| ==> !subs[i].Title?
    else exists i :: 0 <= i < |subs| && subs[i] == Title(title.value) && forall j :: i < j < |subs| ==> !subs[j].Title?
  }

  lemma {:induction false} NamesRead(subs: seq<NameSub>)
    ensures TitleIs(subs, ReadNames(subs).title)
    ensures Select(ReadNames(subs).others, (n: NameSub) => n.Names?) == Select(subs, (n: NameSub) => n.Names?)
  {
    if subs != [] {
      var n := |subs| - 1;
      var init, last := subs[..n], subs[n];
      NamesRead(init);
      assert subs == init + [last];
      SelectAppend(init, [last], (n: NameSub) => n.Names?);
      SelectAppend(ReadNames(init).others, [last], (n: NameSub) => n.Names?);
      assert [last][1..] == [];
      if last.Title? {
        assert Select([last], (n: NameSub) => n.Names?) == [];
      } else if ReadNames(init).title.Some? {
        var i :| 0 <= i < n && init[i] == Title(ReadNames(init).title.value)
                 && forall j :: i < j < n ==> !init[j].Title?;
        assert subs[i] == init[i];
        forall j | i < j < |subs|
          ensures !subs[j].Title?
        {
          assert j < n ==> subs[j] == init[j];
        }
      }
    }
  }

  /** A section of names whose last title this is. */
  ghost predicate GivesTitle(item: Item, title: string) {
    && item.Sec? && item.section.Custom? && item.section.name in {"name", "component-name"}
    && item.section.data.NamesData? && TitleIs(item.section.data.subs, Some(title))
  }

  predicate GivesProducers(item: Item, fields: Fields) {
    && item.Sec? && item.section.Custom? && item.section.name == "producers" && item.section.data.ProducersData?
    && fields == FromSection(item.section.data.fields)
  }

  predicate GivesText(item: Item, name: string, text: string) {
    item.Sec? && item.section == Custom(name, Text(text)) && IsTextName(name)
  }

  /** The last title counts; without any, the value from before. */
  ghost predicate LastTitle(items: seq<Item>, before: Option<string>, after: Option<string>) {
    || (after == before && forall i, x :: 0 <= i < |items| ==> !GivesTitle(items[i], x))
    || (after.Some? && exists i :: 0 <= i < |items| && GivesTitle(items[i], after.value)
                                && forall j, x :: i < j < |items| ==> !GivesTitle(items[j], x))
  }

  ghost predicate LastProducers(items: seq<Item>, before: Option<Fields>, after: Option<Fields>) {
    || (after == before && forall i, x :: 0 <= i < |items| ==> !GivesProducers(items[i], x))
    || (after.Some? && exists i :: 0 <= i < |items| && GivesProducers(items[i], after.value)
                                && forall j, x :: i < j < |items| ==> !GivesProducers(items[j], x))
  }

  function TextOf(texts: map<string, string>, name: string): Option<string> {
    if name in texts then Some(texts[name]) else None
  }

  ghost predicate LastText(items: seq<Item>, name: string, before: Option<string>, after: Option<string>) {
    || (after == before && forall i, x :: 0 <= i < |items| ==> !GivesText(items[i], name, x))
    || (after.Some? && exists i :: 0 <= i < |items| && GivesText(items[i], name, after.value)
                                && forall j, x :: i < j < |items| ==> !GivesText(items[j], name, x))
  }

  /** Nested binaries are read one by one, in order. */
  ghost predicate ChildrenRead(items: seq<Item>, before: seq<Payload>, after: seq<Payload>)
    decreases items
  {
    var nested := Select(items, (x: Item) => x.Binary?);
    && |after| == |before| + |nested| && before <= after
    && forall j :: 0 <= j < |nested| ==>
         nested[j].Binary? && Nests(nested[j]) && ReadTree(nested[j]) == Ok(after[|before| + j])
  }

  lemma TitleIsOne(subs: seq<NameSub>, a: Option<string>, b: Option<string>)
    requires TitleIs(subs, a) && TitleIs(subs, b)
    ensures a == b
  {
    if a.Some? && b.Some? {
      var i :| 0 <= i < |subs| && subs[i] == Title(a.value) && forall j :: i < j < |subs| ==> !subs[j].Title?;
      var k :| 0 <= k < |subs| && subs[k] == Title(b.value) && forall j :: k < j < |subs| ==> !subs[j].Title?;
      assert i == k;
    }
  }

  lemma TitleRead(p: Payload, s: Section)
    requires ReadSection(p, s).Ok?
    ensures LastTitle([Sec(s)], p.meta.name, ReadSection(p, s).value.meta.name)
  {
    hide TitleIs;
    var items := [Sec(s)];
    if s.Custom? && s.data.NamesData? {
      NamesRead(s.data.subs);
      forall x | GivesTitle(items[0], x)
        ensures ReadNames(s.data.subs).title == Some(x)
      {
        TitleIsOne(s.data.subs, Some(x), ReadNames(s.data.subs).title);
      }
    }
  }

  lemma ProducersRead(p: Payload, s: Section)
    requires ReadSection(p, s).Ok?
    ensures LastProducers([Sec(s)], p.meta.producers, ReadSection(p, s).value.meta.producers)
  {
    hide FromSection;
    var items := [Sec(s)];
    if s.Custom? && s.data.ProducersData? && s.name == "producers" {
      assert GivesProducers(items[0], FromSection(s.data.fields));
    }
  }

  lemma TextRead(p: Payload, s: Section, n: string)
    requires ReadSection(p, s).Ok?
    ensures LastText([Sec(s)], n, TextOf(p.meta.texts, n), TextOf(ReadSection(p, s).value.meta.texts, n))
  {
    hide FromSection;
    hide ReadNames;
    var items := [Sec(s)];
    if s.Custom? && s.name == n && IsTextName(n) && s.data.Text? {
      assert GivesText(items[0], n, s.data.text);
    }
  }

  lemma TitleThen(item: Item, rest: seq<Item>, a: Option<string>, b: Option<string>, c: Option<string>)
    requires LastTitle([item], a, b) && LastTitle(rest, b, c)
    ensures LastTitle([item] + rest, a, c)
  {
    hide GivesTitle;
    var all := [item] + rest;
    assert forall i :: 0 < i < |all| ==> all[i] == rest[i - 1];
    if i :| c.Some? && 0 <= i < |rest| && GivesTitle(rest[i], c.value)
            && forall j, x :: i < j < |rest| ==> !GivesTitle(rest[j], x) {
      assert all[i + 1] == rest[i];
    } else if b != a || !(forall x :: !GivesTitle(item, x)) {
      assert all[0] == [item][0];
    } else {
      assert all[0] == item;
    }
  }

  lemma ProducersThen(item: Item, rest: seq<Item>, a: Option<Fields>, b: Option<Fields>, c: Option<Fields>)
    requires LastProducers([item], a, b) && LastProducers(rest, b, c)
    ensures LastProducers([item] + rest, a, c)
  {
    hide GivesProducers;
    var all := [item] + rest;
    assert forall i :: 0 < i < |all| ==> all[i] == rest[i - 1];
    if i :| c.Some? && 0 <= i < |rest| && GivesProducers(rest[i], c.value)
            && forall j, x :: i < j < |rest| ==> !GivesProducers(rest[j], x) {
      assert all[i + 1] == rest[i];
    } else if b != a || !(forall x :: !GivesProducers(item, x)) {
      assert all[0] == [item][0];
    } else {
      assert all[0] == item;
    }
  }

  lemma TextThen(item: Item, rest: seq<Item>, n: string, a: Option<string>, b: Option<string>, c: Option<string>)
    requires LastText([item], n, a, b) && LastText(rest, n, b, c)
    ensures LastText([item] + rest, n, a, c)
  {
    hide GivesText;
    var all := [item] + rest;
    assert forall i :: 0 < i < |all| ==> all[i] == rest[i - 1];
    if i :| c.Some? && 0 <= i < |rest| && GivesText(rest[i], n, c.value)
            && forall j, x :: i < j < |rest| ==> !GivesText(rest[j], n, x) {
      assert all[i + 1] == rest[i];
    } else if b != a || !(forall x :: !GivesText(item, n, x)) {
      assert all[0] == [item][0];
    } else {
      assert all[0] == item;
    }
  }

  ghost predicate MetaRead(items: seq<Item>, before: Meta, after: Meta) {
    && LastTitle(items, before.name, after.name) && LastProducers(items, before.producers, after.producers)
    && forall n :: LastText(items, n, TextOf(before.texts, n), TextOf(after.texts, n))
  }

  lemma MetaThen(item: Item, rest: seq<Item>, a: Meta, b: Meta, c: Meta)
    requires MetaRead([item], a, b) && MetaRead(rest, b, c)
    ensures MetaRead([item] + rest, a, c)
  {
    hide LastTitle;
    hide LastProducers;
    hide LastText;
    TitleThen(item, rest, a.name, b.name, c.name);
    ProducersThen(item, rest, a.producers, b.producers, c.producers);
    forall n
      ensures LastText([item] + rest, n, TextOf(a.texts, n), TextOf(c.texts, n))
    {
      TextThen(item, rest, n, TextOf(a.texts, n), TextOf(b.texts, n), TextOf(c.texts, n));
    }
  }

  lemma NothingGiven(items: seq<Item>, m: Meta)
    requires items == [] || (|items| == 1 && items[0].Binary?)
    ensures MetaRead(items, m, m)
  {
  }

  /** An item that stops the reader: a section it cannot make sense of, or a nested binary with one. */
  ghost predicate StopsReader(item: Item)
    requires item.Binary? ==> Nests(item)
  {
    if item.Binary? then ReadTree(item).Err?
    else
      && item.section.Custom?
      && (|| (item.section.name in {"name", "component-name"} && !item.section.data.NamesData?)
          || (item.section.name == "producers" && item.section.data.Truncated?)
          || (IsTextName(item.section.name) && !item.section.data.Text?))
  }

  lemma {:induction false} NestedNests(items: seq<Item>, i: nat)
    requires NestsItems(items) && i < |items| && items[i].Binary?
    ensures Nests(items[i])
  {
    if i > 0 {
      NestedNests(items[1..], i - 1);
    }
  }

  ghost predicate Stops(items: seq<Item>, i: int) {
    0 <= i < |items| && (items[i].Binary? ==> Nests(items[i])) && StopsReader(items[i])
  }

  lemma StopsTail(items: seq<Item>)
    requires NestsItems(items) && items != []
    ensures (exists i :: Stops(items, i)) <==> StopsReader(items[0]) || exists i :: Stops(items[1..], i)
  {
    hide StopsReader;
    hide Nests;
    assert items[0].Binary? ==> Nests(items[0]);
    if StopsReader(items[0]) {
      assert Stops(items, 0);
    }
    if i :| Stops(items[1..], i) {
      assert items[i + 1] == items[1..][i] && Stops(items, i + 1);
    }
    if i :| Stops(items, i) {
      assert i > 0 ==> items[1..][i - 1] == items[i] && Stops(items[1..], i - 1);
    }
  }

  lemma {:induction false} ItemsRead(p: Payload, items: seq<Item>)
    requires NestsItems(items) && (p.Module? ==> forall i :: 0 <= i < |items| ==> items[i].Sec?)
    ensures ReadItems(p, items).Err? <==> exists i :: Stops(items, i)
    ensures ReadItems(p, items).Ok? ==>
              var q := ReadItems(p, items).value;
              && (q.Module? <==> p.Module?) && MetaRead(items, p.meta, q.meta)
              && (p.Component? ==> ChildrenRead(items, p.children, q.children))
    decreases items
  {
    hide MetaRead;
    hide Nests;
    hide ReadTree;
    hide ReadSection;
    hide StopsReader;
    if items == [] {
      NothingGiven(items, p.meta);
    } else {
      StopsTail(items);
      assert items == [items[0]] + items[1..];
      if items[0].Sec? {
        SectionStops(p, items[0]);
        if ReadSection(p, items[0].section).Ok? {
          var q := ReadSection(p, items[0].section).value;
          SectionIsRead(p, items[0].section);
          ItemsRead(q, items[1..]);
          if ReadItems(q, items[1..]).Ok? {
            MetaThen(items[0], items[1..], p.meta, q.meta, ReadItems(q, items[1..]).value.meta);
          }
        }
      } else {
        TreeStops(items[0]);
        if ReadTree(items[0]).Ok? {
          var q := Component(p.meta, p.children + [ReadTree(items[0]).value]);
          ItemsRead(q, items[1..]);
          if ReadItems(q, items[1..]).Ok? {
            var r := ReadItems(q, items[1..]).value;
            NothingGiven([items[0]], p.meta);
            MetaThen(items[0], items[1..], p.meta, p.meta, r.meta);
            ChildThen(items, p.children, r.children);
          }
        }
      }
    }
  }

  /** What one section does to what has been read. */
  lemma SectionIsRead(p: Payload, s: Section)
    requires ReadSection(p, s).Ok?
    ensures var q := ReadSection(p, s).value;
            && (q.Module? <==> p.Module?) && (p.Component? ==> q.children == p.children)
            && MetaRead([Sec(s)], p.meta, q.meta)
  {
    hide LastTitle;
    hide LastProducers;
    hide LastText;
    TitleRead(p, s);
    ProducersRead(p, s);
    forall n
      ensures LastText([Sec(s)], n, TextOf(p.meta.texts, n), TextOf(ReadSection(p, s).value.meta.texts, n))
    {
      TextRead(p, s, n);
    }
  }

  lemma SectionStops(p: Payload, item: Item)
    requires item.Sec?
    ensures ReadSection(p, item.section).Err? <==> StopsReader(item)
  {
  }

  lemma TreeStops(item: Item)
    requires item.Binary? && Nests(item)
    ensures StopsReader(item) <==> ReadTree(item).Err?
  {
  }

  lemma ChildThen(items: seq<Item>, before: seq<Payload>, after: seq<Payload>)
    requires items != [] && items[0].Binary? && Nests(items[0]) && ReadTree(items[0]).Ok?
    requires ChildrenRead(items[1..], before + [ReadTree(items[0]).value], after)
    ensures ChildrenRead(items, before, after)
  {
    hide Nests;
    hide ReadTree;
    var rest := Select(items[1..], (x: Item) => x.Binary?);
    var nested := Select(items, (x: Item) => x.Binary?);
    assert nested == [items[0]] + rest;
    var more := before + [ReadTree(items[0]).value];
    assert after[|before|] == more[|before|];
    forall j | 0 <= j < |nested|
      ensures nested[j].Binary? && Nests(nested[j]) && ReadTree(nested[j]) == Ok(after[|before| + j])
    {
      if j > 0 {
        assert nested[j] == rest[j - 1] && after[|more| + (j - 1)] == after[|before| + j];
      }
    }
  }

  /**
   What is read of a binary: of titles, producers and each text the last one, and the nested
   binaries in order. Reading fails exactly if some section, at any depth, makes no sense.
   */
  lemma TreeRead(t: Tree)
    requires Nests(t)
    ensures ReadTree(t).Err? <==> exists i :: Stops(t.items, i)
    ensures ReadTree(t).Ok? ==>
              var p := ReadTree(t).value;
              && (p.Module? <==> t.encoding == ModuleEncoding) && MetaRead(t.items, EmptyMeta, p.meta)
              && (p.Component? ==> ChildrenRead(t.items, [], p.children))
  {
    hide MetaRead;
    hide ChildrenRead;
    hide Stops;
    ItemsRead(EmptyPayload(t.encoding), t.items);
  }
}
