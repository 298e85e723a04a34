/** wasm-metadata's rewriter, and what reading back its output gives. */
module MetadataRewrite {
  import opened Common
  import opened Producers
  import opened Metadata

  datatype Additions = Additions(name: Option<string>, producers: Fields, texts: map<string, string>)

  /** In the order in which they are appended. */
  const TEXTS: seq<string> := ["author", "description", "licenses", "source", "homepage", "revision", "version"]

  /** The addition that is consulted before an old section is kept; two of them look at `source`. */
  function GuardFor(name: string): string {
    if name == "homepage" || name == "revision" then "source" else name
  }

  // ----- rewriting, as a recursive function of the tree -----

  predicate IsNames(s: Section) {
    s.Custom? && (s.name == "name" || s.name == "component-name")
  }

  function MergeNames(names: ParsedNames, add: Option<string>): ParsedNames {
    if add.Some? then names.(title := add) else names
  }

  /** What becomes of one section of the outermost binary. */
  function RewriteSection(add: Additions, s: Section): Result<Section, Error> {
    if s.Other? then Ok(s)
    else if s.name == "producers" || IsNames(s) || (IsTextName(s.name) && GuardFor(s.name) !in add.texts) then
      match Parse(s.name, s.data)
      case Err(e) => Err(e)
      case Ok(KnownProducers(fields)) => Ok(Custom(s.name, ProducersData(Merge(fields, add.producers))))
      case Ok(KnownNames(names)) => Ok(Custom(s.name, NamesData(WriteNames(MergeNames(names, add.name)))))
      case Ok(KnownText(text)) => Ok(Custom(s.name, Text(text)))
      case Ok(NotKnown) => Ok(s)
    else Ok(s)
  }

  function RewriteItems(add: Additions, items: seq<Item>): Result<seq<Item>, Error> {
    if items == [] then Ok([])
    else
      var first := if items[0].Sec? then RewriteSection(add, items[0].section) else Ok(Other(0, 0));
      var rest := RewriteItems(add, items[1..]);
      if first.Err? then Err(first.error)
      else if rest.Err? then Err(rest.error)
      else Ok([if items[0].Sec? then Sec(first.value) else items[0]] + rest.value)
  }

  predicate ProducersFound(s: Section) {
    s.Custom? && s.name == "producers" && s.data.ProducersData?
  }

  function HasNames(items: seq<Item>): bool {
    items != [] && ((items[0].Sec? && IsNames(items[0].section)) || HasNames(items[1..]))
  }

  function HasProducers(items: seq<Item>): bool {
    items != [] && ((items[0].Sec? && ProducersFound(items[0].section)) || HasProducers(items[1..]))
  }

  function NewNames(add: Additions, encoding: Encoding, found: bool): seq<Item> {
    if !found && add.name.Some? then
      [Sec(Custom(if encoding == ComponentEncoding then "component-name" else "name",
                  NamesData([Title(add.name.value)])))]
    else []
  }

  function NewProducers(add: Additions, found: bool): seq<Item> {
    if !found && add.producers != [] then [Sec(Custom("producers", ProducersData(Merge([], add.producers))))] else []
  }

  function NewTexts(add: Additions, names: seq<string>): seq<Item> {
    if names == [] then []
    else
      (if names[0] in add.texts then [Sec(Custom(names[0], Text(add.texts[names[0]])))] else [])
      + NewTexts(add, names[1..])
  }

  function Appended(add: Additions, encoding: Encoding, names: bool, producers: bool): seq<Item> {
    NewNames(add, encoding, names) + NewProducers(add, producers) + NewTexts(add, TEXTS)
  }

  function RewriteTree(add: Additions, t: Tree): Result<Tree, Error> {
    match RewriteItems(add, t.items)
    case Err(e) => Err(e)
    case Ok(items) =>
      Ok(Binary(t.encoding, items + Appended(add, t.encoding, HasNames(t.items), HasProducers(t.items))))
  }

  // ----- the bytes written -----

  datatype Piece = Header(encoding: Encoding) | Raw(section: Section) | Nested(asComponent: bool, body: seq<Piece>)

  function Encode(t: Tree): seq<Piece>
    decreases t
  {
    [Header(t.encoding)] + EncodeItems(t.items)
  }

  function EncodeItems(items: seq<Item>): seq<Piece>
    decreases items
  {
    if items == [] then []
    else
      [if items[0].Sec? then Raw(items[0].section)
       else Nested(items[0].encoding == ComponentEncoding, Encode(items[0]))]
      + EncodeItems(items[1..])
  }

  lemma {:induction false} EncodeItemsAppend(a: seq<Item>, b: seq<Item>)
    ensures EncodeItems(a + b) == EncodeItems(a) + EncodeItems(b)
  {
    if a == [] {
      assert a + b == b;
    } else {
      assert (a + b)[1..] == a[1..] + b;
      EncodeItemsAppend(a[1..], b);
    }
  }

  // ----- the rewriting loop -----

  datatype State = State(output: seq<Piece>, stack: seq<seq<Piece>>, producersFound: bool, namesFound: bool)

  datatype Step = Next(state: State) | Break | Fail(error: Error)

  predicate StartsWithComponent(output: seq<Piece>) {
    output != [] && output[0] == Header(ComponentEncoding)
  }

  /** One turn of the loop; only the outermost sections are touched. */
  function RewriteEvent(add: Additions, st: State, e: Event): Step {
    match e
    case Version(encoding) => Next(st.(output := st.output + [Header(encoding)]))
    case ModuleSection => Next(st.(output := [], stack := st.stack + [st.output]))
    case ComponentSection => Next(st.(output := [], stack := st.stack + [st.output]))
    case End =>
      if st.stack == [] then Break
      else
        var parent := st.stack[|st.stack| - 1];
        Next(st.(output := parent + [Nested(StartsWithComponent(st.output), st.output)],
                 stack := st.stack[..|st.stack| - 1]))
    case SectionEvent(s) =>
      if st.stack != [] then Next(st.(output := st.output + [Raw(s)]))
      else
        match RewriteSection(add, s)
        case Err(error) => Fail(error)
        case Ok(s') => Next(State(st.output + [Raw(s')], st.stack,
                                  st.producersFound || ProducersFound(s), st.namesFound || IsNames(s)))
  }

  function RewriteLoop(add: Additions, st: State, events: seq<Event>): Result<State, Error>
    decreases |events|
  {
    if events == [] then Ok(st)
    else
      match RewriteEvent(add, st, events[0])
      case Next(next) => RewriteLoop(add, next, events[1..])
      case Break => Ok(st)
      case Fail(e) => Err(e)
  }

  lemma LoopOne(add: Additions, st: State, e: Event, rest: seq<Event>)
    ensures var step := RewriteEvent(add, st, e);
            && (step.Next? ==> RewriteLoop(add, st, [e] + rest) == RewriteLoop(add, step.state, rest))
            && (step.Break? ==> RewriteLoop(add, st, [e] + rest) == Ok(st))
            && (step.Fail? ==> RewriteLoop(add, st, [e] + rest) == Err(step.error))
  {
    assert ([e] + rest)[1..] == rest;
  }

  function PieceOf(item: Item): Piece {
    if item.Sec? then Raw(item.section) else Nested(item.encoding == ComponentEncoding, Encode(item))
  }

  lemma FirstItem(items: seq<Item>, rest: seq<Event>)
    requires items != []
    ensures EncodeItems(items) == [PieceOf(items[0])] + EncodeItems(items[1..])
    ensures var tail := ItemEvents(items[1..]) + rest;
            ItemEvents(items) + rest ==
            if items[0].Sec? then [SectionEvent(items[0].section)] + tail
            else [OpeningEvent(items[0].encoding)] + (Events(items[0]) + tail)
  {
    hide Events;
  }

  lemma NoItems(rest: seq<Event>)
    ensures ItemEvents([]) + rest == rest && EncodeItems([]) == []
  {
  }

  /** Below the outermost level everything is copied. */
  lemma {:induction false} NestedItemsCopied(add: Additions, st: State, items: seq<Item>, rest: seq<Event>)
    requires st.stack != []
    ensures RewriteLoop(add, st, ItemEvents(items) + rest)
         == RewriteLoop(add, st.(output := st.output + EncodeItems(items)), rest)
    decreases items, 1
  {
    hide RewriteLoop;
    hide ItemEvents;
    hide EncodeItems;
    hide Events;
    hide RewriteSection;
    if items == [] {
      NoItems(rest);
      assert st.output + [] == st.output;
    } else {
      FirstItem(items, rest);
      var tail := ItemEvents(items[1..]) + rest;
      var next := st.(output := st.output + [PieceOf(items[0])]);
      if items[0].Sec? {
        LoopOne(add, st, SectionEvent(items[0].section), tail);
      } else {
        LoopOne(add, st, OpeningEvent(items[0].encoding), Events(items[0]) + tail);
        NestedTreeCopied(add, st, items[0], tail);
      }
      NestedItemsCopied(add, next, items[1..], rest);
      assert next.output + EncodeItems(items[1..]) == st.output + EncodeItems(items);
    }
  }

  lemma {:induction false} NestedTreeCopied(add: Additions, st: State, t: Tree, rest: seq<Event>)
    ensures RewriteLoop(add, st.(output := [], stack := st.stack + [st.output]), Events(t) + rest)
         == RewriteLoop(add, st.(output := st.output + [Nested(t.encoding == ComponentEncoding, Encode(t))]), rest)
    decreases t, 0
  {
    hide RewriteLoop;
    hide ItemEvents;
    hide EncodeItems;
    hide RewriteSection;
    var inner := st.(output := [], stack := st.stack + [st.output]);
    var started := inner.(output := [Header(t.encoding)]);
    assert [] + [Header(t.encoding)] == [Header(t.encoding)];
    var afterVersion := ItemEvents(t.items) + ([End] + rest);
    assert Events(t) + rest == [Version(t.encoding)] + afterVersion;
    LoopOne(add, inner, Version(t.encoding), afterVersion);
    NestedItemsCopied(add, started, t.items, [End] + rest);
    var full := started.(output := Encode(t));
    LoopOne(add, full, End, rest);
    assert full.stack[..|full.stack| - 1] == st.stack;
  }

  /** The state after the first item of the outermost binary, if it can be rewritten. */
  function AfterItem(add: Additions, st: State, item: Item): State {
    if item.Sec? then
      State(st.output + [if RewriteSection(add, item.section).Ok? then Raw(RewriteSection(add, item.section).value)
                         else PieceOf(item)],
            [], st.producersFound || ProducersFound(item.section), st.namesFound || IsNames(item.section))
    else st.(output := st.output + [PieceOf(item)])
  }

  lemma FirstRewritten(add: Additions, items: seq<Item>)
    requires items != []
    ensures var first := items[0].Sec? ==> RewriteSection(add, items[0].section).Ok?;
            var r, rest := RewriteItems(add, items), RewriteItems(add, items[1..]);
            && (r.Ok? <==> first && rest.Ok?)
            && (r.Ok? ==>
                  var item := if items[0].Sec? then Sec(RewriteSection(add, items[0].section).value) else items[0];
                  r.value == [item] + rest.value)
    ensures HasProducers(items) == ((items[0].Sec? && ProducersFound(items[0].section)) || HasProducers(items[1..]))
    ensures HasNames(items) == ((items[0].Sec? && IsNames(items[0].section)) || HasNames(items[1..]))
  {
    hide RewriteSection;
  }

  lemma NothingRewritten(add: Additions)
    ensures RewriteItems(add, []) == Ok([]) && !HasProducers([]) && !HasNames([])
  {
  }

  /** At the outermost level the sections are rewritten one by one. */
  lemma {:induction false} OuterItemsRewritten(add: Additions, st: State, items: seq<Item>, rest: seq<Event>)
    requires st.stack == []
    ensures RewriteItems(add, items).Ok? ==>
              RewriteLoop(add, st, ItemEvents(items) + rest) ==
              RewriteLoop(add, State(st.output + EncodeItems(RewriteItems(add, items).value), [],
                                     st.producersFound || HasProducers(items), st.namesFound || HasNames(items)), rest)
    ensures RewriteItems(add, items).Err? ==> RewriteLoop(add, st, ItemEvents(items) + rest).Err?
    decreases items
  {
    hide RewriteLoop;
    hide ItemEvents;
    hide EncodeItems;
    hide Events;
    hide RewriteSection;
    hide RewriteItems;
    hide HasProducers;
    hide HasNames;
    hide IsNames;
    hide ProducersFound;
    if items == [] {
      NoItems(rest);
      NothingRewritten(add);
      assert st.output + [] == st.output;
    } else {
      FirstItem(items, rest);
      FirstRewritten(add, items);
      var tail := ItemEvents(items[1..]) + rest;
      var next := AfterItem(add, st, items[0]);
      if items[0].Sec? {
        LoopOne(add, st, SectionEvent(items[0].section), tail);
      } else {
        LoopOne(add, st, OpeningEvent(items[0].encoding), Events(items[0]) + tail);
        NestedTreeCopied(add, st, items[0], tail);
      }
      OuterItemsRewritten(add, next, items[1..], rest);
      var r := RewriteItems(add, items);
      if r.Ok? {
        FirstItem(r.value, []);
        assert r.value[1..] == RewriteItems(add, items[1..]).value;
        OneAtATime(st.output, PieceOf(r.value[0]), EncodeItems(r.value[1..]));
      }
    }
  }

  lemma OneAtATime(a: seq<Piece>, x: Piece, b: seq<Piece>)
    ensures (a + [x]) + b == a + ([x] + b)
  {
  }

  const Start := State([], [], false, false)

  /** Everything appended after the loop. */
  function Finish(add: Additions, st: State): seq<Piece> {
    st.output + EncodeItems(Appended(add, if StartsWithComponent(st.output) then ComponentEncoding else ModuleEncoding,
                                     st.namesFound, st.producersFound))
  }

  /** The streaming rewriter writes exactly the rewritten tree, or both fail. */
  lemma RewriteLoopIsRewriteTree(add: Additions, t: Tree)
    ensures RewriteTree(add, t).Err? <==> RewriteLoop(add, Start, Events(t)).Err?
    ensures RewriteTree(add, t).Ok? ==>
              Finish(add, RewriteLoop(add, Start, Events(t)).value) == Encode(RewriteTree(add, t).value)
  {
    hide RewriteSection;
    hide RewriteItems;
    hide RewriteLoop;
    hide ItemEvents;
    hide EncodeItems;
    hide Appended;
    hide HasNames;
    hide HasProducers;
    var started := Start.(output := [Header(t.encoding)]);
    assert [] + [Header(t.encoding)] == [Header(t.encoding)];
    var inside := ItemEvents(t.items) + [End];
    assert Events(t) == [Version(t.encoding)] + inside;
    LoopOne(add, Start, Version(t.encoding), inside);
    OuterItemsRewritten(add, started, t.items, [End]);
    var r := RewriteItems(add, t.items);
    if r.Ok? {
      var st := State(started.output + EncodeItems(r.value), [], HasProducers(t.items), HasNames(t.items));
      assert [End] + [] == [End];
      LoopOne(add, st, End, []);
      var appended := Appended(add, t.encoding, HasNames(t.items), HasProducers(t.items));
      EncodeItemsAppend(r.value, appended);
      assert StartsWithComponent(st.output) <==> t.encoding == ComponentEncoding;
      assert Finish(add, st) == st.output + EncodeItems(appended);
      assert st.output + EncodeItems(appended) == [Header(t.encoding)] + (EncodeItems(r.value) + EncodeItems(appended));
    }
  }

  // ----- what becomes of each section, on the lists themselves -----

  /** The title is the added one or else the last one; all other names follow, in order. */
  ghost predicate NamesRewritten(add: Option<string>, before: seq<NameSub>, after: seq<NameSub>) {
    exists had: Option<string> ::
      && TitleIs(before, had)
      && var title := if add.Some? then add else had;
         after == (if title.Some? then [Title(title.value)] else []) + Select(before, (n: NameSub) => n.Names?)
  }

  /** Added values replace those of the same field and name; all others stay. */
  ghost predicate ProducersRewritten(add: Fields, before: Fields, after: Fields) {
    && WellFormed(after)
    && (WellFormed(add) ==>
          forall f, n :: Lookup(after, f, n)
                      == if Lookup(add, f, n).Some? then Lookup(add, f, n) else Lookup(FromSection(before), f, n))
  }

  ghost predicate SectionRewritten(add: Additions, before: Section, after: Section) {
    if before.Custom? && before.name in {"name", "component-name"} then
      && before.data.NamesData? && after.Custom? && after.name == before.name && after.data.NamesData?
      && NamesRewritten(add.name, before.data.subs, after.data.subs)
    else if before.Custom? && before.name == "producers" && before.data.ProducersData? then
      && after.Custom? && after.name == before.name && after.data.ProducersData?
      && ProducersRewritten(add.producers, before.data.fields, after.data.fields)
    else after == before
  }

  /** A section that stops the rewriter; a text that is to be replaced is not looked at. */
  predicate Unreadable(add: Additions, s: Section) {
    && s.Custom?
    && (|| (s.name in {"name", "component-name"} && !s.data.NamesData?)
        || (s.name == "producers" && s.data.Truncated?)
        || (IsTextName(s.name) && GuardFor(s.name) !in add.texts && !s.data.Text?))
  }

  lemma {:induction false} KnownSubsIs(subs: seq<NameSub>)
    ensures KnownSubs(subs) == Select(subs, (n: NameSub) => n.Names?)
  {
    if subs != [] {
      KnownSubsIs(subs[1..]);
    }
  }

  lemma NamesAreRewritten(add: Option<string>, subs: seq<NameSub>)
    ensures NamesRewritten(add, subs, WriteNames(MergeNames(ReadNames(subs), add)))
  {
    NamesRead(subs);
    KnownSubsIs(ReadNames(subs).others);
    assert TitleIs(subs, ReadNames(subs).title);
  }

  lemma ProducersAreRewritten(add: Fields, before: Fields)
    ensures ProducersRewritten(add, before, Merge(FromSection(before), add))
  {
    FromSectionWellFormed(before);
    MergeWellFormed(FromSection(before), add);
    if WellFormed(add) {
      forall f, n
        ensures Lookup(Merge(FromSection(before), add), f, n)
             == if Lookup(add, f, n).Some? then Lookup(add, f, n) else Lookup(FromSection(before), f, n)
      {
        MergeLookup(FromSection(before), add, f, n);
      }
    }
  }

  lemma SectionIsRewritten(add: Additions, s: Section)
    ensures RewriteSection(add, s).Err? <==> Unreadable(add, s)
    ensures RewriteSection(add, s).Ok? ==> SectionRewritten(add, s, RewriteSection(add, s).value)
  {
    hide NamesRewritten;
    hide ProducersRewritten;
    hide WriteNames;
    hide Merge;
    hide FromSection;
    if s.Custom? && s.data.NamesData? {
      NamesAreRewritten(add.name, s.data.subs);
    }
    if s.Custom? && s.data.ProducersData? {
      ProducersAreRewritten(add.producers, s.data.fields);
    }
  }

  ghost predicate ItemRewritten(add: Additions, before: Item, after: Item) {
    if before.Sec? then after.Sec? && SectionRewritten(add, before.section, after.section) else after == before
  }

  predicate StopsAt(add: Additions, item: Item) {
    item.Sec? && Unreadable(add, item.section)
  }

  /** Every section of the outermost binary stays in its place, and the first unreadable one stops the rewriter. */
  lemma {:induction false} SectionsInPlace(add: Additions, items: seq<Item>)
    ensures RewriteItems(add, items).Err? <==> exists i :: 0 <= i < |items| && StopsAt(add, items[i])
    ensures RewriteItems(add, items).Ok? ==>
              && |RewriteItems(add, items).value| == |items|
              && forall i :: 0 <= i < |items| ==> ItemRewritten(add, items[i], RewriteItems(add, items).value[i])
  {
    hide SectionRewritten;
    hide RewriteSection;
    if items != [] {
      SectionsInPlace(add, items[1..]);
      if items[0].Sec? {
        SectionIsRewritten(add, items[0].section);
      }
      if StopsAt(add, items[0]) {
      } else if i :| 0 <= i < |items[1..]| && StopsAt(add, items[1..][i]) {
        assert items[i + 1] == items[1..][i];
      } else {
        forall i | 0 <= i < |items|
          ensures !StopsAt(add, items[i])
        {
          assert i > 0 ==> items[i] == items[1..][i - 1];
        }
        var r, rest := RewriteItems(add, items).value, RewriteItems(add, items[1..]).value;
        forall i | 0 <= i < |items|
          ensures ItemRewritten(add, items[i], r[i])
        {
          assert i > 0 ==> items[i] == items[1..][i - 1] && r[i] == rest[i - 1];
        }
      }
    }
  }

  /** What a piece of the output is, compared to the item in its place. */
  ghost predicate PieceRewritten(add: Additions, before: Item, after: Piece) {
    if before.Sec? then after.Raw? && SectionRewritten(add, before.section, after.section)
    else after == Nested(before.encoding == ComponentEncoding, Encode(before))
  }

  lemma {:induction false} EncodedInPlace(items: seq<Item>, i: nat)
    requires i < |items|
    ensures i < |EncodeItems(items)| == |items| && EncodeItems(items)[i] == PieceOf(items[i])
  {
    if i > 0 {
      EncodedInPlace(items[1..], i - 1);
    } else if |items| > 1 {
      EncodedInPlace(items[1..], 0);
    }
  }

  lemma PiecesInPlace(add: Additions, t: Tree)
    ensures RewriteTree(add, t).Err? <==> exists i :: 0 <= i < |t.items| && StopsAt(add, t.items[i])
    ensures RewriteTree(add, t).Ok? ==>
              var out := Encode(RewriteTree(add, t).value);
              && |out| > |t.items| && out[0] == Header(t.encoding)
              && forall i :: 0 <= i < |t.items| ==> PieceRewritten(add, t.items[i], out[i + 1])
  {
    hide SectionRewritten;
    hide Appended;
    SectionsInPlace(add, t.items);
    if RewriteTree(add, t).Ok? {
      var items, now := RewriteItems(add, t.items).value, RewriteTree(add, t).value.items;
      var out := Encode(RewriteTree(add, t).value);
      if now != [] {
        EncodedInPlace(now, 0);
      }
      forall i | 0 <= i < |t.items|
        ensures PieceRewritten(add, t.items[i], out[i + 1])
      {
        EncodedInPlace(now, i);
        assert now[i] == items[i] && ItemRewritten(add, t.items[i], items[i]);
        assert out[i + 1] == EncodeItems(now)[i];
      }
    }
  }

  /** The rewriter as it is written. */
  method Rewrite(add: Additions, t: Tree) returns (r: Result<seq<Piece>, Error>)
    ensures r.Ok? <==> RewriteTree(add, t).Ok?
    ensures r.Ok? ==> r.value == Encode(RewriteTree(add, t).value)
    ensures r.Err? <==> exists i :: 0 <= i < |t.items| && StopsAt(add, t.items[i])
    ensures r.Ok? ==>
              && |r.value| > |t.items| && r.value[0] == Header(t.encoding)
              && forall i :: 0 <= i < |t.items| ==> PieceRewritten(add, t.items[i], r.value[i + 1])
  {
    hide PieceRewritten;
    hide RewriteTree;
    hide Encode;
    PiecesInPlace(add, t);
    RewriteLoopIsRewriteTree(add, t);
    var events := Events(t);
    var st := Start;
    var i := 0;
    while i < |events|
      invariant 0 <= i <= |events|
      invariant RewriteLoop(add, st, events[i..]) == RewriteLoop(add, Start, events)
    {
      assert events[i..][0] == events[i] && events[i..][1..] == events[i + 1..];
      var step := RewriteEvent(add, st, events[i]);
      if step.Fail? {
        return Err(step.error);
      }
      if step.Break? {
        break;
      }
      st := step.state;
      i := i + 1;
    }
    return Ok(Finish(add, st));
  }
}
