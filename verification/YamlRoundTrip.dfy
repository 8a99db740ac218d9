/**
 Printing a value and parsing the text again. For every value of the supported shape the
 outcome is computed exactly (`ReadBack`); it is the value itself if and only if every leaf
 satisfies `LeafReadsBack`.
 */
module YamlRoundTrip {
  import opened PyText
  import opened YamlScalar
  import opened YamlParser
  import opened YamlDumper

  // ----- the values in question

  /** Keys the printer writes as they are: no colon, hash, quote, marker or outer white space. */
  predicate KeyOk(k: string) {
    && Stripped(k) && NoBreaks(k) && Plain(k) && ':' !in k
    && !StartsWith(k, "- ") && !StartsWith(k, "---") && !StartsWith(k, "...")
  }

  predicate DistinctKeys(es: seq<Entry>) {
    forall i, j :: 0 <= i < j < |es| ==> es[i].key != es[j].key
  }

  /** Strings on one line, printable integers, printable keys without repetition, no list directly in a list. */
  predicate Shaped(v: Value, inList: bool)
    decreases v
  {
    match v
    case Float(_) => false
    case Int(n) => Printable(n)
    case Str(s) => NoBreaks(s)
    case List(items) => (inList ==> items == []) && forall i :: 0 <= i < |items| ==> Shaped(items[i], true)
    case Map(es) => DistinctKeys(es) && forall i :: 0 <= i < |es| ==> KeyOk(es[i].key) && Shaped(es[i].value, false)
    case _ => true
  }

  /** Every leaf survives being written and read. */
  predicate LeavesReadBack(v: Value, inList: bool)
    decreases v
  {
    match v
    case List(items) => forall i :: 0 <= i < |items| ==> LeavesReadBack(items[i], true)
    case Map(es) => forall i :: 0 <= i < |es| ==> LeavesReadBack(es[i].value, false)
    case _ => LeafReadsBack(v, inList)
  }

  /** Strings without double quotes that are quoted when printed or look like nothing else. */
  predicate Tidy(v: Value, inList: bool)
    decreases v
  {
    match v
    case Str(s) => '"' !in s && (NeedsQuotes(s) || PlainReadsBack(s, inList))
    case List(items) => forall i :: 0 <= i < |items| ==> Tidy(items[i], true)
    case Map(es) => forall i :: 0 <= i < |es| ==> Tidy(es[i].value, false)
    case _ => true
  }

  lemma {:induction false} TidyReadsBack(v: Value, inList: bool)
    requires Tidy(v, inList)
    ensures LeavesReadBack(v, inList)
  {
    match v
    case Str(s) => UnquotedIsCovered(s);
    case List(items) =>
      forall i | 0 <= i < |items| ensures LeavesReadBack(items[i], true) {
        TidyReadsBack(items[i], true);
      }
    case Map(es) =>
      forall i | 0 <= i < |es| ensures LeavesReadBack(es[i].value, false) {
        TidyReadsBack(es[i].value, false);
      }
    case _ =>
  }

  /** What the parser makes of the printed value. */
  function ReadBack(repr: Value -> string, v: Value, inList: bool): Value
    decreases v, 1
  {
    if !v.IsBlock() then ReadLeaf(DumpScalar(repr, v), inList)
    else if v.Map? then Map(ReadEntries(repr, v.entries))
    else List(ReadItems(repr, v.items))
  }

  function ReadEntries(repr: Value -> string, es: seq<Entry>): (r: seq<Entry>)
    ensures |r| == |es|
    decreases es, 0
  {
    if es == [] then [] else [Entry(es[0].key, ReadBack(repr, es[0].value, false))] + ReadEntries(repr, es[1..])
  }

  function ReadItems(repr: Value -> string, items: seq<Value>): (r: seq<Value>)
    ensures |r| == |items|
    decreases items, 0
  {
    if items == [] then [] else [ReadBack(repr, items[0], true)] + ReadItems(repr, items[1..])
  }

  lemma {:induction false} ReadEntriesAt(repr: Value -> string, es: seq<Entry>, i: nat)
    requires i < |es|
    ensures ReadEntries(repr, es)[i] == Entry(es[i].key, ReadBack(repr, es[i].value, false))
  {
    if i > 0 {
      ReadEntriesAt(repr, es[1..], i - 1);
    }
  }

  lemma {:induction false} ReadItemsAt(repr: Value -> string, items: seq<Value>, i: nat)
    requires i < |items|
    ensures ReadItems(repr, items)[i] == ReadBack(repr, items[i], true)
  {
    if i > 0 {
      ReadItemsAt(repr, items[1..], i - 1);
    }
  }

  lemma {:induction false} ReadBackIdentity(repr: Value -> string, v: Value, inList: bool)
    requires Shaped(v, inList)
    ensures ReadBack(repr, v, inList) == v <==> LeavesReadBack(v, inList)
    decreases v
  {
    if !v.IsBlock() {
      LeafRoundTrip(repr, v, inList);
    } else if v.Map? {
      var r := ReadEntries(repr, v.entries);
      forall i | 0 <= i < |v.entries| ensures r[i] == v.entries[i] <==> LeavesReadBack(v.entries[i].value, false) {
        ReadEntriesAt(repr, v.entries, i);
        ReadBackIdentity(repr, v.entries[i].value, false);
      }
      if LeavesReadBack(v, inList) {
        assert r == v.entries;
      }
    } else {
      var r := ReadItems(repr, v.items);
      forall i | 0 <= i < |v.items| ensures r[i] == v.items[i] <==> LeavesReadBack(v.items[i], true) {
        ReadItemsAt(repr, v.items, i);
        ReadBackIdentity(repr, v.items[i], true);
      }
      if LeavesReadBack(v, inList) {
        assert r == v.items;
      }
    }
  }

  // ----- the line layer

  /** The cleaned lines of a mapping's text. */
  function MapLines(repr: Value -> string, es: seq<Entry>, indent: nat): seq<Line>
    decreases es, 0
  {
    if es == [] then [] else EntryLines(repr, es[0], indent) + MapLines(repr, es[1..], indent)
  }

  function EntryLines(repr: Value -> string, e: Entry, indent: nat): (r: seq<Line>)
    ensures r != [] && r[0].indent == indent
    decreases e, 2
  {
    if e.value.IsBlock() then [Line(indent, e.key + ":")] + BlockLines(repr, e.value, indent + 2)
    else [Line(indent, e.key + ": " + Cut(DumpScalar(repr, e.value)))]
  }

  function ItemLines(repr: Value -> string, item: Value, indent: nat): (r: seq<Line>)
    ensures r != [] && r[0].indent == indent && IsItem(r[0].text)
    decreases item, 2
  {
    if item.Map? && item.IsBlock() then
      var block := BlockLines(repr, item, indent + 2);
      [Line(indent, "- " + block[0].text)] + block[1..]
    else [Line(indent, "- " + Cut(DumpScalar(repr, item)))]
  }

  function ListLines(repr: Value -> string, items: seq<Value>, indent: nat): seq<Line>
    decreases items, 0
  {
    if items == [] then [] else ItemLines(repr, items[0], indent) + ListLines(repr, items[1..], indent)
  }

  function BlockLines(repr: Value -> string, v: Value, indent: nat): (r: seq<Line>)
    requires v.IsBlock()
    ensures r != [] && r[0].indent == indent
    decreases v, 1
  {
    if v.Map? then MapLines(repr, v.entries, indent) else ListLines(repr, v.items, indent)
  }

  predicate AtLeast(ls: seq<Line>, indent: nat) {
    forall i :: 0 <= i < |ls| ==> ls[i].indent >= indent
  }

  lemma {:induction false} BlockDeep(repr: Value -> string, v: Value, indent: nat)
    requires v.IsBlock()
    ensures AtLeast(BlockLines(repr, v, indent), indent)
    decreases v, 1
  {
    if v.Map? {
      MapDeep(repr, v.entries, indent);
    } else {
      ListDeep(repr, v.items, indent);
    }
  }

  lemma {:induction false} MapDeep(repr: Value -> string, es: seq<Entry>, indent: nat)
    ensures AtLeast(MapLines(repr, es, indent), indent)
    decreases es, 0
  {
    if es != [] {
      MapDeep(repr, es[1..], indent);
      if es[0].value.IsBlock() {
        BlockDeep(repr, es[0].value, indent + 2);
      }
    }
  }

  lemma {:induction false} ListDeep(repr: Value -> string, items: seq<Value>, indent: nat)
    ensures AtLeast(ListLines(repr, items, indent), indent)
    decreases items, 0
  {
    if items != [] {
      ListDeep(repr, items[1..], indent);
      if items[0].Map? && items[0].IsBlock() {
        BlockDeep(repr, items[0], indent + 2);
      }
    }
  }

  /** Lines after a block that the block's readers leave alone. */
  predicate Closes(post: seq<Line>, indent: nat) {
    post != [] ==> post[0].indent < indent
  }

  // What a leaf's line says, cut out of its context.

  lemma {:induction false} ColonAfterKey(k: string, tail: string)
    requires ':' !in k
    ensures ColonAt(k + ":" + tail) == |k|
  {
    var t := k + ":" + tail;
    assert t[|k|] == ':';
    if k != "" {
      assert t[0] == k[0] && k[0] in k;
      assert t[1..] == k[1..] + ":" + tail;
      ColonAfterKey(k[1..], tail);
    }
  }

  lemma HeaderLine(k: string)
    requires KeyOk(k)
    ensures var t := k + ":"; ':' in t && KeyOf(t) == k && RestOf(t) == "" && !IsItem(t)
  {
    var t := k + ":";
    assert t == k + ":" + "";
    ColonAfterKey(k, "");
    assert t[..|k|] == k && t[|k| + 1..] == "";
    StripFacts(k);
    KeyNoItem(k, ":");
  }

  lemma KeyNoItem(k: string, tail: string)
    requires KeyOk(k) && tail != "" && tail[0] == ':'
    ensures !IsItem(k + tail)
  {
    var t := k + tail;
    if |k| >= 2 {
      assert t[..2] == k[..2];
    } else {
      assert t[|k|] == ':';
    }
  }

  lemma LeafLine(k: string, c: string)
    requires KeyOk(k) && c != "" && Stripped(c)
    ensures var t := k + ": " + c; ':' in t && KeyOf(t) == k && RestOf(t) == c && !IsItem(t)
  {
    LeafKey(k, " " + c);
    StripBlank(c);
    KeyNoItem(k, ": " + c);
    ColonSpaced(k, c);
  }

  lemma ColonSpaced(k: string, c: string)
    ensures k + ": " + c == k + ":" + (" " + c)
    ensures k + ": " + c == k + (": " + c)
  {
  }

  lemma LeafKey(k: string, tail: string)
    requires KeyOk(k)
    ensures var t := k + ":" + tail; ':' in t && KeyOf(t) == k && RestOf(t) == Strip(tail)
  {
    var t := k + ":" + tail;
    ColonAfterKey(k, tail);
    assert t[..|k|] == k && t[|k| + 1..] == tail;
    StripFacts(k);
  }

  lemma StripBlank(c: string)
    requires c != "" && Stripped(c)
    ensures Strip(" " + c) == c
  {
    assert Spaces(1) == " ";
    StripIndented(1, c);
    RStripFacts(c);
  }

  lemma {:induction false} PutNew(acc: seq<Entry>, e: Entry)
    requires forall i :: 0 <= i < |acc| ==> acc[i].key != e.key
    ensures Put(acc, e.key, e.value) == acc + [e]
  {
    if acc != [] {
      PutNew(acc[1..], e);
    }
  }

  // Single steps of the readers, on lines of the printed form.

  lemma EntryHeaderStep(k: string, block: seq<Line>, v: Value, indent: nat, post: seq<Line>)
    requires KeyOk(k) && block != [] && block[0].indent == indent + 2
    requires BlockFrom(false, block + post, indent + 2) == Ok(v, post)
    ensures EntryFrom(false, [Line(indent, k + ":")] + block + post, indent) == EntryOk(Entry(k, v), post)
  {
    var ls := [Line(indent, k + ":")] + block + post;
    HeaderLine(k);
    Headed(ls[0], block, post);
    HeaderEntry(k, ls, v, indent, post);
  }

  lemma Headed<T>(x: T, block: seq<T>, post: seq<T>)
    requires block != []
    ensures var ls := [x] + block + post; |ls| > 1 && ls[0] == x && ls[1..] == block + post && ls[1] == block[0]
  {
  }

  lemma HeaderEntry(k: string, ls: seq<Line>, v: Value, indent: nat, post: seq<Line>)
    requires |ls| > 1 && ls[0].indent == indent && ls[1].indent == indent + 2
    requires var t := ls[0].text; ':' in t && KeyOf(t) == k && RestOf(t) == "" && !IsItem(t)
    requires BlockFrom(false, ls[1..], indent + 2) == Ok(v, post)
    ensures EntryFrom(false, ls, indent) == EntryOk(Entry(k, v), post)
  {
    assert !IsBlockHeader("");
  }

  lemma EntryLeafStep(k: string, c: string, indent: nat, post: seq<Line>)
    requires KeyOk(k) && c != "" && Stripped(c) && Closes(post, indent + 1)
    ensures EntryFrom(false, [Line(indent, k + ": " + c)] + post, indent)
         == EntryOk(Entry(k, if IsBlockHeader(c) then Str("") else Scalar(c)), post)
  {
    var ls := [Line(indent, k + ": " + c)] + post;
    LeafLine(k, c);
    assert ls[1..] == post;
    assert Deeper(post, indent) == 0;
    assert ls[1..1] == [];
    EmptyBlockScalar(c);
  }

  lemma EmptyBlockScalar(header: string)
    ensures BlockScalar(header, []) == ""
  {
    assert Texts([]) == [];
  }

  lemma MapStep(first: seq<Line>, rest: seq<Line>, indent: nat, acc: seq<Entry>, e: Entry)
    requires first != [] && first[0].indent == indent
    requires EntryFrom(false, first + rest, indent) == EntryOk(e, rest)
    requires forall i :: 0 <= i < |acc| ==> acc[i].key != e.key
    ensures MapFrom(false, first + rest, indent, acc) == MapFrom(false, rest, indent, acc + [e])
  {
    PutNew(acc, e);
  }

  lemma MapStop(post: seq<Line>, indent: nat, acc: seq<Entry>)
    requires Closes(post, indent)
    ensures MapFrom(false, post, indent, acc) == Ok(Map(acc), post)
  {
  }

  lemma ItemMapStep(block: seq<Line>, v: Value, indent: nat, post: seq<Line>)
    requires block != [] && block[0].indent == indent + 2 && AtLeast(block, indent + 1) && Closes(post, indent + 1)
    requires block[0].text != "" && Stripped(block[0].text) && StartsMapping(block[0].text)
    requires MapFrom(false, block, indent + 2, []) == Ok(v, [])
    ensures ItemFrom(false, [Line(indent, "- " + block[0].text)] + block[1..] + post, indent) == Ok(v, post)
  {
    var ls := [Line(indent, "- " + block[0].text)] + block[1..] + post;
    DashLine(block[0].text);
    DeeperExactly(block[1..], post, indent);
    Cuts(ls[0], block, post);
    assert [Line(indent + 2, block[0].text)] + block[1..] == block;
    MappingItem(ls, indent, block[0].text, block, post);
  }

  lemma Cuts<T>(l: T, block: seq<T>, post: seq<T>)
    requires block != []
    ensures var ls := [l] + block[1..] + post; ls[0] == l && ls[1..] == block[1..] + post && ls[1..|block|] == block[1..] && ls[|block|..] == post
  {
  }

  lemma ItemLeafStep(c: string, indent: nat, post: seq<Line>)
    requires c != "" && Stripped(c) && !StartsMapping(c)
    ensures ItemFrom(false, [Line(indent, "- " + c)] + post, indent) == Ok(Scalar(c), post)
  {
    var ls := [Line(indent, "- " + c)] + post;
    DashLine(c);
    assert ls[1..] == post;
  }

  lemma ListStep(first: seq<Line>, rest: seq<Line>, indent: nat, acc: seq<Value>, v: Value)
    requires first != [] && first[0].indent == indent && IsItem(first[0].text)
    requires ItemFrom(false, first + rest, indent) == Ok(v, rest)
    ensures ListFrom(false, first + rest, indent, acc) == ListFrom(false, rest, indent, acc + [v])
  {
  }

  lemma ListStop(post: seq<Line>, indent: nat, acc: seq<Value>)
    requires Closes(post, indent)
    ensures ListFrom(false, post, indent, acc) == Ok(List(acc), post)
  {
  }

  // The printed form of a whole value.

  /** Reading a printed entry gives its key and what its value reads back as. */
  lemma {:induction false} EntryReadBack(repr: Value -> string, e: Entry, indent: nat, post: seq<Line>)
    requires KeyOk(e.key) && Shaped(e.value, false) && Closes(post, indent + 1)
    ensures EntryFrom(false, EntryLines(repr, e, indent) + post, indent)
         == EntryOk(Entry(e.key, ReadBack(repr, e.value, false)), post)
    decreases e, 3
  {
    if e.value.IsBlock() {
      BlockReadBack(repr, e.value, indent + 2, false, post);
      EntryHeaderStep(e.key, BlockLines(repr, e.value, indent + 2), ReadBack(repr, e.value, false), indent, post);
    } else {
      var tok := DumpScalar(repr, e.value);
      LeafRoundTrip(repr, e.value, false);
      CutFacts(tok);
      EntryLeafStep(e.key, Cut(tok), indent, post);
    }
  }

  predicate EntriesOk(es: seq<Entry>) {
    DistinctKeys(es) && forall i :: 0 <= i < |es| ==> KeyOk(es[i].key) && Shaped(es[i].value, false)
  }

  predicate KeysApart(acc: seq<Entry>, es: seq<Entry>) {
    forall i, j :: 0 <= i < |acc| && 0 <= j < |es| ==> acc[i].key != es[j].key
  }

  lemma NextKeysApart(acc: seq<Entry>, es: seq<Entry>, e: Entry)
    requires es != [] && e.key == es[0].key && EntriesOk(es) && KeysApart(acc, es)
    ensures EntriesOk(es[1..]) && KeysApart(acc + [e], es[1..])
    ensures forall i :: 0 <= i < |acc| ==> acc[i].key != e.key
    ensures KeyOk(es[0].key) && Shaped(es[0].value, false)
  {
  }

  lemma {:induction false} MapReadBack(repr: Value -> string, es: seq<Entry>, indent: nat, acc: seq<Entry>, post: seq<Line>)
    requires EntriesOk(es) && KeysApart(acc, es) && Closes(post, indent)
    ensures MapFrom(false, MapLines(repr, es, indent) + post, indent, acc) == Ok(Map(acc + ReadEntries(repr, es)), post)
    decreases es, 4
  {
    if es == [] {
      assert MapLines(repr, es, indent) + post == post;
      assert acc + ReadEntries(repr, es) == acc;
      MapStop(post, indent, acc);
    } else {
      var first, rest := EntryLines(repr, es[0], indent), MapLines(repr, es[1..], indent) + post;
      var e := Entry(es[0].key, ReadBack(repr, es[0].value, false));
      MapUnfold(repr, es, indent, post);
      NextKeysApart(acc, es, e);
      EntryReadBack(repr, es[0], indent, rest);
      MapStep(first, rest, indent, acc, e);
      MapReadBack(repr, es[1..], indent, acc + [e], post);
      Regroup(acc, e, ReadEntries(repr, es[1..]));
    }
  }

  lemma MapUnfold(repr: Value -> string, es: seq<Entry>, indent: nat, post: seq<Line>)
    requires es != [] && Closes(post, indent)
    ensures var first, rest := EntryLines(repr, es[0], indent), MapLines(repr, es[1..], indent) + post;
            && MapLines(repr, es, indent) + post == first + rest
            && Closes(rest, indent + 1)
  {
    MapCloses(repr, es[1..], indent, post);
    Shift(EntryLines(repr, es[0], indent), MapLines(repr, es[1..], indent), post);
  }

  lemma MapCloses(repr: Value -> string, es: seq<Entry>, indent: nat, post: seq<Line>)
    requires Closes(post, indent)
    ensures Closes(MapLines(repr, es, indent) + post, indent + 1)
  {
    if es == [] {
      assert MapLines(repr, es, indent) + post == post;
    }
  }

  lemma ListCloses(repr: Value -> string, items: seq<Value>, indent: nat, post: seq<Line>)
    requires Closes(post, indent)
    ensures Closes(ListLines(repr, items, indent) + post, indent + 1)
  {
    if items == [] {
      assert ListLines(repr, items, indent) + post == post;
    }
  }

  lemma DashLine(c: string)
    requires c != "" && Stripped(c)
    ensures Strip(("- " + c)[2..]) == c
  {
    assert ("- " + c)[2..] == c;
    StripFacts(c);
  }

  lemma FirstEntryLine(repr: Value -> string, v: Value, indent: nat)
    requires v.Map? && v.IsBlock()
    ensures BlockLines(repr, v, indent)[0] == EntryLines(repr, v.entries[0], indent)[0]
  {
    var first, rest := EntryLines(repr, v.entries[0], indent), MapLines(repr, v.entries[1..], indent);
    assert MapLines(repr, v.entries, indent) == first + rest;
    assert BlockLines(repr, v, indent) == MapLines(repr, v.entries, indent);
  }

  /** The first line of a printed mapping, as it stands after the dash. */
  lemma FirstLineMaps(repr: Value -> string, item: Value, indent: nat)
    requires item.Map? && item.IsBlock() && Shaped(item, true)
    ensures var t := BlockLines(repr, item, indent)[0].text; t != "" && Stripped(t) && StartsMapping(t)
  {
    var e := item.entries[0];
    var t := BlockLines(repr, item, indent)[0].text;
    FirstEntryLine(repr, item, indent);
    assert KeyOk(e.key) && Shaped(e.value, false);
    if e.value.IsBlock() {
      KeyedMaps(e.key, ":");
    } else {
      var c := Cut(DumpScalar(repr, e.value));
      LeafRoundTrip(repr, e.value, false);
      CutFacts(DumpScalar(repr, e.value));
      KeyedMaps(e.key, ": " + c);
      ColonSpaced(e.key, c);
    }
  }

  lemma KeyedMaps(k: string, tail: string)
    requires KeyOk(k) && tail != "" && tail[0] == ':' && !IsSpace(tail[|tail| - 1])
    ensures var t := k + tail; t != "" && Stripped(t) && StartsMapping(t)
  {
    var t := k + tail;
    assert t[|k|] == ':' && ':' in t;
    assert t[0] == if k == "" then ':' else k[0];
  }

  lemma {:induction false} ItemReadBack(repr: Value -> string, item: Value, indent: nat, post: seq<Line>)
    requires Shaped(item, true) && Closes(post, indent + 1)
    ensures ItemFrom(false, ItemLines(repr, item, indent) + post, indent) == Ok(ReadBack(repr, item, true), post)
    decreases item, 6
  {
    if item.Map? && item.IsBlock() {
      var block := BlockLines(repr, item, indent + 2);
      assert EntriesOk(item.entries);
      MapReadBack(repr, item.entries, indent + 2, [], []);
      NothingAdded(block);
      NothingAdded(ReadEntries(repr, item.entries));
      ItemMapReadBack(repr, item, indent, block, post);
    } else {
      ItemLeafReadBack(repr, item, indent, post);
    }
  }

  lemma ItemMapReadBack(repr: Value -> string, item: Value, indent: nat, block: seq<Line>, post: seq<Line>)
    requires item.Map? && item.IsBlock() && Shaped(item, true) && Closes(post, indent + 1)
    requires block == BlockLines(repr, item, indent + 2) && MapFrom(false, block, indent + 2, []) == Ok(ReadBack(repr, item, true), [])
    ensures ItemFrom(false, ItemLines(repr, item, indent) + post, indent) == Ok(ReadBack(repr, item, true), post)
  {
    FirstLineMaps(repr, item, indent + 2);
    BlockDeep(repr, item, indent + 2);
    ItemMapStep(block, ReadBack(repr, item, true), indent, post);
  }

  lemma NothingAdded<T>(s: seq<T>)
    ensures s + [] == s && [] + s == s
  {
  }

  lemma ItemLeafReadBack(repr: Value -> string, item: Value, indent: nat, post: seq<Line>)
    requires Shaped(item, true) && !(item.Map? && item.IsBlock())
    ensures ItemFrom(false, ItemLines(repr, item, indent) + post, indent) == Ok(ReadBack(repr, item, true), post)
  {
    var tok := DumpScalar(repr, item);
    LeafRoundTrip(repr, item, true);
    CutFacts(tok);
    ItemLeafStep(Cut(tok), indent, post);
  }

  lemma {:induction false} DeeperExactly(block: seq<Line>, post: seq<Line>, indent: nat)
    requires AtLeast(block, indent + 1) && Closes(post, indent + 1)
    ensures Deeper(block + post, indent) == |block|
  {
    if block == [] {
      assert block + post == post;
    } else {
      assert (block + post)[1..] == block[1..] + post;
      DeeperExactly(block[1..], post, indent);
    }
  }

  lemma {:induction false} ListReadBack(repr: Value -> string, items: seq<Value>, indent: nat, acc: seq<Value>, post: seq<Line>)
    requires (forall i :: 0 <= i < |items| ==> Shaped(items[i], true)) && Closes(post, indent)
    ensures ListFrom(false, ListLines(repr, items, indent) + post, indent, acc) == Ok(List(acc + ReadItems(repr, items)), post)
    decreases items, 7
  {
    if items == [] {
      assert ListLines(repr, items, indent) + post == post;
      assert acc + ReadItems(repr, items) == acc;
      ListStop(post, indent, acc);
    } else {
      var first, rest := ItemLines(repr, items[0], indent), ListLines(repr, items[1..], indent) + post;
      Shift(first, ListLines(repr, items[1..], indent), post);
      ListCloses(repr, items[1..], indent, post);
      ItemReadBack(repr, items[0], indent, rest);
      var v := ReadBack(repr, items[0], true);
      ListStep(first, rest, indent, acc, v);
      ListReadBack(repr, items[1..], indent, acc + [v], post);
      Regroup(acc, v, ReadItems(repr, items[1..]));
    }
  }

  /** The line layer: parsing a printed block gives what its leaves read back as. */
  lemma {:induction false} BlockReadBack(repr: Value -> string, v: Value, indent: nat, inList: bool, post: seq<Line>)
    requires v.IsBlock() && Shaped(v, inList) && Closes(post, indent)
    ensures BlockFrom(false, BlockLines(repr, v, indent) + post, indent) == Ok(ReadBack(repr, v, inList), post)
    decreases v, 8
  {
    if v.Map? {
      MapReadBack(repr, v.entries, indent, [], post);
      assert [] + ReadEntries(repr, v.entries) == ReadEntries(repr, v.entries);
      FirstLineNoItem(repr, v, indent);
    } else {
      ListReadBack(repr, v.items, indent, [], post);
      assert [] + ReadItems(repr, v.items) == ReadItems(repr, v.items);
      assert BlockLines(repr, v, indent)[0] == ItemLines(repr, v.items[0], indent)[0];
    }
  }

  lemma FirstLineNoItem(repr: Value -> string, v: Value, indent: nat)
    requires v.Map? && v.IsBlock() && Shaped(v, false)
    ensures !IsItem(BlockLines(repr, v, indent)[0].text)
  {
    var e := v.entries[0];
    var t := BlockLines(repr, v, indent)[0].text;
    FirstEntryLine(repr, v, indent);
    assert KeyOk(e.key);
    if e.value.IsBlock() {
      KeyNoItem(e.key, ":");
    } else {
      KeyNoItem(e.key, ": " + Cut(DumpScalar(repr, e.value)));
      assert t == e.key + (": " + Cut(DumpScalar(repr, e.value)));
    }
  }
}
