/** The text layer: the printed text cleans into the lines of `YamlRoundTrip`, and the round trip. */
module YamlText {
  import opened PyText
  import opened Wrappers
  import opened YamlScalar
  import opened YamlParser
  import opened YamlDumper
  import opened YamlRoundTrip

  // ----- the raw lines of a printed value

  /** An entry's own line, without its indentation. */
  function EntryContent(repr: Value -> string, e: Entry): string {
    if e.value.IsBlock() then e.key + ":" else e.key + ": " + DumpScalar(repr, e.value)
  }

  function RawEntry(repr: Value -> string, e: Entry, indent: nat): (r: seq<string>)
    ensures r != [] && r[0] == Spaces(indent) + EntryContent(repr, e)
    decreases e, 2
  {
    [Spaces(indent) + EntryContent(repr, e)] + if e.value.IsBlock() then RawBlock(repr, e.value, indent + 2) else []
  }

  function RawMap(repr: Value -> string, es: seq<Entry>, indent: nat): seq<string>
    decreases es, 0
  {
    if es == [] then [] else RawEntry(repr, es[0], indent) + RawMap(repr, es[1..], indent)
  }

  function RawItem(repr: Value -> string, item: Value, indent: nat): (r: seq<string>)
    ensures r != []
    decreases item, 2
  {
    if item.Map? && item.IsBlock() then Dashed(indent, RawBlock(repr, item, indent + 2))
    else [Spaces(indent) + ("- " + DumpScalar(repr, item))]
  }

  function RawList(repr: Value -> string, items: seq<Value>, indent: nat): seq<string>
    decreases items, 0
  {
    if items == [] then [] else RawItem(repr, items[0], indent) + RawList(repr, items[1..], indent)
  }

  function RawBlock(repr: Value -> string, v: Value, indent: nat): (r: seq<string>)
    requires v.IsBlock()
    ensures r != []
    decreases v, 1
  {
    if v.Map? then RawMap(repr, v.entries, indent) else RawList(repr, v.items, indent)
  }

  // ----- contents of a line

  /** Something visible that is neither a comment nor a document marker, on one line. */
  predicate Content(c: string) {
    && c != "" && !IsSpace(c[0]) && c[0] != '#' && NoBreaks(c)
    && !StartsWith(c, "---") && !StartsWith(c, "...")
  }

  lemma {:induction false} IndentOfSpaces(n: nat, c: string)
    requires c != "" && c[0] != ' '
    ensures IndentOf(Spaces(n) + c) == n
  {
    if n == 0 {
      assert Spaces(0) + c == c;
    } else {
      assert (Spaces(n) + c)[1..] == Spaces(n - 1) + c;
      IndentOfSpaces(n - 1, c);
    }
  }

  lemma ContentCut(c: string)
    requires Content(c)
    ensures Uncommented(c) != "" && Uncommented(c) <= c && Cut(c) != "" && !IsSpace(Cut(c)[0])
  {
    CommentAtHash(c, 0, false, false);
    RStripFacts(Uncommented(c));
  }

  lemma CleanContent(n: nat, c: string)
    requires Content(c)
    ensures CleanLine(Spaces(n) + c) == Some(Line(n, Cut(c)))
  {
    var u := Uncommented(c);
    ContentCut(c);
    UncommentedAfter(Spaces(n), c);
    StripIndented(n, u);
    LStripSpaces(n, u);
    IndentOfSpaces(n, u);
    NoMarker(u, c);
  }

  lemma NoMarker(u: string, c: string)
    requires u <= c
    ensures StartsWith(u, "---") ==> StartsWith(c, "---")
    ensures StartsWith(u, "...") ==> StartsWith(c, "...")
  {
    if |u| >= 3 {
      assert u[..3] == c[..3];
    }
  }

  lemma DashContent(c: string)
    requires Content(c)
    ensures Content("- " + c) && Cut("- " + c) == "- " + Cut(c)
  {
    ContentCut(c);
    UncommentedAfter("- ", c);
    RStripAppend("- ", Uncommented(c));
    assert ("- " + c)[1] == ' ';
  }

  lemma KeyContent(k: string, tail: string)
    requires KeyOk(k) && tail != "" && tail[0] == ':' && NoBreaks(tail)
    ensures Content(k + tail)
  {
    var t := k + tail;
    assert t[|k|] == ':';
    if |k| >= 3 {
      assert t[..3] == k[..3];
    }
  }

  lemma EntryContentOk(repr: Value -> string, e: Entry)
    requires KeyOk(e.key) && Shaped(e.value, false)
    ensures Content(EntryContent(repr, e))
    ensures Cut(EntryContent(repr, e)) == EntryLines(repr, e, 0)[0].text
  {
    if e.value.IsBlock() {
      var t := e.key + ":";
      KeyContent(e.key, ":");
      NoHashNoComment(t, 0, false, false);
      RStripFacts(t);
    } else {
      LeafRoundTrip(repr, e.value, false);
      LeafContent(e.key, DumpScalar(repr, e.value));
    }
  }

  lemma LeafContent(k: string, tok: string)
    requires KeyOk(k) && TokenOk(tok)
    ensures Content(k + ": " + tok) && Cut(k + ": " + tok) == k + ": " + Cut(tok)
  {
    CutFacts(tok);
    KeyContent(k, ": " + tok);
    assert k + (": " + tok) == k + ": " + tok;
    UncommentedAfter(k + ": ", tok);
    RStripAppend(k + ": ", Uncommented(tok));
  }

  lemma LeafItemOk(repr: Value -> string, item: Value)
    requires Shaped(item, true) && !item.IsBlock()
    ensures Content("- " + DumpScalar(repr, item))
    ensures Cut("- " + DumpScalar(repr, item)) == "- " + Cut(DumpScalar(repr, item))
  {
    LeafRoundTrip(repr, item, true);
    DashToken(DumpScalar(repr, item));
  }

  lemma DashToken(tok: string)
    requires TokenOk(tok)
    ensures Content("- " + tok) && Cut("- " + tok) == "- " + Cut(tok)
  {
    CutFacts(tok);
    UncommentedAfter("- ", tok);
    RStripAppend("- ", Uncommented(tok));
    assert ("- " + tok)[1] == ' ';
  }

  // ----- the raw lines clean into the line layer

  /** Every raw line shows something and holds no line break. */
  predicate RawOk(raws: seq<string>) {
    forall l :: l in raws ==> NoBreaks(l) && l != ""
  }

  lemma IndentedOk(n: nat, c: string)
    requires Content(c)
    ensures NoBreaks(Spaces(n) + c) && Spaces(n) + c != ""
  {
  }

  lemma CleanOne(n: nat, c: string, rest: seq<string>)
    requires Content(c)
    ensures CleanAll([Spaces(n) + c] + rest) == [Line(n, Cut(c))] + CleanAll(rest)
  {
    CleanContent(n, c);
    assert ([Spaces(n) + c] + rest)[1..] == rest;
  }

  lemma {:induction false} EntryCleans(repr: Value -> string, e: Entry, indent: nat)
    requires KeyOk(e.key) && Shaped(e.value, false)
    ensures RawOk(RawEntry(repr, e, indent)) && CleanAll(RawEntry(repr, e, indent)) == EntryLines(repr, e, indent)
    decreases e, 3
  {
    var c := EntryContent(repr, e);
    var below := if e.value.IsBlock() then RawBlock(repr, e.value, indent + 2) else [];
    EntryContentOk(repr, e);
    IndentedOk(indent, c);
    CleanOne(indent, c, below);
    if e.value.IsBlock() {
      BlockCleans(repr, e.value, indent + 2, false);
    }
  }

  lemma {:induction false} MapCleans(repr: Value -> string, es: seq<Entry>, indent: nat)
    requires EntriesOk(es)
    ensures RawOk(RawMap(repr, es, indent)) && CleanAll(RawMap(repr, es, indent)) == MapLines(repr, es, indent)
    decreases es, 4
  {
    if es != [] {
      EntryCleans(repr, es[0], indent);
      assert EntriesOk(es[1..]);
      MapCleans(repr, es[1..], indent);
      CleanAppend(RawEntry(repr, es[0], indent), RawMap(repr, es[1..], indent));
    }
  }

  /** Moving a mapping's first line up to the dash moves its cleaned line the same way. */
  lemma DashedCleans(indent: nat, block: seq<string>, c: string)
    requires block != [] && Content(c) && block[0] == Spaces(indent + 2) + c && RawOk(block)
    ensures RawOk(Dashed(indent, block))
    ensures var ls := CleanAll(block);
            ls != [] && CleanAll(Dashed(indent, block)) == [Line(indent, "- " + ls[0].text)] + ls[1..]
  {
    DashContent(c);
    DashedAs(indent, block, c);
    IndentedOk(indent, "- " + c);
    CleanOne(indent + 2, c, block[1..]);
    CleanOne(indent, "- " + c, block[1..]);
  }

  lemma DashedAs(indent: nat, block: seq<string>, c: string)
    requires block != [] && Content(c) && block[0] == Spaces(indent + 2) + c
    ensures Dashed(indent, block) == [Spaces(indent) + ("- " + c)] + block[1..]
    ensures block == [Spaces(indent + 2) + c] + block[1..]
  {
    LStripSpaces(indent + 2, c);
    Shift(Spaces(indent), "- ", c);
  }

  lemma {:induction false} ItemCleans(repr: Value -> string, item: Value, indent: nat)
    requires Shaped(item, true)
    ensures RawOk(RawItem(repr, item, indent)) && CleanAll(RawItem(repr, item, indent)) == ItemLines(repr, item, indent)
    decreases item, 6
  {
    if item.Map? && item.IsBlock() {
      var block, e := RawBlock(repr, item, indent + 2), item.entries[0];
      assert EntriesOk(item.entries);
      BlockCleans(repr, item, indent + 2, true);
      EntryContentOk(repr, e);
      assert block[0] == RawEntry(repr, e, indent + 2)[0];
      DashedCleans(indent, block, EntryContent(repr, e));
    } else {
      var c := "- " + DumpScalar(repr, item);
      LeafItemOk(repr, item);
      IndentedOk(indent, c);
      CleanOne(indent, c, []);
      assert [Spaces(indent) + c] + [] == [Spaces(indent) + c];
    }
  }

  lemma {:induction false} ListCleans(repr: Value -> string, items: seq<Value>, indent: nat)
    requires forall i :: 0 <= i < |items| ==> Shaped(items[i], true)
    ensures RawOk(RawList(repr, items, indent)) && CleanAll(RawList(repr, items, indent)) == ListLines(repr, items, indent)
    decreases items, 7
  {
    if items != [] {
      ItemCleans(repr, items[0], indent);
      ListCleans(repr, items[1..], indent);
      CleanAppend(RawItem(repr, items[0], indent), RawList(repr, items[1..], indent));
    }
  }

  lemma {:induction false} BlockCleans(repr: Value -> string, v: Value, indent: nat, inList: bool)
    requires v.IsBlock() && Shaped(v, inList)
    ensures RawOk(RawBlock(repr, v, indent)) && CleanAll(RawBlock(repr, v, indent)) == BlockLines(repr, v, indent)
    decreases v, if v.Map? then 5 else 8
  {
    if v.Map? {
      assert EntriesOk(v.entries);
      MapCleans(repr, v.entries, indent);
    } else {
      ListCleans(repr, v.items, indent);
    }
  }

  // ----- the printed text is its raw lines

  /** A nested block, printed and stripped of its last newline, is its lines again. */
  lemma PieceUnlines(raws: seq<string>, rest: seq<string>)
    requires raws != [] && RawOk(raws)
    ensures Unlines([RStripNewlines(Unlines(raws))] + rest) == Unlines(raws) + Unlines(rest)
  {
    RStripUnlines(raws);
    JoinUnlines(raws);
    assert ([Join(raws)] + rest)[1..] == rest;
  }

  lemma {:induction false} EntryText(repr: Value -> string, e: Entry, indent: nat)
    requires KeyOk(e.key) && Shaped(e.value, false)
    ensures Unlines(EntryOut(repr, e, indent)) == Unlines(RawEntry(repr, e, indent))
    decreases e, 3
  {
    if e.value.IsBlock() {
      var raws := RawBlock(repr, e.value, indent + 2);
      BlockText(repr, e.value, indent + 2, false);
      BlockCleans(repr, e.value, indent + 2, false);
      HeadedUnlines(Spaces(indent) + (e.key + ":"), raws);
      Shift(Spaces(indent), e.key, ":");
    } else {
      EntryShift(Spaces(indent), e.key, DumpScalar(repr, e.value));
    }
  }

  lemma HeadedUnlines(own: string, raws: seq<string>)
    requires raws != [] && RawOk(raws)
    ensures Unlines([own, RStripNewlines(Unlines(raws))]) == Unlines([own] + raws)
  {
    var piece := RStripNewlines(Unlines(raws));
    PieceUnlines(raws, []);
    UnlinesAppend([own], [piece] + []);
    UnlinesAppend([own], raws);
    assert [own, piece] == [own] + ([piece] + []);
  }

  lemma EntryShift(a: string, b: string, c: string)
    ensures a + b + ": " + c == a + (b + ": " + c)
  {
  }

  lemma {:induction false} MapText(repr: Value -> string, es: seq<Entry>, indent: nat)
    requires EntriesOk(es)
    ensures Unlines(MapOut(repr, es, indent)) == Unlines(RawMap(repr, es, indent))
    decreases es, 4
  {
    if es != [] {
      assert EntriesOk(es[1..]);
      EntryText(repr, es[0], indent);
      MapText(repr, es[1..], indent);
      UnlinesAppend(RawEntry(repr, es[0], indent), RawMap(repr, es[1..], indent));
      UnlinesAppend(EntryOut(repr, es[0], indent), MapOut(repr, es[1..], indent));
    }
  }

  lemma {:induction false} ListText(repr: Value -> string, items: seq<Value>, indent: nat)
    requires forall i :: 0 <= i < |items| ==> Shaped(items[i], true)
    ensures ListOut(repr, items, indent) == RawList(repr, items, indent)
    decreases items, 7
  {
    if items != [] {
      ListText(repr, items[1..], indent);
      ItemText(repr, items[0], indent);
    }
  }

  lemma {:induction false} ItemText(repr: Value -> string, item: Value, indent: nat)
    requires Shaped(item, true)
    ensures ItemOut(repr, item, indent) == RawItem(repr, item, indent)
    decreases item, 6
  {
    if item.Map? && item.IsBlock() {
      var raws := RawBlock(repr, item, indent + 2);
      BlockText(repr, item, indent + 2, true);
      BlockCleans(repr, item, indent + 2, true);
      RStripUnlines(raws);
      SplitJoin(raws);
    } else if item.Map? {
      EmptyMapItem(indent);
    } else {
      var tok := DumpScalar(repr, item);
      assert Spaces(indent) + "- " + tok == Spaces(indent) + ("- " + tok);
    }
  }

  /** An empty mapping in a list, printed as a block of one line. */
  lemma EmptyMapItem(indent: nat)
    ensures Dashed(indent, SplitLines(RStripNewlines(Spaces(indent + 2) + "{}\n"))) == [Spaces(indent) + ("- " + "{}")]
  {
    var l := Spaces(indent + 2) + "{}";
    assert Unlines([l]) == l + "\n" by {
      assert [l][1..] == [];
    }
    assert l + "\n" == Spaces(indent + 2) + "{}\n";
    RStripUnlines([l]);
    SplitJoin([l]);
    LStripSpaces(indent + 2, "{}");
    assert Spaces(indent) + "- " + "{}" == Spaces(indent) + ("- " + "{}");
  }

  lemma {:induction false} BlockText(repr: Value -> string, v: Value, indent: nat, inList: bool)
    requires v.IsBlock() && Shaped(v, inList)
    ensures Dump(repr, v, indent) == Unlines(RawBlock(repr, v, indent))
    decreases v, if v.Map? then 5 else 8
  {
    if v.Map? {
      assert EntriesOk(v.entries);
      MapText(repr, v.entries, indent);
      JoinUnlines(MapOut(repr, v.entries, indent));
    } else {
      ListText(repr, v.items, indent);
      JoinUnlines(ListOut(repr, v.items, indent));
    }
  }

  // ----- the round trip

  /** Printing and parsing again, computed: every leaf becomes what its token reads as. */
  lemma DumpThenParse(repr: Value -> string, v: Value)
    requires v.IsBlock() && Shaped(v, false)
    ensures Parse(Dump(repr, v, 0)) == Ok(ReadBack(repr, v, false), [])
  {
    var raws, ls := RawBlock(repr, v, 0), BlockLines(repr, v, 0);
    BlockText(repr, v, 0, false);
    BlockCleans(repr, v, 0, false);
    SplitUnlines(raws);
    BlockReadBack(repr, v, 0, false, []);
    assert ls + [] == ls;
  }

  /** The round trip holds exactly for the values whose leaves all read back. */
  lemma RoundTripIff(repr: Value -> string, v: Value)
    requires v.IsBlock() && Shaped(v, false)
    ensures Parse(Dump(repr, v, 0)) == Ok(v, []) <==> LeavesReadBack(v, false)
  {
    DumpThenParse(repr, v);
    ReadBackIdentity(repr, v, false);
  }

  /** So values whose strings hold no double quote and are quoted or plainly strings come back. */
  lemma TidyRoundTrip(repr: Value -> string, v: Value)
    requires v.IsBlock() && Shaped(v, false) && Tidy(v, false)
    ensures Parse(Dump(repr, v, 0)) == Ok(v, [])
  {
    TidyReadsBack(v, false);
    RoundTripIff(repr, v);
  }

  /** At top level only a block can come back: a parse never yields a scalar or an empty container. */
  lemma TopLevelScalarLost(repr: Value -> string, v: Value)
    requires !v.IsBlock()
    ensures Parse(Dump(repr, v, 0)) != Ok(v, [])
  {
    if v.Null? {
      var c := "null";
      assert Content(c);
      assert Unlines([Spaces(0) + c]) == Dump(repr, v, 0) by {
        assert [Spaces(0) + c][1..] == [];
      }
      IndentedOk(0, c);
      SplitUnlines([Spaces(0) + c]);
      CleanOne(0, c, []);
      assert [Spaces(0) + c] + [] == [Spaces(0) + c];
    }
  }
}
