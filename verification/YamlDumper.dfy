/** The printer of the YAML subset, `_dump`. */
module YamlDumper {
  import opened PyText
  import opened YamlScalar

  // `repr` stands throughout for Python's `str` on a list or dict that has elements: it is
  // what a list directly inside a list is printed with.

  function Dump(repr: Value -> string, v: Value, indent: nat): string
    decreases v, 1
  {
    match v
    case Map(es) => if es == [] then Spaces(indent) + "{}\n" else Join(MapOut(repr, es, indent)) + "\n"
    case List(items) => if items == [] then Spaces(indent) + "[]\n" else Join(ListOut(repr, items, indent)) + "\n"
    case _ => Spaces(indent) + DumpScalar(repr, v) + "\n"
  }

  /** The pieces a mapping is joined from; a nested block is one piece of several lines. */
  function MapOut(repr: Value -> string, es: seq<Entry>, indent: nat): seq<string>
    decreases es, 0
  {
    if es == [] then [] else EntryOut(repr, es[0], indent) + MapOut(repr, es[1..], indent)
  }

  function EntryOut(repr: Value -> string, e: Entry, indent: nat): seq<string>
    decreases e, 2
  {
    if e.value.IsBlock() then [Spaces(indent) + e.key + ":", RStripNewlines(Dump(repr, e.value, indent + 2))]
    else [Spaces(indent) + e.key + ": " + DumpScalar(repr, e.value)]
  }

  /** A mapping's first line moves up to the dash of its item. */
  function Dashed(indent: nat, block: seq<string>): seq<string> {
    if block == [] then [] else [Spaces(indent) + "- " + LStrip(block[0])] + block[1..]
  }

  function ListOut(repr: Value -> string, items: seq<Value>, indent: nat): seq<string>
    decreases items, 0
  {
    if items == [] then [] else ItemOut(repr, items[0], indent) + ListOut(repr, items[1..], indent)
  }

  function ItemOut(repr: Value -> string, item: Value, indent: nat): seq<string>
    decreases item, 2
  {
    if item.Map? then Dashed(indent, SplitLines(RStripNewlines(Dump(repr, item, indent + 2))))
    else [Spaces(indent) + "- " + DumpScalar(repr, item)]
  }

  /** `_dump`, appending to `out` entry by entry. */
  method DumpText(repr: Value -> string, v: Value, indent: nat) returns (text: string)
    ensures text == Dump(repr, v, indent)
    decreases v, 1
  {
    match v {
      case Map(es) =>
        if es == [] {
          text := Spaces(indent) + "{}\n";
        } else {
          var out := DumpEntries(repr, es, indent);
          text := Join(out) + "\n";
        }
      case List(items) =>
        if items == [] {
          text := Spaces(indent) + "[]\n";
        } else {
          var out := DumpItems(repr, items, indent);
          text := Join(out) + "\n";
        }
      case _ =>
        text := Spaces(indent) + DumpScalar(repr, v) + "\n";
    }
  }

  /** What one entry adds to `out`. */
  method DumpEntry(repr: Value -> string, e: Entry, indent: nat) returns (piece: seq<string>)
    ensures piece == EntryOut(repr, e, indent)
    decreases e, 2
  {
    if e.value.IsBlock() {
      var block := DumpText(repr, e.value, indent + 2);
      piece := [Spaces(indent) + e.key + ":", RStripNewlines(block)];
    } else {
      piece := [Spaces(indent) + e.key + ": " + DumpScalar(repr, e.value)];
    }
  }

  lemma MapOutNext(repr: Value -> string, es: seq<Entry>, i: nat, indent: nat)
    requires i < |es|
    ensures MapOut(repr, es[i..], indent) == EntryOut(repr, es[i], indent) + MapOut(repr, es[i + 1..], indent)
  {
    assert es[i..][1..] == es[i + 1..];
  }

  lemma ListOutNext(repr: Value -> string, items: seq<Value>, i: nat, indent: nat)
    requires i < |items|
    ensures ListOut(repr, items[i..], indent) == ItemOut(repr, items[i], indent) + ListOut(repr, items[i + 1..], indent)
  {
    assert items[i..][1..] == items[i + 1..];
  }

  lemma Shift<T>(out: seq<T>, piece: seq<T>, rest: seq<T>)
    ensures out + piece + rest == out + (piece + rest)
  {
  }

  method DumpEntries(repr: Value -> string, es: seq<Entry>, indent: nat) returns (out: seq<string>)
    ensures out == MapOut(repr, es, indent)
    decreases es, 0
  {
    out := [];
    var i := 0;
    while i < |es|
      invariant 0 <= i <= |es|
      invariant out + MapOut(repr, es[i..], indent) == MapOut(repr, es, indent)
    {
      assert es[i] in es;
      var piece := DumpEntry(repr, es[i], indent);
      MapOutNext(repr, es, i, indent);
      Shift(out, piece, MapOut(repr, es[i + 1..], indent));
      out := out + piece;
      i := i + 1;
    }
  }

  /** What one item adds to `out`. */
  method DumpItem(repr: Value -> string, item: Value, indent: nat) returns (piece: seq<string>)
    ensures piece == ItemOut(repr, item, indent)
    decreases item, 2
  {
    if item.Map? {
      var block := DumpText(repr, item, indent + 2);
      piece := Dashed(indent, SplitLines(RStripNewlines(block)));
    } else {
      piece := [Spaces(indent) + "- " + DumpScalar(repr, item)];
    }
  }

  method DumpItems(repr: Value -> string, items: seq<Value>, indent: nat) returns (out: seq<string>)
    ensures out == ListOut(repr, items, indent)
    decreases items, 0
  {
    out := [];
    var i := 0;
    while i < |items|
      invariant 0 <= i <= |items|
      invariant out + ListOut(repr, items[i..], indent) == ListOut(repr, items, indent)
    {
      assert items[i] in items;
      var piece := DumpItem(repr, items[i], indent);
      ListOutNext(repr, items, i, indent);
      Shift(out, piece, ListOut(repr, items[i + 1..], indent));
      out := out + piece;
      i := i + 1;
    }
  }
}
