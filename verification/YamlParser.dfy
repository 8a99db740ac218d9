/**
 The indentation-driven parser of the YAML subset: cleaning the text into lines, and the
 mutually recursive block, mapping and list readers. The functions read from the front of
 the remaining lines; the methods are the index-driven loops of the implementation.
 */
module YamlParser {
  import opened PyText
  import opened Wrappers
  import opened YamlScalar

  /** A cleaned line: its indentation and its stripped content. */
  datatype Line = Line(indent: nat, text: string)

  datatype ParseError = BadIndent | ListItemInMapping | ExpectedKeyValue | BadListIndent | UnexpectedIndent | DroppedLines

  datatype Parsed = Ok(value: Value, rest: seq<Line>) | Err(error: ParseError)

  // ----- cleaning

  function IndentOf(line: string): nat {
    if line != "" && line[0] == ' ' then 1 + IndentOf(line[1..]) else 0
  }

  /** Blank lines, comments and document markers disappear. */
  function CleanLine(raw: string): Option<Line> {
    var line := Uncommented(raw);
    if Strip(line) == "" then None
    else if StartsWith(LStrip(line), "---") || StartsWith(LStrip(line), "...") then None
    else Some(Line(IndentOf(line), Strip(line)))
  }

  function CleanAll(raws: seq<string>): seq<Line> {
    if raws == [] then []
    else
      var rest := CleanAll(raws[1..]);
      match CleanLine(raws[0])
      case Some(line) => [line] + rest
      case None => rest
  }

  lemma {:induction false} CleanAppend(xs: seq<string>, ys: seq<string>)
    ensures CleanAll(xs + ys) == CleanAll(xs) + CleanAll(ys)
  {
    if xs == [] {
      assert xs + ys == ys;
    } else {
      assert (xs + ys)[1..] == xs[1..] + ys;
      CleanAppend(xs[1..], ys);
    }
  }

  method CleanLines(text: string) returns (out: seq<Line>)
    ensures out == CleanAll(SplitLines(text))
  {
    out := [];
    var raws := SplitLines(text);
    var i := 0;
    while i < |raws|
      invariant 0 <= i <= |raws|
      invariant out == CleanAll(raws[..i])
    {
      var line := StripComment(raws[i]);
      assert raws[..i + 1] == raws[..i] + [raws[i]];
      CleanAppend(raws[..i], [raws[i]]);
      assert CleanAll([raws[i]][1..]) == [];
      i := i + 1;
      if Strip(line) == "" {
        continue;
      }
      if StartsWith(LStrip(line), "---") || StartsWith(LStrip(line), "...") {
        continue;
      }
      out := out + [Line(IndentOf(line), Strip(line))];
    }
    assert raws[..i] == raws;
  }

  // ----- the recursive readers

  /** result[key] = value: an existing key keeps its place. */
  function Put(entries: seq<Entry>, key: string, value: Value): (r: seq<Entry>)
    ensures r != []
  {
    if entries == [] then [Entry(key, value)]
    else if entries[0].key == key then [Entry(key, value)] + entries[1..]
    else [entries[0]] + Put(entries[1..], key, value)
  }

  predicate IsItem(text: string) {
    StartsWith(text, "- ")
  }

  /** How many of the leading lines are indented deeper than `indent`. */
  function Deeper(ls: seq<Line>, indent: nat): (n: nat)
    ensures n <= |ls|
    ensures forall i :: 0 <= i < n ==> ls[i].indent > indent
    ensures n < |ls| ==> ls[n].indent <= indent
  {
    if ls == [] || ls[0].indent <= indent then 0 else 1 + Deeper(ls[1..], indent)
  }

  function Texts(ls: seq<Line>): seq<string> {
    if ls == [] then [] else [ls[0].text] + Texts(ls[1..])
  }

  function JoinSpaces(parts: seq<string>): string {
    if parts == [] then ""
    else if |parts| == 1 then parts[0]
    else parts[0] + " " + JoinSpaces(parts[1..])
  }

  /** The text of a `|` or `>` block whose body is `body`. */
  function BlockScalar(header: string, body: seq<Line>): string {
    Folded(header, Texts(body))
  }

  function ColonAt(text: string): nat
    requires ':' in text
    ensures ColonAt(text) < |text| && text[ColonAt(text)] == ':' && ':' !in text[..ColonAt(text)]
  {
    if text[0] == ':' then 0 else 1 + ColonAt(text[1..])
  }

  function KeyOf(text: string): string
    requires ':' in text
  {
    Strip(text[..ColonAt(text)])
  }

  function RestOf(text: string): string
    requires ':' in text
  {
    Strip(text[ColonAt(text) + 1..])
  }

  /** An inline "- key: value" item, which starts a mapping. */
  predicate StartsMapping(item: string) {
    ':' in item && !IsQuote(item[0])
  }

  /** What is left is a suffix of the lines, and at least one line was read. */
  predicate Reads(ls: seq<Line>, rest: seq<Line>) {
    |rest| < |ls| && rest == ls[|ls| - |rest|..]
  }

  lemma SuffixReads(ls: seq<Line>, k: nat)
    requires 0 < k <= |ls|
    ensures Reads(ls, ls[k..])
  {
  }

  predicate ReadsSome(ls: seq<Line>, rest: seq<Line>) {
    rest == ls || Reads(ls, rest)
  }

  datatype EntryParsed = EntryOk(entry: Entry, rest: seq<Line>) | EntryErr(error: ParseError)

  /** One turn of `_parse_map`: the entry at the front of the lines. */
  function EntryFrom(strict: bool, ls: seq<Line>, indent: nat): (r: EntryParsed)
    requires ls != [] && ls[0].indent >= indent
    ensures r.EntryOk? ==> Reads(ls, r.rest)
    decreases |ls|, 0
  {
    if ls[0].indent > indent then EntryErr(BadIndent)
    else if IsItem(ls[0].text) then EntryErr(ListItemInMapping)
    else if ':' !in ls[0].text then EntryErr(ExpectedKeyValue)
    else
      var key, rest := KeyOf(ls[0].text), RestOf(ls[0].text);
      if IsBlockHeader(rest) then
        var n := Deeper(ls[1..], indent);
        SuffixReads(ls, 1 + n);
        EntryOk(Entry(key, Str(BlockScalar(rest, ls[1..1 + n]))), ls[1 + n..])
      else if rest == "" then
        if |ls| > 1 && ls[1].indent > indent then
          match BlockFrom(strict, ls[1..], ls[1].indent)
          case Ok(value, left) => EntryOk(Entry(key, value), left)
          case Err(e) => EntryErr(e)
        else EntryOk(Entry(key, Null), ls[1..])
      else EntryOk(Entry(key, Scalar(rest)), ls[1..])
  }

  /**
   `_parse_map` from the entries read so far. With `strict`, a list item that leaves lines
   of its block unread is an error; the implementation (`strict` false) drops them.
   */
  function MapFrom(strict: bool, ls: seq<Line>, indent: nat, acc: seq<Entry>): (r: Parsed)
    ensures r.Ok? ==> ReadsSome(ls, r.rest) && r.value.Map? && (r.rest != [] ==> r.rest[0].indent < indent)
    ensures r.Ok? && acc != [] ==> r.value.IsBlock()
    ensures r.Ok? && ls != [] && ls[0].indent >= indent ==> r.value.IsBlock() && Reads(ls, r.rest)
    decreases |ls|, 1
  {
    if ls == [] || ls[0].indent < indent then Ok(Map(acc), ls)
    else
      match EntryFrom(strict, ls, indent)
      case EntryOk(e, rest) => MapFrom(strict, rest, indent, Put(acc, e.key, e.value))
      case EntryErr(e) => Err(e)
  }

  /** One turn of `_parse_list`: the item at the front of the lines. */
  function ItemFrom(strict: bool, ls: seq<Line>, indent: nat): (r: Parsed)
    requires ls != [] && IsItem(ls[0].text)
    ensures r.Ok? ==> Reads(ls, r.rest)
    decreases |ls|, 2
  {
    var item := Strip(ls[0].text[2..]);
    if StartsMapping(item) then
      var n := Deeper(ls[1..], indent);
      SuffixReads(ls, 1 + n);
      match MapFrom(strict, [Line(indent + 2, item)] + ls[1..1 + n], indent + 2, [])
      case Ok(value, left) => if strict && left != [] then Err(DroppedLines) else Ok(value, ls[1 + n..])
      case Err(e) => Err(e)
    else
      SuffixReads(ls, 1);
      Ok(Scalar(item), ls[1..])
  }

  /** The list ends at a shallower line, or at one of its own depth that is not an item. */
  predicate ListEnds(ls: seq<Line>, indent: nat) {
    ls == [] || ls[0].indent < indent || (ls[0].indent == indent && !IsItem(ls[0].text))
  }

  function ListFrom(strict: bool, ls: seq<Line>, indent: nat, acc: seq<Value>): (r: Parsed)
    ensures r.Ok? ==> ReadsSome(ls, r.rest) && r.value.List?
    ensures r.Ok? && acc != [] ==> r.value.IsBlock()
    ensures r.Ok? && !ListEnds(ls, indent) ==> r.value.IsBlock() && Reads(ls, r.rest)
    decreases |ls|, 3
  {
    if ListEnds(ls, indent) then Ok(List(acc), ls)
    else if ls[0].indent > indent then Err(BadListIndent)
    else
      match ItemFrom(strict, ls, indent)
      case Ok(value, rest) => ListFrom(strict, rest, indent, acc + [value])
      case Err(e) => Err(e)
  }

  function BlockFrom(strict: bool, ls: seq<Line>, indent: nat): (r: Parsed)
    requires ls != [] && ls[0].indent == indent
    ensures r.Ok? ==> Reads(ls, r.rest) && r.value.IsBlock()
    decreases |ls|, 4
  {
    if IsItem(ls[0].text) then ListFrom(strict, ls, indent, []) else MapFrom(strict, ls, indent, [])
  }

  function ParseLines(strict: bool, ls: seq<Line>): Parsed {
    if ls == [] then Ok(Null, [])
    else
      match BlockFrom(strict, ls, ls[0].indent)
      case Ok(value, rest) => if rest != [] then Err(UnexpectedIndent) else Ok(value, [])
      case Err(e) => Err(e)
  }

  /** `_parse` as a function of the text. */
  function Parse(text: string): Parsed {
    ParseLines(false, CleanAll(SplitLines(text)))
  }

  // ----- the implementation's loops

  /** A result that names the next index instead of the remaining lines. */
  datatype Indexed = Read(value: Value, next: nat) | Raised(error: ParseError)

  predicate Matches(lines: seq<Line>, r: Indexed, p: Parsed) {
    match p
    case Ok(value, rest) => r.Read? && r.value == value && r.next <= |lines| && lines[r.next..] == rest
    case Err(e) => r == Raised(e)
  }

  method ParseBlockScalar(lines: seq<Line>, start: nat, indent: nat, header: string) returns (text: string, next: nat)
    requires start <= |lines|
    ensures next == start + Deeper(lines[start..], indent)
    ensures text == BlockScalar(header, lines[start..next])
  {
    var parts: seq<string> := [];
    next := start;
    while next < |lines| && lines[next].indent > indent
      invariant start <= next <= |lines|
      invariant next + Deeper(lines[next..], indent) == start + Deeper(lines[start..], indent)
      invariant parts == Texts(lines[start..next])
    {
      DeeperNext(lines, next, indent);
      TextsNext(lines, start, next);
      parts := parts + [lines[next].text];
      next := next + 1;
    }
    assert Deeper(lines[next..], indent) == 0;
    text := Folded(header, parts);
  }

  /** `|` keeps the lines, `>` folds them; the last newline goes with `-`. */
  function Folded(header: string, parts: seq<string>): string {
    var head := Strip(header);
    var folded := head != "" && head[0] == '>';
    var chomp := head != "" && '-' in head[1..];
    var text := if folded then JoinSpaces(parts) else Join(parts);
    if !chomp && parts != [] then text + (if folded then "" else "\n") else text
  }

  lemma DeeperNext(lines: seq<Line>, i: nat, indent: nat)
    requires i < |lines| && lines[i].indent > indent
    ensures Deeper(lines[i..], indent) == 1 + Deeper(lines[i + 1..], indent)
  {
    assert lines[i..][1..] == lines[i + 1..];
  }

  lemma TextsNext(lines: seq<Line>, start: nat, next: nat)
    requires start <= next < |lines|
    ensures Texts(lines[start..next + 1]) == Texts(lines[start..next]) + [lines[next].text]
  {
    assert lines[start..next + 1] == lines[start..next] + [lines[next]];
    TextsAppend(lines[start..next], lines[next]);
  }

  lemma {:induction false} TextsAppend(ls: seq<Line>, l: Line)
    ensures Texts(ls + [l]) == Texts(ls) + [l.text]
  {
    if ls == [] {
      assert ls + [l] == [l] && [l][1..] == [];
    } else {
      assert (ls + [l])[1..] == ls[1..] + [l];
      TextsAppend(ls[1..], l);
    }
  }

  /** The body of the mapping loop. */
  method ParseEntry(lines: seq<Line>, i: nat, indent: nat) returns (key: string, r: Indexed)
    requires i < |lines| && lines[i].indent >= indent
    ensures match EntryFrom(false, lines[i..], indent)
            case EntryOk(e, rest) => r.Read? && Entry(key, r.value) == e && i < r.next <= |lines| && lines[r.next..] == rest
            case EntryErr(e) => r == Raised(e)
    decreases |lines| - i, 0
  {
    key := "";
    var cur, content := lines[i].indent, lines[i].text;
    ghost var ls := lines[i..];
    assert ls[1..] == lines[i + 1..];
    if cur > indent {
      return key, Raised(BadIndent);
    }
    if IsItem(content) {
      return key, Raised(ListItemInMapping);
    }
    if ':' !in content {
      return key, Raised(ExpectedKeyValue);
    }
    key := KeyOf(content);
    var rest := RestOf(content);
    if IsBlockHeader(rest) {
      var text, next := ParseBlockScalar(lines, i + 1, indent, rest);
      ghost var n := Deeper(ls[1..], indent);
      assert ls[1 + n..] == lines[next..] && ls[1..1 + n] == lines[i + 1..next];
      r := Read(Str(text), next);
    } else if rest == "" {
      if i + 1 < |lines| && lines[i + 1].indent > indent {
        r := ParseBlock(lines, i + 1, lines[i + 1].indent);
      } else {
        r := Read(Null, i + 1);
      }
    } else {
      r := Read(Scalar(rest), i + 1);
    }
  }

  method ParseMap(lines: seq<Line>, start: nat, indent: nat) returns (r: Indexed)
    requires start <= |lines|
    ensures Matches(lines, r, MapFrom(false, lines[start..], indent, []))
    decreases |lines| - start, 1
  {
    var result: seq<Entry> := [];
    var i := start;
    while i < |lines|
      invariant start <= i <= |lines|
      invariant MapFrom(false, lines[start..], indent, []) == MapFrom(false, lines[i..], indent, result)
      decreases |lines| - i
    {
      if lines[i].indent < indent {
        break;
      }
      var key, entry := ParseEntry(lines, i, indent);
      match entry {
        case Raised(e) => return Raised(e);
        case Read(value, next) =>
          result := Put(result, key, value);
          i := next;
      }
    }
    r := Read(Map(result), i);
  }

  /** The item's own line followed by every deeper line. */
  method SubBlock(lines: seq<Line>, start: nat, indent: nat, first: Line) returns (synth: seq<Line>, j: nat)
    requires start <= |lines|
    ensures j == start + Deeper(lines[start..], indent) && synth == [first] + lines[start..j]
  {
    synth := [first];
    j := start;
    while j < |lines| && lines[j].indent > indent
      invariant start <= j <= |lines|
      invariant synth == [first] + lines[start..j]
      invariant j + Deeper(lines[j..], indent) == start + Deeper(lines[start..], indent)
    {
      DeeperNext(lines, j, indent);
      SliceNext(first, lines, start, j);
      synth := synth + [lines[j]];
      j := j + 1;
    }
  }

  lemma SliceNext<T>(first: T, lines: seq<T>, start: nat, j: nat)
    requires start <= j < |lines|
    ensures [first] + lines[start..j + 1] == [first] + lines[start..j] + [lines[j]]
  {
  }

  /** The body of the list loop, with its synthetic sub-block. */
  method ParseItem(lines: seq<Line>, i: nat, indent: nat) returns (r: Indexed)
    requires i < |lines| && IsItem(lines[i].text)
    ensures Matches(lines, r, ItemFrom(false, lines[i..], indent)) && (r.Read? ==> i < r.next)
    decreases |lines| - i, 4
  {
    var item := Strip(lines[i].text[2..]);
    if StartsMapping(item) {
      r := ParseMappingItem(lines, i, indent, item);
    } else {
      LeafItemAt(lines, i, indent, item);
      r := Read(Scalar(item), i + 1);
    }
  }

  method ParseMappingItem(lines: seq<Line>, i: nat, indent: nat, item: string) returns (r: Indexed)
    requires i < |lines| && IsItem(lines[i].text) && item == Strip(lines[i].text[2..]) && StartsMapping(item)
    ensures Matches(lines, r, ItemFrom(false, lines[i..], indent)) && (r.Read? ==> i < r.next)
    decreases |lines| - i, 3
  {
    var synth, j := SubBlock(lines, i + 1, indent, Line(indent + 2, item));
    var inner := ParseWhole(synth, indent + 2);
    MappingItemAt(lines, i, indent, item, synth, j);
    r := if inner.Read? then Read(inner.value, j) else inner;
  }

  /** The mapping in a synthetic sub-block; where it stops reading is not looked at. */
  method ParseWhole(synth: seq<Line>, indent: nat) returns (r: Indexed)
    ensures match MapFrom(false, synth, indent, [])
            case Ok(value, _) => r.Read? && r.value == value
            case Err(e) => r == Raised(e)
    decreases |synth|, 2
  {
    assert synth[0..] == synth;
    r := ParseMap(synth, 0, indent);
  }

  lemma LeafItemAt(lines: seq<Line>, i: nat, indent: nat, item: string)
    requires i < |lines| && IsItem(lines[i].text) && item == Strip(lines[i].text[2..]) && !StartsMapping(item)
    ensures ItemFrom(false, lines[i..], indent) == Ok(Scalar(item), lines[i + 1..])
  {
    assert lines[i..][1..] == lines[i + 1..];
  }

  /** The item reader at an index, in terms of the whole list of lines. */
  lemma MappingItemAt(lines: seq<Line>, i: nat, indent: nat, item: string, synth: seq<Line>, j: nat)
    requires i < |lines| && IsItem(lines[i].text) && item == Strip(lines[i].text[2..]) && StartsMapping(item)
    requires j == i + 1 + Deeper(lines[i + 1..], indent) && synth == [Line(indent + 2, item)] + lines[i + 1..j]
    ensures var p := MapFrom(false, synth, indent + 2, []);
            ItemFrom(false, lines[i..], indent) == if p.Ok? then Ok(p.value, lines[j..]) else p
  {
    SlicesAt(lines, i, j - i - 1);
    MappingItem(lines[i..], indent, item, synth, lines[j..]);
  }

  lemma MappingItem(ls: seq<Line>, indent: nat, item: string, synth: seq<Line>, left: seq<Line>)
    requires ls != [] && IsItem(ls[0].text) && item == Strip(ls[0].text[2..]) && StartsMapping(item)
    requires synth == [Line(indent + 2, item)] + ls[1..1 + Deeper(ls[1..], indent)]
    requires left == ls[1 + Deeper(ls[1..], indent)..]
    ensures var p := MapFrom(false, synth, indent + 2, []);
            ItemFrom(false, ls, indent) == if p.Ok? then Ok(p.value, left) else p
  {
  }

  lemma SlicesAt<T>(s: seq<T>, i: nat, n: nat)
    requires i + 1 + n <= |s|
    ensures s[i..][1..] == s[i + 1..] && s[i..][1 + n..] == s[i + 1 + n..] && s[i..][1..1 + n] == s[i + 1..i + 1 + n]
  {
  }

  method ParseList(lines: seq<Line>, start: nat, indent: nat) returns (r: Indexed)
    requires start <= |lines|
    ensures Matches(lines, r, ListFrom(false, lines[start..], indent, []))
    decreases |lines| - start, 5
  {
    var result: seq<Value> := [];
    var i := start;
    while i < |lines|
      invariant start <= i <= |lines|
      invariant ListFrom(false, lines[start..], indent, []) == ListFrom(false, lines[i..], indent, result)
      decreases |lines| - i
    {
      var cur, content := lines[i].indent, lines[i].text;
      if cur < indent || !IsItem(content) {
        if cur < indent {
          break;
        }
        if !IsItem(content) && cur == indent {
          break;
        }
      }
      if cur > indent {
        return Raised(BadListIndent);
      }
      var item := ParseItem(lines, i, indent);
      match item {
        case Raised(e) => return Raised(e);
        case Read(value, next) =>
          result := result + [value];
          i := next;
      }
    }
    r := Read(List(result), i);
  }

  method ParseBlock(lines: seq<Line>, start: nat, indent: nat) returns (r: Indexed)
    requires start < |lines| && lines[start].indent == indent
    ensures Matches(lines, r, BlockFrom(false, lines[start..], indent)) && (r.Read? ==> start < r.next)
    decreases |lines| - start, 6
  {
    if IsItem(lines[start].text) {
      r := ParseList(lines, start, indent);
    } else {
      r := ParseMap(lines, start, indent);
    }
  }

  /** `_parse` */
  method ParseText(text: string) returns (r: Parsed)
    ensures r == Parse(text)
  {
    var lines := CleanLines(text);
    if lines == [] {
      return Ok(Null, []);
    }
    assert lines[0..] == lines;
    var block := ParseBlock(lines, 0, lines[0].indent);
    match block {
      case Raised(e) => r := Err(e);
      case Read(value, consumed) =>
        if consumed != |lines| {
          r := Err(UnexpectedIndent);
        } else {
          r := Ok(value, []);
        }
    }
  }
}
