/**
 What the block structure of the YAML subset means, apart from how it is read: which lines
 count, what a block scalar holds, what a repeated key does, which lines are errors, and
 which changes of indentation make no difference.
 */
module YamlBlocks {
  import opened PyText
  import opened Wrappers
  import opened YamlScalar
  import opened YamlParser
  import opened YamlFlow
  import G = YamlGaps

  // ----- lines

  /** Any line break ends a line, and a carriage return with its line feed ends only one. */
  lemma LineBreaks(l: string, c: char, rest: string)
    requires NoBreaks(l) && IsBreak(c)
    ensures SplitLines(l + "\r\n" + rest) == [l] + SplitLines(rest)
    ensures c != '\r' || rest == "" || rest[0] != '\n' ==> SplitLines(l + [c] + rest) == [l] + SplitLines(rest)
  {
    BreakHere(l, "\r\n", rest);
    BreakHere(l, [c], rest);
    var t, u := l + "\r\n" + rest, l + [c] + rest;
    assert t[..|l|] == l && t[|l| + 2..] == rest && u[..|l|] == l && u[|l| + 1..] == rest;
    if c == '\r' && rest != "" {
      assert u[|l| + 1] == rest[0];
    }
  }

  lemma {:induction false} BreakHere(l: string, b: string, rest: string)
    requires NoBreaks(l) && b != "" && IsBreak(b[0])
    ensures BreakAt(l + b + rest) == |l|
  {
    if l != "" {
      assert (l + b + rest)[1..] == l[1..] + b + rest;
      BreakHere(l[1..], b, rest);
    }
  }

  /** A blank line and a line that is only a comment vanish. */
  lemma NothingVanishes(n: nat, comment: string)
    ensures CleanLine(Spaces(n)) == None && CleanLine(Spaces(n) + "#" + comment) == None
  {
    var line := Spaces(n) + "#" + comment;
    CutsAtComment(Spaces(n));
    CutsAtComment(line);
    AllBlank(Uncommented(Spaces(n)));
    assert line[n] == '#';
    assert |Uncommented(line)| <= n by {
      if |Uncommented(line)| > n {
        OutsideSpaces(line, n);
        assert CommentHash(line, n);
      }
    }
    assert forall i :: 0 <= i < n ==> line[i] == ' ';
    AllBlank(Uncommented(line));
  }

  lemma {:induction false} AllBlank(s: string)
    requires forall i :: 0 <= i < |s| ==> s[i] == ' '
    ensures Strip(s) == ""
  {
    if s != "" {
      AllBlank(s[1..]);
    }
  }

  lemma {:induction false} OutsideSpaces(t: string, n: nat)
    requires n <= |t| && forall i :: 0 <= i < n ==> t[i] != '\'' && t[i] != '"'
    ensures QuotingAfter(t[..n]) == Outside
  {
    if n > 0 {
      assert t[..n][..n - 1] == t[..n - 1];
      OutsideSpaces(t, n - 1);
    }
  }

  /** Document markers vanish with whatever follows them. */
  lemma MarkerVanishes(n: nat, mark: string, more: string)
    requires mark == "---" || mark == "..."
    ensures CleanLine(Spaces(n) + mark + more) == None
  {
    var line := Spaces(n) + mark + more;
    var r := Uncommented(line);
    CutsAtComment(line);
    assert forall i :: 0 <= i < n + 3 ==> line[i] != '#' by {
      assert forall i :: 0 <= i < n ==> line[i] == ' ';
    }
    assert |r| >= n + 3;
    var left := r[n..];
    assert r == Spaces(n) + left;
    MarkAt(n, mark, more, r);
    LStripSpaces(n, left);
  }

  lemma MarkAt(n: nat, mark: string, more: string, r: string)
    requires |mark| == 3 && r <= Spaces(n) + mark + more && |r| >= n + 3
    ensures r[n..][..3] == mark && r[n] == mark[0]
  {
    var line := Spaces(n) + mark + more;
    assert line[n..n + 3] == mark;
    assert forall i :: 0 <= i < |r| ==> r[i] == line[i];
  }

  /** A line's content without quotes or hashes, with or without a comment behind it. */
  lemma ContentKept(n: nat, t: string, comment: string)
    requires t != "" && Stripped(t) && !StartsWith(t, "---") && !StartsWith(t, "...")
    requires forall i :: 0 <= i < |t| ==> t[i] != '#' && t[i] != '\'' && t[i] != '"'
    ensures CleanLine(Spaces(n) + t) == Some(Line(n, t))
    ensures CleanLine(Spaces(n) + t + " #" + comment) == Some(Line(n, t))
  {
    var bare, line := Spaces(n) + t, Spaces(n) + t + " #" + comment;
    CutsAtComment(bare);
    CutsAtComment(line);
    var k := |bare| + 1;
    assert line[k] == '#' && line[k - 1] == ' ';
    assert forall i :: 0 <= i < |bare| ==> bare[i] != '#' && bare[i] != '\'' && bare[i] != '"';
    assert forall i :: 0 <= i < k ==> line[i] != '#' && line[i] != '\'' && line[i] != '"' by {
      assert forall i :: 0 <= i < |bare| ==> line[i] == bare[i];
    }
    OutsideSpaces(line, k);
    assert CommentHash(line, k);
    assert Uncommented(line) == bare + " " by {
      assert line[..k] == bare + " ";
    }
    assert Uncommented(bare) == bare;
    Contents(n, t, "");
    Contents(n, t, " ");
    assert bare + "" == bare;
  }

  lemma Contents(n: nat, t: string, tail: string)
    requires t != "" && Stripped(t) && (tail == "" || tail == " ")
    ensures var r := Spaces(n) + t + tail;
            Strip(r) == t && IndentOf(r) == n && (StartsWith(LStrip(r), "---") <==> StartsWith(t, "---")) && (StartsWith(LStrip(r), "...") <==> StartsWith(t, "..."))
  {
    var r := Spaces(n) + t + tail;
    assert r == Spaces(n) + (t + tail);
    LStripSpaces(n, t + tail);
    RStripFacts(t);
    assert tail == " " ==> (t + tail)[..|t|] == t;
    assert tail == "" ==> t + tail == t;
    IndentCounts(n, t + tail);
    ShortPrefix(t, tail, "---");
    ShortPrefix(t, tail, "...");
  }

  lemma ShortPrefix(t: string, tail: string, mark: string)
    requires (tail == "" || tail == " ") && |mark| == 3 && mark[2] != ' '
    ensures StartsWith(t + tail, mark) <==> StartsWith(t, mark)
  {
    if |t| >= 3 {
      assert (t + tail)[..3] == t[..3];
    } else if |t + tail| >= 3 {
      assert (t + tail)[..3][2] == ' ';
    }
  }

  lemma {:induction false} IndentCounts(n: nat, t: string)
    requires t != "" && t[0] != ' '
    ensures IndentOf(Spaces(n) + t) == n
  {
    if n > 0 {
      assert (Spaces(n) + t)[1..] == Spaces(n - 1) + t;
      IndentCounts(n - 1, t);
    } else {
      assert Spaces(0) + t == t;
    }
  }

  // ----- block scalars

  /** A `|` block is its lines, each with its line feed; with `-` the last line feed goes. */
  lemma LiteralKeepsLines(mark: string, parts: seq<string>)
    requires Stripped("|" + mark) && forall p :: p in parts ==> NoBreaks(p)
    ensures '-' !in mark ==> Folded("|" + mark, parts) == Unlines(parts) && SplitLines(Folded("|" + mark, parts)) == parts
    ensures '-' in mark && parts != [] ==> Folded("|" + mark, parts) + "\n" == Unlines(parts)
    ensures parts == [] ==> Folded("|" + mark, parts) == ""
  {
    Header('|', mark);
    SplitUnlines(parts);
    if parts != [] {
      JoinUnlines(parts);
    }
  }

  lemma Header(c: char, mark: string)
    requires Stripped([c] + mark)
    ensures Strip([c] + mark) == [c] + mark && ([c] + mark)[0] == c && ([c] + mark)[1..] == mark
  {
    StripFacts([c] + mark);
  }

  /** A `>` block is one line: its lines with a space between any two, and nothing at the end, `-` or not. */
  lemma FoldedIsOneLine(mark: string, xs: seq<string>, ys: seq<string>, x: string)
    requires Stripped(">" + mark)
    ensures Folded(">" + mark, []) == "" && Folded(">" + mark, [x]) == x
    ensures xs != [] && ys != [] ==> Folded(">" + mark, xs + ys) == Folded(">" + mark, xs) + " " + Folded(">" + mark, ys)
  {
    Header('>', mark);
    if xs != [] && ys != [] {
      SpacesBetween(xs, ys);
    }
  }

  lemma {:induction false} SpacesBetween(xs: seq<string>, ys: seq<string>)
    requires xs != [] && ys != []
    ensures JoinSpaces(xs + ys) == JoinSpaces(xs) + " " + JoinSpaces(ys)
  {
    if |xs| == 1 {
      assert (xs + ys)[1..] == ys;
    } else {
      assert (xs + ys)[1..] == xs[1..] + ys;
      SpacesBetween(xs[1..], ys);
    }
  }

  /** The entry of a block scalar takes exactly the deeper lines that follow. */
  lemma BlockEntry(strict: bool, indent: nat, key: string, header: string, body: seq<Line>, rest: seq<Line>)
    requires ':' !in key && Stripped(key) && !IsItem(key)
    requires header != "" && Stripped(header) && (header[0] == '|' || header[0] == '>')
    requires (forall i :: 0 <= i < |body| ==> body[i].indent > indent) && (rest == [] || rest[0].indent <= indent)
    ensures EntryFrom(strict, [Line(indent, key + ": " + header)] + body + rest, indent) == EntryOk(Entry(key, Str(Folded(header, Texts(body)))), rest)
  {
    var text := key + ": " + header;
    KeyAndRest(key, header);
    var ls := [Line(indent, text)] + body + rest;
    assert ls[0].text == text && ls[1..] == body + rest;
    AllDeeper(body, rest, indent);
    assert ls[1..1 + |body|] == body && ls[1 + |body|..] == rest;
    StripFacts(header);
  }

  lemma KeyAndRest(key: string, header: string)
    requires ':' !in key && Stripped(key) && !IsItem(key) && Stripped(header)
    ensures var text := key + ": " + header;
            ':' in text && KeyOf(text) == key && (header != "" ==> RestOf(text) == header) && !IsItem(text)
  {
    var text := key + ": " + header;
    assert text[|key|] == ':';
    assert text[..|key|] == key && text[|key| + 1..] == " " + header;
    ColonFirst(text, |key|);
    StripFacts(key);
    if header != "" {
      assert Spaces(1) + header == " " + header;
      StripIndented(1, header);
      RStripFacts(header);
    }
    if |key| >= 2 {
      assert text[..2] == key[..2];
    }
  }

  lemma {:induction false} ColonFirst(text: string, n: nat)
    requires n < |text| && text[n] == ':' && ':' !in text[..n]
    ensures ':' in text && ColonAt(text) == n
  {
    if n > 0 {
      assert text[0] == text[..n][0];
      assert text[1..][..n - 1] == text[..n][1..];
      ColonFirst(text[1..], n - 1);
    }
  }

  lemma {:induction false} AllDeeper(body: seq<Line>, rest: seq<Line>, indent: nat)
    requires (forall i :: 0 <= i < |body| ==> body[i].indent > indent) && (rest == [] || rest[0].indent <= indent)
    ensures Deeper(body + rest, indent) == |body|
  {
    if body == [] {
      assert body + rest == rest;
    } else {
      assert (body + rest)[1..] == body[1..] + rest;
      AllDeeper(body[1..], rest, indent);
    }
  }

  // ----- keys

  /** The value of a key. */
  function Find(entries: seq<Entry>, key: string): Option<Value> {
    if entries == [] then None
    else if entries[0].key == key then Some(entries[0].value)
    else Find(entries[1..], key)
  }

  function Keys(entries: seq<Entry>): seq<string> {
    if entries == [] then [] else [entries[0].key] + Keys(entries[1..])
  }

  /** The later value of a repeated key replaces the earlier one, in its place; a new key comes last. */
  lemma {:induction false} LaterWins(entries: seq<Entry>, key: string, value: Value, other: string)
    ensures Find(Put(entries, key, value), other) == if other == key then Some(value) else Find(entries, other)
    ensures Keys(Put(entries, key, value)) == if key in Keys(entries) then Keys(entries) else Keys(entries) + [key]
  {
    if entries != [] {
      var es := Put(entries, key, value);
      if entries[0].key == key {
        assert es[1..] == entries[1..];
      } else {
        LaterWins(entries[1..], key, value, other);
        assert es[1..] == Put(entries[1..], key, value);
      }
    } else {
      assert [Entry(key, value)][1..] == [];
    }
  }

  predicate Distinct(keys: seq<string>) {
    forall i, j :: 0 <= i < j < |keys| ==> keys[i] != keys[j]
  }

  /** No mapping that is read holds a key twice. */
  lemma {:induction false} ReadKeysDistinct(strict: bool, ls: seq<Line>, indent: nat, acc: seq<Entry>)
    requires Distinct(Keys(acc))
    ensures var r := MapFrom(strict, ls, indent, acc); r.Ok? ==> Distinct(Keys(r.value.entries))
    decreases |ls|
  {
    if ls != [] && ls[0].indent >= indent {
      match EntryFrom(strict, ls, indent)
      case EntryOk(e, rest) =>
        LaterWins(acc, e.key, e.value, e.key);
        ReadKeysDistinct(strict, rest, indent, Put(acc, e.key, e.value));
      case EntryErr(_) =>
    }
  }

  // ----- errors and empty values

  /** What the line at the front of a mapping must be. */
  lemma MappingErrors(strict: bool, ls: seq<Line>, indent: nat, acc: seq<Entry>)
    requires ls != []
    ensures ls[0].indent > indent ==> MapFrom(strict, ls, indent, acc) == Err(BadIndent)
    ensures ls[0].indent == indent && StartsWith(ls[0].text, "- ") ==> MapFrom(strict, ls, indent, acc) == Err(ListItemInMapping)
    ensures ls[0].indent == indent && !StartsWith(ls[0].text, "- ") && ':' !in ls[0].text ==> MapFrom(strict, ls, indent, acc) == Err(ExpectedKeyValue)
    ensures ls[0].indent < indent ==> MapFrom(strict, ls, indent, acc) == Ok(Map(acc), ls)
  {
  }

  /** And at the front of a list. */
  lemma ListErrors(strict: bool, ls: seq<Line>, indent: nat, acc: seq<Value>)
    requires ls != []
    ensures ls[0].indent > indent ==> ListFrom(strict, ls, indent, acc) == Err(BadListIndent)
    ensures ls[0].indent < indent || (ls[0].indent == indent && !StartsWith(ls[0].text, "- ")) ==> ListFrom(strict, ls, indent, acc) == Ok(List(acc), ls)
  {
  }

  /** A key with nothing behind it and nothing deeper below it is empty. */
  lemma BareKeyIsNull(strict: bool, indent: nat, key: string, rest: seq<Line>)
    requires ':' !in key && Stripped(key) && !IsItem(key) && (rest == [] || rest[0].indent <= indent)
    ensures EntryFrom(strict, [Line(indent, key + ":")] + rest, indent) == EntryOk(Entry(key, Null), rest)
  {
    var text := key + ":";
    var ls := [Line(indent, text)] + rest;
    BareKey(key, text);
    assert ls[1..] == rest;
  }

  lemma BareKey(key: string, text: string)
    requires ':' !in key && Stripped(key) && !IsItem(key) && text == key + ":"
    ensures ':' in text && KeyOf(text) == key && RestOf(text) == "" && !IsItem(text)
  {
    assert text[|key|] == ':';
    assert text[..|key|] == key && text[|key| + 1..] == "";
    ColonFirst(text, |key|);
    StripFacts(key);
    if |key| >= 2 {
      assert text[..2] == key[..2];
    }
  }

  // ----- indentation

  /** A change of indentation: deeper stays deeper. */
  ghost predicate Rising(f: nat -> nat) {
    forall a: nat, b: nat :: KeepsOrder(f, a, b)
  }

  predicate KeepsOrder(f: nat -> nat, a: nat, b: nat) {
    a < b ==> f(a) < f(b)
  }

  function Moved(f: nat -> nat, ls: seq<Line>): (r: seq<Line>)
    ensures |r| == |ls| && forall i :: 0 <= i < |ls| ==> r[i] == Line(f(ls[i].indent), ls[i].text)
  {
    seq(|ls|, i requires 0 <= i < |ls| => Line(f(ls[i].indent), ls[i].text))
  }

  /** The two columns of a dash and its blank stay two columns. */
  predicate KeepsDashes(f: nat -> nat, ls: seq<Line>) {
    forall i {:trigger KeepsDash(f, ls[i])} :: 0 <= i < |ls| ==> KeepsDash(f, ls[i])
  }

  predicate KeepsDash(f: nat -> nat, l: Line) {
    IsItem(l.text) ==> f(l.indent + 2) == f(l.indent) + 2
  }

  /** The same result, with what is left of the lines moved. */
  predicate SameParse(f: nat -> nat, p: Parsed, q: Parsed) {
    match p
    case Ok(value, rest) => q == Ok(value, Moved(f, rest))
    case Err(_) => q == p
  }

  predicate SameEntry(f: nat -> nat, p: EntryParsed, q: EntryParsed) {
    match p
    case EntryOk(e, rest) => q == EntryOk(e, Moved(f, rest))
    case EntryErr(_) => q == p
  }

  lemma MovedParts(f: nat -> nat, ls: seq<Line>, k: nat)
    requires k <= |ls|
    ensures Moved(f, ls)[k..] == Moved(f, ls[k..]) && Moved(f, ls)[..k] == Moved(f, ls[..k])
  {
  }

  lemma {:induction false} MovedDeeper(f: nat -> nat, ls: seq<Line>, indent: nat)
    requires Rising(f)
    ensures Deeper(Moved(f, ls), f(indent)) == Deeper(ls, indent)
  {
    if ls != [] {
      MovedParts(f, ls, 1);
      Order(f, ls[0].indent, indent);
      MovedDeeper(f, ls[1..], indent);
    }
  }

  lemma Order(f: nat -> nat, a: nat, b: nat)
    requires Rising(f)
    ensures (a < b <==> f(a) < f(b)) && (a == b <==> f(a) == f(b))
  {
    assert KeepsOrder(f, a, b) && KeepsOrder(f, b, a);
  }

  lemma {:induction false} MovedTexts(f: nat -> nat, ls: seq<Line>)
    ensures Texts(Moved(f, ls)) == Texts(ls)
  {
    if ls != [] {
      MovedParts(f, ls, 1);
      MovedTexts(f, ls[1..]);
    }
  }

  lemma RestKeeps(f: nat -> nat, ls: seq<Line>, rest: seq<Line>)
    requires KeepsDashes(f, ls) && ReadsSome(ls, rest)
    ensures KeepsDashes(f, rest)
  {
    if rest != ls {
      SuffixKeeps(f, ls, |ls| - |rest|);
    }
  }

  lemma SuffixKeeps(f: nat -> nat, ls: seq<Line>, k: nat)
    requires KeepsDashes(f, ls) && k <= |ls|
    ensures KeepsDashes(f, ls[k..])
  {
    forall i | 0 <= i < |ls| - k ensures KeepsDash(f, ls[k..][i]) {
      assert KeepsDash(f, ls[k + i]) && ls[k..][i] == ls[k + i];
    }
  }

  lemma {:induction false} EntryMoved(f: nat -> nat, strict: bool, ls: seq<Line>, indent: nat)
    requires Rising(f) && ls != [] && ls[0].indent >= indent && KeepsDashes(f, ls[1..])
    ensures f(ls[0].indent) >= f(indent)
    ensures SameEntry(f, EntryFrom(strict, ls, indent), EntryFrom(strict, Moved(f, ls), f(indent)))
    decreases |ls|, 0
  {
    Order(f, ls[0].indent, indent);
    Order(f, indent, ls[0].indent);
    MovedParts(f, ls, 1);
    if ls[0].indent == indent && !IsItem(ls[0].text) && ':' in ls[0].text {
      if IsBlockHeader(RestOf(ls[0].text)) {
        ScalarMoved(f, strict, ls, indent);
      } else if RestOf(ls[0].text) == "" && |ls| > 1 {
        Order(f, indent, ls[1].indent);
        if ls[1].indent > indent {
          BlockMoved(f, strict, ls[1..], ls[1].indent);
        }
      }
    }
  }

  lemma ScalarMoved(f: nat -> nat, strict: bool, ls: seq<Line>, indent: nat)
    requires Rising(f) && ls != [] && ls[0].indent == indent && !IsItem(ls[0].text) && ':' in ls[0].text && IsBlockHeader(RestOf(ls[0].text))
    ensures SameEntry(f, EntryFrom(strict, ls, indent), EntryFrom(strict, Moved(f, ls), f(indent)))
  {
    var n := Deeper(ls[1..], indent);
    MovedParts(f, ls, 1);
    MovedDeeper(f, ls[1..], indent);
    MovedParts(f, ls, 1 + n);
    MovedParts(f, ls[..1 + n], 1);
    MovedTexts(f, ls[1..1 + n]);
    assert ls[..1 + n][1..] == ls[1..1 + n];
    assert Moved(f, ls)[..1 + n][1..] == Moved(f, ls)[1..1 + n];
  }

  lemma {:induction false} MapMoved(f: nat -> nat, strict: bool, ls: seq<Line>, indent: nat, acc: seq<Entry>)
    requires Rising(f) && (ls != [] ==> KeepsDashes(f, ls[1..]))
    ensures SameParse(f, MapFrom(strict, ls, indent, acc), MapFrom(strict, Moved(f, ls), f(indent), acc))
    decreases |ls|, 1
  {
    if ls != [] {
      Order(f, ls[0].indent, indent);
      if ls[0].indent >= indent {
        EntryMoved(f, strict, ls, indent);
        match EntryFrom(strict, ls, indent)
        case EntryOk(e, rest) =>
          LaterRest(f, ls, rest);
          MapMoved(f, strict, rest, indent, Put(acc, e.key, e.value));
        case EntryErr(_) =>
      }
    }
  }

  lemma LaterRest(f: nat -> nat, ls: seq<Line>, rest: seq<Line>)
    requires ls != [] && KeepsDashes(f, ls[1..]) && Reads(ls, rest)
    ensures KeepsDashes(f, rest) && (rest != [] ==> KeepsDashes(f, rest[1..]))
  {
    var k := |ls| - |rest|;
    assert ls[1..][k - 1..] == rest;
    SuffixKeeps(f, ls[1..], k - 1);
    if rest != [] {
      SuffixKeeps(f, rest, 1);
    }
  }

  /** The lines after an item and its block. */
  function Beyond(ls: seq<Line>, indent: nat): seq<Line>
    requires ls != []
  {
    ls[1 + Deeper(ls[1..], indent)..]
  }

  lemma {:induction false} ItemMoved(f: nat -> nat, strict: bool, ls: seq<Line>, indent: nat)
    requires Rising(f) && ls != [] && ls[0].indent == indent && IsItem(ls[0].text) && KeepsDashes(f, ls)
    ensures SameParse(f, ItemFrom(strict, ls, indent), ItemFrom(strict, Moved(f, ls), f(indent)))
    decreases |ls|, 2
  {
    var item := Strip(ls[0].text[2..]);
    if StartsMapping(item) {
      SynthMoved(f, ls, indent, item);
      G.SynthShape(ls, indent, item);
      MapMoved(f, strict, G.Synth(ls, indent, item), indent + 2, []);
      ItemsAgree(f, strict, ls, indent, Moved(f, ls), f(indent), item);
    } else {
      MovedParts(f, ls, 1);
    }
  }

  /** What an item makes of the mapping in its block. */
  function Taken(strict: bool, p: Parsed, left: seq<Line>): Parsed {
    if p.Err? then p else if strict && p.rest != [] then Err(DroppedLines) else Ok(p.value, left)
  }

  lemma ItemsAgree(f: nat -> nat, strict: bool, ls: seq<Line>, indent: nat, ls': seq<Line>, indent': nat, item: string)
    requires ls != [] && IsItem(ls[0].text) && item == Strip(ls[0].text[2..]) && StartsMapping(item)
    requires ls' != [] && ls'[0].text == ls[0].text
    requires SameParse(f, MapFrom(strict, G.Synth(ls, indent, item), indent + 2, []), MapFrom(strict, G.Synth(ls', indent', item), indent' + 2, []))
    requires Beyond(ls', indent') == Moved(f, Beyond(ls, indent))
    ensures SameParse(f, ItemFrom(strict, ls, indent), ItemFrom(strict, ls', indent'))
  {
    ItemOf(strict, ls, indent, item);
    ItemOf(strict, ls', indent', item);
  }

  lemma ItemOf(strict: bool, ls: seq<Line>, indent: nat, item: string)
    requires ls != [] && IsItem(ls[0].text) && item == Strip(ls[0].text[2..]) && StartsMapping(item)
    ensures ItemFrom(strict, ls, indent) == Taken(strict, MapFrom(strict, G.Synth(ls, indent, item), indent + 2, []), Beyond(ls, indent))
  {
  }

  lemma SynthMoved(f: nat -> nat, ls: seq<Line>, indent: nat, item: string)
    requires Rising(f) && ls != [] && ls[0].indent == indent && IsItem(ls[0].text) && KeepsDashes(f, ls)
    ensures f(indent + 2) == f(indent) + 2
    ensures G.Synth(Moved(f, ls), f(indent), item) == Moved(f, G.Synth(ls, indent, item))
    ensures Beyond(Moved(f, ls), f(indent)) == Moved(f, Beyond(ls, indent))
    ensures KeepsDashes(f, G.Synth(ls, indent, item)[1..])
  {
    assert KeepsDash(f, ls[0]);
    DeepMoved(f, ls, indent);
    BeyondMoved(f, ls, indent);
    BlockMovedToo(f, ls, indent, item);
    BlockKeeps(f, ls, Deeper(ls[1..], indent), G.Synth(ls, indent, item));
  }

  lemma BeyondMoved(f: nat -> nat, ls: seq<Line>, indent: nat)
    requires ls != [] && Deeper(Moved(f, ls)[1..], f(indent)) == Deeper(ls[1..], indent)
    ensures Beyond(Moved(f, ls), f(indent)) == Moved(f, Beyond(ls, indent))
  {
    MovedParts(f, ls, 1 + Deeper(ls[1..], indent));
  }

  lemma BlockMovedToo(f: nat -> nat, ls: seq<Line>, indent: nat, item: string)
    requires ls != [] && Deeper(Moved(f, ls)[1..], f(indent)) == Deeper(ls[1..], indent) && f(indent + 2) == f(indent) + 2
    ensures G.Synth(Moved(f, ls), f(indent), item) == Moved(f, G.Synth(ls, indent, item))
  {
    MovedSynth(f, ls, Line(indent + 2, item), Deeper(ls[1..], indent));
  }

  lemma DeepMoved(f: nat -> nat, ls: seq<Line>, indent: nat)
    requires Rising(f) && ls != []
    ensures Deeper(Moved(f, ls)[1..], f(indent)) == Deeper(ls[1..], indent)
  {
    MovedParts(f, ls, 1);
    MovedDeeper(f, ls[1..], indent);
  }

  lemma BlockKeeps(f: nat -> nat, ls: seq<Line>, n: nat, synth: seq<Line>)
    requires KeepsDashes(f, ls) && 1 + n <= |ls| && |synth| == 1 + n && synth[1..] == ls[1..1 + n]
    ensures KeepsDashes(f, synth[1..])
  {
    PartKeeps(f, ls, ls[1..1 + n]);
  }

  lemma MovedSynth(f: nat -> nat, ls: seq<Line>, first: Line, n: nat)
    requires 1 + n <= |ls|
    ensures Moved(f, [first] + ls[1..1 + n]) == [Line(f(first.indent), first.text)] + Moved(f, ls)[1..1 + n]
  {
  }

  lemma PartKeeps(f: nat -> nat, ls: seq<Line>, part: seq<Line>)
    requires KeepsDashes(f, ls) && forall l :: l in part ==> l in ls
    ensures KeepsDashes(f, part)
  {
    forall i | 0 <= i < |part| ensures KeepsDash(f, part[i]) {
      assert part[i] in ls;
      var j :| 0 <= j < |ls| && ls[j] == part[i];
      assert KeepsDash(f, ls[j]);
    }
  }

  lemma {:induction false} ListMoved(f: nat -> nat, strict: bool, ls: seq<Line>, indent: nat, acc: seq<Value>)
    requires Rising(f) && KeepsDashes(f, ls)
    ensures SameParse(f, ListFrom(strict, ls, indent, acc), ListFrom(strict, Moved(f, ls), f(indent), acc))
    decreases |ls|, 4
  {
    if ls != [] {
      Order(f, ls[0].indent, indent);
      Order(f, indent, ls[0].indent);
      if ls[0].indent == indent && IsItem(ls[0].text) {
        ItemMoved(f, strict, ls, indent);
        match ItemFrom(strict, ls, indent)
        case Ok(value, rest) =>
          RestKeeps(f, ls, rest);
          ListMoved(f, strict, rest, indent, acc + [value]);
        case Err(_) =>
      }
    }
  }

  lemma {:induction false} BlockMoved(f: nat -> nat, strict: bool, ls: seq<Line>, indent: nat)
    requires Rising(f) && ls != [] && ls[0].indent == indent && KeepsDashes(f, ls)
    ensures SameParse(f, BlockFrom(strict, ls, indent), BlockFrom(strict, Moved(f, ls), f(indent)))
    decreases |ls|, 5
  {
    if IsItem(ls[0].text) {
      ListMoved(f, strict, ls, indent, []);
    } else {
      TailKeeps(f, ls);
      MapMoved(f, strict, ls, indent, []);
    }
  }

  lemma TailKeeps(f: nat -> nat, ls: seq<Line>)
    requires ls != [] && KeepsDashes(f, ls)
    ensures KeepsDashes(f, ls[1..])
  {
    SuffixKeeps(f, ls, 1);
  }

  /**
   Only the order of the indents matters, not their size: any change that keeps deeper lines
   deeper, and two columns for every dash, gives the same value or the same error.
   */
  lemma IndentsAreRelative(f: nat -> nat, strict: bool, ls: seq<Line>)
    requires Rising(f) && KeepsDashes(f, ls)
    ensures ParseLines(strict, Moved(f, ls)) == ParseLines(strict, ls)
  {
    if ls != [] {
      BlockMoved(f, strict, ls, ls[0].indent);
    }
  }
}
