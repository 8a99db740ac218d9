/**
 Scalars of the YAML subset: reading a token (`_scalar`, `_split_flow`, `_strip_comment`,
 `_block_scalar_kind`) and writing one (`_dump_scalar`).
 */
module YamlScalar {
  import opened PyText
  import opened Wrappers

  datatype Entry = Entry(key: string, value: Value)

  /**
   What the parser builds. A mapping is its entries in insertion order; a float is kept
   as the token it was read from.
   */
  datatype Value =
    | Null
    | Bool(b: bool)
    | Int(n: int)
    | Float(text: string)
    | Str(s: string)
    | List(items: seq<Value>)
    | Map(entries: seq<Entry>)
  {
    /** A list or mapping with something in it, which is laid out over several lines. */
    predicate IsBlock() {
      (List? && items != []) || (Map? && entries != [])
    }
  }

  // ----- numbers

  predicate IsDigit(c: char) {
    '0' <= c <= '9'
  }

  function DigitValue(c: char): nat
    requires IsDigit(c)
  {
    c as int - '0' as int
  }

  predicate AllDigits(s: string) {
    forall i :: 0 <= i < |s| ==> IsDigit(s[i])
  }

  /** Digits with single underscores between them. */
  predicate IsDigitPart(s: string) {
    && s != "" && IsDigit(s[0]) && IsDigit(s[|s| - 1])
    && (forall i :: 0 <= i < |s| ==> IsDigit(s[i]) || s[i] == '_')
    && (forall i :: 0 <= i < |s| - 1 ==> s[i] != '_' || s[i + 1] != '_')
  }

  function DigitsValue(s: string): nat
    requires forall i :: 0 <= i < |s| ==> IsDigit(s[i]) || s[i] == '_'
  {
    if s == "" then 0
    else
      var c, rest := s[|s| - 1], DigitsValue(s[..|s| - 1]);
      if c == '_' then rest else 10 * rest + DigitValue(c)
  }

  function Unsigned(t: string): string {
    if t != "" && (t[0] == '+' || t[0] == '-') then t[1..] else t
  }

  /** The zeros of the decimal digits outside ASCII, ten consecutive characters each (Unicode 14.0, category Nd). */
  const WIDE_ZEROS: seq<int> := ARABIC_ZEROS + INDIC_ZEROS + ASIAN_ZEROS + OTHER_ZEROS

  const ARABIC_ZEROS: seq<int> := [0x660, 0x6F0, 0x7C0]

  const INDIC_ZEROS: seq<int> := [0x966, 0x9E6, 0xA66, 0xAE6, 0xB66, 0xBE6, 0xC66, 0xCE6, 0xD66, 0xDE6]

  const ASIAN_ZEROS: seq<int> := [
    0xE50, 0xED0, 0xF20, 0x1040, 0x1090, 0x17E0, 0x1810, 0x1946, 0x19D0, 0x1A80, 0x1A90, 0x1B50, 0x1BB0, 0x1C40, 0x1C50,
    0xA620, 0xA8D0, 0xA900, 0xA9D0, 0xA9F0, 0xAA50, 0xABF0, 0xFF10]

  const OTHER_ZEROS: seq<int> := [
    0x104A0, 0x10D30, 0x11066, 0x110F0, 0x11136, 0x111D0, 0x112F0, 0x11450, 0x114D0, 0x11650, 0x116C0, 0x11730, 0x118E0,
    0x11950, 0x11C50, 0x11D50, 0x11DA0, 0x16A60, 0x16AC0, 0x16B50, 0x1D7CE, 0x1D7D8, 0x1D7E2, 0x1D7EC, 0x1D7F6, 0x1E140,
    0x1E2F0, 0x1E950, 0x1FBF0]

  /** The value of a digit whose block starts at one of the zeros, or -1. */
  function WideValue(code: int, zeros: seq<int>): (d: int)
    ensures -1 <= d < 10
  {
    if zeros == [] then -1
    else if zeros[0] <= code < zeros[0] + 10 then code - zeros[0]
    else WideValue(code, zeros[1..])
  }

  /** Before reading a number, Python replaces every decimal digit by its ASCII form; other characters spoil the number. */
  function AsciiDigit(c: char): char {
    if c as int < 128 then c
    else
      var d := WideValue(c as int, WIDE_ZEROS);
      if d >= 0 then Digit(d) else '?'
  }

  function Ascii(t: string): (r: string)
    ensures |r| == |t| && forall i :: 0 <= i < |t| ==> r[i] == AsciiDigit(t[i])
  {
    if t == "" then "" else [AsciiDigit(t[0])] + Ascii(t[1..])
  }

  lemma AsciiUnchanged(t: string)
    requires forall i :: 0 <= i < |t| ==> t[i] as int < 128
    ensures Ascii(t) == t
  {
  }

  /** The interpreter converts no more digits than this between text and integers. */
  const INT_DIGITS := 4300

  function DigitCount(s: string): nat {
    if s == "" then 0 else DigitCount(s[..|s| - 1]) + if s[|s| - 1] == '_' then 0 else 1
  }

  lemma {:induction false} DigitCountAll(s: string)
    requires AllDigits(s)
    ensures DigitCount(s) == |s|
  {
    if s != "" {
      DigitCountAll(s[..|s| - 1]);
    }
  }

  /** int(t) */
  function ReadInt(t: string): Option<int> {
    ReadAsciiInt(Ascii(t))
  }

  function ReadAsciiInt(t: string): Option<int> {
    if !IsDigitPart(Unsigned(t)) || DigitCount(Unsigned(t)) > INT_DIGITS then None
    else
      var magnitude: int := DigitsValue(Unsigned(t));
      Some(if t[0] == '-' then -magnitude else magnitude)
  }

  function Lower(s: string): string {
    if s == "" then ""
    else [if 'A' <= s[0] <= 'Z' then (s[0] as int + 32) as char else s[0]] + Lower(s[1..])
  }

  /** Index of the first character satisfying `p`, or the length. */
  function FirstWhere(s: string, p: char -> bool): (k: nat)
    ensures k <= |s| && (k < |s| ==> p(s[k])) && forall i :: 0 <= i < k ==> !p(s[i])
  {
    if s == "" || p(s[0]) then 0 else 1 + FirstWhere(s[1..], p)
  }

  /** A decimal fraction: digits, a point, digits, at least one side present. */
  predicate IsFraction(s: string) {
    var k := FirstWhere(s, c => c == '.');
    && k < |s| && |s| > 1
    && (k == 0 || IsDigitPart(s[..k]))
    && (k + 1 == |s| || IsDigitPart(s[k + 1..]))
  }

  /** float(t) succeeds. */
  predicate IsFloat(t: string) {
    IsAsciiFloat(Ascii(t))
  }

  predicate IsAsciiFloat(t: string) {
    var u := Unsigned(t);
    var e := FirstWhere(u, c => c == 'e' || c == 'E');
    || Lower(u) in {"inf", "infinity", "nan"}
    || ((IsDigitPart(u[..e]) || IsFraction(u[..e])) && (e == |u| || IsDigitPart(Unsigned(u[e + 1..]))))
  }

  function Digit(d: nat): (c: char)
    requires d < 10
    ensures IsDigit(c) && DigitValue(c) == d
  {
    ('0' as int + d) as char
  }

  function Digits(n: nat): (s: string)
    ensures s != "" && AllDigits(s)
  {
    if n < 10 then [Digit(n)] else Digits(n / 10) + [Digit(n % 10)]
  }

  /** str(n) */
  function IntText(n: int): string {
    if n < 0 then "-" + Digits(-n) else Digits(n)
  }

  lemma {:induction false} DigitsRoundTrip(n: nat)
    ensures DigitsValue(Digits(n)) == n
  {
    var s := Digits(n);
    if n >= 10 {
      DigitsRoundTrip(n / 10);
      assert s[..|s| - 1] == Digits(n / 10);
    } else {
      assert s[..|s| - 1] == "";
    }
  }

  /** The integers the interpreter is willing to print and read. */
  predicate Printable(n: int) {
    |Digits(if n < 0 then -n else n)| <= INT_DIGITS
  }

  /** Decimal text reads back as the integer it was printed from, exactly up to the interpreter's limit. */
  lemma IntRoundTrip(n: int)
    ensures ReadInt(IntText(n)) == Some(n) <==> Printable(n)
    ensures IntText(n) != "" && forall i :: 0 <= i < |IntText(n)| ==> IsDigit(IntText(n)[i]) || IntText(n)[i] == '-'
  {
    IntTextIsNumeral(n);
    AsciiUnchanged(IntText(n));
    AsciiIntRoundTrip(n);
  }

  lemma IntTextIsNumeral(n: int)
    ensures IntText(n) != "" && forall i :: 0 <= i < |IntText(n)| ==> IsDigit(IntText(n)[i]) || IntText(n)[i] == '-'
  {
  }

  lemma AsciiIntRoundTrip(n: int)
    ensures ReadAsciiInt(IntText(n)) == Some(n) <==> Printable(n)
  {
    var m := if n < 0 then -n else n;
    var t := IntText(n);
    assert Unsigned(t) == Digits(m);
    MagnitudeRead(m);
    assert t[0] == '-' <==> n < 0;
  }

  lemma MagnitudeRead(m: nat)
    ensures IsDigitPart(Digits(m)) && DigitCount(Digits(m)) == |Digits(m)| && DigitsValue(Digits(m)) == m
  {
    DigitsRoundTrip(m);
    DigitCountAll(Digits(m));
  }

  // ----- reading

  predicate IsQuote(c: char) {
    c == '\'' || c == '"'
  }

  /** The same quote character at both ends. */
  predicate QuoteWrapped(t: string) {
    |t| >= 2 && t[0] == t[|t| - 1] && IsQuote(t[0])
  }

  predicate Bracketed(t: string) {
    |t| >= 2 && t[0] == '[' && t[|t| - 1] == ']'
  }

  /** Appends the stripped buffer to the parts of a flow sequence. */
  function SplitFlowFrom(s: string, i: nat, inSingle: bool, inDouble: bool, buf: string): (parts: seq<string>)
    requires i <= |s|
    ensures forall p :: p in parts ==> |p| <= |buf| + |s| - i
    decreases |s| - i
  {
    StripFacts(buf);
    if i == |s| then
      if Strip(buf) != "" then [Strip(buf)] else []
    else
      var c := s[i];
      var sq := if c == '\'' && !inDouble then !inSingle else inSingle;
      var dq := if !(c == '\'' && !inDouble) && c == '"' && !inSingle then !inDouble else inDouble;
      if c == ',' && !sq && !dq then [Strip(buf)] + SplitFlowFrom(s, i + 1, sq, dq, "")
      else SplitFlowFrom(s, i + 1, sq, dq, buf + [c])
  }

  lemma Regroup<T>(acc: seq<T>, e: T, rest: seq<T>)
    ensures acc + [e] + rest == acc + ([e] + rest)
  {
  }

  /** One character of the split, with the quote flags before and after it. */
  lemma FlowStep(s: string, i: nat, single: bool, double: bool, sq: bool, dq: bool, buf: string, parts: seq<string>)
    requires i < |s|
    requires sq == if s[i] == '\'' && !double then !single else single
    requires dq == if !(s[i] == '\'' && !double) && s[i] == '"' && !single then !double else double
    ensures parts + SplitFlowFrom(s, i, single, double, buf) ==
            if s[i] == ',' && !sq && !dq then parts + [Strip(buf)] + SplitFlowFrom(s, i + 1, sq, dq, "")
            else parts + SplitFlowFrom(s, i + 1, sq, dq, buf + [s[i]])
  {
    Regroup(parts, Strip(buf), SplitFlowFrom(s, i + 1, sq, dq, ""));
  }

  /** Splits a flow-sequence body on the commas outside quotes. */
  method SplitFlow(inner: string) returns (parts: seq<string>)
    ensures parts == SplitFlowFrom(inner, 0, false, false, "")
  {
    parts := [];
    var buf := "";
    var inSingle, inDouble := false, false;
    var i := 0;
    while i < |inner|
      invariant 0 <= i <= |inner|
      invariant parts + SplitFlowFrom(inner, i, inSingle, inDouble, buf) == SplitFlowFrom(inner, 0, false, false, "")
    {
      var c := inner[i];
      ghost var single, double := inSingle, inDouble;
      if c == '\'' && !inDouble {
        inSingle := !inSingle;
      } else if c == '"' && !inSingle {
        inDouble := !inDouble;
      }
      FlowStep(inner, i, single, double, inSingle, inDouble, buf, parts);
      if c == ',' && !inSingle && !inDouble {
        parts := parts + [Strip(buf)];
        buf := "";
      } else {
        buf := buf + [c];
      }
      i := i + 1;
    }
    if Strip(buf) != "" {
      parts := parts + [Strip(buf)];
    }
  }

  /** The tokens with a fixed meaning. */
  function Keyword(t: string): Option<Value> {
    if t == "" || t == "null" || t == "~" || t == "None" then Some(Null)
    else if t == "true" || t == "True" then Some(Bool(true))
    else if t == "false" || t == "False" then Some(Bool(false))
    else if t == "[]" then Some(List([]))
    else if t == "{}" then Some(Map([]))
    else None
  }

  lemma NoKeyword(t: string)
    requires t != "" && (IsQuote(t[0]) || IsDigit(t[0]) || t[0] == '-')
    ensures Keyword(t).None?
  {
  }

  lemma KeywordIsNoString(t: string)
    ensures Keyword(t).Some? ==> !Keyword(t).value.Str?
  {
  }

  function Scalar(token: string): Value
    decreases |token|, 1
  {
    StripFacts(token);
    var t := Strip(token);
    if Keyword(t).Some? then Keyword(t).value
    else if QuoteWrapped(t) then Str(t[1..|t| - 1])
    else if Bracketed(t) then
      StripFacts(t[1..|t| - 1]);
      var inner := Strip(t[1..|t| - 1]);
      if inner == "" then List([]) else List(Scalars(SplitFlowFrom(inner, 0, false, false, ""), |token|))
    else
      match ReadInt(t)
      case Some(n) => Int(n)
      case None => if IsFloat(t) then Float(t) else Str(t)
  }

  function Scalars(parts: seq<string>, ghost bound: nat): seq<Value>
    requires forall p :: p in parts ==> |p| < bound
    decreases bound, 0, |parts|
  {
    if parts == [] then [] else [Scalar(parts[0])] + Scalars(parts[1..], bound)
  }

  /** The header of a `|` or `>` block. */
  predicate IsBlockHeader(rest: string) {
    var head := Strip(rest);
    head != "" && (head[0] == '|' || head[0] == '>')
  }

  // ----- comments

  /** Where a comment starts: the first `#` outside quotes, at the start or after a blank. */
  function CommentAt(line: string, i: nat, inSingle: bool, inDouble: bool): (k: nat)
    requires i <= |line|
    ensures i <= k <= |line|
    decreases |line| - i
  {
    if i == |line| then i
    else
      var c := line[i];
      if c == '\'' && !inDouble then CommentAt(line, i + 1, !inSingle, inDouble)
      else if c == '"' && !inSingle then CommentAt(line, i + 1, inSingle, !inDouble)
      else if c == '#' && !inSingle && !inDouble && (i == 0 || line[i - 1] == ' ' || line[i - 1] == '\t') then i
      else CommentAt(line, i + 1, inSingle, inDouble)
  }

  function Uncommented(line: string): string {
    line[..CommentAt(line, 0, false, false)]
  }

  method StripComment(line: string) returns (r: string)
    ensures r == Uncommented(line)
  {
    var inSingle, inDouble := false, false;
    var i := 0;
    while i < |line|
      invariant 0 <= i <= |line|
      invariant CommentAt(line, i, inSingle, inDouble) == CommentAt(line, 0, false, false)
    {
      var c := line[i];
      if c == '\'' && !inDouble {
        inSingle := !inSingle;
      } else if c == '"' && !inSingle {
        inDouble := !inDouble;
      } else if c == '#' && !inSingle && !inDouble {
        if i == 0 || line[i - 1] == ' ' || line[i - 1] == '\t' {
          return line[..i];
        }
      }
      i := i + 1;
    }
    r := line;
  }

  lemma {:induction false} CommentAtHash(line: string, i: nat, inSingle: bool, inDouble: bool)
    requires i <= |line|
    ensures var k := CommentAt(line, i, inSingle, inDouble);
            k < |line| ==> line[k] == '#'
    decreases |line| - i
  {
    if i < |line| {
      var c := line[i];
      if c == '\'' && !inDouble {
        CommentAtHash(line, i + 1, !inSingle, inDouble);
      } else if c == '"' && !inSingle {
        CommentAtHash(line, i + 1, inSingle, !inDouble);
      } else {
        CommentAtHash(line, i + 1, inSingle, inDouble);
      }
    }
  }

  predicate Plain(s: string) {
    forall i :: 0 <= i < |s| ==> s[i] != '#' && !IsQuote(s[i])
  }

  /** A prefix without quotes or `#` leaves the scan of what follows it unchanged. */
  lemma {:induction false} CommentAtShift(p: string, t: string, i: nat, inSingle: bool, inDouble: bool)
    requires i <= |t| && (i == 0 ==> t == "" || t[0] != '#')
    ensures CommentAt(p + t, |p| + i, inSingle, inDouble) == |p| + CommentAt(t, i, inSingle, inDouble)
    decreases |t| - i
  {
    if i < |t| {
      var c := t[i];
      assert (p + t)[|p| + i] == c;
      assert i > 0 ==> (p + t)[|p| + i - 1] == t[i - 1];
      if c == '\'' && !inDouble {
        CommentAtShift(p, t, i + 1, !inSingle, inDouble);
      } else if c == '"' && !inSingle {
        CommentAtShift(p, t, i + 1, inSingle, !inDouble);
      } else {
        CommentAtShift(p, t, i + 1, inSingle, inDouble);
      }
    }
  }

  lemma {:induction false} CommentAtSkips(p: string, t: string, i: nat)
    requires i <= |p| && Plain(p)
    ensures CommentAt(p + t, i, false, false) == CommentAt(p + t, |p|, false, false)
    decreases |p| - i
  {
    if i < |p| {
      assert (p + t)[i] == p[i];
      CommentAtSkips(p, t, i + 1);
    }
  }

  lemma UncommentedAfter(p: string, t: string)
    requires Plain(p) && (t == "" || t[0] != '#')
    ensures Uncommented(p + t) == p + Uncommented(t)
  {
    CommentAtSkips(p, t, 0);
    CommentAtShift(p, t, 0, false, false);
  }

  lemma {:induction false} NoHashNoComment(t: string, i: nat, inSingle: bool, inDouble: bool)
    requires i <= |t| && forall k :: i <= k < |t| ==> t[k] != '#'
    ensures CommentAt(t, i, inSingle, inDouble) == |t|
    decreases |t| - i
  {
    CommentAtHash(t, i, inSingle, inDouble);
  }

  // ----- writing

  predicate NeedsQuotes(s: string) {
    s == "" || ':' in s || '#' in s || Strip(s) != s
  }

  lemma QuotingRule(s: string)
    ensures NeedsQuotes(s) <==> s == "" || ':' in s || '#' in s || !Stripped(s)
  {
    StripFacts(s);
  }

  function Quoted(s: string): string {
    if NeedsQuotes(s) then "\"" + s + "\"" else s
  }

  /** `_dump_scalar`; `repr` stands for Python's `str` on a list or dict with elements. */
  function DumpScalar(repr: Value -> string, v: Value): string {
    match v
    case Null => "null"
    case Bool(b) => if b then "true" else "false"
    case Int(n) => IntText(n)
    case Float(text) => text
    case Str(s) => Quoted(s)
    case List(items) => if items == [] then "[]" else Quoted(repr(v))
    case Map(entries) => if entries == [] then "{}" else Quoted(repr(v))
  }

  // ----- reading back what was written

  /** What is left of a token on its line once a comment has been cut off. */
  function Cut(t: string): string {
    RStrip(Uncommented(t))
  }

  /** The strings that survive being written plainly. */
  predicate PlainReadsBack(s: string, inList: bool) {
    && Keyword(s).None?
    && !QuoteWrapped(s) && !Bracketed(s)
    && ReadInt(s).None? && !IsFloat(s)
    && (inList || s == "" || (s[0] != '|' && s[0] != '>'))
  }

  /** No `#` of the quoted token is taken for a comment. */
  predicate HashesCovered(s: string) {
    CommentAt("\"" + s + "\"", 0, false, false) == |s| + 2
  }

  /** The leaves that survive a dump, as a value of a mapping or as an item of a list. */
  predicate LeafReadsBack(v: Value, inList: bool) {
    match v
    case Str(s) => if NeedsQuotes(s) then HashesCovered(s) else PlainReadsBack(s, inList)
    case _ => true
  }

  function ReadLeaf(t: string, inList: bool): Value {
    if !inList && IsBlockHeader(Cut(t)) then Str("") else Scalar(Cut(t))
  }

  /** A leaf's token: it starts visibly, and neither `#` nor a mapping colon shows unquoted. */
  predicate TokenOk(t: string) {
    && t != "" && !IsSpace(t[0]) && t[0] != '#'
    && (t[0] == '"' || ':' !in t)
    && NoBreaks(t)
  }

  lemma CutFacts(t: string)
    requires TokenOk(t)
    ensures Cut(t) != "" && Cut(t) <= t && Stripped(Cut(t)) && Cut(t)[0] == t[0]
    ensures Uncommented(t) != "" && Uncommented(t) <= t && RStrip(Uncommented(t)) == Cut(t)
    ensures t[0] == '"' || ':' !in Cut(t)
    ensures Strip(Cut(t)) == Cut(t)
  {
    var k := CommentAt(t, 0, false, false);
    CommentAtHash(t, 0, false, false);
    assert k > 0;
    RStripFacts(t[..k]);
    StripFacts(Cut(t));
  }

  lemma CutWhole(t: string)
    requires TokenOk(t) && CommentAt(t, 0, false, false) == |t| && !IsSpace(t[|t| - 1])
    ensures Cut(t) == t
  {
    assert Uncommented(t) == t;
    RStripFacts(t);
  }

  lemma NotNumeric(t: string)
    requires t != "" && IsQuote(t[0])
    ensures ReadInt(t).None? && !IsFloat(t)
  {
    assert Ascii(t)[0] == t[0];
    QuoteNotNumeric(Ascii(t));
  }

  lemma QuoteNotNumeric(t: string)
    requires t != "" && IsQuote(t[0])
    ensures ReadAsciiInt(t).None? && !IsAsciiFloat(t)
  {
    var u := Unsigned(t);
    assert u == t;
    assert Lower(u)[0] == t[0];
    var e := FirstWhere(u, c => c == 'e' || c == 'E');
    assert e > 0;
    assert u[..e][0] == t[0];
    var k := FirstWhere(u[..e], c => c == '.');
    assert k > 0 ==> u[..e][..k][0] == t[0];
  }

  lemma PlainToken(s: string)
    requires !NeedsQuotes(s) && NoBreaks(s)
    ensures TokenOk(s) && Cut(s) == s && Strip(s) == s
  {
    QuotingRule(s);
    NoHashNoComment(s, 0, false, false);
    CutWhole(s);
    StripFacts(s);
  }

  /** A plainly written string reads back exactly when it looks like no other scalar. */
  lemma PlainLeaf(s: string, inList: bool)
    requires !NeedsQuotes(s) && NoBreaks(s)
    ensures ReadLeaf(s, inList) == Str(s) <==> PlainReadsBack(s, inList)
  {
    PlainToken(s);
    KeywordIsNoString(s);
  }

  lemma QuotedToken(s: string)
    requires NoBreaks(s)
    ensures TokenOk("\"" + s + "\"")
  {
  }

  /** A token that starts with a double quote is a string, whole or unwrapped. */
  lemma ScalarOfQuote(c: string)
    requires c != "" && c[0] == '"' && Stripped(c)
    ensures Scalar(c) == if QuoteWrapped(c) then Str(c[1..|c| - 1]) else Str(c)
    ensures !IsBlockHeader(c)
  {
    StripFacts(c);
    NoKeyword(c);
    NotNumeric(c);
  }

  /** A quoted string reads back exactly when none of its hashes is exposed. */
  lemma QuotedLeaf(s: string, inList: bool)
    requires NoBreaks(s)
    ensures ReadLeaf("\"" + s + "\"", inList) == Str(s) <==> HashesCovered(s)
  {
    var t := "\"" + s + "\"";
    QuotedToken(s);
    CutFacts(t);
    ScalarOfQuote(Cut(t));
    if HashesCovered(s) {
      CutWhole(t);
      assert t[1..|t| - 1] == s;
    } else {
      ExposedHash(s);
    }
  }

  lemma {:induction false} CoveredFrom(t: string, i: nat)
    requires 0 < i < |t| && t[|t| - 1] == '"' && forall k :: i <= k < |t| - 1 ==> t[k] != '"'
    ensures CommentAt(t, i, false, true) == |t|
    decreases |t| - i
  {
    if i < |t| - 1 {
      CoveredFrom(t, i + 1);
    } else {
      assert CommentAt(t, |t|, false, false) == |t|;
    }
  }

  /** A string without double quotes has all its hashes covered by the quotes around it. */
  lemma UnquotedIsCovered(s: string)
    requires '"' !in s
    ensures HashesCovered(s)
  {
    var t := "\"" + s + "\"";
    CoveredFrom(t, 1);
  }

  // ----- which strings are covered, without scanning

  /** Where a prefix of a line leaves the quotes. */
  datatype Quoting = Outside | InSingle | InDouble

  function Toggled(q: Quoting, c: char): Quoting {
    match q
    case Outside => if c == '\'' then InSingle else if c == '"' then InDouble else Outside
    case InSingle => if c == '\'' then Outside else InSingle
    case InDouble => if c == '"' then Outside else InDouble
  }

  function QuotingAfter(t: string): Quoting {
    if t == "" then Outside else Toggled(QuotingAfter(t[..|t| - 1]), t[|t| - 1])
  }

  /** A hash outside quotes that starts the line or follows a blank. */
  predicate CommentHash(t: string, j: nat)
    requires j < |t|
  {
    t[j] == '#' && QuotingAfter(t[..j]) == Outside && (j == 0 || t[j - 1] == ' ' || t[j - 1] == '\t')
  }

  /** The flags of the scanner say where the prefix leaves the quotes. */
  predicate Flags(q: Quoting, inSingle: bool, inDouble: bool) {
    inSingle == q.InSingle? && inDouble == q.InDouble?
  }

  /** The scanner finds nothing exactly if no hash from here on starts a comment. */
  lemma {:induction false} NoCommentIff(t: string, i: nat, inSingle: bool, inDouble: bool)
    requires i <= |t| && Flags(QuotingAfter(t[..i]), inSingle, inDouble)
    ensures CommentAt(t, i, inSingle, inDouble) == |t| <==> forall j :: i <= j < |t| ==> !CommentHash(t, j)
    decreases |t| - i
  {
    if i < |t| && !CommentHash(t, i) {
      var q := QuotingAfter(t[..i + 1]);
      assert t[..i + 1][..i] == t[..i];
      NoCommentIff(t, i + 1, q.InSingle?, q.InDouble?);
    }
  }

  /** A quoted string keeps all its hashes exactly if none follows a blank where its own quotes have closed the token's. */
  lemma CoveredIff(s: string)
    ensures HashesCovered(s) <==>
            forall j :: 0 < j < |s| && s[j] == '#' && (s[j - 1] == ' ' || s[j - 1] == '\t') ==> QuotingAfter("\"" + s[..j]) != Outside
  {
    var t := "\"" + s + "\"";
    assert t[..0] == "";
    NoCommentIff(t, 0, false, false);
    assert |t| == |s| + 2 && t[0] == '"' && t[|t| - 1] == '"';
    forall j | 0 <= j < |s| ensures t[j + 1] == s[j] && t[..j + 1] == "\"" + s[..j] {
    }
    if forall j :: 0 < j < |s| && s[j] == '#' && (s[j - 1] == ' ' || s[j - 1] == '\t') ==> QuotingAfter("\"" + s[..j]) != Outside {
      forall m | 0 <= m < |t| ensures !CommentHash(t, m) {
        assert 1 < m < |t| - 1 ==> t[m] == s[m - 1] && t[m - 1] == s[m - 2];
      }
    }
    if forall m :: 0 <= m < |t| ==> !CommentHash(t, m) {
      forall j | 0 < j < |s| && s[j] == '#' && (s[j - 1] == ' ' || s[j - 1] == '\t') ensures QuotingAfter("\"" + s[..j]) != Outside {
        assert !CommentHash(t, j + 1);
        assert t[j] == s[j - 1];
      }
    }
  }

  function DoubleQuotes(s: string): nat {
    if s == "" then 0 else DoubleQuotes(s[..|s| - 1]) + if s[|s| - 1] == '"' then 1 else 0
  }

  /** Without single quotes, that is where an odd number of double quotes has gone before. */
  lemma {:induction false} OutsideIsOdd(s: string)
    requires '\'' !in s
    ensures QuotingAfter("\"" + s) == if DoubleQuotes(s) % 2 == 1 then Outside else InDouble
  {
    var t := "\"" + s;
    if s == "" {
      assert t == "\"" && t[..0] == "";
    } else {
      assert t[..|t| - 1] == "\"" + s[..|s| - 1];
      OutsideIsOdd(s[..|s| - 1]);
    }
  }

  /** A double quote followed by a comment ends the string early. */
  lemma QuoteThenHashLost(inList: bool)
    ensures !HashesCovered("a\" #") && ReadLeaf("\"a\" #\"", inList) != Str("a\" #")
  {
    var s := "a\" #";
    var t := "\"" + s + "\"";
    assert t == "\"a\" #\"";
    assert CommentAt(t, 4, false, false) == 4;
    assert CommentAt(t, 3, false, false) == 4;
    assert CommentAt(t, 2, false, true) == 4;
    assert CommentAt(t, 1, false, true) == 4;
    QuotedLeaf(s, inList);
  }

  /** A digit of another script alone is read as a number. */
  lemma WideDigitLost(inList: bool)
    ensures ReadInt("\U{0663}") == Some(3) && !PlainReadsBack("\U{0663}", inList)
  {
    var t := "\U{0663}";
    WideThree();
    assert Ascii(t) == IntText(3);
    AsciiIntRoundTrip(3);
  }

  lemma WideThree()
    ensures AsciiDigit('\U{0663}') == Digit(3) && IntText(3) == [Digit(3)] && Printable(3)
  {
    assert WIDE_ZEROS[0] == ARABIC_ZEROS[0] == 0x660;
    FirstBlock('\U{0663}', WIDE_ZEROS);
  }

  lemma FirstBlock(c: char, zeros: seq<int>)
    requires zeros != [] && zeros[0] <= c as int < zeros[0] + 10
    ensures WideValue(c as int, zeros) == c as int - zeros[0]
  {
  }

  /** With a hash exposed, too little of the token is left to give the string back. */
  lemma ExposedHash(s: string)
    requires NoBreaks(s) && !HashesCovered(s)
    ensures |Cut("\"" + s + "\"")| <= |s| && Cut("\"" + s + "\"") != s
  {
    var t := "\"" + s + "\"";
    QuotedToken(s);
    CutFacts(t);
    CommentAtHash(t, 0, false, false);
    var k := CommentAt(t, 0, false, false);
    RStripFacts(t[..k]);
    assert 0 < k <= |s| && s[k - 1] == '#';
    if s <= t {
      AllQuotes(s, k - 1);
    }
  }

  /** A string equal to a quote followed by its own beginning is made of quotes. */
  lemma {:induction false} AllQuotes(s: string, i: nat)
    requires i < |s| && s <= "\"" + s + "\""
    ensures s[i] == '"'
  {
    var t := "\"" + s + "\"";
    assert s[i] == t[i];
    if i > 0 {
      AllQuotes(s, i - 1);
    }
  }

  /** Every leaf the dumper writes without `repr`, and when it reads back. */
  lemma LeafRoundTrip(repr: Value -> string, v: Value, inList: bool)
    requires !v.IsBlock() && !v.Float? && (v.Str? ==> NoBreaks(v.s)) && (v.Int? ==> Printable(v.n))
    ensures TokenOk(DumpScalar(repr, v))
    ensures ReadLeaf(DumpScalar(repr, v), inList) == v <==> LeafReadsBack(v, inList)
  {
    match v
    case Int(n) => IntLeaf(n, inList);
    case Str(s) =>
      if NeedsQuotes(s) {
        QuotedToken(s);
        QuotedLeaf(s, inList);
      } else {
        PlainToken(s);
        PlainLeaf(s, inList);
      }
    case _ => KeywordLeaf(DumpScalar(repr, v), inList);
  }

  lemma KeywordLeaf(t: string, inList: bool)
    requires t == "null" || t == "true" || t == "false" || t == "[]" || t == "{}"
    ensures TokenOk(t) && Some(ReadLeaf(t, inList)) == Keyword(t)
  {
    KeywordPlain(t);
    PlainToken(t);
    ScalarOfKeyword(t);
  }

  lemma KeywordPlain(t: string)
    requires t == "null" || t == "true" || t == "false" || t == "[]" || t == "{}"
    ensures !NeedsQuotes(t) && NoBreaks(t) && t[0] != '|' && t[0] != '>' && Keyword(t).Some?
  {
    QuotingRule(t);
  }

  lemma ScalarOfKeyword(t: string)
    requires t != "" && Strip(t) == t && Keyword(t).Some? && t[0] != '|' && t[0] != '>'
    ensures Some(Scalar(t)) == Keyword(t) && !IsBlockHeader(t)
  {
  }

  lemma IntLeaf(n: int, inList: bool)
    requires Printable(n)
    ensures TokenOk(IntText(n)) && ReadLeaf(IntText(n), inList) == Int(n)
  {
    var t := IntText(n);
    IntRoundTrip(n);
    NumeralPlain(t);
    PlainToken(t);
    ScalarOfNumeral(t, n);
  }

  /** Digits and minus signs only. */
  predicate Numeral(t: string) {
    t != "" && forall i :: 0 <= i < |t| ==> IsDigit(t[i]) || t[i] == '-'
  }

  lemma NumeralPlain(t: string)
    requires Numeral(t)
    ensures !NeedsQuotes(t) && NoBreaks(t)
  {
    QuotingRule(t);
  }

  lemma ScalarOfNumeral(t: string, n: int)
    requires Numeral(t) && Strip(t) == t && ReadInt(t) == Some(n)
    ensures Scalar(t) == Int(n) && !IsBlockHeader(t)
  {
    NoKeyword(t);
    assert IsDigit(t[0]) || t[0] == '-';
  }
}
