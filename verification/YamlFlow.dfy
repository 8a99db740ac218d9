/**
 What the scalar reader makes of a token, said without its own scans: the parts of a flow
 list, the place of a comment, the fixed words, quoted strings and numbers.
 */
module YamlFlow {
  import opened PyText
  import opened Wrappers
  import opened YamlScalar

  // ----- the parts of a flow list are the stretches between commas outside quotes

  /** A comma that separates: the quotes before it are all closed. */
  predicate Separates(s: string, j: nat)
    requires j < |s|
  {
    s[j] == ',' && QuotingAfter(s[..j]) == Outside
  }

  /** The next separating comma, or the end. */
  function NextComma(s: string, i: nat): (j: nat)
    requires i <= |s|
    ensures i <= j <= |s| && (j < |s| ==> Separates(s, j))
    ensures forall k :: i <= k < j ==> !Separates(s, k)
    decreases |s| - i
  {
    if i == |s| || Separates(s, i) then i else NextComma(s, i + 1)
  }

  /** The stripped stretches from `i` on; a blank one at the very end does not count. */
  function Stretches(s: string, i: nat): seq<string>
    requires i <= |s|
    decreases |s| - i
  {
    var j := NextComma(s, i);
    if j < |s| then [Strip(s[i..j])] + Stretches(s, j + 1)
    else if Strip(s[i..]) != "" then [Strip(s[i..])]
    else []
  }

  /** The split from `i` on, with the flags that say where the quotes stand there. */
  function Scan(s: string, i: nat, buf: string): seq<string>
    requires i <= |s|
  {
    var q := QuotingAfter(s[..i]);
    SplitFlowFrom(s, i, q.InSingle?, q.InDouble?, buf)
  }

  /** One character of the scan, by where the quotes stand. */
  lemma ScanStep(s: string, i: nat, buf: string)
    requires i < |s|
    ensures Scan(s, i, buf) == if Separates(s, i) then [Strip(buf)] + Scan(s, i + 1, "") else Scan(s, i + 1, buf + [s[i]])
  {
    assert s[..i + 1][..i] == s[..i];
  }

  lemma ScanEnd(s: string, buf: string)
    ensures Scan(s, |s|, buf) == if Strip(buf) != "" then [Strip(buf)] else []
  {
  }

  /** What is left of a stretch at the very end. */
  function Tail(buf: string): seq<string> {
    if Strip(buf) != "" then [Strip(buf)] else []
  }

  /** What a scan does at `i` with the buffer filled so far. */
  predicate ScansAt(s: string, f: (nat, string) -> seq<string>, i: nat, buf: string) {
    if i < |s| then f(i, buf) == (if Separates(s, i) then [Strip(buf)] + f(i + 1, "") else f(i + 1, buf + [s[i]]))
    else i == |s| ==> f(i, buf) == Tail(buf)
  }

  ghost predicate Scans(s: string, f: (nat, string) -> seq<string>) {
    forall i: nat, buf: string :: ScansAt(s, f, i, buf)
  }

  /** Up to the next comma a scan only fills its buffer. */
  lemma {:induction false} ScanTo(s: string, f: (nat, string) -> seq<string>, from: nat, i: nat)
    requires Scans(s, f) && from <= |s| && from <= i <= NextComma(s, from)
    ensures f(from, "") == f(i, s[from..i])
    decreases i - from
  {
    if from < i {
      ScanTo(s, f, from, i - 1);
      assert s[from..i - 1] + [s[i - 1]] == s[from..i];
      assert ScansAt(s, f, i - 1, s[from..i - 1]);
    } else {
      assert s[from..i] == "";
    }
  }

  /** One stretch of a scan. */
  lemma ScanStretch(s: string, f: (nat, string) -> seq<string>, from: nat, j: nat)
    requires Scans(s, f) && from <= |s| && j == NextComma(s, from)
    ensures f(from, "") == if j < |s| then [Strip(s[from..j])] + f(j + 1, "") else Tail(s[from..j])
  {
    ScanTo(s, f, from, j);
    StretchEnds(s, f, j, s[from..j]);
  }

  lemma StretchEnds(s: string, f: (nat, string) -> seq<string>, j: nat, buf: string)
    requires Scans(s, f) && j <= |s| && (j < |s| ==> Separates(s, j))
    ensures f(j, buf) == if j < |s| then [Strip(buf)] + f(j + 1, "") else Tail(buf)
  {
    assert ScansAt(s, f, j, buf);
  }

  /** A function of the place that yields one stretch and goes on after its comma. */
  predicate StretchAt(s: string, f: nat -> seq<string>, i: nat) {
    i <= |s| ==> f(i) == if NextComma(s, i) < |s| then [Strip(s[i..NextComma(s, i)])] + f(NextComma(s, i) + 1) else Tail(s[i..NextComma(s, i)])
  }

  ghost predicate Stretching(s: string, f: nat -> seq<string>) {
    forall i: nat :: StretchAt(s, f, i)
  }

  /** There is only one such function. */
  lemma {:induction false} StretchingUnique(s: string, f: nat -> seq<string>, g: nat -> seq<string>, i: nat)
    requires Stretching(s, f) && Stretching(s, g) && i <= |s|
    ensures f(i) == g(i)
    decreases |s| - i
  {
    assert StretchAt(s, f, i) && StretchAt(s, g, i);
    var j := NextComma(s, i);
    if j < |s| {
      StretchingUnique(s, f, g, j + 1);
    }
  }

  /** The scan is one, and so are the stretches. */
  lemma ScanStretching(s: string, f: (nat, string) -> seq<string>, g: nat -> seq<string>)
    requires Scans(s, f) && g == ((i: nat) => f(i, ""))
    ensures Stretching(s, g)
  {
    forall i: nat ensures StretchAt(s, g, i) {
      if i <= |s| {
        ScanStretch(s, f, i, NextComma(s, i));
      }
    }
  }

  lemma StretchesAt(s: string, i: nat, j: nat)
    requires i <= |s| && j == NextComma(s, i)
    ensures Stretches(s, i) == if j < |s| then [Strip(s[i..j])] + Stretches(s, j + 1) else Tail(s[i..j])
  {
    assert j == |s| ==> s[i..j] == s[i..];
  }

  lemma StretchesStretching(s: string, g: nat -> seq<string>)
    requires g == ((i: nat) => if i <= |s| then Stretches(s, i) else [])
    ensures Stretching(s, g)
  {
    forall i: nat ensures StretchAt(s, g, i) {
      if i <= |s| {
        StretchesAt(s, i, NextComma(s, i));
      }
    }
  }

  lemma ScanIsStretches(s: string, f: (nat, string) -> seq<string>)
    requires Scans(s, f)
    ensures f(0, "") == Stretches(s, 0)
  {
    var g, h := (i: nat) => f(i, ""), (i: nat) => if i <= |s| then Stretches(s, i) else [];
    ScanStretching(s, f, g);
    StretchesStretching(s, h);
    StretchingUnique(s, g, h, 0);
  }

  function Scanner(s: string): (nat, string) -> seq<string> {
    (i: nat, buf: string) => if i <= |s| then Scan(s, i, buf) else []
  }

  lemma ScannerScans(s: string)
    ensures Scans(s, Scanner(s))
  {
    forall i: nat, buf: string ensures ScansAt(s, Scanner(s), i, buf) {
      if i < |s| {
        ScanStep(s, i, buf);
      } else if i == |s| {
        ScanEnd(s, buf);
      }
    }
  }

  /** The split of a flow list is exactly its stretches. */
  lemma FlowIsStretches(s: string)
    ensures SplitFlowFrom(s, 0, false, false, "") == Stretches(s, 0)
  {
    ScannerScans(s);
    ScanIsStretches(s, Scanner(s));
    assert s[..0] == "";
    assert Scanner(s)(0, "") == Scan(s, 0, "");
  }

  // ----- writing a list in flow form and reading it

  /** A part that needs no care: visible at both ends, no comma and no quote. */
  predicate PlainPart(p: string) {
    p != "" && Stripped(p) && forall i :: 0 <= i < |p| ==> p[i] != ',' && !IsQuote(p[i])
  }

  function FlowText(parts: seq<string>): string {
    if parts == [] then "" else if |parts| == 1 then parts[0] else parts[0] + (", " + FlowText(parts[1..]))
  }

  lemma {:induction false} FlowShift(p: string, t: string, i: nat, sq: bool, dq: bool, buf: string)
    requires i <= |t|
    ensures SplitFlowFrom(p + t, |p| + i, sq, dq, buf) == SplitFlowFrom(t, i, sq, dq, buf)
    decreases |t| - i
  {
    if i < |t| {
      assert (p + t)[|p| + i] == t[i];
      var c := t[i];
      var sq' := if c == '\'' && !dq then !sq else sq;
      var dq' := if !(c == '\'' && !dq) && c == '"' && !sq then !dq else dq;
      FlowShift(p, t, i + 1, sq', dq', if c == ',' && !sq' && !dq' then "" else buf + [c]);
    }
  }

  lemma {:induction false} FlowSkips(p: string, t: string, i: nat, buf: string)
    requires i <= |p| && forall k :: 0 <= k < |p| ==> p[k] != ',' && !IsQuote(p[k])
    ensures SplitFlowFrom(p + t, i, false, false, buf) == SplitFlowFrom(p + t, |p|, false, false, buf + p[i..])
    decreases |p| - i
  {
    if i < |p| {
      assert (p + t)[i] == p[i];
      FlowSkips(p, t, i + 1, buf + [p[i]]);
      assert buf + [p[i]] + p[i + 1..] == buf + p[i..];
    } else {
      assert buf + p[i..] == buf;
    }
  }

  /** A plain part goes into the buffer as it is. */
  lemma FlowPart(p: string, t: string, buf: string)
    requires forall k :: 0 <= k < |p| ==> p[k] != ',' && !IsQuote(p[k])
    ensures SplitFlowFrom(p + t, 0, false, false, buf) == SplitFlowFrom(t, 0, false, false, buf + p)
  {
    FlowSkips(p, t, 0, buf);
    assert p[0..] == p;
    FlowShift(p, t, 0, false, false, buf + p);
  }

  lemma StripLead(lead: string, p: string)
    requires (lead == "" || lead == " ") && p != "" && Stripped(p)
    ensures Strip(lead + p) == p
  {
    if lead == "" {
      assert lead + p == p;
      StripFacts(p);
    } else {
      assert lead == Spaces(1);
      StripIndented(1, p);
      RStripFacts(p);
    }
  }

  lemma {:induction false} SplitOfText(parts: seq<string>, lead: string)
    requires parts != [] && (forall i :: 0 <= i < |parts| ==> PlainPart(parts[i])) && (lead == "" || lead == " ")
    ensures SplitFlowFrom(FlowText(parts), 0, false, false, lead) == parts
  {
    StripLead(lead, parts[0]);
    if |parts| == 1 {
      assert parts[0] + "" == parts[0];
      FlowPart(parts[0], "", lead);
    } else {
      var rest := FlowText(parts[1..]);
      FlowPart(parts[0], ", " + rest, lead);
      CommaThen(rest, lead + parts[0]);
      SplitOfText(parts[1..], " ");
    }
  }

  lemma CommaThen(rest: string, buf: string)
    ensures SplitFlowFrom(", " + rest, 0, false, false, buf) == [Strip(buf)] + SplitFlowFrom(rest, 0, false, false, " ")
  {
    var t := ", " + rest;
    assert t[0] == ',' && t[1] == ' ';
    assert SplitFlowFrom(t, 0, false, false, buf) == [Strip(buf)] + SplitFlowFrom(t, 1, false, false, "");
    assert "" + [t[1]] == " ";
    assert SplitFlowFrom(t, 1, false, false, "") == SplitFlowFrom(t, 2, false, false, " ");
    FlowShift(", ", rest, 0, false, false, " ");
  }

  lemma {:induction false} FlowTextEnds(parts: seq<string>)
    requires parts != [] && forall i :: 0 <= i < |parts| ==> PlainPart(parts[i])
    ensures FlowText(parts) != "" && Stripped(FlowText(parts))
  {
    if |parts| > 1 {
      FlowTextEnds(parts[1..]);
      var rest := FlowText(parts[1..]);
      var t := FlowText(parts);
      assert t[|t| - 1] == rest[|rest| - 1];
    }
  }

  lemma {:induction false} ScalarsEach(parts: seq<string>, bound: nat)
    requires forall p :: p in parts ==> |p| < bound
    ensures |Scalars(parts, bound)| == |parts| && forall i :: 0 <= i < |parts| ==> Scalars(parts, bound)[i] == Scalar(parts[i])
  {
    if parts != [] {
      ScalarsEach(parts[1..], bound);
      ConsEach(Scalars(parts, bound), Scalar(parts[0]), Scalars(parts[1..], bound));
    }
  }

  lemma ConsEach<T>(all: seq<T>, x: T, rest: seq<T>)
    requires all == [x] + rest
    ensures |all| == |rest| + 1 && all[0] == x && forall i :: 1 <= i < |all| ==> all[i] == rest[i - 1]
  {
  }

  /** A non-blank text in brackets is read as the list of its parts. */
  lemma Brackets(text: string)
    requires text != "" && Stripped(text)
    ensures var t := "[" + text + "]";
            var parts := SplitFlowFrom(text, 0, false, false, "");
            && (forall p :: p in parts ==> |p| < |t|)
            && Scalar(t) == List(Scalars(parts, |t|))
  {
    var t := "[" + text + "]";
    assert t[1..|t| - 1] == text;
    StripFacts(t);
    StripFacts(text);
    NoWord(t, text);
  }

  lemma NoWord(t: string, text: string)
    requires t == "[" + text + "]" && text != ""
    ensures Keyword(t).None? && !QuoteWrapped(t) && Bracketed(t)
  {
    assert t[0] == '[' && |t| >= 3;
  }

  /** A list written in flow form comes back part by part, each part read as a scalar. */
  lemma FlowListReadBack(parts: seq<string>)
    requires parts != [] && forall i :: 0 <= i < |parts| ==> PlainPart(parts[i])
    ensures SplitFlowFrom(FlowText(parts), 0, false, false, "") == parts
    ensures var v := Scalar("[" + FlowText(parts) + "]");
            v.List? && |v.items| == |parts| && forall i :: 0 <= i < |parts| ==> v.items[i] == Scalar(parts[i])
  {
    var text := FlowText(parts);
    SplitOfText(parts, "");
    FlowTextEnds(parts);
    Brackets(text);
    ScalarsEach(parts, |"[" + text + "]"|);
  }

  // ----- words, quoted strings and numbers

  /** The words for nothing, true, false and the empty containers, each by its spelling. */
  lemma FixedWords(t: string)
    ensures t in {"", "null", "~", "None"} ==> Scalar(t) == Null
    ensures t in {"true", "True"} ==> Scalar(t) == Bool(true)
    ensures t in {"false", "False"} ==> Scalar(t) == Bool(false)
    ensures t == "[]" ==> Scalar(t) == List([])
    ensures t == "{}" ==> Scalar(t) == Map([])
  {
    if t in {"", "null", "~", "None"} {
      Word(t, Null);
    } else if t in {"true", "True"} {
      Word(t, Bool(true));
    } else if t in {"false", "False"} {
      Word(t, Bool(false));
    } else if t == "[]" {
      Word(t, List([]));
    } else if t == "{}" {
      Word(t, Map([]));
    }
  }

  lemma Word(t: string, v: Value)
    requires Stripped(t) && Keyword(t) == Some(v)
    ensures Scalar(t) == v
  {
    StripFacts(t);
  }

  /** Any text in single or double quotes is that text. */
  lemma QuotedIsString(s: string)
    ensures Scalar("'" + s + "'") == Str(s) && Scalar("\"" + s + "\"") == Str(s)
  {
    WrappedIsString("'" + s + "'", s);
    WrappedIsString("\"" + s + "\"", s);
  }

  lemma WrappedIsString(t: string, s: string)
    requires t == "'" + s + "'" || t == "\"" + s + "\""
    ensures Scalar(t) == Str(s)
  {
    assert t[1..|t| - 1] == s;
    StripFacts(t);
    NoKeyword(t);
  }

  /** Digits, a point and digits make a float, kept as written. */
  lemma DecimalIsFloat(a: string, b: string)
    requires a != "" && b != "" && AllDigits(a) && AllDigits(b)
    ensures Scalar(a + "." + b) == Float(a + "." + b)
  {
    var t := a + "." + b;
    DecimalToken(t, a, b);
    AsciiUnchanged(t);
    DecimalForm(t, a, b);
    FloatToken(t);
  }

  lemma DecimalToken(t: string, a: string, b: string)
    requires a != "" && b != "" && AllDigits(a) && AllDigits(b) && t == a + "." + b
    ensures t != "" && Stripped(t) && IsDigit(t[0]) && IsDigit(t[|t| - 1]) && forall i :: 0 <= i < |t| ==> t[i] as int < 128
  {
    assert t[|a|] == '.';
  }

  lemma FloatToken(t: string)
    requires t != "" && Stripped(t) && IsDigit(t[0]) && ReadInt(t).None? && IsFloat(t)
    ensures Scalar(t) == Float(t)
  {
    StripFacts(t);
    NoKeyword(t);
  }

  lemma DecimalForm(t: string, a: string, b: string)
    requires a != "" && b != "" && AllDigits(a) && AllDigits(b) && t == a + "." + b
    ensures ReadAsciiInt(t).None? && IsAsciiFloat(t)
  {
    assert t[|a|] == '.' && Unsigned(t) == t;
    FractionForm(t, a, b);
    var e := FirstWhere(t, c => c == 'e' || c == 'E');
    assert e == |t| && t[..e] == t;
  }

  lemma FractionForm(t: string, a: string, b: string)
    requires a != "" && b != "" && AllDigits(a) && AllDigits(b) && t == a + "." + b
    ensures IsFraction(t) && !IsDigitPart(t) && forall i :: 0 <= i < |t| ==> t[i] != 'e' && t[i] != 'E'
  {
    DigitsPart(a);
    DigitsPart(b);
    FirstPoint(t, a, b);
    assert t[..|a|] == a && t[|a| + 1..] == b;
  }

  lemma DigitsPart(a: string)
    requires a != "" && AllDigits(a)
    ensures IsDigitPart(a)
  {
  }

  lemma FirstPoint(t: string, a: string, b: string)
    requires a != "" && b != "" && AllDigits(a) && AllDigits(b) && t == a + "." + b
    ensures FirstWhere(t, c => c == '.') == |a| && !IsDigitPart(t) && forall i :: 0 <= i < |t| ==> t[i] != 'e' && t[i] != 'E'
  {
    assert t[|a|] == '.' && forall i :: 0 <= i < |a| ==> t[i] == a[i] && t[i] != '.';
  }

  function PowerOfTen(n: nat): nat {
    if n == 0 then 1 else 10 * PowerOfTen(n - 1)
  }

  /** The value of a numeral by the places of its digits, the first one being worth most. */
  function PlaceSum(s: string): nat
    requires AllDigits(s)
  {
    if s == "" then 0 else DigitValue(s[0]) * PowerOfTen(|s| - 1) + PlaceSum(s[1..])
  }

  lemma {:induction false} PlaceSumSnoc(s: string, c: char)
    requires AllDigits(s) && IsDigit(c)
    ensures AllDigits(s + [c]) && PlaceSum(s + [c]) == 10 * PlaceSum(s) + DigitValue(c)
  {
    if s == "" {
      assert s + [c] == [c] && [c][1..] == "";
      assert PlaceSum([c]) == DigitValue(c) * PowerOfTen(0) + PlaceSum([c][1..]);
    } else {
      assert (s + [c])[1..] == s[1..] + [c];
      PlaceSumSnoc(s[1..], c);
      Shift(DigitValue(s[0]), PowerOfTen(|s| - 1));
    }
  }

  lemma Shift(d: nat, p: nat)
    ensures d * (10 * p) == 10 * (d * p)
  {
  }

  lemma {:induction false} PlaceValue(s: string)
    requires AllDigits(s)
    ensures DigitsValue(s) == PlaceSum(s)
  {
    if s != "" {
      var n := |s| - 1;
      PlaceValue(s[..n]);
      PlaceSumSnoc(s[..n], s[n]);
      assert s[..n] + [s[n]] == s;
    }
  }

  /** Up to 4300 digits, with or without a sign, are an integer: the sum of its digits by their places. */
  lemma DigitsAreInt(t: string, s: string)
    requires s != "" && AllDigits(s) && |s| <= 4300 && (t == s || t == "+" + s || t == "-" + s)
    ensures Scalar(t) == Int(if t == "-" + s then -(PlaceSum(s) as int) else PlaceSum(s))
  {
    PlaceValue(s);
    DigitCountAll(s);
    IntToken(t, s, if t == "-" + s then -(PlaceSum(s) as int) else PlaceSum(s));
  }

  lemma IntToken(t: string, s: string, n: int)
    requires s != "" && AllDigits(s) && DigitCount(s) <= 4300 && (t == s || t == "+" + s || t == "-" + s)
    requires n == if t[0] == '-' then -(DigitsValue(s) as int) else DigitsValue(s)
    ensures Scalar(t) == Int(n)
  {
    assert Unsigned(t) == s;
    AsciiUnchanged(t);
    SignedToken(t, s);
    IntRead(t, n);
  }

  lemma SignedToken(t: string, s: string)
    requires s != "" && AllDigits(s) && (t == s || t == "+" + s || t == "-" + s)
    ensures Stripped(t) && !QuoteWrapped(t) && !Bracketed(t) && IsDigitPart(s) && IsDigit(t[|t| - 1])
  {
    assert t[|t| - 1] == s[|s| - 1];
  }

  lemma IntRead(t: string, n: int)
    requires t != "" && Stripped(t) && IsDigit(t[|t| - 1]) && !QuoteWrapped(t) && !Bracketed(t) && ReadInt(t) == Some(n)
    ensures Scalar(t) == Int(n)
  {
    StripFacts(t);
    EndsInDigit(t);
  }

  lemma EndsInDigit(t: string)
    requires t != "" && IsDigit(t[|t| - 1])
    ensures Keyword(t).None?
  {
  }

  /** A word that is none of these is itself. */
  lemma OtherwiseString(t: string)
    requires Stripped(t) && Keyword(t).None? && !QuoteWrapped(t) && !Bracketed(t) && ReadInt(t).None? && !IsFloat(t)
    ensures Scalar(t) == Str(t)
  {
    StripFacts(t);
  }

  // ----- where a comment starts

  /** The comment starts at the first hash outside quotes that starts the line or follows a blank. */
  lemma {:induction false} CommentIsFirst(t: string, i: nat, inSingle: bool, inDouble: bool)
    requires i <= |t| && Flags(QuotingAfter(t[..i]), inSingle, inDouble)
    ensures var k := CommentAt(t, i, inSingle, inDouble);
            (k < |t| ==> CommentHash(t, k)) && forall j :: i <= j < k ==> !CommentHash(t, j)
    decreases |t| - i
  {
    if i < |t| && !CommentHash(t, i) {
      var q := QuotingAfter(t[..i + 1]);
      assert t[..i + 1][..i] == t[..i];
      CommentIsFirst(t, i + 1, q.InSingle?, q.InDouble?);
    }
  }

  /** What is left of a line is everything before that hash. */
  lemma CutsAtComment(t: string)
    ensures var r := Uncommented(t);
            && r <= t && (r == t || CommentHash(t, |r|))
            && forall j :: 0 <= j < |r| ==> !CommentHash(t, j)
  {
    assert t[..0] == "";
    CommentIsFirst(t, 0, false, false);
  }
}
