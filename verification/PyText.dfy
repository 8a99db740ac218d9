/** The Python string operations the YAML subset is written with. */
module PyText {

  /** Characters at which `str.splitlines` breaks. */
  predicate IsBreak(c: char) {
    var n := c as int;
    0x0A <= n <= 0x0D || 0x1C <= n <= 0x1E || n == 0x85 || n == 0x2028 || n == 0x2029
  }

  /** Characters that `str.strip` removes. */
  predicate IsSpace(c: char) {
    var n := c as int;
    0x09 <= n <= 0x0D || 0x1C <= n <= 0x20 || n == 0x85 || n == 0xA0 || n == 0x1680
    || 0x2000 <= n <= 0x200A || n == 0x2028 || n == 0x2029 || n == 0x202F || n == 0x205F || n == 0x3000
  }

  predicate NoBreaks(s: string) {
    forall i :: 0 <= i < |s| ==> !IsBreak(s[i])
  }

  /** Python's `p in s` on strings. */
  predicate Contains(s: string, p: string) {
    exists k :: 0 <= k <= |s| - |p| && OccursAt(s, p, k)
  }

  predicate OccursAt(s: string, p: string, k: int) {
    0 <= k <= |s| - |p| && s[k..k + |p|] == p
  }

  predicate StartsWith(s: string, p: string) {
    |p| <= |s| && s[..|p|] == p
  }

  // ----- strip

  function LStrip(s: string): string {
    if s != "" && IsSpace(s[0]) then LStrip(s[1..]) else s
  }

  function RStrip(s: string): string {
    if s != "" && IsSpace(s[|s| - 1]) then RStrip(s[..|s| - 1]) else s
  }

  function Strip(s: string): string {
    RStrip(LStrip(s))
  }

  /** No white space at either end. */
  predicate Stripped(s: string) {
    s != "" ==> !IsSpace(s[0]) && !IsSpace(s[|s| - 1])
  }

  lemma {:induction false} LStripFacts(s: string)
    ensures |LStrip(s)| <= |s| && LStrip(s) == s[|s| - |LStrip(s)|..]
    ensures LStrip(s) != "" ==> !IsSpace(LStrip(s)[0])
    ensures s != "" && !IsSpace(s[0]) ==> LStrip(s) == s
  {
    if s != "" && IsSpace(s[0]) {
      LStripFacts(s[1..]);
    }
  }

  lemma {:induction false} RStripFacts(s: string)
    ensures |RStrip(s)| <= |s| && RStrip(s) == s[..|RStrip(s)|]
    ensures RStrip(s) != "" ==> !IsSpace(RStrip(s)[|RStrip(s)| - 1])
    ensures s != "" && !IsSpace(s[|s| - 1]) ==> RStrip(s) == s
    ensures s != "" && !IsSpace(s[0]) ==> RStrip(s) != ""
  {
    if s != "" && IsSpace(s[|s| - 1]) {
      RStripFacts(s[..|s| - 1]);
    }
  }

  lemma StripFacts(s: string)
    ensures Stripped(Strip(s)) && |Strip(s)| <= |s|
    ensures Strip(s) == s <==> Stripped(s)
  {
    LStripFacts(s);
    RStripFacts(LStrip(s));
    if LStrip(s) != "" {
      assert Strip(s) != "";
    }
  }

  predicate AllSpace(s: string) {
    forall i :: 0 <= i < |s| ==> IsSpace(s[i])
  }

  /** Stripping takes white space from the two ends and nothing else. */
  lemma StripParts(s: string) returns (before: string, after: string)
    ensures s == before + Strip(s) + after && AllSpace(before) && AllSpace(after)
  {
    var l := LStrip(s);
    LStripFacts(s);
    RStripFacts(l);
    LStripped(s);
    RStripped(l);
    before, after := s[..|s| - |l|], l[|RStrip(l)|..];
  }

  lemma {:induction false} LStripped(s: string)
    ensures |LStrip(s)| <= |s| && AllSpace(s[..|s| - |LStrip(s)|])
  {
    LStripFacts(s);
    if s != "" && IsSpace(s[0]) {
      LStripped(s[1..]);
      var k := |s| - |LStrip(s)|;
      SpaceFirst(s[0], s[1..][..k - 1]);
      assert s[..k] == [s[0]] + s[1..][..k - 1];
    }
  }

  lemma SpaceFirst(c: char, s: string)
    requires IsSpace(c) && AllSpace(s)
    ensures AllSpace([c] + s) && AllSpace(s + [c])
  {
  }

  lemma {:induction false} RStripped(s: string)
    ensures |RStrip(s)| <= |s| && AllSpace(s[|RStrip(s)|..])
  {
    RStripFacts(s);
    if s != "" && IsSpace(s[|s| - 1]) {
      var n := |s| - 1;
      RStripped(s[..n]);
      var k := |RStrip(s)|;
      SpaceFirst(s[n], s[..n][k..]);
      assert s[k..] == s[..n][k..] + [s[n]];
    }
  }

  /** Of the printable ASCII characters only the blank is white space; every line break is. */
  lemma WhiteSpace(c: char)
    ensures IsBreak(c) || c == ' ' || c == '\t' ==> IsSpace(c)
    ensures '!' <= c <= '~' ==> !IsSpace(c)
    ensures c == '\n' || c == '\r' ==> IsBreak(c)
    ensures c == ' ' || c == '\t' ==> !IsBreak(c)
  {
  }

  lemma {:induction false} RStripAppend(p: string, s: string)
    requires RStrip(s) != ""
    ensures RStrip(p + s) == p + RStrip(s)
  {
    if IsSpace(s[|s| - 1]) {
      assert (p + s)[..|p + s| - 1] == p + s[..|s| - 1];
      RStripAppend(p, s[..|s| - 1]);
    }
  }

  function Spaces(n: nat): (s: string)
    ensures |s| == n && forall i :: 0 <= i < n ==> s[i] == ' '
  {
    seq(n, _ => ' ')
  }

  lemma {:induction false} LStripSpaces(n: nat, s: string)
    requires s != "" && !IsSpace(s[0])
    ensures LStrip(Spaces(n) + s) == s
  {
    if n == 0 {
      assert Spaces(0) + s == s;
    } else {
      assert (Spaces(n) + s)[1..] == Spaces(n - 1) + s;
      LStripSpaces(n - 1, s);
    }
  }

  /** Indentation removed on the left, trailing white space on the right. */
  lemma StripIndented(n: nat, s: string)
    requires s != "" && !IsSpace(s[0])
    ensures Strip(Spaces(n) + s) == RStrip(s)
  {
    LStripSpaces(n, s);
  }

  // ----- lines

  /** Index of the first line break, or the length. */
  function BreakAt(t: string): (k: nat)
    ensures k <= |t| && NoBreaks(t[..k]) && (k < |t| ==> IsBreak(t[k]))
  {
    if t == "" || IsBreak(t[0]) then 0 else 1 + BreakAt(t[1..])
  }

  /** A carriage return and a line feed make one break. */
  function BreakWidth(t: string, k: nat): (w: nat)
    requires k < |t|
    ensures 1 <= w && k + w <= |t|
  {
    if t[k] as int == 0x0D && k + 1 < |t| && t[k + 1] as int == 0x0A then 2 else 1
  }

  function SplitLines(t: string): seq<string>
    decreases |t|
  {
    if t == "" then []
    else
      var k := BreakAt(t);
      if k == |t| then [t] else [t[..k]] + SplitLines(t[k + BreakWidth(t, k)..])
  }

  /** "\n".join(lines) */
  function Join(lines: seq<string>): string {
    if lines == [] then ""
    else if |lines| == 1 then lines[0]
    else lines[0] + "\n" + Join(lines[1..])
  }

  /** Every line followed by a line feed. */
  function Unlines(lines: seq<string>): string {
    if lines == [] then "" else lines[0] + "\n" + Unlines(lines[1..])
  }

  lemma {:induction false} JoinUnlines(lines: seq<string>)
    requires lines != []
    ensures Join(lines) + "\n" == Unlines(lines)
  {
    if |lines| == 1 {
      assert lines[1..] == [];
    } else {
      JoinUnlines(lines[1..]);
      assert lines[0] + "\n" + Join(lines[1..]) + "\n" == lines[0] + "\n" + (Join(lines[1..]) + "\n");
    }
  }

  lemma {:induction false} UnlinesAppend(xs: seq<string>, ys: seq<string>)
    ensures Unlines(xs + ys) == Unlines(xs) + Unlines(ys)
  {
    if xs == [] {
      assert xs + ys == ys;
    } else {
      assert (xs + ys)[1..] == xs[1..] + ys;
      UnlinesAppend(xs[1..], ys);
      assert xs[0] + "\n" + (Unlines(xs[1..]) + Unlines(ys)) == xs[0] + "\n" + Unlines(xs[1..]) + Unlines(ys);
    }
  }

  lemma {:induction false} BreakAtFirst(l: string, rest: string)
    requires NoBreaks(l)
    ensures BreakAt(l + "\n" + rest) == |l|
  {
    var t := l + "\n" + rest;
    if l != "" {
      assert t[1..] == l[1..] + "\n" + rest;
      BreakAtFirst(l[1..], rest);
    }
  }

  lemma SplitFirst(l: string, rest: string)
    requires NoBreaks(l)
    ensures SplitLines(l + "\n" + rest) == [l] + SplitLines(rest)
  {
    var t := l + "\n" + rest;
    BreakAtFirst(l, rest);
    assert t[..|l|] == l && t[|l| + 1..] == rest;
  }

  lemma {:induction false} SplitUnlines(lines: seq<string>)
    requires forall l :: l in lines ==> NoBreaks(l)
    ensures SplitLines(Unlines(lines)) == lines
  {
    if lines != [] {
      SplitFirst(lines[0], Unlines(lines[1..]));
      SplitUnlines(lines[1..]);
    }
  }

  lemma {:induction false} NoBreakWhole(l: string)
    requires NoBreaks(l)
    ensures BreakAt(l) == |l|
  {
    if l != "" {
      NoBreakWhole(l[1..]);
    }
  }

  lemma {:induction false} SplitJoin(lines: seq<string>)
    requires forall l :: l in lines ==> NoBreaks(l) && l != ""
    ensures SplitLines(Join(lines)) == lines
  {
    if |lines| == 1 {
      NoBreakWhole(lines[0]);
    } else if lines != [] {
      SplitFirst(lines[0], Join(lines[1..]));
      SplitJoin(lines[1..]);
    }
  }

  /** s.rstrip("\n") */
  function RStripNewlines(s: string): string {
    if s != "" && s[|s| - 1] == '\n' then RStripNewlines(s[..|s| - 1]) else s
  }

  lemma {:induction false} JoinLast(lines: seq<string>)
    requires lines != [] && lines[|lines| - 1] != ""
    ensures Join(lines) != ""
    ensures Join(lines)[|Join(lines)| - 1] == lines[|lines| - 1][|lines[|lines| - 1]| - 1]
  {
    if |lines| > 1 {
      JoinLast(lines[1..]);
    }
  }

  lemma RStripUnlines(lines: seq<string>)
    requires lines != [] && forall l :: l in lines ==> NoBreaks(l) && l != ""
    ensures RStripNewlines(Unlines(lines)) == Join(lines)
  {
    JoinUnlines(lines);
    var j, last := Join(lines), lines[|lines| - 1];
    assert last in lines;
    JoinLast(lines);
    assert (j + "\n")[..|j|] == j;
    assert !IsBreak(last[|last| - 1]);
  }
}
