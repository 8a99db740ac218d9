/**
 The brace-matching scan that finds a JSON object in a model's reply. The decoder is a
 parameter: it accepts a segment and yields a value, or rejects it.
 */
module JsonScan {
  import opened Wrappers

  function Weight(c: char): int {
    if c == '{' then 1 else if c == '}' then -1 else 0
  }

  /** Opening minus closing braces. */
  function Depth(w: string): int {
    if w == "" then 0 else Depth(w[..|w| - 1]) + Weight(w[|w| - 1])
  }

  /** Opens with a brace that its last character is the first to close. */
  predicate Closed(w: string) {
    w != "" && w[0] == '{' && Depth(w) == 0 && forall m :: 0 < m < |w| ==> Depth(w[..m]) > 0
  }

  /** The segment from `s` to `e` is closed and decodes. */
  predicate Hit<V>(text: string, decode: string -> Option<V>, s: int, e: int) {
    0 <= s < e <= |text| && Closed(text[s..e]) && decode(text[s..e]).Some?
  }

  lemma DepthNext(text: string, s: nat, i: nat)
    requires s <= i < |text|
    ensures Depth(text[s..i + 1]) == Depth(text[s..i]) + Weight(text[i])
  {
    assert text[s..i + 1][..i - s] == text[s..i];
  }

  lemma OpenInside(text: string, s: nat, e: nat, f: nat)
    requires s < e < f <= |text| && Closed(text[s..f])
    ensures Depth(text[s..e]) > 0
  {
    assert text[s..f][..e - s] == text[s..e];
  }

  /** A start has at most one closing end. */
  lemma ClosesOnce(text: string, s: nat, e: nat, f: nat)
    requires s < e <= |text| && s < f <= |text| && Closed(text[s..e]) && Closed(text[s..f])
    ensures e == f
  {
    if e < f {
      OpenInside(text, s, e, f);
    } else if f < e {
      OpenInside(text, s, f, e);
    }
  }

  /** `str.find("{", from)`, with the text's length for "not found". */
  method FindBrace(text: string, from: nat) returns (k: nat)
    requires from <= |text|
    ensures from <= k <= |text| && (k < |text| ==> text[k] == '{')
    ensures forall j :: from <= j < k ==> text[j] != '{'
  {
    k := from;
    while k < |text| && text[k] != '{'
      invariant from <= k <= |text|
      invariant forall j :: from <= j < k ==> text[j] != '{'
    {
      k := k + 1;
    }
  }

  /** The end of the closed segment at `start`, if it has one. */
  method CloseBrace(text: string, start: nat) returns (end: Option<nat>)
    requires start < |text| && text[start] == '{'
    ensures end.Some? ==> start < end.value <= |text| && Closed(text[start..end.value])
    ensures end.None? ==> forall e :: start < e <= |text| ==> !Closed(text[start..e])
  {
    var depth := 0;
    for i := start to |text|
      invariant depth == Depth(text[start..i])
      invariant forall m :: start < m <= i ==> Depth(text[start..m]) > 0
    {
      DepthNext(text, start, i);
      if text[i] == '{' {
        depth := depth + 1;
      } else if text[i] == '}' {
        depth := depth - 1;
        if depth == 0 {
          var w := text[start..i + 1];
          assert forall m :: 0 < m < |w| ==> w[..m] == text[start..start + m];
          return Some(i + 1);
        }
      }
    }
    return None;
  }

  /**
   The decoding of the closed segment at the first brace whose segment decodes; nothing
   exactly when no segment does.
   */
  method FirstJsonObject<V>(text: string, decode: string -> Option<V>) returns (r: Option<V>)
    ensures r.None? <==> forall s, e :: !Hit(text, decode, s, e)
    ensures r.Some? ==> exists s, e :: Hit(text, decode, s, e) && decode(text[s..e]) == r
                                       && forall s', e' :: Hit(text, decode, s', e') ==> s <= s'
  {
    r := None;
    var start := FindBrace(text, 0);
    while start < |text|
      invariant start <= |text| && (start < |text| ==> text[start] == '{')
      invariant r.None? && forall s, e :: Hit(text, decode, s, e) ==> s >= start
      decreases |text| - start
    {
      var end := CloseBrace(text, start);
      if end.Some? {
        r := decode(text[start..end.value]);
        if r.Some? {
          assert Hit(text, decode, start, end.value);
          return;
        }
      }
      var next := FindBrace(text, start + 1);
      forall s, e | Hit(text, decode, s, e) ensures s >= next {
        assert text[s] == text[s..e][0];
        if s == start {
          ClosesOnce(text, s, e, end.value);
        }
      }
      start := next;
    }
  }

  // ----- what a closed segment is: the rendering of properly nested braces

  /** Text with properly nested braces: other characters, and groups. */
  datatype Nest = Empty | Other(c: char, rest: Nest) | Group(inside: Nest, rest: Nest)

  predicate Proper(n: Nest) {
    match n
    case Empty => true
    case Other(c, rest) => c != '{' && c != '}' && Proper(rest)
    case Group(inside, rest) => Proper(inside) && Proper(rest)
  }

  function Render(n: Nest): string {
    match n
    case Empty => ""
    case Other(c, rest) => [c] + Render(rest)
    case Group(inside, rest) => "{" + Render(inside) + "}" + Render(rest)
  }

  /** Never more closing than opening braces, and as many in all. */
  predicate Balanced(w: string) {
    Depth(w) == 0 && forall m :: 0 <= m <= |w| ==> Depth(w[..m]) >= 0
  }

  lemma {:induction false} DepthAppend(a: string, b: string)
    ensures Depth(a + b) == Depth(a) + Depth(b)
  {
    if b == "" {
      assert a + b == a;
    } else {
      var n := |b| - 1;
      assert (a + b)[..|a + b| - 1] == a + b[..n];
      DepthAppend(a, b[..n]);
    }
  }

  lemma PrefixAppend(a: string, b: string, m: nat)
    requires m <= |a + b|
    ensures (a + b)[..m] == if m <= |a| then a[..m] else a + b[..m - |a|]
  {
  }

  lemma BalancedAppend(a: string, b: string)
    requires Balanced(a) && Balanced(b)
    ensures Balanced(a + b)
  {
    DepthAppend(a, b);
    forall m | 0 <= m <= |a + b| ensures Depth((a + b)[..m]) >= 0 {
      PrefixAppend(a, b, m);
      if m > |a| {
        DepthAppend(a, b[..m - |a|]);
      }
    }
  }

  lemma DepthOne(c: char)
    ensures Depth([c]) == Weight(c)
  {
    assert [c][..0] == "";
  }

  /** Braces around balanced text make a closed segment. */
  lemma GroupCloses(w: string)
    requires Balanced(w)
    ensures Closed("{" + w + "}")
  {
    var g := "{" + w + "}";
    DepthOne('{');
    DepthOne('}');
    DepthAppend("{", w);
    DepthAppend("{" + w, "}");
    forall m | 0 < m < |g| ensures Depth(g[..m]) > 0 {
      assert g[..m] == "{" + w[..m - 1];
      DepthAppend("{", w[..m - 1]);
    }
  }

  lemma ClosedIsBalanced(w: string)
    requires Closed(w)
    ensures Balanced(w)
  {
    assert w[..0] == "" && w[..|w|] == w;
  }

  lemma {:induction false} RenderBalanced(n: Nest)
    requires Proper(n)
    ensures Balanced(Render(n))
  {
    match n
    case Empty =>
    case Other(c, rest) =>
      RenderBalanced(rest);
      DepthOne(c);
      assert [c][..0] == "" && [c][..1] == [c];
      BalancedAppend([c], Render(rest));
    case Group(inside, rest) =>
      RenderBalanced(inside);
      RenderBalanced(rest);
      GroupCloses(Render(inside));
      ClosedIsBalanced("{" + Render(inside) + "}");
      BalancedAppend("{" + Render(inside) + "}", Render(rest));
  }

  /** Balanced text that opens with a brace splits at the brace that closes it. */
  lemma SplitGroup(w: string) returns (k: nat)
    requires Balanced(w) && w != "" && w[0] == '{'
    ensures 1 < k <= |w| && Closed(w[..k]) && Balanced(w[1..k - 1]) && w[k - 1] == '}' && Balanced(w[k..])
  {
    k := FirstZero(w, 1);
    CloserIsBrace(w, k);
    assert Closed(w[..k]) by {
      assert forall m :: 0 < m < k ==> w[..k][..m] == w[..m];
    }
    InsideBalanced(w, k);
    assert w[..|w|] == w && w == w[..k] + w[k..];
    DepthAppend(w[..k], w[k..]);
    forall m | 0 <= m <= |w| - k ensures Depth(w[k..][..m]) >= 0 {
      assert w[..k + m] == w[..k] + w[k..][..m];
      DepthAppend(w[..k], w[k..][..m]);
    }
  }

  lemma {:induction false} FirstZero(w: string, from: nat) returns (k: nat)
    requires Depth(w) == 0 && 0 < from <= |w|
    ensures from <= k <= |w| && Depth(w[..k]) == 0 && forall m :: from <= m < k ==> Depth(w[..m]) != 0
    decreases |w| - from
  {
    if Depth(w[..from]) == 0 {
      k := from;
    } else {
      assert w[..|w|] == w;
      k := FirstZero(w, from + 1);
    }
  }

  lemma CloserIsBrace(w: string, k: nat)
    requires Balanced(w) && w != "" && w[0] == '{' && 0 < k <= |w|
    requires Depth(w[..k]) == 0 && forall m :: 1 <= m < k ==> Depth(w[..m]) != 0
    ensures k > 1 && w[k - 1] == '}' && forall m :: 1 <= m < k ==> Depth(w[..m]) > 0
  {
    DepthOne('{');
    assert w[..1] == "{";
    assert w[..k][..k - 1] == w[..k - 1];
  }

  lemma InsideBalanced(w: string, k: nat)
    requires 1 < k <= |w| && w[0] == '{' && w[k - 1] == '}' && Closed(w[..k])
    ensures Balanced(w[1..k - 1])
  {
    var v := w[1..k - 1];
    DepthOne('{');
    DepthOne('}');
    assert w[..k] == "{" + v + "}";
    DepthAppend("{", v);
    DepthAppend("{" + v, "}");
    forall m | 0 <= m <= |v| ensures Depth(v[..m]) >= 0 {
      assert w[..k][..m + 1] == "{" + v[..m];
      DepthAppend("{", v[..m]);
    }
  }

  lemma DropOther(w: string)
    requires Balanced(w) && w != "" && w[0] != '{'
    ensures w[0] != '}' && Balanced(w[1..])
  {
    DepthOne(w[0]);
    assert w[..1] == [w[0]] && w[..|w|] == w && w == [w[0]] + w[1..];
    assert Depth(w[..1]) >= 0;
    DepthAppend([w[0]], w[1..]);
    forall m | 0 <= m <= |w| - 1 ensures Depth(w[1..][..m]) >= 0 {
      assert w[..m + 1] == [w[0]] + w[1..][..m];
      DepthAppend([w[0]], w[1..][..m]);
    }
  }

  lemma Reassembled(w: string, k: nat)
    requires 1 < k <= |w| && w[0] == '{' && w[k - 1] == '}'
    ensures w == "{" + w[1..k - 1] + "}" + w[k..]
  {
  }

  lemma {:induction false} BalancedRenders(w: string) returns (n: Nest)
    requires Balanced(w)
    ensures Proper(n) && Render(n) == w
    decreases |w|
  {
    if w == "" {
      n := Empty;
    } else if w[0] == '{' {
      var k := SplitGroup(w);
      var inside := BalancedRenders(w[1..k - 1]);
      var rest := BalancedRenders(w[k..]);
      n := Group(inside, rest);
      Reassembled(w, k);
    } else {
      DropOther(w);
      var rest := BalancedRenders(w[1..]);
      n := Other(w[0], rest);
    }
  }

  /** The segments the scan considers are exactly the properly nested ones in one pair of braces. */
  lemma ClosedIsNested(w: string)
    ensures Closed(w) <==> exists n :: Proper(n) && w == "{" + Render(n) + "}"
  {
    if Closed(w) {
      var n := ClosedRenders(w);
      assert Proper(n) && w == "{" + Render(n) + "}";
    }
    forall n | Proper(n) && w == "{" + Render(n) + "}" ensures Closed(w) {
      RenderBalanced(n);
      GroupCloses(Render(n));
    }
  }

  lemma ClosedRenders(w: string) returns (n: Nest)
    requires Closed(w)
    ensures Proper(n) && w == "{" + Render(n) + "}"
  {
    ClosedIsBalanced(w);
    var k := SplitGroup(w);
    ClosedPrefix(w, k);
    n := BalancedRenders(w[1..k - 1]);
  }

  lemma ClosedPrefix(w: string, k: nat)
    requires Closed(w) && 0 < k <= |w| && Depth(w[..k]) == 0
    ensures k == |w|
  {
  }

  /**
   A decodable text after text without an opening brace is a hit exactly when it is closed,
   whatever follows it; then it is the first one.
   */
  lemma EmbeddedIsFirst<V>(before: string, w: string, after: string, decode: string -> Option<V>)
    requires '{' !in before && w != "" && decode(w).Some?
    ensures var text := before + w + after;
            var s, e := |before|, |before| + |w|;
            && text[s..e] == w
            && (Hit(text, decode, s, e) <==> Closed(w))
            && (forall s', e' :: Hit(text, decode, s', e') ==> s' >= s)
            && (Closed(w) ==> forall e' :: Hit(text, decode, s, e') ==> e' == e)
  {
    var text, s, e := before + w + after, |before|, |before| + |w|;
    assert text[s..e] == w;
    assert forall j :: 0 <= j < |before| ==> text[j] == before[j] && before[j] != '{';
    forall s', e' | Hit(text, decode, s', e') ensures s' >= s {
      assert text[s'] == text[s'..e'][0];
    }
    if Closed(w) {
      forall e' | Hit(text, decode, s, e') ensures e' == e {
        ClosesOnce(text, s, e, e');
      }
    }
  }

  /** After one pair of braces whose segment is rejected, text without an opening brace holds nothing. */
  lemma RejectedHidesRest<V>(w: string, rest: string, decode: string -> Option<V>)
    requires '{' !in w && '}' !in w && '{' !in rest && decode("{" + w + "}").None?
    ensures forall s, e :: !Hit("{" + w + "}" + rest, decode, s, e)
  {
    var g := "{" + w + "}";
    var text := g + rest;
    FlatBalanced(w);
    GroupCloses(w);
    assert forall j :: 0 < j < |text| ==> text[j] != '{' by {
      assert forall j :: 0 < j <= |w| ==> text[j] == w[j - 1];
      assert forall j :: |g| <= j < |text| ==> text[j] == rest[j - |g|];
    }
    assert text[0..|g|] == g;
    forall s, e ensures !Hit(text, decode, s, e) {
      if 0 <= s < e <= |text| && Closed(text[s..e]) {
        assert text[s] == text[s..e][0];
        ClosesOnce(text, 0, e, |g|);
      }
    }
  }

  lemma {:induction false} FlatBalanced(w: string)
    requires '{' !in w && '}' !in w
    ensures Balanced(w)
  {
    forall m | 0 <= m <= |w| ensures Depth(w[..m]) == 0 {
      FlatDepth(w[..m]);
    }
    assert w[..|w|] == w;
  }

  lemma {:induction false} FlatDepth(w: string)
    requires '{' !in w && '}' !in w
    ensures Depth(w) == 0
  {
    if w != "" {
      FlatDepth(w[..|w| - 1]);
    }
  }

  /**
   Braces inside JSON strings are counted too. The object {"a":"}"} is therefore not closed:
   the scan looks at {"a":"} instead, which no JSON decoder accepts, and finds nothing.
   */
  lemma BraceInStringLost<V>(decode: string -> Option<V>)
    requires decode("{\"a\":\"}").None?
    ensures forall s, e :: !Hit("{\"a\":\"}\"}", decode, s, e)
    ensures !Closed("{\"a\":\"}\"}")
  {
    var w, rest := "\"a\":\"", "\"}";
    var text := "{" + w + "}" + rest;
    assert "{" + w + "}" == "{\"a\":\"}" && text == "{\"a\":\"}\"}";
    RejectedHidesRest(w, rest, decode);
    FlatBalanced(w);
    GroupCloses(w);
    assert text[..|w| + 2] == "{" + w + "}";
  }
}
