/**
 When the parser loses lines. A list item that opens a mapping hands all deeper lines to a
 synthetic block; lines of that block which are too shallow for the mapping are read by
 nobody. The strict reader objects to them, and this is exactly when the two differ.
 */
module YamlGaps {
  import opened PyText
  import opened Wrappers
  import opened YamlScalar
  import opened YamlParser

  // ----- when a line is dropped silently

  /** The line opens a mapping as a list item. */
  predicate OpensItem(text: string) {
    IsItem(text) && StartsMapping(Strip(text[2..]))
  }

  /** Where the line starts a block scalar, the indentation its body must exceed. */
  function ScalarIndent(l: Line): Option<nat> {
    if OpensItem(l.text) then (if IsBlockHeader(RestOf(Strip(l.text[2..]))) then Some(l.indent + 2) else None)
    else if !IsItem(l.text) && ':' in l.text && IsBlockHeader(RestOf(l.text)) then Some(l.indent)
    else None
  }

  function Blanked(ls: seq<Line>): (r: seq<Line>)
    ensures |r| == |ls| && forall i :: 0 <= i < |ls| ==> r[i] == Line(ls[i].indent, "")
  {
    if ls == [] then [] else [Line(ls[0].indent, "")] + Blanked(ls[1..])
  }

  /** The lines with the bodies under certain heads blanked out; `head` gives the indentation a body must exceed. */
  function MaskBy(head: Line -> Option<nat>, ls: seq<Line>): (r: seq<Line>)
    ensures |r| == |ls|
    decreases |ls|
  {
    if ls == [] then []
    else
      match head(ls[0])
      case Some(c) =>
        var n := Deeper(ls[1..], c);
        [ls[0]] + Blanked(ls[1..1 + n]) + MaskBy(head, ls[1 + n..])
      case None => [ls[0]] + MaskBy(head, ls[1..])
  }

  /** The lines with the bodies of block scalars blanked out: there, what looks like an item is text. */
  function Mask(ls: seq<Line>): (r: seq<Line>)
    ensures |r| == |ls|
  {
    MaskBy(ScalarIndent, ls)
  }

  /** Line `j` is one of the lines deeper than line `i` that follow it without a break. */
  predicate Below(ls: seq<Line>, i: nat, j: nat) {
    i < j < |ls| && forall k :: i < k <= j ==> ls[k].indent > ls[i].indent
  }

  /**
   Line `i` opens a mapping as a list item, and below it line `j` is indented one column
   deeper than the dash: too deep to end the item, not deep enough for its mapping.
   */
  predicate Gap(ls: seq<Line>, i: nat, j: nat) {
    i < |ls| && OpensItem(ls[i].text) && Below(ls, i, j) && ls[j].indent == ls[i].indent + 1
  }

  ghost predicate GapAt(ls: seq<Line>, i: nat) {
    exists j: nat :: Gap(ls, i, j)
  }

  ghost predicate Gapless(ls: seq<Line>) {
    forall i: nat, j: nat :: !Gap(ls, i, j)
  }

  lemma GapTail(ls: seq<Line>, k: nat, i: nat, j: nat)
    requires k <= |ls|
    ensures Gap(ls[k..], i, j) <==> Gap(ls, k + i, k + j)
  {
    var t := ls[k..];
    assert forall m :: 0 <= m < |t| ==> t[m] == ls[k + m];
    if Gap(ls, k + i, k + j) {
      forall m | i < m <= j ensures t[m].indent > t[i].indent {
        assert ls[k + m].indent > ls[k + i].indent;
      }
    }
    if Gap(t, i, j) {
      forall m | k + i < m <= k + j ensures ls[m].indent > ls[k + i].indent {
        assert t[m - k] == ls[m];
      }
    }
  }

  lemma GaplessTail(ls: seq<Line>, k: nat)
    requires Gapless(ls) && k <= |ls|
    ensures Gapless(ls[k..])
  {
    forall i: nat, j: nat ensures !Gap(ls[k..], i, j) {
      GapTail(ls, k, i, j);
    }
  }

  lemma TailGapAt(ls: seq<Line>, k: nat, i: nat)
    requires k <= |ls|
    ensures GapAt(ls[k..], i) <==> GapAt(ls, k + i)
  {
    var at := k + i;
    if j: nat :| Gap(ls, at, j) {
      assert j >= k;
      GapTail(ls, k, i, j - k);
    }
    if j: nat :| Gap(ls[k..], i, j) {
      GapTail(ls, k, i, j);
    }
  }

  // What the mask keeps.

  lemma {:induction false} MaskByIndents(head: Line -> Option<nat>, ls: seq<Line>, i: nat)
    requires i < |ls|
    ensures MaskBy(head, ls)[i].indent == ls[i].indent
    decreases |ls|
  {
    match head(ls[0])
    case Some(c) =>
      var n := Deeper(ls[1..], c);
      MaskByScalar(head, ls, c, n);
      if 0 < i <= n {
        assert MaskBy(head, ls)[i] == MaskBy(head, ls)[1..1 + n][i - 1] && ls[1..1 + n][i - 1] == ls[i];
      } else if i > n {
        MaskByIndents(head, ls[1 + n..], i - 1 - n);
        assert MaskBy(head, ls)[i] == MaskBy(head, ls)[1 + n..][i - 1 - n] && ls[1 + n..][i - 1 - n] == ls[i];
      }
    case None =>
      if i > 0 {
        MaskByIndents(head, ls[1..], i - 1);
      }
  }

  lemma MaskIndents(ls: seq<Line>, i: nat)
    requires i < |ls|
    ensures Mask(ls)[i].indent == ls[i].indent
  {
    MaskByIndents(ScalarIndent, ls, i);
  }

  lemma MaskByPlain(head: Line -> Option<nat>, ls: seq<Line>)
    requires ls != [] && head(ls[0]).None?
    ensures MaskBy(head, ls)[0] == ls[0] && MaskBy(head, ls)[1..] == MaskBy(head, ls[1..])
  {
  }

  lemma MaskByScalar(head: Line -> Option<nat>, ls: seq<Line>, c: nat, n: nat)
    requires ls != [] && head(ls[0]) == Some(c) && n == Deeper(ls[1..], c)
    ensures MaskBy(head, ls)[0] == ls[0] && MaskBy(head, ls)[1..1 + n] == Blanked(ls[1..1 + n])
    ensures MaskBy(head, ls)[1 + n..] == MaskBy(head, ls[1 + n..])
  {
    ThreeParts(MaskBy(head, ls), [ls[0]], Blanked(ls[1..1 + n]), MaskBy(head, ls[1 + n..]));
  }

  lemma MaskScalar(ls: seq<Line>, c: nat)
    requires ls != [] && ScalarIndent(ls[0]) == Some(c)
    ensures var n := Deeper(ls[1..], c);
            && Mask(ls)[0] == ls[0] && Mask(ls)[1..1 + n] == Blanked(ls[1..1 + n]) && Mask(ls)[1 + n..] == Mask(ls[1 + n..])
  {
    MaskByScalar(ScalarIndent, ls, c, Deeper(ls[1..], c));
  }

  lemma ThreeParts<T>(all: seq<T>, xs: seq<T>, ys: seq<T>, zs: seq<T>)
    requires |xs| == 1 && all == xs + ys + zs
    ensures all[0] == xs[0] && all[1..1 + |ys|] == ys && all[1 + |ys|..] == zs
  {
  }

  lemma MaskFirst(ls: seq<Line>)
    requires ls != []
    ensures Mask(ls)[0] == ls[0]
  {
  }

  /** A body is at least as deep as its head. */
  ghost predicate Deepens(head: Line -> Option<nat>) {
    forall l: Line :: head(l).Some? ==> head(l).value >= l.indent
  }

  lemma ScalarsDeepen()
    ensures Deepens(ScalarIndent)
  {
  }

  predicate NoDeeper(ls: seq<Line>, m: nat)
    requires m <= |ls|
  {
    m < |ls| ==> forall i :: 0 <= i < m ==> ls[i].indent >= ls[m].indent
  }

  /** A cut in front of a line that is no deeper than any before it cuts no body. */
  lemma {:induction false} MaskBySplit(head: Line -> Option<nat>, ls: seq<Line>, m: nat)
    requires Deepens(head) && m <= |ls| && NoDeeper(ls, m)
    ensures MaskBy(head, ls) == MaskBy(head, ls[..m]) + MaskBy(head, ls[m..])
    decreases |ls|, 1
  {
    if m == |ls| {
      assert ls[..m] == ls && ls[m..] == [];
    } else if m == 0 {
      assert ls[..0] == [] && ls[0..] == ls;
    } else if head(ls[0]).Some? {
      MaskBySplitScalar(head, ls, m, head(ls[0]).value);
    } else {
      SliceOfSlice(ls, 1, m);
      NoDeeperTail(ls, 1, m);
      MaskBySplit(head, ls[1..], m - 1);
      OneThen(ls[0], MaskBy(head, ls[1..m]), MaskBy(head, ls[m..]));
    }
  }

  lemma OneThen<T>(x: T, b: seq<T>, c: seq<T>)
    ensures [x] + (b + c) == [x] + b + c
  {
  }

  lemma NoDeeperTail(ls: seq<Line>, k: nat, m: nat)
    requires k <= m <= |ls| && NoDeeper(ls, m)
    ensures NoDeeper(ls[k..], m - k)
  {
  }

  lemma {:induction false} MaskBySplitScalar(head: Line -> Option<nat>, ls: seq<Line>, m: nat, c: nat)
    requires Deepens(head) && 0 < m < |ls| && NoDeeper(ls, m) && head(ls[0]) == Some(c)
    ensures MaskBy(head, ls) == MaskBy(head, ls[..m]) + MaskBy(head, ls[m..])
    decreases |ls|, 0
  {
    var n := Deeper(ls[1..], c);
    DeeperCut(ls, m, c);
    SliceOfSlice(ls, 1 + n, m);
    NoDeeperTail(ls, 1 + n, m);
    MaskBySplit(head, ls[1 + n..], m - 1 - n);
    MaskHeadOf(head, ls, m, c, n);
    Shuffle([ls[0]], Blanked(ls[1..1 + n]), MaskBy(head, ls[1 + n..m]), MaskBy(head, ls[m..]));
  }

  lemma MaskHeadOf(head: Line -> Option<nat>, ls: seq<Line>, m: nat, c: nat, n: nat)
    requires 0 < m <= |ls| && head(ls[0]) == Some(c) && n == Deeper(ls[..m][1..], c) && n < m
    ensures MaskBy(head, ls[..m]) == [ls[0]] + Blanked(ls[1..1 + n]) + MaskBy(head, ls[1 + n..m])
  {
    assert ls[..m][1..1 + n] == ls[1..1 + n];
    SliceOfSlice(ls, 1 + n, m);
  }

  lemma MaskSplit(ls: seq<Line>, m: nat)
    requires m <= |ls| && NoDeeper(ls, m)
    ensures Mask(ls) == Mask(ls[..m]) + Mask(ls[m..])
  {
    ScalarsDeepen();
    MaskBySplit(ScalarIndent, ls, m);
  }

  lemma Shuffle<T>(a: seq<T>, b: seq<T>, c: seq<T>, d: seq<T>)
    ensures a + b + (c + d) == a + b + c + d
  {
  }

  lemma SliceOfSlice<T>(ls: seq<T>, k: nat, m: nat)
    requires k <= m <= |ls|
    ensures ls[k..][..m - k] == ls[k..m] && ls[k..][m - k..] == ls[m..] && ls[..m][k..] == ls[k..m]
  {
  }

  /** The lines deeper than `c` end in front of a line that is not. */
  lemma DeeperCut(ls: seq<Line>, m: nat, c: nat)
    requires 0 < m < |ls| && ls[m].indent <= c
    ensures Deeper(ls[1..], c) <= m - 1 && Deeper(ls[..m][1..], c) == Deeper(ls[1..], c)
  {
    var n := Deeper(ls[1..], c);
    assert ls[1..][m - 1] == ls[m];
    var t := ls[..m][1..];
    var k := Deeper(t, c);
    assert forall i :: 0 <= i < |t| ==> t[i] == ls[1..][i];
  }

  /** What is left of the lines is masked as it was. */
  predicate Clean(ls: seq<Line>, rest: seq<Line>) {
    ReadsSome(ls, rest) && Mask(ls)[|ls| - |rest|..] == Mask(rest)
  }

  lemma CleanJoin(ls: seq<Line>, mid: seq<Line>, rest: seq<Line>)
    requires Clean(ls, mid) && Clean(mid, rest)
    ensures Clean(ls, rest)
  {
    var k, m := |ls| - |mid|, |mid| - |rest|;
    SuffixOfSuffix(ls, k, m);
    SuffixOfSuffix(Mask(ls), k, m);
  }

  lemma SuffixOfSuffix<T>(ls: seq<T>, k: nat, m: nat)
    requires k + m <= |ls|
    ensures ls[k..][m..] == ls[k + m..]
  {
  }

  lemma CleanOne(ls: seq<Line>)
    requires ls != [] && ScalarIndent(ls[0]).None?
    ensures Clean(ls, ls[1..])
  {
    MaskByPlain(ScalarIndent, ls);
  }

  lemma CleanScalar(ls: seq<Line>, c: nat)
    requires ls != [] && ScalarIndent(ls[0]) == Some(c)
    ensures Clean(ls, ls[1 + Deeper(ls[1..], c)..])
  {
    MaskScalar(ls, c);
    SuffixReads(ls, 1 + Deeper(ls[1..], c));
  }

  /** The synthetic block of an item: its text, two deeper, and all deeper lines. */
  function Synth(ls: seq<Line>, indent: nat, item: string): seq<Line>
    requires ls != []
  {
    [Line(indent + 2, item)] + ls[1..1 + Deeper(ls[1..], indent)]
  }

  lemma DeeperEnds(ls: seq<Line>, indent: nat)
    requires ls != []
    ensures var n := 1 + Deeper(ls[1..], indent);
            && (n < |ls| ==> ls[n].indent <= indent)
            && forall i :: 1 <= i < n ==> ls[i].indent > indent
  {
    var n := Deeper(ls[1..], indent);
    if 1 + n < |ls| {
      assert ls[1..][n] == ls[1 + n];
    }
    forall i | 1 <= i < 1 + n ensures ls[i].indent > indent {
      assert ls[1..][i - 1] == ls[i];
    }
  }

  lemma CleanItem(ls: seq<Line>, indent: nat)
    requires ls != [] && ls[0].indent == indent
    ensures Clean(ls, ls[1 + Deeper(ls[1..], indent)..])
  {
    var m := 1 + Deeper(ls[1..], indent);
    DeeperEnds(ls, indent);
    SuffixReads(ls, m);
    MaskSplit(ls, m);
  }

  /** Behind its first line, the synthetic block is masked as the lines it was taken from. */
  lemma SynthMask(ls: seq<Line>, indent: nat, item: string)
    requires ls != [] && ls[0].indent == indent && IsItem(ls[0].text) && item == Strip(ls[0].text[2..]) && StartsMapping(item) && !IsItem(item)
    ensures var m := |Synth(ls, indent, item)|;
            m <= |ls| && Mask(Synth(ls, indent, item))[1..] == Mask(ls)[1..m]
  {
    var synth := Synth(ls, indent, item);
    DeeperEnds(ls, indent);
    SynthTail(ls, indent, item);
    assert ScalarIndent(ls[0]) == ScalarIndent(synth[0]);
    PartMask(ls, |synth|, synth);
  }

  lemma SynthTail(ls: seq<Line>, indent: nat, item: string)
    requires ls != []
    ensures var synth := Synth(ls, indent, item);
            && |synth| == 1 + Deeper(ls[1..], indent) && |synth| <= |ls| && synth[0] == Line(indent + 2, item)
            && ls[..|synth|][1..] == synth[1..]
  {
  }

  lemma PartMask(ls: seq<Line>, m: nat, synth: seq<Line>)
    requires 0 < m <= |ls| && NoDeeper(ls, m) && synth != [] && ls[..m][1..] == synth[1..] && ScalarIndent(ls[0]) == ScalarIndent(synth[0])
    ensures Mask(synth)[1..] == Mask(ls)[1..m]
  {
    MaskSplit(ls, m);
    SameTailMask(ScalarIndent, ls[..m], synth);
    TailOfPart(Mask(ls), Mask(ls[..m]), Mask(ls[m..]));
  }

  lemma TailOfPart<T>(all: seq<T>, xs: seq<T>, ys: seq<T>)
    requires all == xs + ys && xs != []
    ensures all[1..|xs|] == xs[1..]
  {
  }

  lemma SameTailMask(head: Line -> Option<nat>, xs: seq<Line>, ys: seq<Line>)
    requires xs != [] && ys != [] && xs[1..] == ys[1..] && head(xs[0]) == head(ys[0])
    ensures MaskBy(head, xs)[1..] == MaskBy(head, ys)[1..]
  {
    match head(xs[0])
    case Some(c) =>
      TailOfScalar(head, xs, c);
      TailOfScalar(head, ys, c);
    case None =>
      MaskByPlain(head, xs);
      MaskByPlain(head, ys);
  }

  lemma TailOfScalar(head: Line -> Option<nat>, xs: seq<Line>, c: nat)
    requires xs != [] && head(xs[0]) == Some(c)
    ensures var n := Deeper(xs[1..], c);
            MaskBy(head, xs)[1..] == Blanked(xs[1..][..n]) + MaskBy(head, xs[1..][n..])
  {
    var n := Deeper(xs[1..], c);
    assert xs[1..1 + n] == xs[1..][..n] && xs[1 + n..] == xs[1..][n..];
    DropOne(xs[0], Blanked(xs[1..1 + n]), MaskBy(head, xs[1 + n..]));
  }

  lemma DropOne<T>(x: T, b: seq<T>, c: seq<T>)
    ensures ([x] + b + c)[1..] == b + c
  {
  }

  /** Two lists that agree behind their first lines, the shorter ending where the deeper lines do, have the same gaps there. */
  lemma SameGap(xs: seq<Line>, ys: seq<Line>, indent: nat, i: nat, j: nat)
    requires 0 < i < |ys| <= |xs| && ys[1..] == xs[1..|ys|]
    requires (forall m :: 1 <= m < |ys| ==> xs[m].indent > indent) && (|ys| < |xs| ==> xs[|ys|].indent <= indent)
    ensures Gap(ys, i, j) <==> Gap(xs, i, j)
  {
    forall m | 1 <= m < |ys| ensures ys[m] == xs[m] {
      assert ys[1..][m - 1] == xs[1..|ys|][m - 1];
    }
    if |ys| < |xs| {
      BelowStops(xs, |ys|, i, j);
    }
  }

  lemma BelowStops(xs: seq<Line>, n: nat, i: nat, j: nat)
    requires i < n < |xs| && xs[n].indent <= xs[i].indent
    ensures Below(xs, i, j) ==> j < n
  {
  }

  lemma SynthGap(ls: seq<Line>, indent: nat, item: string, i: nat, j: nat)
    requires ls != [] && ls[0].indent == indent && IsItem(ls[0].text) && item == Strip(ls[0].text[2..]) && StartsMapping(item) && !IsItem(item)
    requires 0 < i < |Synth(ls, indent, item)|
    ensures Gap(Mask(Synth(ls, indent, item)), i, j) <==> Gap(Mask(ls), i, j)
  {
    var synth := Synth(ls, indent, item);
    SynthMask(ls, indent, item);
    DeeperEnds(ls, indent);
    forall m | 1 <= m < |synth| ensures Mask(ls)[m].indent > indent {
      MaskIndents(ls, m);
    }
    if |synth| < |ls| {
      MaskIndents(ls, |synth|);
    }
    SameGap(Mask(ls), Mask(synth), indent, i, j);
  }

  // Every reader leaves off at a place where the mask is clean.

  lemma {:induction false} EntryClean(strict: bool, ls: seq<Line>, indent: nat)
    requires ls != [] && ls[0].indent >= indent
    ensures var r := EntryFrom(strict, ls, indent); r.EntryOk? ==> Clean(ls, r.rest)
    decreases |ls|, 0
  {
    var r := EntryFrom(strict, ls, indent);
    if r.EntryOk? {
      var rest := RestOf(ls[0].text);
      if IsBlockHeader(rest) {
        CleanScalar(ls, indent);
      } else {
        CleanOne(ls);
        if rest == "" && |ls| > 1 && ls[1].indent > indent {
          BlockClean(strict, ls[1..], ls[1].indent);
          CleanJoin(ls, ls[1..], r.rest);
        }
      }
    }
  }

  lemma {:induction false} MapClean(strict: bool, ls: seq<Line>, indent: nat, acc: seq<Entry>)
    ensures var r := MapFrom(strict, ls, indent, acc); r.Ok? ==> Clean(ls, r.rest)
    decreases |ls|, 1
  {
    if ls != [] && ls[0].indent >= indent {
      EntryClean(strict, ls, indent);
      var e := EntryFrom(strict, ls, indent);
      if e.EntryOk? {
        var acc' := Put(acc, e.entry.key, e.entry.value);
        MapClean(strict, e.rest, indent, acc');
        var r := MapFrom(strict, e.rest, indent, acc');
        if r.Ok? {
          CleanJoin(ls, e.rest, r.rest);
        }
      }
    }
  }

  lemma ItemRest(strict: bool, ls: seq<Line>, indent: nat)
    requires ls != [] && IsItem(ls[0].text)
    ensures var r := ItemFrom(strict, ls, indent);
            r.Ok? ==> r.rest == if OpensItem(ls[0].text) then ls[1 + Deeper(ls[1..], indent)..] else ls[1..]
  {
  }

  lemma ItemClean(strict: bool, ls: seq<Line>, indent: nat)
    requires ls != [] && ls[0].indent == indent && IsItem(ls[0].text)
    ensures var r := ItemFrom(strict, ls, indent); r.Ok? ==> Clean(ls, r.rest)
  {
    ItemRest(strict, ls, indent);
    if OpensItem(ls[0].text) {
      CleanItem(ls, indent);
    } else {
      CleanOne(ls);
    }
  }

  lemma {:induction false} ListClean(strict: bool, ls: seq<Line>, indent: nat, acc: seq<Value>)
    ensures var r := ListFrom(strict, ls, indent, acc); r.Ok? ==> Clean(ls, r.rest)
    decreases |ls|, 3
  {
    if !ListEnds(ls, indent) && ls[0].indent == indent {
      ItemClean(strict, ls, indent);
      var i := ItemFrom(strict, ls, indent);
      if i.Ok? {
        ListClean(strict, i.rest, indent, acc + [i.value]);
        var r := ListFrom(strict, i.rest, indent, acc + [i.value]);
        if r.Ok? {
          CleanJoin(ls, i.rest, r.rest);
        }
      }
    }
  }

  lemma {:induction false} BlockClean(strict: bool, ls: seq<Line>, indent: nat)
    requires ls != [] && ls[0].indent == indent
    ensures var r := BlockFrom(strict, ls, indent); r.Ok? ==> Clean(ls, r.rest)
    decreases |ls|, 4
  {
    if IsItem(ls[0].text) {
      ListClean(strict, ls, indent, []);
    } else {
      MapClean(strict, ls, indent, []);
    }
  }

  // Without a gap the strict reader never finds a line left over.

  lemma GaplessRest(ls: seq<Line>, rest: seq<Line>)
    requires Gapless(Mask(ls)) && Clean(ls, rest)
    ensures Gapless(Mask(rest))
  {
    GaplessSuffix(Mask(ls), |ls| - |rest|, Mask(rest));
  }

  lemma GaplessSuffix(ls: seq<Line>, k: nat, rest: seq<Line>)
    requires Gapless(ls) && k <= |ls| && ls[k..] == rest
    ensures Gapless(rest)
  {
    GaplessTail(ls, k);
  }

  lemma {:induction false} GaplessEntry(ls: seq<Line>, indent: nat)
    requires Gapless(Mask(ls)) && ls != [] && ls[0].indent >= indent
    ensures EntryFrom(true, ls, indent) == EntryFrom(false, ls, indent)
    decreases |ls|, 0
  {
    if |ls| > 1 && ls[1].indent > indent && ScalarIndent(ls[0]).None? {
      CleanOne(ls);
      GaplessRest(ls, ls[1..]);
      GaplessBlock(ls[1..], ls[1].indent);
    }
  }

  lemma {:induction false} GaplessMap(ls: seq<Line>, indent: nat, acc: seq<Entry>)
    requires Gapless(Mask(ls))
    ensures MapFrom(true, ls, indent, acc) == MapFrom(false, ls, indent, acc)
    decreases |ls|, 1
  {
    if ls != [] && ls[0].indent >= indent {
      GaplessEntry(ls, indent);
      EntryClean(false, ls, indent);
      var e := EntryFrom(false, ls, indent);
      if e.EntryOk? {
        GaplessRest(ls, e.rest);
        GaplessMap(e.rest, indent, Put(acc, e.entry.key, e.entry.value));
      }
    }
  }

  /** Nothing below a gapless item is too shallow for its mapping. */
  lemma SynthDeep(ls: seq<Line>, indent: nat, item: string)
    requires Gapless(Mask(ls)) && ls != [] && ls[0].indent == indent && IsItem(ls[0].text) && item == Strip(ls[0].text[2..]) && StartsMapping(item)
    ensures var synth := Synth(ls, indent, item);
            forall i :: 0 <= i < |synth| ==> synth[i].indent >= indent + 2
  {
    var synth := Synth(ls, indent, item);
    DeeperEnds(ls, indent);
    forall i | 0 <= i < |synth| ensures synth[i].indent >= indent + 2 {
      if i > 0 {
        assert synth[i] == ls[i];
        NoGapBelow(ls, i);
      }
    }
  }

  lemma NoGapBelow(ls: seq<Line>, i: nat)
    requires Gapless(Mask(ls)) && 0 < i < |ls| && OpensItem(ls[0].text) && forall m :: 1 <= m <= i ==> ls[m].indent > ls[0].indent
    ensures ls[i].indent != ls[0].indent + 1
  {
    MaskFirst(ls);
    forall m | 0 <= m <= i ensures Mask(ls)[m].indent == ls[m].indent {
      MaskIndents(ls, m);
    }
    SameBelow(ls, Mask(ls), i);
    assert !Gap(Mask(ls), 0, i);
  }

  lemma SameBelow(ls: seq<Line>, masked: seq<Line>, i: nat)
    requires |ls| == |masked| && 0 < i < |ls| && forall m :: 0 <= m <= i ==> masked[m].indent == ls[m].indent
    requires forall m :: 1 <= m <= i ==> ls[m].indent > ls[0].indent
    ensures Below(masked, 0, i)
  {
  }

  lemma SynthGapless(ls: seq<Line>, indent: nat, item: string)
    requires Gapless(Mask(ls)) && ls != [] && ls[0].indent == indent
    requires IsItem(ls[0].text) && item == Strip(ls[0].text[2..]) && StartsMapping(item) && !IsItem(item)
    ensures Gapless(Mask(Synth(ls, indent, item)))
  {
    var synth := Synth(ls, indent, item);
    MaskFirst(synth);
    forall i: nat, j: nat ensures !Gap(Mask(synth), i, j) {
      if 0 < i < |synth| {
        SynthGap(ls, indent, item, i, j);
      }
    }
  }

  /** A mapping reader stops only at a line indented less than the mapping. */
  lemma MapReadsAll(strict: bool, ls: seq<Line>, indent: nat, acc: seq<Entry>)
    requires forall i :: 0 <= i < |ls| ==> ls[i].indent >= indent
    ensures MapFrom(strict, ls, indent, acc).Ok? ==> MapFrom(strict, ls, indent, acc).rest == []
  {
    var r := MapFrom(strict, ls, indent, acc);
    assert r.Ok? ==> ReadsSome(ls, r.rest);
  }

  lemma ItemInMapping(strict: bool, ls: seq<Line>, indent: nat)
    requires ls != [] && ls[0].indent == indent && IsItem(ls[0].text)
    ensures MapFrom(strict, ls, indent, []) == Err(ListItemInMapping)
  {
  }

  /** A synthetic block is read alike, and to its end, or refused as a list item. */
  lemma {:induction false} GaplessWhole(synth: seq<Line>, indent: nat)
    requires synth != [] && synth[0].indent == indent
    requires IsItem(synth[0].text) || (Gapless(Mask(synth)) && forall i :: 0 <= i < |synth| ==> synth[i].indent >= indent)
    ensures MapFrom(true, synth, indent, []) == MapFrom(false, synth, indent, [])
    ensures MapFrom(true, synth, indent, []).Ok? ==> MapFrom(true, synth, indent, []).rest == []
    decreases |synth|, 2
  {
    if IsItem(synth[0].text) {
      ItemInMapping(true, synth, indent);
      ItemInMapping(false, synth, indent);
    } else {
      GaplessMap(synth, indent, []);
      MapReadsAll(true, synth, indent, []);
    }
  }

  lemma SynthFacts(ls: seq<Line>, indent: nat, item: string)
    requires Gapless(Mask(ls)) && ls != [] && ls[0].indent == indent
    requires IsItem(ls[0].text) && item == Strip(ls[0].text[2..]) && StartsMapping(item)
    ensures var synth := Synth(ls, indent, item);
            && synth != [] && synth[0] == Line(indent + 2, item) && |synth| <= |ls|
            && (IsItem(item) || (Gapless(Mask(synth)) && forall i :: 0 <= i < |synth| ==> synth[i].indent >= indent + 2))
  {
    if !IsItem(item) {
      SynthGapless(ls, indent, item);
      SynthDeep(ls, indent, item);
    }
  }

  lemma {:induction false} GaplessItem(ls: seq<Line>, indent: nat)
    requires Gapless(Mask(ls)) && ls != [] && ls[0].indent == indent && IsItem(ls[0].text)
    ensures ItemFrom(true, ls, indent) == ItemFrom(false, ls, indent)
    decreases |ls|, 3
  {
    var item := Strip(ls[0].text[2..]);
    if StartsMapping(item) {
      SynthFacts(ls, indent, item);
      GaplessWhole(Synth(ls, indent, item), indent + 2);
    }
  }

  lemma {:induction false} GaplessList(ls: seq<Line>, indent: nat, acc: seq<Value>)
    requires Gapless(Mask(ls))
    ensures ListFrom(true, ls, indent, acc) == ListFrom(false, ls, indent, acc)
    decreases |ls|, 4
  {
    if !ListEnds(ls, indent) && ls[0].indent == indent {
      GaplessItem(ls, indent);
      ItemClean(false, ls, indent);
      var r := ItemFrom(false, ls, indent);
      if r.Ok? {
        GaplessRest(ls, r.rest);
        GaplessList(r.rest, indent, acc + [r.value]);
      }
    }
  }

  lemma {:induction false} GaplessBlock(ls: seq<Line>, indent: nat)
    requires ls != [] && ls[0].indent == indent && Gapless(Mask(ls))
    ensures BlockFrom(true, ls, indent) == BlockFrom(false, ls, indent)
    decreases |ls|, 5
  {
    if IsItem(ls[0].text) {
      GaplessList(ls, indent, []);
    } else {
      GaplessMap(ls, indent, []);
    }
  }

  /** Without a gap outside block scalars the parser either raises or accounts for every line. */
  lemma GaplessDropsNothing(ls: seq<Line>)
    requires Gapless(Mask(ls))
    ensures ParseLines(false, ls) == ParseLines(true, ls)
  {
    if ls != [] {
      GaplessBlock(ls, ls[0].indent);
    }
  }

  predicate EvenIndents(ls: seq<Line>) {
    forall i :: 0 <= i < |ls| ==> ls[i].indent % 2 == 0
  }

  /** In particular with even indentation. */
  lemma EvenInputDropsNothing(ls: seq<Line>)
    requires EvenIndents(ls)
    ensures ParseLines(false, ls) == ParseLines(true, ls)
  {
    forall i: nat, j: nat ensures !Gap(Mask(ls), i, j) {
      if i < |ls| && j < |ls| {
        MaskIndents(ls, i);
        MaskIndents(ls, j);
        assert ls[i].indent % 2 == 0 && ls[j].indent % 2 == 0;
      }
    }
    GaplessDropsNothing(ls);
  }

  // Conversely, what the strict reader accepts has no gap.

  /** The lines read in going from `ls` to `rest` are all at least so deep, and none opens a gap. */
  ghost predicate Solid(ls: seq<Line>, rest: seq<Line>, indent: nat) {
    Clean(ls, rest) && Firm(ls, Mask(ls), |ls| - |rest|, indent)
  }

  lemma SolidJoin(ls: seq<Line>, mid: seq<Line>, rest: seq<Line>, indent: nat)
    requires Solid(ls, mid, indent) && Solid(mid, rest, indent)
    ensures Solid(ls, rest, indent)
  {
    CleanJoin(ls, mid, rest);
    JoinGaps(ls, Mask(ls), |ls| - |mid|, |mid| - |rest|, indent);
  }

  /** Among the first `k` lines none is too shallow and none opens a gap. */
  ghost predicate Firm(ls: seq<Line>, masked: seq<Line>, k: nat, indent: nat)
    requires k <= |ls|
  {
    forall i: nat :: i < k ==> ls[i].indent >= indent && !GapAt(masked, i)
  }

  lemma JoinGaps(ls: seq<Line>, masked: seq<Line>, k: nat, m: nat, indent: nat)
    requires |ls| == |masked| && k + m <= |ls| && Firm(ls, masked, k, indent) && Firm(ls[k..], masked[k..], m, indent)
    ensures Firm(ls, masked, k + m, indent)
  {
    forall i: nat | i < k + m ensures ls[i].indent >= indent && !GapAt(masked, i) {
      if i >= k {
        assert ls[k..][i - k] == ls[i];
        TailGapAt(masked, k, i - k);
      }
    }
  }

  lemma SolidFirst(ls: seq<Line>, indent: nat)
    requires ls != [] && ls[0].indent >= indent && !OpensItem(ls[0].text) && ScalarIndent(ls[0]).None?
    ensures Solid(ls, ls[1..], indent)
  {
    CleanOne(ls);
    MaskFirst(ls);
  }

  lemma SolidScalar(ls: seq<Line>, indent: nat)
    requires ls != [] && ls[0].indent == indent && !OpensItem(ls[0].text) && ScalarIndent(ls[0]) == Some(indent)
    ensures Solid(ls, ls[1 + Deeper(ls[1..], indent)..], indent)
  {
    var n := Deeper(ls[1..], indent);
    CleanScalar(ls, indent);
    MaskScalar(ls, indent);
    DeeperEnds(ls, indent);
    forall i: nat | i < 1 + n ensures ls[i].indent >= indent && !GapAt(Mask(ls), i) {
      if i > 0 {
        assert Mask(ls)[i] == Mask(ls)[1..1 + n][i - 1];
        assert Mask(ls)[i].text == "";
      }
    }
  }

  lemma SolidWeaken(ls: seq<Line>, rest: seq<Line>, deep: nat, indent: nat)
    requires Solid(ls, rest, deep) && indent <= deep
    ensures Solid(ls, rest, indent)
  {
  }

  lemma {:induction false} SolidEntry(ls: seq<Line>, indent: nat)
    requires ls != [] && ls[0].indent >= indent
    ensures var r := EntryFrom(true, ls, indent); r.EntryOk? ==> Solid(ls, r.rest, indent)
    decreases |ls|, 0
  {
    var r := EntryFrom(true, ls, indent);
    if r.EntryOk? {
      var rest := RestOf(ls[0].text);
      if IsBlockHeader(rest) {
        SolidScalar(ls, indent);
      } else {
        SolidFirst(ls, indent);
        if rest == "" && |ls| > 1 && ls[1].indent > indent {
          SolidBlock(ls[1..], ls[1].indent);
          SolidWeaken(ls[1..], r.rest, ls[1].indent, indent);
          SolidJoin(ls, ls[1..], r.rest, indent);
        }
      }
    }
  }

  lemma {:induction false} SolidMap(ls: seq<Line>, indent: nat, acc: seq<Entry>)
    ensures var r := MapFrom(true, ls, indent, acc); r.Ok? ==> Solid(ls, r.rest, indent)
    decreases |ls|, 1
  {
    if ls != [] && ls[0].indent >= indent {
      SolidEntry(ls, indent);
      var e := EntryFrom(true, ls, indent);
      if e.EntryOk? {
        var acc' := Put(acc, e.entry.key, e.entry.value);
        SolidMap(e.rest, indent, acc');
        var r := MapFrom(true, e.rest, indent, acc');
        if r.Ok? {
          SolidJoin(ls, e.rest, r.rest, indent);
        }
      }
    }
  }

  /** An item whose synthetic block was read to its end left no gap. */
  lemma SolidSynth(ls: seq<Line>, indent: nat, item: string)
    requires ls != [] && ls[0].indent == indent && IsItem(ls[0].text) && item == Strip(ls[0].text[2..]) && StartsMapping(item) && !IsItem(item)
    requires Solid(Synth(ls, indent, item), [], indent + 2)
    ensures Solid(ls, ls[1 + Deeper(ls[1..], indent)..], indent)
  {
    var synth, n := Synth(ls, indent, item), Deeper(ls[1..], indent);
    CleanItem(ls, indent);
    DeeperEnds(ls, indent);
    forall i: nat | i < 1 + n ensures ls[i].indent >= indent && !GapAt(Mask(ls), i) {
      if i > 0 {
        assert !GapAt(Mask(synth), i);
        forall j: nat ensures !Gap(Mask(ls), i, j) {
          SynthGap(ls, indent, item, i, j);
        }
      } else {
        forall j: nat ensures !Gap(Mask(ls), 0, j) {
          OwnGap(ls, indent, item, j);
        }
      }
    }
  }

  /** The item itself opens no gap if its synthetic block is deep enough. */
  lemma OwnGap(ls: seq<Line>, indent: nat, item: string, j: nat)
    requires ls != [] && ls[0].indent == indent && forall i :: 0 <= i < |Synth(ls, indent, item)| ==> Synth(ls, indent, item)[i].indent >= indent + 2
    ensures !Gap(Mask(ls), 0, j)
  {
    var synth := Synth(ls, indent, item);
    DeeperEnds(ls, indent);
    MaskFirst(ls);
    if 0 < j < |synth| {
      assert synth[j] == ls[j];
      MaskIndents(ls, j);
    } else if |synth| < |ls| {
      MaskIndents(ls, |synth|);
      BelowStops(Mask(ls), |synth|, 0, j);
    }
  }

  lemma StrictItem(ls: seq<Line>, indent: nat, item: string)
    requires ls != [] && IsItem(ls[0].text) && item == Strip(ls[0].text[2..]) && StartsMapping(item)
    ensures var r, m := ItemFrom(true, ls, indent), MapFrom(true, Synth(ls, indent, item), indent + 2, []);
            r.Ok? ==> m.Ok? && m.rest == [] && r.rest == ls[1 + Deeper(ls[1..], indent)..]
  {
  }

  lemma {:induction false} SolidWhole(synth: seq<Line>, indent: nat)
    requires synth != [] && synth[0].indent == indent
    ensures var m := MapFrom(true, synth, indent, []); m.Ok? ==> Solid(synth, m.rest, indent) && !IsItem(synth[0].text)
    decreases |synth|, 2
  {
    if IsItem(synth[0].text) {
      ItemInMapping(true, synth, indent);
    } else {
      SolidMap(synth, indent, []);
    }
  }

  lemma SynthShape(ls: seq<Line>, indent: nat, item: string)
    requires ls != []
    ensures var synth := Synth(ls, indent, item); synth != [] && synth[0] == Line(indent + 2, item) && |synth| <= |ls|
  {
  }

  lemma {:induction false} SolidItem(ls: seq<Line>, indent: nat)
    requires ls != [] && ls[0].indent == indent && IsItem(ls[0].text)
    ensures var r := ItemFrom(true, ls, indent); r.Ok? ==> Solid(ls, r.rest, indent)
    decreases |ls|, 3
  {
    var item := Strip(ls[0].text[2..]);
    if StartsMapping(item) {
      SynthShape(ls, indent, item);
      SolidWhole(Synth(ls, indent, item), indent + 2);
      SolidMappingItem(ls, indent, item, Synth(ls, indent, item));
    } else {
      SolidLeafItem(ls, item);
    }
  }

  lemma SolidMappingItem(ls: seq<Line>, indent: nat, item: string, synth: seq<Line>)
    requires ls != [] && ls[0].indent == indent && IsItem(ls[0].text) && item == Strip(ls[0].text[2..]) && StartsMapping(item)
    requires synth == Synth(ls, indent, item)
    requires var m := MapFrom(true, synth, indent + 2, []); m.Ok? ==> Solid(synth, m.rest, indent + 2) && !IsItem(item)
    ensures var r := ItemFrom(true, ls, indent); r.Ok? ==> Solid(ls, r.rest, indent)
  {
    StrictItem(ls, indent, item);
    if MapFrom(true, synth, indent + 2, []).Ok? && MapFrom(true, synth, indent + 2, []).rest == [] {
      SolidSynth(ls, indent, item);
    }
  }

  lemma SolidLeafItem(ls: seq<Line>, item: string)
    requires ls != [] && IsItem(ls[0].text) && item == Strip(ls[0].text[2..]) && !StartsMapping(item)
    ensures var r := ItemFrom(true, ls, ls[0].indent); r.Ok? ==> Solid(ls, r.rest, ls[0].indent)
  {
    SolidFirst(ls, ls[0].indent);
  }

  lemma {:induction false} SolidList(ls: seq<Line>, indent: nat, acc: seq<Value>)
    ensures var r := ListFrom(true, ls, indent, acc); r.Ok? ==> Solid(ls, r.rest, indent)
    decreases |ls|, 4
  {
    if !ListEnds(ls, indent) && ls[0].indent == indent {
      SolidItem(ls, indent);
      var i := ItemFrom(true, ls, indent);
      if i.Ok? {
        SolidList(i.rest, indent, acc + [i.value]);
        var r := ListFrom(true, i.rest, indent, acc + [i.value]);
        if r.Ok? {
          SolidJoin(ls, i.rest, r.rest, indent);
        }
      }
    }
  }

  lemma {:induction false} SolidBlock(ls: seq<Line>, indent: nat)
    requires ls != [] && ls[0].indent == indent
    ensures var r := BlockFrom(true, ls, indent); r.Ok? ==> Solid(ls, r.rest, indent)
    decreases |ls|, 5
  {
    if IsItem(ls[0].text) {
      SolidList(ls, indent, []);
    } else {
      SolidMap(ls, indent, []);
    }
  }

  lemma AcceptedIsGapless(ls: seq<Line>)
    requires ParseLines(true, ls).Ok?
    ensures Gapless(Mask(ls))
  {
    if ls != [] {
      SolidBlock(ls, ls[0].indent);
      forall i: nat, j: nat ensures !Gap(Mask(ls), i, j) {
        if i < |ls| {
          assert !GapAt(Mask(ls), i);
        }
      }
    }
  }

  /**
   A parse that succeeds has accounted for every line exactly when there is no gap outside
   the bodies of block scalars; otherwise it has dropped one silently.
   */
  lemma DropsNothingIff(ls: seq<Line>)
    requires ParseLines(false, ls).Ok?
    ensures ParseLines(true, ls) == ParseLines(false, ls) <==> Gapless(Mask(ls))
  {
    if Gapless(Mask(ls)) {
      GaplessDropsNothing(ls);
    }
    if ParseLines(true, ls) == ParseLines(false, ls) {
      AcceptedIsGapless(ls);
    }
  }

  /** With odd indentation the implementation can lose a line where the strict reader objects. */
  lemma OddInputDropsLines()
    ensures var ls := [Line(0, "- a:"), Line(1, "b: y")];
            && ParseLines(true, ls) == Err(DroppedLines)
            && ParseLines(false, ls) == Ok(List([Map([Entry("a", Null)])]), [])
  {
    var ls := [Line(0, "- a:"), Line(1, "b: y")];
    OddItem(true, ls);
    OddItem(false, ls);
    assert ls[0].text[..2] == "- ";
  }

  lemma OddItem(strict: bool, ls: seq<Line>)
    requires |ls| == 2 && ls[0] == Line(0, "- a:") && ls[1].indent == 1
    ensures IsItem(ls[0].text)
    ensures ItemFrom(strict, ls, 0) == if strict then Err(DroppedLines) else Ok(Map([Entry("a", Null)]), [])
  {
    ItemText();
    assert ls[1..][1..] == [];
    assert Deeper(ls[1..], 0) == 1;
    ShallowMap(strict, [Line(2, "a:")] + ls[1..2]);
  }

  lemma ItemText()
    ensures IsItem("- a:") && Strip("- a:"[2..]) == "a:" && StartsMapping("a:")
  {
    var t := "- a:";
    assert t[..2] == "- " && t[2..] == "a:";
    StripFacts("a:");
    assert "a:"[1] == ':';
  }

  lemma ShallowMap(strict: bool, synth: seq<Line>)
    requires |synth| == 2 && synth[0] == Line(2, "a:") && synth[1].indent == 1
    ensures MapFrom(strict, synth, 2, []) == Ok(Map([Entry("a", Null)]), synth[1..])
  {
    ShallowEntry(strict, synth);
    assert MapFrom(strict, synth, 2, []) == MapFrom(strict, synth[1..], 2, Put([], "a", Null));
  }

  lemma ShallowEntry(strict: bool, synth: seq<Line>)
    requires |synth| == 2 && synth[0] == Line(2, "a:") && synth[1].indent == 1
    ensures EntryFrom(strict, synth, 2) == EntryOk(Entry("a", Null), synth[1..])
  {
    var t := "a:";
    assert t[1] == ':' && ':' in t;
    assert t[1..][0] == ':';
    assert ColonAt(t) == 1;
    assert t[..1] == "a" && t[2..] == "";
    StripFacts("a");
    StripFacts("");
    assert t[..2] != "- ";
  }
}
