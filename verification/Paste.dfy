/**
 * Bracketed paste: taking paste markers out of a text and typing it as pieces that a terminal reads back
 * as exactly those pieces. Text is a string of UTF-16 code units.
 */
module Paste {
  import Texts

  type Unit = x: int | 0 <= x < 0x1_0000
  type Text = seq<Unit>

  const START: Text := [0x1b, 0x5b, 0x32, 0x30, 0x30, 0x7e]
  const END: Text := [0x1b, 0x5b, 0x32, 0x30, 0x31, 0x7e]

  /** The start marker (digit 0x30) or the end marker (digit 0x31) stands at `i`. */
  predicate DigitMarkerAt(s: Text, i: nat, digit: Unit) {
    && i + 6 <= |s| && s[i] == 0x1b && s[i + 1] == 0x5b && s[i + 2] == 0x32 && s[i + 3] == 0x30
    && s[i + 4] == digit && s[i + 5] == 0x7e
  }

  predicate MarkerAt(s: Text, i: nat) { DigitMarkerAt(s, i, 0x30) || DigitMarkerAt(s, i, 0x31) }

  /** No marker stands anywhere. */
  ghost predicate Clean(s: Text) { forall i: nat :: !MarkerAt(s, i) }

  // ---- Taking markers out ----

  /** One global replace: markers from left to right, not looking again at what closes up. */
  function ReplaceAll(s: Text): Text {
    if s == [] then [] else if MarkerAt(s, 0) then ReplaceAll(s[6..]) else [s[0]] + ReplaceAll(s[1..])
  }

  method StripPasteMarkers(txt: Text) returns (body: Text)
    ensures body == Normal(txt)
  {
    body := txt;
    var prev: Text := [];
    while prev != body
      invariant Normal(body) == Normal(txt)
      invariant prev == body ==> Clean(body)
      decreases |body|, prev != body
    {
      prev := body;
      ReplaceAllKeepsNormal([], body);
      ReplaceAllShortens(body);
      body := ReplaceAll(body);
    }
    assert [] + body == body;
    CleanIsNormal([], body);
  }

  /** One pass over the text with a stack: a marker is dropped the moment its last unit completes it. */
  function Push(stack: Text, c: Unit): Text {
    var s := stack + [c];
    if |s| >= 6 && MarkerAt(s, |s| - 6) then s[..|s| - 6] else s
  }

  function PushAll(stack: Text, s: Text): Text
    decreases |s|
  {
    if s == [] then stack else PushAll(Push(stack, s[0]), s[1..])
  }

  function Normal(s: Text): Text { PushAll([], s) }

  lemma PlainPiles(stack: Text, c: Unit)
    requires c != 0x7e
    ensures Push(stack, c) == stack + [c]
  {}

  lemma OneFurther(stack: Text, s: Text, n: nat)
    requires 0 < n <= |s| && s[n - 1] != 0x7e
    ensures PushAll(stack + s[..n - 1], s[n - 1..]) == PushAll(stack + s[..n], s[n..])
  {
    PlainPiles(stack + s[..n - 1], s[n - 1]);
    assert stack + s[..n - 1] + [s[n - 1]] == stack + s[..n];
    assert s[n - 1..][1..] == s[n..];
  }

  /** Units that cannot end a marker just pile up. */
  lemma {:induction false} PushPlain(stack: Text, s: Text, n: nat)
    requires n <= |s| && forall k :: 0 <= k < n ==> s[k] != 0x7e
    ensures PushAll(stack, s) == PushAll(stack + s[..n], s[n..])
    decreases n
  {
    if n == 0 {
      assert stack + s[..0] == stack && s[0..] == s;
    } else {
      PushPlain(stack, s, n - 1);
      OneFurther(stack, s, n);
    }
  }

  /** A marker pushed on any stack leaves it as it was. */
  lemma MarkerVanishes(stack: Text, s: Text)
    requires MarkerAt(s, 0)
    ensures PushAll(stack, s) == PushAll(stack, s[6..])
  {
    PushPlain(stack, s, 5);
    LastUnitClears(stack, s);
    assert s[5..][1..] == s[6..];
  }

  lemma LastUnitClears(stack: Text, s: Text)
    requires MarkerAt(s, 0)
    ensures Push(stack + s[..5], s[5]) == stack
  {
    var t := stack + s[..5] + [s[5]];
    assert t[|stack|..] == s[..6];
    assert MarkerAt(t, |stack|) && t[..|stack|] == stack;
  }

  lemma {:induction false} PushAllSplit(stack: Text, a: Text, b: Text)
    ensures PushAll(stack, a + b) == PushAll(PushAll(stack, a), b)
    decreases |a|
  {
    if a == [] {
      assert a + b == b;
    } else {
      assert (a + b)[1..] == a[1..] + b;
      PushAllSplit(Push(stack, a[0]), a[1..], b);
    }
  }

  predicate IsMarker(m: Text) { |m| == 6 && MarkerAt(m, 0) }

  /** Taking out any one marker does not change the normal form. */
  lemma RemovalKeepsNormal(a: Text, m: Text, b: Text)
    requires IsMarker(m)
    ensures Normal(a + m + b) == Normal(a + b)
  {
    assert a + m + b == a + (m + b);
    PushAllSplit([], a, m + b);
    PushAllSplit([], a, b);
    assert MarkerAt(m + b, 0) && (m + b)[6..] == b;
    MarkerVanishes(PushAll([], a), m + b);
  }

  lemma {:induction false} ReplaceAllKeepsNormal(stack: Text, s: Text)
    ensures PushAll(stack, ReplaceAll(s)) == PushAll(stack, s)
    decreases |s|
  {
    if s == [] {
    } else if MarkerAt(s, 0) {
      MarkerVanishes(stack, s);
      ReplaceAllKeepsNormal(stack, s[6..]);
    } else {
      ReplaceAllKeepsNormal(Push(stack, s[0]), s[1..]);
      var r := ReplaceAll(s);
      assert r[0] == s[0] && r[1..] == ReplaceAll(s[1..]);
    }
  }

  /** A replace shortens the text, or leaves it because it is clean. */
  lemma {:induction false} ReplaceAllShortens(s: Text)
    ensures |ReplaceAll(s)| < |s| || (ReplaceAll(s) == s && Clean(s))
    decreases |s|
  {
    if s == [] {
    } else if MarkerAt(s, 0) {
      ReplaceAllShortens(s[6..]);
    } else {
      ReplaceAllShortens(s[1..]);
      if ReplaceAll(s[1..]) == s[1..] { FirstIsClean(s); }
    }
  }

  lemma FirstIsClean(s: Text)
    requires s != [] && !MarkerAt(s, 0) && Clean(s[1..])
    ensures Clean(s)
  {
    forall i: nat
      ensures !MarkerAt(s, i)
    {
      if i > 0 { assert !MarkerAt(s[1..], i - 1); }
    }
  }

  /** Text without markers is its own normal form. */
  lemma {:induction false} CleanIsNormal(stack: Text, s: Text)
    requires Clean(stack + s)
    ensures PushAll(stack, s) == stack + s
    decreases |s|
  {
    if s == [] {
      assert stack + s == stack;
    } else {
      var t := stack + [s[0]];
      assert t + s[1..] == stack + s;
      PrefixIsClean(t, s[1..]);
      CleanIsNormal(t, s[1..]);
    }
  }

  lemma PrefixIsClean(t: Text, rest: Text)
    requires Clean(t + rest)
    ensures Clean(t)
  {
    forall i: nat
      ensures !MarkerAt(t, i)
    {
      assert !MarkerAt(t + rest, i);
    }
  }

  lemma PushStaysClean(stack: Text, c: Unit)
    requires Clean(stack)
    ensures Clean(Push(stack, c))
  {
    forall i: nat
      ensures !MarkerAt(Push(stack, c), i)
    {
      assert !MarkerAt(stack, i);
    }
  }

  lemma {:induction false} NormalIsClean(stack: Text, s: Text)
    requires Clean(stack)
    ensures Clean(PushAll(stack, s))
    decreases |s|
  {
    if s != [] {
      PushStaysClean(stack, s[0]);
      NormalIsClean(Push(stack, s[0]), s[1..]);
    }
  }

  /** Some number of markers taken out, one after the other, anywhere. */
  ghost predicate Removed(s: Text, r: Text, steps: nat)
    decreases steps
  {
    if steps == 0 then s == r
    else exists a: Text, m: Text, b: Text :: s == a + m + b && IsMarker(m) && Removed(a + b, r, steps - 1)
  }

  /** The normal form does come out that way: by taking markers out, one after the other. */
  lemma {:induction false} NormalIsReached(s: Text) returns (steps: nat)
    ensures Removed(s, Normal(s), steps)
    decreases |s|
  {
    if i: nat :| MarkerAt(s, i) {
      var a, m, b := s[..i], s[i..i + 6], s[i + 6..];
      assert s == a + m + b && IsMarker(m);
      RemovalKeepsNormal(a, m, b);
      var rest := NormalIsReached(a + b);
      steps := rest + 1;
    } else {
      assert [] + s == s;
      CleanIsNormal([], s);
      steps := 0;
    }
  }

  /** However markers are taken out, the only text without any that can come out is the normal form. */
  lemma {:induction false} OneCleanResult(s: Text, r: Text, steps: nat)
    requires Removed(s, r, steps) && Clean(r)
    ensures r == Normal(s)
    decreases steps
  {
    if steps == 0 {
      assert [] + r == r;
      CleanIsNormal([], r);
    } else {
      var a: Text, m: Text, b: Text :| s == a + m + b && IsMarker(m) && Removed(a + b, r, steps - 1);
      RemovalKeepsNormal(a, m, b);
      OneCleanResult(a + b, r, steps - 1);
    }
  }

  // ---- Cutting into pieces ----

  predicate Space(c: Unit) { Texts.SpaceCode(c) }

  predicate Low(c: Unit) { 0xdc00 <= c <= 0xdfff }
  predicate High(c: Unit) { 0xd800 <= c <= 0xdbff }

  predicate CleanCut(s: Text, i: nat)
    requires 0 < i < |s|
  {
    !Space(s[i - 1]) && !Space(s[i]) && !Low(s[i])
  }

  /** The last clean cut in `(start + cap / 2, cut]`, if there is one. */
  function LastClean(s: Text, start: nat, cap: nat, cut: nat): (r: int)
    requires start <= cut < |s|
    ensures r == -1 || (start < r <= cut && 2 * (r - start) > cap && CleanCut(s, r))
    decreases cut
  {
    if 2 * (cut - start) <= cap then -1
    else if CleanCut(s, cut) then cut
    else LastClean(s, start, cap, cut - 1)
  }

  lemma {:induction false} LastCleanIsLast(s: Text, start: nat, cap: nat, cut: nat, j: nat)
    requires start < j <= cut < |s| && 2 * (j - start) > cap && CleanCut(s, j)
    ensures LastClean(s, start, cap, cut) >= j
    decreases cut
  {
    if j < cut { LastCleanIsLast(s, start, cap, cut - 1, j); }
  }

  function NextCut(s: Text, start: nat, cap: nat): int
    requires start + cap < |s|
  {
    var clean := LastClean(s, start, cap, start + cap);
    if clean >= 0 then clean else if Low(s[start + cap]) then start + cap - 1 else start + cap
  }

  /** The loop gets on exactly for caps of two and more, and for one when no low surrogate comes next. */
  lemma CutAdvancesExactly(s: Text, start: nat, cap: nat)
    requires start + cap < |s|
    ensures NextCut(s, start, cap) > start <==> cap >= 2 || (cap == 1 && !Low(s[start + 1]))
    ensures NextCut(s, start, cap) <= start + cap
  {
    assert cap == 1 ==> LastClean(s, start, cap, start) == -1;
  }

  function PiecesFrom(s: Text, start: nat, cap: nat): seq<Text>
    requires start <= |s| && cap >= 2
    decreases |s| - start
  {
    if |s| - start > cap then
      CutAdvancesExactly(s, start, cap);
      var cut := NextCut(s, start, cap);
      [s[start..cut]] + PiecesFrom(s, cut, cap)
    else if start < |s| then [s[start..]] else []
  }

  function Wrap(piece: Text): Text { START + piece + END }

  function WrapAll(pieces: seq<Text>): seq<Text> {
    if pieces == [] then [] else WrapAll(pieces[..|pieces| - 1]) + [Wrap(pieces[|pieces| - 1])]
  }

  method SplitPieces(body: Text, cap: nat) returns (pieces: seq<Text>)
    requires cap >= 2
    ensures pieces == PiecesFrom(body, 0, cap)
  {
    pieces := [];
    var start := 0;
    assert [] + PiecesFrom(body, 0, cap) == PiecesFrom(body, 0, cap);
    while |body| - start > cap
      invariant 0 <= start <= |body|
      invariant PiecesFrom(body, 0, cap) == pieces + PiecesFrom(body, start, cap)
    {
      var cut := FindCut(body, start, cap);
      CutAdvancesExactly(body, start, cap);
      pieces := pieces + [body[start..cut]];
      start := cut;
    }
    assert pieces + [] == pieces;
    if start < |body| { pieces := pieces + [body[start..]]; }
  }

  method FindCut(body: Text, start: nat, cap: nat) returns (cut: int)
    requires start + cap < |body|
    ensures cut == NextCut(body, start, cap)
  {
    cut := start + cap;
    while 2 * (cut - start) > cap && !CleanCut(body, cut)
      invariant start <= cut <= start + cap
      invariant LastClean(body, start, cap, start + cap) == LastClean(body, start, cap, cut)
    {
      cut := cut - 1;
    }
    if 2 * (cut - start) <= cap {
      cut := start + cap;
      if Low(body[cut]) { cut := cut - 1; }
    }
  }

  lemma {:induction false} WrapAllIs(pieces: seq<Text>)
    ensures |WrapAll(pieces)| == |pieces| && forall k :: 0 <= k < |pieces| ==> WrapAll(pieces)[k] == Wrap(pieces[k])
  {
    if pieces != [] { WrapAllIs(pieces[..|pieces| - 1]); }
  }

  /** A chunk is a start marker, up to `cap` units of text without markers, and an end marker. */
  ghost predicate WholeChunk(c: Text, cap: nat) {
    && 12 < |c| <= cap + 12 && DigitMarkerAt(c, 0, 0x30) && DigitMarkerAt(c, |c| - 6, 0x31)
    && Clean(c[6..|c| - 6])
  }

  method BracketedPasteChunks(txt: Text, cap: nat) returns (chunks: seq<Text>)
    requires cap >= 2
    ensures chunks == WrapAll(PiecesFrom(Normal(txt), 0, cap))
    ensures forall k :: 0 <= k < |chunks| ==> WholeChunk(chunks[k], cap)
  {
    var body := StripPasteMarkers(txt);
    var pieces := SplitPieces(body, cap);
    chunks := [];
    for i := 0 to |pieces|
      invariant chunks == WrapAll(pieces[..i])
    {
      assert pieces[..i + 1][..i] == pieces[..i];
      chunks := chunks + [Wrap(pieces[i])];
    }
    assert pieces[..|pieces|] == pieces;
    ChunksAreWhole(txt, cap);
  }

  lemma ChunkIsWhole(p: Text, cap: nat)
    requires 0 < |p| <= cap && Clean(p)
    ensures WholeChunk(Wrap(p), cap)
  {
    assert Wrap(p)[6..|p| + 6] == p;
  }

  lemma ChunksAreWhole(txt: Text, cap: nat)
    requires cap >= 2
    ensures
      var chunks := WrapAll(PiecesFrom(Normal(txt), 0, cap));
      forall k :: 0 <= k < |chunks| ==> WholeChunk(chunks[k], cap)
  {
    var pieces := PiecesFrom(Normal(txt), 0, cap);
    NormalIsClean([], txt);
    PiecesAreClean(Normal(txt), 0, cap);
    PiecesCover(Normal(txt), 0, cap);
    WrapAllIs(pieces);
    forall k | 0 <= k < |pieces|
      ensures WholeChunk(Wrap(pieces[k]), cap)
    {
      ChunkIsWhole(pieces[k], cap);
    }
  }

  function Join(pieces: seq<Text>): Text {
    if pieces == [] then [] else pieces[0] + Join(pieces[1..])
  }

  ghost predicate Sized(pieces: seq<Text>, cap: nat) { forall k :: 0 <= k < |pieces| ==> 0 < |pieces[k]| <= cap }

  /** The pieces joined are the text, none is empty and none is longer than the cap. */
  lemma {:induction false} PiecesCover(s: Text, start: nat, cap: nat)
    requires start <= |s| && cap >= 2
    ensures Join(PiecesFrom(s, start, cap)) == s[start..]
    ensures Sized(PiecesFrom(s, start, cap), cap)
    decreases |s| - start
  {
    if |s| - start > cap {
      CutAdvancesExactly(s, start, cap);
      var cut := NextCut(s, start, cap);
      PiecesCover(s, cut, cap);
      assert s[start..] == s[start..cut] + s[cut..];
    } else if start < |s| {
      assert [s[start..]] + [] == [s[start..]];
    }
  }

  /** Where the pieces from `start` on end, but for the last: the seams. */
  function Seams(s: Text, start: nat, cap: nat): seq<nat>
    requires start <= |s| && cap >= 2
    decreases |s| - start
  {
    if |s| - start > cap then
      CutAdvancesExactly(s, start, cap);
      var cut := NextCut(s, start, cap);
      [cut] + Seams(s, cut, cap)
    else []
  }

  /** Where the piece that ends at seam `k` starts. */
  function SeamStart(s: Text, start: nat, cap: nat, k: nat): nat
    requires start <= |s| && cap >= 2 && k < |Seams(s, start, cap)|
  {
    if k == 0 then start else Seams(s, start, cap)[k - 1]
  }

  /** Piece `k` is the text from its start to seam `k`, and that seam is the next cut from there. */
  lemma {:induction false} SeamIsCut(s: Text, start: nat, cap: nat, k: nat)
    requires start <= |s| && cap >= 2 && k < |Seams(s, start, cap)|
    ensures
      var from, seam := SeamStart(s, start, cap, k), Seams(s, start, cap)[k];
      && from + cap < |s| && seam == NextCut(s, from, cap) && from < seam <= from + cap
      && k < |PiecesFrom(s, start, cap)| && PiecesFrom(s, start, cap)[k] == s[from..seam]
    decreases |s| - start
  {
    CutAdvancesExactly(s, start, cap);
    var cut := NextCut(s, start, cap);
    assert Seams(s, start, cap) == [cut] + Seams(s, cut, cap);
    assert PiecesFrom(s, start, cap) == [s[start..cut]] + PiecesFrom(s, cut, cap);
    if k > 0 {
      SeamIsCut(s, cut, cap, k - 1);
    }
  }

  lemma {:induction false} SeamsCount(s: Text, start: nat, cap: nat)
    requires start <= |s| && cap >= 2
    ensures |Seams(s, start, cap)| == if start == |s| then 0 else |PiecesFrom(s, start, cap)| - 1
    decreases |s| - start
  {
    if |s| - start > cap {
      CutAdvancesExactly(s, start, cap);
      SeamsCount(s, NextCut(s, start, cap), cap);
    }
  }

  /** The seams are where one piece ends and the next one starts, all of them. */
  lemma PiecesEndAtSeams(s: Text, cap: nat, k: nat)
    requires cap >= 2 && k + 1 < |PiecesFrom(s, 0, cap)|
    ensures
      var pieces, seams := PiecesFrom(s, 0, cap), Seams(s, 0, cap);
      && |seams| == |pieces| - 1
      && 0 <= SeamStart(s, 0, cap, k) < seams[k] <= |s|
      && pieces[k] == s[SeamStart(s, 0, cap, k)..seams[k]]
  {
    SeamsCount(s, 0, cap);
    SeamIsCut(s, 0, cap, k);
  }

  /** Between two units that are not spaces, and not in front of a low surrogate. */
  ghost predicate GoodSeam(s: Text, i: int) {
    && 0 < i < |s| && !Texts.SpaceCode(s[i - 1]) && !Texts.SpaceCode(s[i]) && !(0xdc00 <= s[i] <= 0xdfff)
  }

  lemma CutIsClean(s: Text, from: nat, cap: nat)
    requires cap >= 2 && from + cap < |s|
    ensures
      var seam := NextCut(s, from, cap);
      && (forall j: nat :: from < j <= from + cap && 2 * (j - from) > cap && GoodSeam(s, j) ==>
            j <= seam <= from + cap && GoodSeam(s, seam))
      && (seam < from + cap ==>
            (2 * (seam - from) > cap && GoodSeam(s, seam)) ||
            (seam == from + cap - 1 && 0xdc00 <= s[from + cap] <= 0xdfff))
  {
    var seam := NextCut(s, from, cap);
    forall j: nat | from < j <= from + cap && 2 * (j - from) > cap && GoodSeam(s, j)
      ensures j <= seam <= from + cap && GoodSeam(s, seam)
    {
      LastCleanIsLast(s, from, cap, from + cap, j);
    }
  }

  /**
   * A seam is the last good one in the back half of its window. Where no good one is there, it is the end of
   * the window, or one unit before it when a low surrogate comes next.
   */
  lemma SeamsAreClean(s: Text, cap: nat, k: nat)
    requires cap >= 2 && k < |Seams(s, 0, cap)|
    ensures
      var from, seam := SeamStart(s, 0, cap, k), Seams(s, 0, cap)[k];
      && from + cap < |s| && 0 < seam < |s|
      && (forall j: nat :: from < j <= from + cap && 2 * (j - from) > cap && GoodSeam(s, j) ==>
            j <= seam <= from + cap && GoodSeam(s, seam))
      && (seam < from + cap ==>
            (2 * (seam - from) > cap && GoodSeam(s, seam)) ||
            (seam == from + cap - 1 && 0xdc00 <= s[from + cap] <= 0xdfff))
  {
    SeamIsCut(s, 0, cap, k);
    CutIsClean(s, SeamStart(s, 0, cap, k), cap);
  }

  /** Every surrogate stands in a pair. */
  ghost predicate WellFormed(s: Text) {
    && (forall i :: 0 <= i < |s| && 0xd800 <= s[i] <= 0xdbff ==> i + 1 < |s| && 0xdc00 <= s[i + 1] <= 0xdfff)
    && (forall i :: 0 <= i < |s| && 0xdc00 <= s[i] <= 0xdfff ==> 0 < i && 0xd800 <= s[i - 1] <= 0xdbff)
  }

  lemma RemovalStaysWellFormed(a: Text, m: Text, b: Text)
    requires IsMarker(m) && WellFormed(a + m + b)
    ensures WellFormed(a + b)
  {
    var s, r := a + m + b, a + b;
    assert s[|a|] == 0x1b && s[|a| + 5] == 0x7e;
    forall i | 0 <= i < |r| && High(r[i])
      ensures i + 1 < |r| && Low(r[i + 1])
    {
      var k := if i < |a| then i else i + 6;
      assert High(s[k]);
      assert i + 1 < |r| && i != |a| - 1 ==> r[i + 1] == s[k + 1];
    }
    forall i | 0 <= i < |r| && Low(r[i])
      ensures 0 < i && High(r[i - 1])
    {
      var k := if i < |a| then i else i + 6;
      assert Low(s[k]);
      assert 0 < i && i != |a| ==> r[i - 1] == s[k - 1];
    }
  }

  lemma {:induction false} ReplaceAllStaysWellFormed(p: Text, s: Text)
    requires WellFormed(p + s)
    ensures WellFormed(p + ReplaceAll(s))
    decreases |s|
  {
    if s == [] {
    } else if MarkerAt(s, 0) {
      assert p + s == p + s[..6] + s[6..];
      RemovalStaysWellFormed(p, s[..6], s[6..]);
      ReplaceAllStaysWellFormed(p, s[6..]);
    } else {
      assert p + s == p + [s[0]] + s[1..];
      ReplaceAllStaysWellFormed(p + [s[0]], s[1..]);
      assert p + [s[0]] + ReplaceAll(s[1..]) == p + ([s[0]] + ReplaceAll(s[1..]));
    }
  }

  lemma {:induction false} NormalStaysWellFormed(s: Text)
    requires WellFormed(s)
    ensures WellFormed(Normal(s))
    decreases |s|
  {
    ReplaceAllShortens(s);
    ReplaceAllKeepsNormal([], s);
    var r := ReplaceAll(s);
    assert [] + s == s && [] + r == r;
    if r == s {
      CleanIsNormal([], s);
    } else {
      ReplaceAllStaysWellFormed([], s);
      NormalStaysWellFormed(r);
    }
  }

  /** A pair with another low surrogate right behind it. */
  predicate TangledAt(s: Text, i: nat) { i + 2 < |s| && High(s[i]) && Low(s[i + 1]) && Low(s[i + 2]) }

  ghost predicate Untangled(s: Text) { forall i: nat :: !TangledAt(s, i) }

  lemma WellFormedIsUntangled(s: Text)
    requires WellFormed(s)
    ensures Untangled(s)
  {
    forall i: nat
      ensures !TangledAt(s, i)
    {
      if i + 2 < |s| && Low(s[i + 2]) { assert High(s[i + 1]); }
    }
  }

  /**
   * A seam splits a surrogate pair exactly when no clean cut was found and the window ends within a pair
   * that has another low surrogate right behind it. A text without such a place has no pair split, and
   * well-formed text is one; there no seam comes next to the wrong half of a pair at all.
   */
  lemma SeamsSplitNoPair(s: Text, cap: nat, k: nat)
    requires cap >= 2 && k < |Seams(s, 0, cap)|
    ensures
      var from, seam := SeamStart(s, 0, cap, k), Seams(s, 0, cap)[k];
      && from + cap < |s| && 0 < seam < |s|
      && (High(s[seam - 1]) && Low(s[seam]) <==>
          LastClean(s, from, cap, from + cap) < 0 && TangledAt(s, from + cap - 2))
      && (Low(s[seam]) <==>
          LastClean(s, from, cap, from + cap) < 0 && Low(s[from + cap]) && Low(s[from + cap - 1]))
      && (Untangled(s) ==> !(High(s[seam - 1]) && Low(s[seam])))
      && (WellFormed(s) ==> !(0xdc00 <= s[seam] <= 0xdfff) && !(0xd800 <= s[seam - 1] <= 0xdbff))
  {
    SeamIsCut(s, 0, cap, k);
    var from := SeamStart(s, 0, cap, k);
    CutAdvancesExactly(s, from, cap);
  }

  /** Three units, high low low, do get a pair split: the text has to be well-formed. */
  lemma IllFormedPairIsSplit()
    ensures
      var s: Text := [0x20, 0xd800, 0xdc00, 0xdc00];
      |Seams(s, 0, 3)| == 1 && Seams(s, 0, 3)[0] == 2 && High(s[1]) && Low(s[2])
  {
    var s: Text := [0x20, 0xd800, 0xdc00, 0xdc00];
    assert !CleanCut(s, 3) && !CleanCut(s, 2);
    assert LastClean(s, 0, 3, 1) == -1;
    assert LastClean(s, 0, 3, 2) == -1;
    assert LastClean(s, 0, 3, 3) == -1;
    assert NextCut(s, 0, 3) == 2;
    assert Seams(s, 2, 3) == [];
  }

  // ---- The terminal's side ----

  /** Where the first end marker stands, if any. */
  function FindEnd(s: Text): (r: int)
    ensures r == -1 || 0 <= r <= |s| - 6
  {
    if |s| < 6 then -1 else if DigitMarkerAt(s, 0, 0x31) then 0 else
    var rest := FindEnd(s[1..]);
    if rest < 0 then -1 else rest + 1
  }

  datatype Pastes = Pastes(pieces: seq<Text>) | NotPastes

  /** A terminal reads a paste from a start marker up to the first end marker. */
  function ReadPastes(s: Text): Pastes
    decreases |s|
  {
    if s == [] then Pastes([])
    else if !DigitMarkerAt(s, 0, 0x30) then NotPastes
    else
      var end := FindEnd(s[6..]);
      if end < 0 then NotPastes else
      match ReadPastes(s[6 + end + 6..])
      case NotPastes => NotPastes
      case Pastes(rest) => Pastes([s[6..6 + end]] + rest)
  }

  /** An end marker behind clean text is the first one, even if that text ends in part of a marker. */
  lemma {:induction false} EndIsFound(piece: Text, rest: Text)
    requires Clean(piece)
    ensures FindEnd(piece + (END + rest)) == |piece|
    decreases |piece|
  {
    var s := piece + (END + rest);
    if piece == [] {
      assert DigitMarkerAt(s, 0, 0x31);
    } else {
      assert !MarkerAt(piece, 0);
      assert |piece| < 6 ==> s[|piece|] == 0x1b;
      assert s[1..] == piece[1..] + (END + rest);
      StretchIsClean(piece, 1, |piece|);
      assert piece[1..] == piece[1..|piece|];
      EndIsFound(piece[1..], rest);
    }
  }

  /** The chunks of one piece followed by those of the others. */
  lemma {:induction false} WrapFirst(p: Text, rest: seq<Text>)
    ensures WrapAll([p] + rest) == [Wrap(p)] + WrapAll(rest)
  {
    if rest == [] {
      assert [p] + rest == [p] && [p][..0] == [];
    } else {
      var n := |rest| - 1;
      WrapFirst(p, rest[..n]);
      assert ([p] + rest)[..n + 1] == [p] + rest[..n];
    }
  }

  lemma PasteParts(p: Text, rest: Text)
    ensures
      var s := Wrap(p) + rest;
      && DigitMarkerAt(s, 0, 0x30) && s[6..] == p + (END + rest) && s[6..6 + |p|] == p && s[6 + |p| + 6..] == rest
  {}

  lemma OnePasteIsRead(p: Text, rest: Text)
    requires Clean(p) && ReadPastes(rest).Pastes?
    ensures ReadPastes(Wrap(p) + rest) == Pastes([p] + ReadPastes(rest).pieces)
  {
    PasteParts(p, rest);
    EndIsFound(p, rest);
  }

  ghost predicate AllClean(pieces: seq<Text>) { forall k :: 0 <= k < |pieces| ==> Clean(pieces[k]) }

  lemma {:induction false} PiecesAreRead(pieces: seq<Text>)
    requires AllClean(pieces)
    ensures ReadPastes(Join(WrapAll(pieces))) == Pastes(pieces)
    decreases |pieces|
  {
    if pieces != [] {
      var p, rest := pieces[0], pieces[1..];
      PiecesAreRead(rest);
      assert pieces == [p] + rest;
      WrapFirst(p, rest);
      OnePasteIsRead(p, Join(WrapAll(rest)));
    }
  }

  /** Any stretch of clean text is clean. */
  lemma StretchIsClean(s: Text, a: nat, b: nat)
    requires a <= b <= |s| && Clean(s)
    ensures Clean(s[a..b])
  {
    forall i: nat
      ensures !MarkerAt(s[a..b], i)
    {
      assert !MarkerAt(s, a + i);
    }
  }

  lemma {:induction false} PiecesAreClean(s: Text, start: nat, cap: nat)
    requires start <= |s| && cap >= 2 && Clean(s)
    ensures AllClean(PiecesFrom(s, start, cap))
    decreases |s| - start
  {
    if |s| - start > cap {
      CutAdvancesExactly(s, start, cap);
      var cut := NextCut(s, start, cap);
      StretchIsClean(s, start, cut);
      PiecesAreClean(s, cut, cap);
    } else {
      StretchIsClean(s, start, |s|);
      assert s[start..] == s[start..|s|];
    }
  }

  /**
   * What the terminal reads from the typed chunks, joined, is the text without paste markers, and it
   * reads it as non-empty pastes of at most `cap` units.
   */
  lemma TerminalReadsText(txt: Text, cap: nat)
    requires cap >= 2
    ensures
      match ReadPastes(Join(WrapAll(PiecesFrom(Normal(txt), 0, cap))))
      case NotPastes => false
      case Pastes(pieces) => Join(pieces) == Normal(txt) && Sized(pieces, cap)
  {
    var body := Normal(txt);
    NormalIsClean([], txt);
    PiecesAreClean(body, 0, cap);
    PiecesAreRead(PiecesFrom(body, 0, cap));
    PiecesCover(body, 0, cap);
    assert body[0..] == body;
  }
}
