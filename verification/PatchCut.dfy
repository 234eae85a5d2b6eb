/** What is kept of a patch that was read only in part: its text up to the last header that ends a whole hunk. */
module PatchCut {
  import opened Texts

  const FILE_MARK := "diff --git "
  const HUNK_MARK := "@@ "

  // ---- Boundaries of a text ----

  predicate LineStart(s: string, p: nat) { p == 0 || (p <= |s| && s[p - 1] == '\n') }

  predicate MarkAt(s: string, p: nat, mark: string) {
    LineStart(s, p) && p + |mark| <= |s| && s[p..p + |mark|] == mark
  }

  predicate FileAt(s: string, p: nat) { MarkAt(s, p, FILE_MARK) }

  predicate HunkAt(s: string, p: nat) { MarkAt(s, p, HUNK_MARK) }

  /** Some hunk of the file that `p` lies in started before `p`. */
  ghost predicate InHunks(s: string, p: nat) {
    exists h: nat :: h < p && HunkAt(s, h) && forall f: nat :: h < f < p ==> !FileAt(s, f)
  }

  /** A place to stop reading cleanly: a header that follows a whole hunk of the file before it. */
  ghost predicate Boundary(s: string, p: nat) {
    0 < p && (HunkAt(s, p) || FileAt(s, p)) && InHunks(s, p)
  }

  /** `kept` is `cut` up to its last boundary, or nothing when it has none. */
  ghost predicate KeptUpToLast(cut: string, kept: string) {
    && kept <= cut
    && (kept == "" || Boundary(cut, |kept|))
    && (forall q: nat :: |kept| < q ==> !Boundary(cut, q))
  }

  lemma MarkOnLine(s: string, at: nat, end: nat, mark: string)
    requires LineStart(s, at) && at <= end <= |s| && (end < |s| ==> s[end] == '\n')
    requires '\n' !in mark
    ensures StartsWith(s[at..end], mark) <==> MarkAt(s, at, mark)
  {
    if MarkAt(s, at, mark) {
      forall k | at <= k < at + |mark|
        ensures s[k] != '\n'
      {
        assert s[k] == s[at..at + |mark|][k - at];
      }
      assert s[at..end][..|mark|] == s[at..at + |mark|];
    }
    if StartsWith(s[at..end], mark) {
      assert s[at..at + |mark|] == s[at..end][..|mark|];
    }
  }

  lemma NoMarkInsideLine(s: string, at: nat, end: nat, p: nat, mark: string)
    requires at <= end <= |s| && forall k :: at <= k < end ==> s[k] != '\n'
    requires at < p <= end
    ensures !MarkAt(s, p, mark)
  {}

  lemma NotBothMarks(s: string, p: nat)
    ensures !(FileAt(s, p) && HunkAt(s, p))
  {
    if FileAt(s, p) { assert s[p] == FILE_MARK[0]; }
    if HunkAt(s, p) { assert s[p] == HUNK_MARK[0]; }
  }

  /** One line of the loop: what its first characters say about boundaries up to the next line. */
  lemma LineStep(s: string, at: nat, end: nat)
    requires LineStart(s, at) && at <= end <= |s| && (end < |s| ==> s[end] == '\n')
    requires forall k :: at <= k < end ==> s[k] != '\n'
    ensures StartsWith(s[at..end], FILE_MARK) <==> FileAt(s, at)
    ensures StartsWith(s[at..end], HUNK_MARK) <==> HunkAt(s, at)
    ensures !(FileAt(s, at) && HunkAt(s, at))
    ensures InHunks(s, end + 1) <==> HunkAt(s, at) || (InHunks(s, at) && !FileAt(s, at))
    ensures forall q: nat :: at < q <= end ==> !Boundary(s, q)
  {
    MarkOnLine(s, at, end, FILE_MARK);
    MarkOnLine(s, at, end, HUNK_MARK);
    NotBothMarks(s, at);
    forall p: nat | at < p <= end
      ensures !FileAt(s, p) && !HunkAt(s, p)
    {
      NoMarkInsideLine(s, at, end, p, FILE_MARK);
      NoMarkInsideLine(s, at, end, p, HUNK_MARK);
    }
  }

  /** The last boundary before `at`, or the start when there is none. */
  ghost predicate KeepsTo(cut: string, at: nat, keep: nat) {
    && keep <= |cut| && (keep == 0 || Boundary(cut, keep))
    && forall q: nat :: keep < q < at ==> !Boundary(cut, q)
  }

  lemma KeepNext(cut: string, at: nat, end: nat, keep: nat, next: nat)
    requires KeepsTo(cut, at, keep) && keep <= at <= end <= |cut|
    requires forall q: nat :: at < q <= end ==> !Boundary(cut, q)
    requires next == if Boundary(cut, at) then at else keep
    ensures KeepsTo(cut, end + 1, next) && next <= end
  {}

  /** What the line at `at` says, in the loop's terms. */
  lemma LineSays(cut: string, at: nat, end: nat, inHunks: bool)
    requires at <= |cut| && LineStart(cut, at) && end == NewlineFrom(cut, at) && (inHunks <==> InHunks(cut, at))
    ensures
      var file, hunk := StartsWith(cut[at..end], FILE_MARK), StartsWith(cut[at..end], HUNK_MARK);
      && !(file && hunk)
      && (Boundary(cut, at) <==> at > 0 && inHunks && (file || hunk))
      && (InHunks(cut, end + 1) <==> hunk || (inHunks && !file))
    ensures forall q: nat :: at < q <= end ==> !Boundary(cut, q)
    ensures end < |cut| ==> LineStart(cut, end + 1)
  {
    LineStep(cut, at, end);
  }

  lemma NothingBehind(cut: string, keep: nat)
    requires KeepsTo(cut, |cut| + 1, keep)
    ensures KeptUpToLast(cut, cut[..keep])
  {
    assert forall q: nat :: |cut| < q ==> !FileAt(cut, q) && !HunkAt(cut, q);
  }

  method KeepWholeHunks(cut: string) returns (kept: string)
    ensures KeptUpToLast(cut, kept)
  {
    var hunksInFile, keep, at := 0, 0, 0;  // `keep` 0: no boundary yet (the original keeps -1)
    while at <= |cut|
      invariant at <= |cut| + 1 && (at <= |cut| ==> LineStart(cut, at))
      invariant 0 <= hunksInFile && (hunksInFile > 0 <==> InHunks(cut, at))
      invariant 0 <= keep <= at && KeepsTo(cut, at, keep)
      decreases |cut| + 1 - at
    {
      var end := NewlineFrom(cut, at);
      var line := cut[at..end];
      LineSays(cut, at, end, hunksInFile > 0);
      ghost var before := keep;
      if at > 0 && StartsWith(line, FILE_MARK) && hunksInFile > 0 {
        keep := at;
        hunksInFile := 0;
      } else if at > 0 && StartsWith(line, HUNK_MARK) && hunksInFile > 0 {
        keep := at;
      }
      KeepNext(cut, at, end, before, keep);
      if StartsWith(line, FILE_MARK) {
        hunksInFile := 0;
      }
      if StartsWith(line, HUNK_MARK) {
        hunksInFile := hunksInFile + 1;
      }
      at := at + |line| + 1;
    }
    kept := cut[..keep];
    NothingBehind(cut, keep);
  }

  lemma KeptIsUnique(cut: string, a: string, b: string)
    requires KeptUpToLast(cut, a) && KeptUpToLast(cut, b)
    ensures a == b
  {
    assert |a| == |b|;
    assert a == cut[..|a|] && b == cut[..|b|];
  }

  // ---- A prefix sees exactly the boundaries whose header it holds ----

  ghost function MarkLength(s: string, p: nat): nat { if FileAt(s, p) then |FILE_MARK| else |HUNK_MARK| }

  lemma MarkInPrefix(s: string, n: nat, p: nat, mark: string)
    requires n <= |s|
    ensures MarkAt(s[..n], p, mark) <==> MarkAt(s, p, mark) && p + |mark| <= n
  {
    if p + |mark| <= n {
      assert s[..n][p..p + |mark|] == s[p..p + |mark|];
    }
  }

  /** A mark that starts before the start of a later line ends before it. */
  lemma MarkEndsBeforeNextLine(s: string, h: nat, p: nat, mark: string)
    requires MarkAt(s, h, mark) && '\n' !in mark && h < p && LineStart(s, p)
    ensures h + |mark| < p
  {
    forall k | h <= k < h + |mark|
      ensures s[k] != '\n'
    {
      assert s[k] == s[h..h + |mark|][k - h];
    }
  }

  lemma InHunksInPrefix(s: string, n: nat, p: nat)
    requires p <= n <= |s| && LineStart(s, p)
    ensures InHunks(s[..n], p) <==> InHunks(s, p)
  {
    forall k: nat | k < p
      ensures HunkAt(s[..n], k) <==> HunkAt(s, k)
      ensures FileAt(s[..n], k) <==> FileAt(s, k)
    {
      MarkInPrefix(s, n, k, HUNK_MARK);
      MarkInPrefix(s, n, k, FILE_MARK);
      if HunkAt(s, k) { MarkEndsBeforeNextLine(s, k, p, HUNK_MARK); }
      if FileAt(s, k) { MarkEndsBeforeNextLine(s, k, p, FILE_MARK); }
    }
    if InHunks(s, p) {
      var h: nat :| h < p && HunkAt(s, h) && forall f: nat :: h < f < p ==> !FileAt(s, f);
      assert HunkAt(s[..n], h) && forall f: nat :: h < f < p ==> !FileAt(s[..n], f);
    }
    if InHunks(s[..n], p) {
      var h: nat :| h < p && HunkAt(s[..n], h) && forall f: nat :: h < f < p ==> !FileAt(s[..n], f);
      assert HunkAt(s, h) && forall f: nat :: h < f < p ==> !FileAt(s, f);
    }
  }

  lemma BoundaryInPrefix(s: string, n: nat, p: nat)
    requires n <= |s|
    ensures Boundary(s[..n], p) <==> Boundary(s, p) && p + MarkLength(s, p) <= n
  {
    MarkInPrefix(s, n, p, HUNK_MARK);
    MarkInPrefix(s, n, p, FILE_MARK);
    NotBothMarks(s, p);
    if p <= n && LineStart(s, p) { InHunksInPrefix(s, n, p); }
  }

  /**
   * Whatever the patch and wherever it was stopped: what is kept ends at a boundary of the whole
   * patch, and no later boundary's header fits in what was read.
   */
  lemma KeepsToLastVisibleBoundary(patch: string, n: nat, kept: string)
    requires n <= |patch| && KeptUpToLast(patch[..n], kept)
    ensures kept <= patch && (kept == "" || Boundary(patch, |kept|))
    ensures forall q: nat :: |kept| < q && Boundary(patch, q) ==> n < q + MarkLength(patch, q)
  {
    BoundaryInPrefix(patch, n, |kept|);
    forall q: nat | |kept| < q && Boundary(patch, q)
      ensures n < q + MarkLength(patch, q)
    {
      BoundaryInPrefix(patch, n, q);
    }
  }

  /** A larger cap only extends what is kept. */
  lemma LargerCapExtends(patch: string, n: nat, m: nat, kept: string, more: string)
    requires n <= m <= |patch| && KeptUpToLast(patch[..n], kept) && KeptUpToLast(patch[..m], more)
    ensures kept <= more
  {
    KeepsToLastVisibleBoundary(patch, n, kept);
    KeepsToLastVisibleBoundary(patch, m, more);
    BoundaryInPrefix(patch, n, |kept|);
    assert |kept| <= |more|;
    assert kept == patch[..|kept|] && more == patch[..|more|];
  }

  // ---- What a boundary is in a patch git writes ----

  datatype Hunk = Hunk(head: string, body: seq<string>)

  /** One file of a patch: its header, the lines up to the first hunk, and the hunks. */
  datatype FilePatch = FilePatch(head: string, meta: seq<string>, hunks: seq<Hunk>)

  predicate Plain(line: string) {
    '\n' !in line && !StartsWith(line, FILE_MARK) && !StartsWith(line, HUNK_MARK)
  }

  predicate BodyLine(line: string) { line != "" && line[0] in " +-\\" && '\n' !in line }

  predicate WellFormedHunk(h: Hunk) {
    '\n' !in h.head && forall i :: 0 <= i < |h.body| ==> BodyLine(h.body[i])
  }

  predicate WellFormedFile(f: FilePatch) {
    && '\n' !in f.head && (forall i :: 0 <= i < |f.meta| ==> Plain(f.meta[i]))
    && (forall i :: 0 <= i < |f.hunks| ==> WellFormedHunk(f.hunks[i]))
  }

  predicate WellFormed(files: seq<FilePatch>) { forall i :: 0 <= i < |files| ==> WellFormedFile(files[i]) }

  function HunkLines(h: Hunk): seq<string> { ["@@ " + h.head] + h.body }

  function AllHunkLines(hunks: seq<Hunk>): seq<string> {
    if hunks == [] then [] else AllHunkLines(hunks[..|hunks| - 1]) + HunkLines(hunks[|hunks| - 1])
  }

  function FileLines(f: FilePatch): seq<string> { ["diff --git " + f.head] + f.meta + AllHunkLines(f.hunks) }

  function Lines(files: seq<FilePatch>): seq<string> {
    if files == [] then [] else Lines(files[..|files| - 1]) + FileLines(files[|files| - 1])
  }

  /** Every line with its newline. */
  function Text(lines: seq<string>): string {
    if lines == [] then "" else Text(lines[..|lines| - 1]) + lines[|lines| - 1] + "\n"
  }

  /** The patch with its first `i` files whole and the first `j` hunks of the next. */
  function Whole(files: seq<FilePatch>, i: nat, j: nat): seq<FilePatch>
    requires i < |files| && j <= |files[i].hunks|
  {
    files[..i] + [files[i].(hunks := files[i].hunks[..j])]
  }

  /** The same boundary, told by line numbers. */
  ghost predicate LineBoundary(lines: seq<string>, k: nat) {
    && 0 < k < |lines|
    && (StartsWith(lines[k], HUNK_MARK) || StartsWith(lines[k], FILE_MARK))
    && exists h: nat :: h < k && StartsWith(lines[h], HUNK_MARK) &&
         forall f: nat :: h < f < k ==> !StartsWith(lines[f], FILE_MARK)
  }

  lemma {:induction false} TextAppend(a: seq<string>, b: seq<string>)
    ensures Text(a + b) == Text(a) + Text(b)
  {
    if b == [] {
      assert a + b == a;
    } else {
      assert (a + b)[..|a + b| - 1] == a + b[..|b| - 1];
      TextAppend(a, b[..|b| - 1]);
    }
  }

  /** Lines start exactly where `Text` puts them, and nowhere else. */
  lemma {:induction false} LineStartsOfText(lines: seq<string>, p: nat) returns (k: nat)
    requires forall i :: 0 <= i < |lines| ==> '\n' !in lines[i]
    requires LineStart(Text(lines), p)
    ensures k <= |lines| && p == |Text(lines[..k])|
    ensures p <= |Text(lines)|
  {
    var n := |lines| - 1;
    if lines == [] || p == 0 {
      k := 0;
      assert lines[..0] == [];
    } else if p == |Text(lines)| {
      k := |lines|;
      assert lines[..k] == lines;
    } else {
      var front := Text(lines[..n]);
      forall q | |front| <= q < |front| + |lines[n]|
        ensures Text(lines)[q] != '\n'
      {
        assert Text(lines)[q] == lines[n][q - |front|] && lines[n][q - |front|] in lines[n];
      }
      assert p > 0 ==> front[p - 1] == Text(lines)[p - 1];
      k := LineStartsOfText(lines[..n], p);
      assert lines[..n][..k] == lines[..k];
    }
  }

  lemma MarkOfText(lines: seq<string>, k: nat, mark: string)
    requires forall i :: 0 <= i < |lines| ==> '\n' !in lines[i]
    requires k < |lines| && '\n' !in mark
    ensures |Text(lines[..k])| < |Text(lines)|
    ensures MarkAt(Text(lines), |Text(lines[..k])|, mark) <==> StartsWith(lines[k], mark)
  {
    var p, s := |Text(lines[..k])|, Text(lines);
    assert lines == lines[..k] + [lines[k]] + lines[k + 1..];
    TextAppend(lines[..k] + [lines[k]], lines[k + 1..]);
    TextAppend(lines[..k], [lines[k]]);
    assert Text([lines[k]]) == lines[k] + "\n";
    var end := p + |lines[k]|;
    assert s[p..end] == lines[k] && s[end] == '\n';
    if k > 0 {
      assert Text(lines[..k])[p - 1] == '\n';
      assert s[p - 1] == '\n';
    }
    MarkOnLine(s, p, end, mark);
  }

  lemma {:induction false} TextGrows(lines: seq<string>, a: nat, b: nat)
    requires a < b <= |lines|
    ensures |Text(lines[..a])| < |Text(lines[..b])|
  {
    assert lines[..b][..b - 1] == lines[..b - 1];
    if a < b - 1 { TextGrows(lines, a, b - 1); }
  }

  lemma MarksOfText(lines: seq<string>, k: nat)
    requires forall i :: 0 <= i < |lines| ==> '\n' !in lines[i]
    requires k < |lines|
    ensures FileAt(Text(lines), |Text(lines[..k])|) <==> StartsWith(lines[k], FILE_MARK)
    ensures HunkAt(Text(lines), |Text(lines[..k])|) <==> StartsWith(lines[k], HUNK_MARK)
  {
    MarkOfText(lines, k, FILE_MARK);
    MarkOfText(lines, k, HUNK_MARK);
  }

  lemma {:induction false} TextMonotone(lines: seq<string>, a: nat, b: nat)
    requires a <= |lines| && b <= |lines|
    ensures a < b <==> |Text(lines[..a])| < |Text(lines[..b])|
    ensures a == b <==> |Text(lines[..a])| == |Text(lines[..b])|
  {
    if a < b { TextGrows(lines, a, b); }
    if b < a { TextGrows(lines, b, a); }
  }

  lemma LineBoundaryIsBoundary(lines: seq<string>, k: nat)
    requires forall i :: 0 <= i < |lines| ==> '\n' !in lines[i]
    requires LineBoundary(lines, k)
    ensures Boundary(Text(lines), |Text(lines[..k])|)
  {
    var p, s := |Text(lines[..k])|, Text(lines);
    MarksOfText(lines, k);
    TextMonotone(lines, 0, k);
    var h: nat :| h < k && StartsWith(lines[h], HUNK_MARK) &&
      forall f: nat :: h < f < k ==> !StartsWith(lines[f], FILE_MARK);
    MarksOfText(lines, h);
    TextMonotone(lines, h, k);
    forall q: nat | |Text(lines[..h])| < q < p && FileAt(s, q)
      ensures false
    {
      var f := LineStartsOfText(lines, q);
      TextMonotone(lines, h, f);
      TextMonotone(lines, f, k);
      MarksOfText(lines, f);
    }
  }

  lemma BoundaryIsLineBoundary(lines: seq<string>, p: nat) returns (k: nat)
    requires forall i :: 0 <= i < |lines| ==> '\n' !in lines[i]
    requires Boundary(Text(lines), p)
    ensures LineBoundary(lines, k) && p == |Text(lines[..k])|
  {
    var s := Text(lines);
    k := LineStartsOfText(lines, p);
    assert lines[..|lines|] == lines;
    TextMonotone(lines, 0, k);
    TextMonotone(lines, k, |lines|);
    MarksOfText(lines, k);
    var q: nat :| q < p && HunkAt(s, q) && forall f: nat :: q < f < p ==> !FileAt(s, f);
    var h := LineStartsOfText(lines, q);
    TextMonotone(lines, h, k);
    MarksOfText(lines, h);
    forall f: nat | h < f < k
      ensures !StartsWith(lines[f], FILE_MARK)
    {
      MarksOfText(lines, f);
      TextMonotone(lines, h, f);
      TextMonotone(lines, f, k);
    }
  }

  // ---- From lines to hunks and files ----

  lemma OtherFirstChar(line: string, mark: string)
    requires line != "" && mark != "" && line[0] != mark[0]
    ensures !StartsWith(line, mark)
  {}

  lemma BodyLineIsPlain(line: string)
    requires BodyLine(line)
    ensures Plain(line)
  {
    OtherFirstChar(line, FILE_MARK);
    OtherFirstChar(line, HUNK_MARK);
  }

  lemma HeadLines(head: string)
    ensures StartsWith(FILE_MARK + head, FILE_MARK) && !StartsWith(FILE_MARK + head, HUNK_MARK)
    ensures StartsWith(HUNK_MARK + head, HUNK_MARK) && !StartsWith(HUNK_MARK + head, FILE_MARK)
    ensures '\n' !in head ==> '\n' !in FILE_MARK + head && '\n' !in HUNK_MARK + head
  {
    assert (FILE_MARK + head)[0] == 'd' && (HUNK_MARK + head)[0] == '@';
  }

  /** Of the lines of some hunks, the headers are exactly those that start with the hunk mark. */
  lemma {:induction false} HunkHeads(hunks: seq<Hunk>, q: nat) returns (j: nat)
    requires forall i :: 0 <= i < |hunks| ==> WellFormedHunk(hunks[i])
    requires q < |AllHunkLines(hunks)|
    ensures '\n' !in AllHunkLines(hunks)[q] && !StartsWith(AllHunkLines(hunks)[q], FILE_MARK)
    ensures StartsWith(AllHunkLines(hunks)[q], HUNK_MARK) ==>
              j < |hunks| && q == |AllHunkLines(hunks[..j])| && AllHunkLines(hunks)[..q] == AllHunkLines(hunks[..j])
  {
    var n := |hunks| - 1;
    var front := AllHunkLines(hunks[..n]);
    if q < |front| {
      j := HunkHeads(hunks[..n], q);
      assert AllHunkLines(hunks)[..q] == front[..q];
      if j < n { assert hunks[..n][..j] == hunks[..j]; }
    } else if q == |front| {
      HeadLines(hunks[n].head);
      j := n;
      assert AllHunkLines(hunks)[..q] == front;
    } else {
      assert WellFormedHunk(hunks[n]) && AllHunkLines(hunks)[q] == hunks[n].body[q - |front| - 1];
      BodyLineIsPlain(hunks[n].body[q - |front| - 1]);
      j := 0;
    }
  }

  /** Of the lines of one file, only the first starts with the file mark. */
  lemma FileLineKinds(f: FilePatch, q: nat) returns (j: nat)
    requires WellFormedFile(f) && q < |FileLines(f)|
    ensures '\n' !in FileLines(f)[q] && (StartsWith(FileLines(f)[q], FILE_MARK) <==> q == 0)
    ensures StartsWith(FileLines(f)[q], HUNK_MARK) ==>
              j < |f.hunks| && q == |FileLines(f.(hunks := f.hunks[..j]))| &&
              FileLines(f)[..q] == FileLines(f.(hunks := f.hunks[..j]))
  {
    HeadLines(f.head);
    j := 0;
    var top := [FILE_MARK + f.head] + f.meta;
    if q < |top| {
      if q > 0 { assert FileLines(f)[q] == f.meta[q - 1]; }
    } else {
      assert FileLines(f)[q] == AllHunkLines(f.hunks)[q - |top|];
      j := HunkHeads(f.hunks, q - |top|);
      assert FileLines(f)[..q] == top + AllHunkLines(f.hunks)[..q - |top|];
    }
  }

  lemma {:induction false} NoNewlines(files: seq<FilePatch>)
    requires WellFormed(files)
    ensures forall k :: 0 <= k < |Lines(files)| ==> '\n' !in Lines(files)[k]
  {
    if files != [] {
      var n := |files| - 1;
      NoNewlines(files[..n]);
      forall q | 0 <= q < |FileLines(files[n])|
        ensures '\n' !in FileLines(files[n])[q]
      {
        var _ := FileLineKinds(files[n], q);
      }
    }
  }

  lemma {:induction false} LinesPrefix(files: seq<FilePatch>, i: nat)
    requires i <= |files|
    ensures Lines(files[..i]) <= Lines(files)
    ensures i < |files| ==> Lines(files[..i]) + FileLines(files[i]) <= Lines(files)
  {
    if i < |files| {
      var n := |files| - 1;
      if i < n {
        LinesPrefix(files[..n], i);
        assert files[..n][..i] == files[..i];
      }
    } else {
      assert files[..i] == files;
    }
  }

  lemma WholeLines(files: seq<FilePatch>, i: nat, j: nat)
    requires i < |files| && j <= |files[i].hunks|
    ensures Lines(Whole(files, i, j)) == Lines(files[..i]) + FileLines(files[i].(hunks := files[i].hunks[..j]))
  {
    var w := Whole(files, i, j);
    assert w[..|w| - 1] == files[..i];
  }

  /** A file without hunks leaves no hunk open behind it. */
  lemma NoHunkNoBoundary(files: seq<FilePatch>, n: nat)
    requires WellFormed(files) && n + 1 < |files| && files[n].hunks == []
    ensures !LineBoundary(Lines(files), |Lines(files[..n + 1])|)
  {
    var lines, k, m := Lines(files), |Lines(files[..n + 1])|, |Lines(files[..n])|;
    LinesPrefix(files, n);
    LinesPrefix(files, n + 1);
    assert files[..n + 1][..n] == files[..n];
    forall q | m <= q < k
      ensures StartsWith(lines[q], FILE_MARK) <==> q == m
      ensures !StartsWith(lines[q], HUNK_MARK)
    {
      assert lines[q] == FileLines(files[n])[q - m];
      HeadLines(files[n].head);
      var _ := FileLineKinds(files[n], q - m);
    }
    assert StartsWith(lines[m], FILE_MARK);
  }

  lemma LineBoundaryOfPrefix(lines: seq<string>, front: seq<string>, k: nat)
    requires front <= lines && k < |front|
    ensures LineBoundary(lines, k) <==> LineBoundary(front, k)
  {
    assert forall q :: 0 <= q <= k ==> lines[q] == front[q];
    if LineBoundary(lines, k) {
      var h: nat :| h < k && StartsWith(lines[h], HUNK_MARK) &&
        forall f: nat :: h < f < k ==> !StartsWith(lines[f], FILE_MARK);
      assert StartsWith(front[h], HUNK_MARK);
    }
    if LineBoundary(front, k) {
      var h: nat :| h < k && StartsWith(front[h], HUNK_MARK) &&
        forall f: nat :: h < f < k ==> !StartsWith(front[f], FILE_MARK);
      assert StartsWith(lines[h], HUNK_MARK);
    }
  }

  /** Every boundary of a well-formed patch comes right after a whole hunk. */
  lemma {:induction false} BoundaryIsWhole(files: seq<FilePatch>, k: nat) returns (i: nat, j: nat)
    requires WellFormed(files) && LineBoundary(Lines(files), k)
    ensures i < |files| && 0 < j <= |files[i].hunks| && Lines(files)[..k] == Lines(Whole(files, i, j))
  {
    var n, lines := |files| - 1, Lines(files);
    var front := files[..n];
    var m := |Lines(front)|;
    if k < m {
      LineBoundaryOfPrefix(lines, Lines(front), k);
      i, j := BoundaryIsWhole(front, k);
      assert Whole(front, i, j) == Whole(files, i, j);
      assert lines[..k] == Lines(front)[..k];
    } else if k == m {
      i, j := FileBoundaryIsWhole(files, k);
    } else {
      i := n;
      j := HunkBoundaryIsWhole(files, k);
    }
  }

  lemma FileBoundaryIsWhole(files: seq<FilePatch>, k: nat) returns (i: nat, j: nat)
    requires WellFormed(files) && files != [] && LineBoundary(Lines(files), k)
    requires k == |Lines(files[..|files| - 1])|
    ensures i < |files| && 0 < j <= |files[i].hunks| && Lines(files)[..k] == Lines(Whole(files, i, j))
  {
    var n, front := |files| - 1, files[..|files| - 1];
    i := n - 1;
    assert files[..i + 1] == front;
    if files[i].hunks == [] { NoHunkNoBoundary(files, i); }
    j := |files[i].hunks|;
    assert files[i].hunks[..j] == files[i].hunks;
    assert Whole(files, i, j) == front;
  }

  lemma HunkBoundaryIsWhole(files: seq<FilePatch>, k: nat) returns (j: nat)
    requires WellFormed(files) && files != [] && LineBoundary(Lines(files), k)
    requires k > |Lines(files[..|files| - 1])|
    ensures 0 < j <= |files[|files| - 1].hunks| && Lines(files)[..k] == Lines(Whole(files, |files| - 1, j))
  {
    var n, front := |files| - 1, files[..|files| - 1];
    var m := |Lines(front)|;
    j := FileLineKinds(files[n], k - m);
    assert Lines(files)[k] == FileLines(files[n])[k - m];
    WholeLines(files, n, j);
    assert Lines(files)[..k] == Lines(front) + FileLines(files[n])[..k - m];
    if j == 0 { FirstHunkNoBoundary(files, k); }
  }

  /** The first hunk header of a file is no boundary: no hunk of that file came before it. */
  lemma FirstHunkNoBoundary(files: seq<FilePatch>, k: nat)
    requires WellFormed(files) && files != []
    requires k == |Lines(files[..|files| - 1])| + 1 + |files[|files| - 1].meta|
    ensures !LineBoundary(Lines(files), k)
  {
    var n, lines := |files| - 1, Lines(files);
    var m := |Lines(files[..n])|;
    forall q | m <= q < k
      ensures StartsWith(lines[q], FILE_MARK) <==> q == m
      ensures !StartsWith(lines[q], HUNK_MARK)
    {
      assert lines[q] == FileLines(files[n])[q - m];
      HeadLines(files[n].head);
      var _ := FileLineKinds(files[n], q - m);
    }
    assert StartsWith(lines[m], FILE_MARK);
  }

  predicate Followed(files: seq<FilePatch>, i: nat, j: nat) {
    i < |files| && 0 < j <= |files[i].hunks| && (j < |files[i].hunks| || i + 1 < |files|)
  }

  /** The lines of a file up to the end of its hunk `j` end in that hunk. */
  lemma CutEndsInHunk(f: FilePatch, j: nat) returns (h: nat)
    requires WellFormedFile(f) && 0 < j <= |f.hunks|
    ensures FileLines(f.(hunks := f.hunks[..j])) <= FileLines(f)
    ensures h < |FileLines(f.(hunks := f.hunks[..j]))| && StartsWith(FileLines(f)[h], HUNK_MARK)
    ensures forall q: nat :: h < q < |FileLines(f)| ==> !StartsWith(FileLines(f)[q], FILE_MARK)
  {
    var top := [FILE_MARK + f.head] + f.meta;
    HunkLinesSplit(f.hunks, j - 1);
    HunkLinesSplit(f.hunks, j);
    h := |top| + |AllHunkLines(f.hunks[..j - 1])|;
    assert FileLines(f)[h] == HUNK_MARK + f.hunks[j - 1].head;
    HeadLines(f.hunks[j - 1].head);
    forall q: nat | h < q < |FileLines(f)|
      ensures !StartsWith(FileLines(f)[q], FILE_MARK)
    {
      var _ := FileLineKinds(f, q);
    }
  }

  /** The same for the file's lines standing behind others. */
  lemma EndsInHunkBehind(lines: seq<string>, front: seq<string>, whole: seq<string>, cut: seq<string>, h: nat)
    requires front + whole <= lines && cut <= whole && h < |cut| && StartsWith(whole[h], HUNK_MARK)
    requires forall q: nat :: h < q < |whole| ==> !StartsWith(whole[q], FILE_MARK)
    ensures front + cut <= lines && StartsWith(lines[|front| + h], HUNK_MARK)
    ensures forall q: nat :: |front| + h < q < |front| + |cut| ==> !StartsWith(lines[q], FILE_MARK)
  {
    forall q: nat | |front| <= q < |front| + |whole|
      ensures lines[q] == whole[q - |front|]
    {
      assert (front + whole)[q] == lines[q];
    }
  }

  /** The lines up to the end of hunk `j` of file `i`: a prefix of all lines, ending in that hunk. */
  lemma WholeEndsInHunk(files: seq<FilePatch>, i: nat, j: nat) returns (h: nat)
    requires WellFormed(files) && i < |files| && 0 < j <= |files[i].hunks|
    ensures Lines(Whole(files, i, j)) <= Lines(files)
    ensures h < |Lines(Whole(files, i, j))| && StartsWith(Lines(files)[h], HUNK_MARK)
    ensures forall q: nat :: h < q < |Lines(Whole(files, i, j))| ==> !StartsWith(Lines(files)[q], FILE_MARK)
  {
    var f, front := files[i], Lines(files[..i]);
    WholeLines(files, i, j);
    LinesPrefix(files, i);
    var local := CutEndsInHunk(f, j);
    EndsInHunkBehind(Lines(files), front, FileLines(f), FileLines(f.(hunks := f.hunks[..j])), local);
    h := |front| + local;
  }

  /** Right behind it comes the next hunk of the file, or the next file. */
  lemma HeaderFollowsWhole(files: seq<FilePatch>, i: nat, j: nat)
    requires WellFormed(files) && Followed(files, i, j)
    ensures |Lines(Whole(files, i, j))| < |Lines(files)|
    ensures StartsWith(Lines(files)[|Lines(Whole(files, i, j))|], if j < |files[i].hunks| then HUNK_MARK else FILE_MARK)
  {
    var f, lines := files[i], Lines(files);
    var m, k := |Lines(files[..i])|, |Lines(Whole(files, i, j))|;
    WholeLines(files, i, j);
    LinesPrefix(files, i);
    if j < |f.hunks| {
      HunkLinesSplit(f.hunks, j);
      var top := [FILE_MARK + f.head] + f.meta;
      assert FileLines(f)[|top| + |AllHunkLines(f.hunks[..j])|] == HUNK_MARK + f.hunks[j].head;
      assert lines[k] == FileLines(f)[k - m];
      HeadLines(f.hunks[j].head);
    } else {
      assert f.hunks[..j] == f.hunks;
      LinesPrefix(files, i + 1);
      assert files[..i + 1][..i] == files[..i];
      assert lines[k] == FileLines(files[i + 1])[0] == FILE_MARK + files[i + 1].head;
      HeadLines(files[i + 1].head);
    }
  }

  /** Every whole hunk that something follows is a boundary. */
  lemma WholeIsBoundary(files: seq<FilePatch>, i: nat, j: nat)
    requires WellFormed(files) && Followed(files, i, j)
    ensures LineBoundary(Lines(files), |Lines(Whole(files, i, j))|)
    ensures Lines(Whole(files, i, j)) <= Lines(files)
    ensures StartsWith(Lines(files)[|Lines(Whole(files, i, j))|], if j < |files[i].hunks| then HUNK_MARK else FILE_MARK)
  {
    var h := WholeEndsInHunk(files, i, j);
    HeaderFollowsWhole(files, i, j);
  }

  lemma {:induction false} HunkLinesSplit(hunks: seq<Hunk>, j: nat)
    requires j <= |hunks|
    ensures AllHunkLines(hunks[..j]) <= AllHunkLines(hunks)
    ensures j < |hunks| ==> AllHunkLines(hunks[..j]) + HunkLines(hunks[j]) <= AllHunkLines(hunks)
    ensures j < |hunks| ==> AllHunkLines(hunks[..j + 1]) == AllHunkLines(hunks[..j]) + HunkLines(hunks[j])
  {
    if j < |hunks| {
      var n := |hunks| - 1;
      assert hunks[..j + 1][..j] == hunks[..j];
      if j < n {
        HunkLinesSplit(hunks[..n], j);
        assert hunks[..n][..j] == hunks[..j];
      } else {
        assert hunks[..j + 1] == hunks;
      }
    } else {
      assert hunks[..j] == hunks;
    }
  }

  ghost function NextHeader(files: seq<FilePatch>, i: nat, j: nat): string
    requires i < |files|
  {
    if j < |files[i].hunks| then HUNK_MARK else FILE_MARK
  }

  /** Where whole hunk `j` of file `i` ends, the patch has a boundary marked by the next header. */
  lemma WholeIsTextBoundary(files: seq<FilePatch>, i: nat, j: nat)
    requires WellFormed(files) && Followed(files, i, j)
    ensures Boundary(Text(Lines(files)), |Text(Lines(Whole(files, i, j)))|)
    ensures MarkLength(Text(Lines(files)), |Text(Lines(Whole(files, i, j)))|) == |NextHeader(files, i, j)|
  {
    var lines := Lines(files);
    NoNewlines(files);
    WholeIsBoundary(files, i, j);
    var k := |Lines(Whole(files, i, j))|;
    assert lines[..k] == Lines(Whole(files, i, j));
    LineBoundaryIsBoundary(lines, k);
    MarksOfText(lines, k);
    NotBothMarks(Text(lines), |Text(lines[..k])|);
  }

  /**
   * A well-formed patch stopped after any number of characters keeps whole files and whole hunks
   * only.
   */
  lemma KeepsWholeHunksOnly(files: seq<FilePatch>, n: nat, kept: string) returns (i: nat, j: nat)
    requires WellFormed(files) && n <= |Text(Lines(files))|
    requires KeptUpToLast(Text(Lines(files))[..n], kept)
    ensures kept == "" || (Followed(files, i, j) && kept == Text(Lines(Whole(files, i, j))))
  {
    var lines := Lines(files);
    var patch := Text(lines);
    NoNewlines(files);
    KeepsToLastVisibleBoundary(patch, n, kept);
    i, j := 0, 0;
    if kept != "" {
      var k := BoundaryIsLineBoundary(lines, |kept|);
      i, j := BoundaryIsWhole(files, k);
      FrontOfText(lines, k, kept);
      WholeOfAll(files);
    }
  }

  lemma FrontOfText(lines: seq<string>, k: nat, kept: string)
    requires k <= |lines| && kept <= Text(lines) && |kept| == |Text(lines[..k])|
    ensures kept == Text(lines[..k])
  {
    assert lines == lines[..k] + lines[k..];
    TextAppend(lines[..k], lines[k..]);
  }

  lemma WholeOfAll(files: seq<FilePatch>)
    requires files != []
    ensures Whole(files, |files| - 1, |files[|files| - 1].hunks|) == files
  {
    var last := files[|files| - 1];
    assert last.hunks[..|last.hunks|] == last.hunks;
  }

  lemma KeptExactlyWhenMarkRead(patch: string, n: nat, kept: string, p: nat)
    requires n <= |patch| && KeptUpToLast(patch[..n], kept) && Boundary(patch, p)
    ensures p <= |kept| <==> p + MarkLength(patch, p) <= n
  {
    BoundaryInPrefix(patch, n, p);
    BoundaryInPrefix(patch, n, |kept|);
    KeepsToLastVisibleBoundary(patch, n, kept);
    if p < |kept| {
      if FileAt(patch, p) {
        MarkEndsBeforeNextLine(patch, p, |kept|, FILE_MARK);
      } else {
        MarkEndsBeforeNextLine(patch, p, |kept|, HUNK_MARK);
      }
    }
  }

  /**
   * It keeps as much as it can tell: the part up to a whole hunk is kept exactly when the header
   * behind that hunk was read in full. A whole hunk whose next header is cut short is dropped.
   */
  lemma KeptExactlyWhenHeaderRead(files: seq<FilePatch>, n: nat, kept: string, i: nat, j: nat)
    requires WellFormed(files) && n <= |Text(Lines(files))|
    requires KeptUpToLast(Text(Lines(files))[..n], kept) && Followed(files, i, j)
    ensures |Text(Lines(Whole(files, i, j)))| <= |kept| <==>
            |Text(Lines(Whole(files, i, j)))| + |NextHeader(files, i, j)| <= n
  {
    WholeIsTextBoundary(files, i, j);
    KeptExactlyWhenMarkRead(Text(Lines(files)), n, kept, |Text(Lines(Whole(files, i, j)))|);
  }

  lemma FirstHunkIsInFront(f: FilePatch)
    requires WellFormedFile(f) && |f.hunks| == 2
    ensures Followed([f], 0, 1)
    ensures
      var patch, whole := Text(Lines([f])), Text(Lines(Whole([f], 0, 1)));
      whole <= patch && |whole| + 1 <= |patch|
  {
    var lines, front := Lines([f]), Lines(Whole([f], 0, 1));
    WholeIsBoundary([f], 0, 1);
    HeaderFollowsWhole([f], 0, 1);
    assert lines == front + lines[|front|..];
    TextAppend(front, lines[|front|..]);
  }

  /**
   * Any patch of one file with two hunks, stopped one character behind the first one, is cut to nothing,
   * although that hunk was read whole and the reader could have stopped there.
   */
  lemma WholeHunkIsDropped(f: FilePatch, kept: string)
    requires WellFormedFile(f) && |f.hunks| == 2
    ensures
      var patch, whole := Text(Lines([f])), Text(Lines(Whole([f], 0, 1)));
      && whole <= patch && |whole| + 1 <= |patch|
      && (KeptUpToLast(patch[..|whole| + 1], kept) ==> kept == "")
  {
    FirstHunkIsInFront(f);
    if KeptUpToLast(Text(Lines([f]))[..|Text(Lines(Whole([f], 0, 1)))| + 1], kept) {
      NothingIsKept(f, |Text(Lines(Whole([f], 0, 1)))| + 1, kept);
    }
  }

  lemma NothingIsKept(f: FilePatch, n: nat, kept: string)
    requires WellFormedFile(f) && |f.hunks| == 2 && n == |Text(Lines(Whole([f], 0, 1)))| + 1 <= |Text(Lines([f]))|
    requires Followed([f], 0, 1) && KeptUpToLast(Text(Lines([f]))[..n], kept)
    ensures kept == ""
  {
    KeptExactlyWhenHeaderRead([f], n, kept, 0, 1);
    var i, j := KeepsWholeHunksOnly([f], n, kept);
  }

  /** Such a patch. */
  lemma TwoHunks() returns (f: FilePatch)
    ensures f == FilePatch("a", [], [Hunk("1", ["+x"]), Hunk("2", ["+y"])]) && WellFormedFile(f) && |f.hunks| == 2
  {
    f := FilePatch("a", [], [Hunk("1", ["+x"]), Hunk("2", ["+y"])]);
    assert BodyLine("+x") && BodyLine("+y");
  }
}
