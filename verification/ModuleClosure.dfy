/**
 * The static import closure of built chunks: a depth-first walk over a graph that may have cycles and
 * chunks missing on disk.
 */
module ModuleClosure {
  type File = string

  /** What is on disk: each file's import specifiers, and how the host resolves paths. */
  datatype World = World(disk: map<File, seq<string>>, resolve: string -> File, join: (File, string) -> string)

  predicate Relative(spec: string) { |spec| > 0 && spec[0] == '.' }

  /** The files imported by `file` among its first `n` specifiers; bare specifiers are not followed. */
  function Imports(w: World, file: File, n: nat): set<File>
    requires file in w.disk && n <= |w.disk[file]|
  {
    if n == 0 then {} else
    Imports(w, file, n - 1) +
    if Relative(w.disk[file][n - 1]) then {w.resolve(w.join(file, w.disk[file][n - 1]))} else {}
  }

  /** All files imported by `file`; a missing file imports nothing. */
  function Next(w: World, file: File): set<File> {
    if file in w.disk then Imports(w, file, |w.disk[file]|) else {}
  }

  ghost predicate Chain(w: World, p: seq<File>) {
    |p| > 0 && forall i {:trigger p[i]} :: 0 < i < |p| ==> p[i] in Next(w, p[i - 1])
  }

  ghost predicate Reachable(w: World, from: set<File>, file: File) {
    exists p :: Chain(w, p) && p[0] in from && p[|p| - 1] == file
  }

  ghost predicate NoDuplicates(out: seq<File>) { forall i, j :: 0 <= i < j < |out| ==> out[i] != out[j] }

  /** Every file is one of `from` or is imported by a file listed before it. */
  ghost predicate Discovered(w: World, out: seq<File>, from: set<File>) {
    forall j :: 0 <= j < |out| ==> out[j] in from || exists i :: 0 <= i < j && out[j] in Next(w, out[i])
  }

  ghost predicate Closed(w: World, files: set<File>, within: set<File>) {
    forall f :: f in files ==> Next(w, f) <= within
  }

  /** The files imported by `file` from specifier `n` on, in the order of the file. */
  function InOrder(w: World, file: File, n: nat): seq<File>
    requires file in w.disk && n <= |w.disk[file]|
    decreases |w.disk[file]| - n
  {
    if n == |w.disk[file]| then [] else
    (if Relative(w.disk[file][n]) then [w.resolve(w.join(file, w.disk[file][n]))] else []) + InOrder(w, file, n + 1)
  }

  /**
   * The depth-first preorder: the files to visit stand on a stack, and a file that is new is listed and
   * puts its own imports on top.
   */
  function Preorder(w: World, out: seq<File>, stack: seq<File>): seq<File>
    decreases Unlisted(w, out), |stack|
  {
    if stack == [] then out
    else if stack[0] in out then Preorder(w, out, stack[1..])
    else
      assert Unlisted(w, out + [stack[0]]) == Unlisted(w, out) - {stack[0]};
      Preorder(w, out + [stack[0]], (if stack[0] in w.disk then InOrder(w, stack[0], 0) else []) + stack[1..])
  }

  /** The files on disk that are not listed. */
  function Unlisted(w: World, out: seq<File>): set<File> { w.disk.Keys - set f | f in out }

  function Resolved(w: World, raws: seq<string>): seq<File> {
    if raws == [] then [] else [w.resolve(raws[0])] + Resolved(w, raws[1..])
  }

  ghost function Starts(w: World, raws: seq<string>): set<File> {
    if raws == [] then {} else Starts(w, raws[..|raws| - 1]) + {w.resolve(raws[|raws| - 1])}
  }

  class Walk {
    const w: World
    var seen: set<File>
    var out: seq<File>

    ghost predicate Valid()
      reads this
    {
      NoDuplicates(out) && seen == set f | f in out
    }

    constructor (w: World)
      ensures Valid() && this.w == w && out == []
    {
      this.w, seen, out := w, {}, [];
    }

    /**
     * Adds `raw`'s file and everything first found through it. What was listed stays; each new file is
     * that one or imported by one listed earlier, and everything the new files import is listed. It is
     * one turn of the depth-first preorder, whatever else (`rest`) is still to visit.
     */
    method Visit(raw: string, ghost from: set<File>, ghost rest: seq<File>)
      requires Valid() && Discovered(w, out, from)
      requires w.resolve(raw) in from || exists i :: 0 <= i < |out| && w.resolve(raw) in Next(w, out[i])
      modifies this
      ensures Valid() && Discovered(w, out, from)
      ensures old(out) <= out && old(seen) <= seen && w.resolve(raw) in seen
      ensures Closed(w, seen - old(seen), seen)
      ensures Preorder(w, out, rest) == Preorder(w, old(out), [w.resolve(raw)] + rest)
      decreases w.disk.Keys - seen, 0
    {
      var file := w.resolve(raw);
      assert ([file] + rest)[1..] == rest;
      if file in seen { return; }
      seen, out := seen + {file}, out + [file];
      assert Discovered(w, out, from) by { Grows(w, out[..|out| - 1], file, from); }
      assert [] + rest == rest;
      if file !in w.disk { return; }
      assert out[|out| - 1] == file;
      Follow(file, from, rest);
    }

    /** The loop over the specifiers of a file just listed. */
    method Follow(file: File, ghost from: set<File>, ghost rest: seq<File>)
      requires Valid() && Discovered(w, out, from) && file in w.disk && file in out
      modifies this
      ensures Valid() && Discovered(w, out, from)
      ensures old(out) <= out && old(seen) <= seen && Next(w, file) <= seen
      ensures Closed(w, seen - old(seen), seen)
      ensures Preorder(w, out, rest) == Preorder(w, old(out), InOrder(w, file, 0) + rest)
      decreases w.disk.Keys - seen, 1
    {
      var specs := w.disk[file];
      ghost var place :| 0 <= place < |out| && out[place] == file;
      for i := 0 to |specs|
        invariant Valid() && Discovered(w, out, from)
        invariant old(out) <= out && old(seen) <= seen
        invariant Imports(w, file, i) <= seen
        invariant Closed(w, seen - old(seen), seen)
        invariant Preorder(w, out, InOrder(w, file, i) + rest) == Preorder(w, old(out), InOrder(w, file, 0) + rest)
      {
        if Relative(specs[i]) {
          ghost var was := seen;
          ImportedBy(w, out, place, i);
          NextInOrder(w, file, i, rest);
          Visit(w.join(file, specs[i]), from, InOrder(w, file, i + 1) + rest);
          ClosedMore(w, old(seen), was, seen);
        } else {
          SkippedInOrder(w, file, i);
        }
      }
      assert [] + rest == rest;
    }
  }

  /** Specifier `k` of a file begins with a dot and leads to `f`. */
  predicate LeadsTo(w: World, file: File, k: nat, f: File)
    requires file in w.disk && k < |w.disk[file]|
  {
    var spec := w.disk[file][k];
    spec != "" && spec[0] == '.' && w.resolve(w.join(file, spec)) == f
  }

  /** A file imports what its specifiers that begin with a dot lead to, and a missing file nothing. */
  lemma NextMeans(w: World, file: File, f: File)
    ensures file in w.disk ==> (f in Next(w, file) <==> exists k :: 0 <= k < |w.disk[file]| && LeadsTo(w, file, k, f))
    ensures file !in w.disk ==> Next(w, file) == {}
  {
    if file in w.disk { ImportsMean(w, file, |w.disk[file]|, f); }
  }

  lemma {:induction false} ImportsMean(w: World, file: File, n: nat, f: File)
    requires file in w.disk && n <= |w.disk[file]|
    ensures f in Imports(w, file, n) <==> exists k :: 0 <= k < n && LeadsTo(w, file, k, f)
  {
    if n > 0 {
      ImportsMean(w, file, n - 1, f);
      assert f in Imports(w, file, n) <==> f in Imports(w, file, n - 1) || LeadsTo(w, file, n - 1, f);
    }
  }

  /** How many of the first `n` specifiers are followed. */
  function Followed(specs: seq<string>, n: nat): (r: nat)
    requires n <= |specs|
  {
    if n == 0 then 0 else
    Followed(specs, n - 1) + if specs[n - 1] != "" && specs[n - 1][0] == '.' then 1 else 0
  }

  /** In the order of the file: each specifier that is followed has its place behind those in front of it. */
  lemma {:induction false} InOrderMeans(w: World, file: File, n: nat, k: nat)
    requires file in w.disk && n <= k < |w.disk[file]| && w.disk[file][k] != "" && w.disk[file][k][0] == '.'
    ensures
      var specs, imports := w.disk[file], InOrder(w, file, n);
      && |imports| == Followed(specs, |specs|) - Followed(specs, n)
      && 0 <= Followed(specs, k) - Followed(specs, n) < |imports|
      && imports[Followed(specs, k) - Followed(specs, n)] == w.resolve(w.join(file, specs[k]))
    decreases |w.disk[file]| - n
  {
    InOrderSize(w, file, n);
    FollowedGrows(w.disk[file], n, k);
    FollowedGrows(w.disk[file], k + 1, |w.disk[file]|);
    if n < k { InOrderMeans(w, file, n + 1, k); }
  }

  lemma {:induction false} InOrderSize(w: World, file: File, n: nat)
    requires file in w.disk && n <= |w.disk[file]|
    ensures |InOrder(w, file, n)| == Followed(w.disk[file], |w.disk[file]|) - Followed(w.disk[file], n)
    decreases |w.disk[file]| - n
  {
    if n < |w.disk[file]| { InOrderSize(w, file, n + 1); }
  }

  lemma {:induction false} FollowedGrows(specs: seq<string>, a: nat, b: nat)
    requires a <= b <= |specs|
    ensures Followed(specs, a) <= Followed(specs, b)
    decreases b
  {
    if a < b { FollowedGrows(specs, a, b - 1); }
  }

  lemma Grows(w: World, out: seq<File>, file: File, from: set<File>)
    requires Discovered(w, out, from)
    requires file in from || exists i :: 0 <= i < |out| && file in Next(w, out[i])
    ensures Discovered(w, out + [file], from)
  {
    var all := out + [file];
    forall j | 0 <= j < |all|
      ensures all[j] in from || exists i :: 0 <= i < j && all[j] in Next(w, all[i])
    {
      if j < |out| {
        assert all[j] == out[j];
        if out[j] !in from {
          var i :| 0 <= i < j && out[j] in Next(w, out[i]);
          assert all[i] == out[i];
        }
      } else if file !in from {
        var i :| 0 <= i < |out| && file in Next(w, out[i]);
        assert all[i] == out[i];
      }
    }
  }

  lemma ClosedMore(w: World, a: set<File>, b: set<File>, c: set<File>)
    requires a <= b <= c && Closed(w, b - a, b) && Closed(w, c - b, c)
    ensures Closed(w, c - a, c)
  {}

  lemma NextInOrder(w: World, file: File, n: nat, rest: seq<File>)
    requires file in w.disk && n < |w.disk[file]| && Relative(w.disk[file][n])
    ensures InOrder(w, file, n) + rest == [w.resolve(w.join(file, w.disk[file][n]))] + (InOrder(w, file, n + 1) + rest)
  {}

  lemma SkippedInOrder(w: World, file: File, n: nat)
    requires file in w.disk && n < |w.disk[file]| && !Relative(w.disk[file][n])
    ensures InOrder(w, file, n) == InOrder(w, file, n + 1)
    ensures Imports(w, file, n + 1) == Imports(w, file, n)
  {}

  lemma ImportedBy(w: World, out: seq<File>, place: nat, n: nat)
    requires place < |out| && out[place] in w.disk && n < |w.disk[out[place]]| && Relative(w.disk[out[place]][n])
    ensures
      var f := w.resolve(w.join(out[place], w.disk[out[place]][n]));
      && Imports(w, out[place], n + 1) == Imports(w, out[place], n) + {f}
      && exists i :: 0 <= i < |out| && f in Next(w, out[i])
  {
    ImportsGrow(w, out[place], n + 1);
  }

  lemma {:induction false} ImportsGrow(w: World, file: File, n: nat)
    requires file in w.disk && n <= |w.disk[file]|
    ensures Imports(w, file, n) <= Next(w, file)
    decreases |w.disk[file]| - n
  {
    if n < |w.disk[file]| { ImportsGrow(w, file, n + 1); }
  }

  /** The files reachable from the starts, each once, in depth-first preorder. */
  method ModuleClosure(w: World, starts: seq<string>) returns (out: seq<File>)
    ensures NoDuplicates(out)
    ensures forall f :: f in out <==> Reachable(w, Starts(w, starts), f)
    ensures Discovered(w, out, Starts(w, starts))
    ensures out == Preorder(w, [], Resolved(w, starts))
  {
    var walk := new Walk(w);
    for i := 0 to |starts|
      invariant walk.Valid() && fresh(walk) && walk.w == w
      invariant Discovered(w, walk.out, Starts(w, starts))
      invariant Starts(w, starts[..i]) <= walk.seen
      invariant Closed(w, walk.seen, walk.seen)
      invariant Preorder(w, walk.out, Resolved(w, starts[i..])) == Preorder(w, [], Resolved(w, starts))
    {
      StartListed(w, starts, i);
      assert starts[i..][1..] == starts[i + 1..];
      walk.Visit(starts[i], Starts(w, starts), Resolved(w, starts[i + 1..]));
    }
    assert starts[..|starts|] == starts;
    out := walk.out;
    forall f
      ensures f in out <==> Reachable(w, Starts(w, starts), f)
    {
      if f in out { DiscoveredIsReachable(w, out, Starts(w, starts), f); }
      if Reachable(w, Starts(w, starts), f) { ReachableIsClosed(w, walk.seen, Starts(w, starts), f); }
    }
  }

  lemma {:induction false} StartListed(w: World, starts: seq<string>, i: nat)
    requires i < |starts|
    ensures w.resolve(starts[i]) in Starts(w, starts)
    ensures Starts(w, starts[..i + 1]) == Starts(w, starts[..i]) + {w.resolve(starts[i])}
    decreases |starts|
  {
    assert starts[..i + 1][..i] == starts[..i];
    if i < |starts| - 1 {
      StartListed(w, starts[..|starts| - 1], i);
    }
  }

  /** A closed set that holds the starts holds all that is reachable from them. */
  lemma ReachableIsClosed(w: World, files: set<File>, from: set<File>, f: File)
    requires Closed(w, files, files) && from <= files && Reachable(w, from, f)
    ensures f in files
  {
    var p :| Chain(w, p) && p[0] in from && p[|p| - 1] == f;
    ChainStays(w, files, p, |p| - 1);
  }

  lemma {:induction false} ChainStays(w: World, files: set<File>, p: seq<File>, k: nat)
    requires Closed(w, files, files) && Chain(w, p) && p[0] in files && k < |p|
    ensures p[k] in files
  {
    if k > 0 { ChainStays(w, files, p, k - 1); }
  }

  lemma DiscoveredIsReachable(w: World, out: seq<File>, from: set<File>, f: File)
    requires Discovered(w, out, from) && f in out
    ensures Reachable(w, from, f)
  {
    var j :| 0 <= j < |out| && out[j] == f;
    var p := ChainTo(w, out, from, j);
  }

  lemma {:induction false} ChainTo(w: World, out: seq<File>, from: set<File>, j: nat) returns (p: seq<File>)
    requires Discovered(w, out, from) && j < |out|
    ensures Chain(w, p) && p[0] in from && p[|p| - 1] == out[j]
  {
    if out[j] in from {
      p := [out[j]];
    } else {
      var i :| 0 <= i < j && out[j] in Next(w, out[i]);
      var q := ChainTo(w, out, from, i);
      p := q + [out[j]];
    }
  }
}
