/**
 * Choosing what goes into a folder's zip: children that cannot fit the caps are left out as a unit.
 */
module ZipPlan {
  import opened Options

  datatype File = File(name: string, size: nat)

  /** A child of the folder that may be packed; a loose file is a child with one file. */
  datatype Child = Child(name: string, dir: bool, files: seq<File>) {
    function Total(): nat { Sizes(files) }
  }

  /**
   * What the directory listing gives for one name: nothing to pack (refused, outside the work root,
   * unreadable, neither file nor directory, or a directory at depth zero), a file, or a directory with
   * the files found below it (`None` when that walk alone is over a cap).
   */
  datatype Entry = Ignored | LooseFile(name: string, file: File) | Folder(name: string, found: Option<seq<File>>)

  datatype Failure = TooLarge | TooMany
  datatype Packing = Packed(kept: seq<Child>, dropped: seq<Child>) | Failed(why: Failure)

  function Sizes(files: seq<File>): nat {
    if files == [] then 0 else Sizes(files[..|files| - 1]) + files[|files| - 1].size
  }

  function Bytes(cs: seq<Child>): nat { if cs == [] then 0 else Bytes(cs[..|cs| - 1]) + cs[|cs| - 1].Total() }

  function Count(cs: seq<Child>): nat { if cs == [] then 0 else Count(cs[..|cs| - 1]) + |cs[|cs| - 1].files| }

  function Loose(cs: seq<Child>): seq<Child> {
    if cs == [] then []
    else Loose(cs[..|cs| - 1]) + if cs[|cs| - 1].dir then [] else [cs[|cs| - 1]]
  }

  /** The file list of the plan. */
  function AllFiles(cs: seq<Child>): seq<File> {
    if cs == [] then [] else AllFiles(cs[..|cs| - 1]) + cs[|cs| - 1].files
  }

  // ---- Sorting the listing into children and names left out at once ----

  function ChildOf(e: Entry, cap: nat): seq<Child> {
    match e
    case LooseFile(name, file) => if file.size > cap then [] else [Child(name, false, [file])]
    case Folder(name, Some(found)) => [Child(name, true, found)]
    case _ => []
  }

  function LeftOutOf(e: Entry, cap: nat): seq<string> {
    match e
    case LooseFile(name, file) => if file.size > cap then [name] else []
    case Folder(name, None) => [name + "/"]
    case _ => []
  }

  function Eligible(es: seq<Entry>, cap: nat): seq<Child> {
    if es == [] then [] else Eligible(es[..|es| - 1], cap) + ChildOf(es[|es| - 1], cap)
  }

  function LeftOut(es: seq<Entry>, cap: nat): seq<string> {
    if es == [] then [] else LeftOut(es[..|es| - 1], cap) + LeftOutOf(es[|es| - 1], cap)
  }

  // ---- Dropping directories until the rest fits ----

  predicate Fits(cs: seq<Child>, max: nat, cap: nat) { Bytes(cs) <= cap && Count(cs) <= max }

  function Weight(c: Child, overBytes: bool): nat { if overBytes then c.Total() else |c.files| }

  /** The first heaviest directory among the first `n` children. */
  function Fattest(cs: seq<Child>, overBytes: bool, n: nat): (r: Option<nat>)
    requires n <= |cs|
    ensures r.Some? ==> r.value < n && cs[r.value].dir
  {
    if n == 0 then None else
    var before := Fattest(cs, overBytes, n - 1);
    if !cs[n - 1].dir then before
    else if before.None? || Weight(cs[n - 1], overBytes) > Weight(cs[before.value], overBytes) then Some(n - 1)
    else before
  }

  /** No directory outweighs it, those before it weigh less, and there is one whenever there is a directory. */
  lemma {:induction false} FattestIsHeaviest(cs: seq<Child>, overBytes: bool, n: nat, k: nat)
    requires k < n <= |cs| && cs[k].dir
    ensures
      match Fattest(cs, overBytes, n)
      case None => false
      case Some(i) =>
        && Weight(cs[k], overBytes) <= Weight(cs[i], overBytes)
        && (k < i ==> Weight(cs[k], overBytes) < Weight(cs[i], overBytes))
  {
    if k < n - 1 { FattestIsHeaviest(cs, overBytes, n - 1, k); }
  }

  function Without(cs: seq<Child>, i: nat): (r: seq<Child>)
    requires i < |cs|
    ensures |r| == |cs| - 1
  {
    cs[..i] + cs[i + 1..]
  }

  function Pack(cs: seq<Child>, max: nat, cap: nat): Packing
    decreases |cs|
  {
    if Fits(cs, max, cap) then Packed(cs, []) else
    match Fattest(cs, Bytes(cs) > cap, |cs|)
    case None => Failed(if Bytes(cs) > cap then TooLarge else TooMany)
    case Some(i) =>
      match Pack(Without(cs, i), max, cap)
      case Failed(why) => Failed(why)
      case Packed(kept, dropped) => Packed(kept, [cs[i]] + dropped)
  }

  function DroppedNames(cs: seq<Child>): seq<string> {
    if cs == [] then [] else [cs[0].name + "/"] + DroppedNames(cs[1..])
  }

  datatype Plan = Plan(files: seq<File>, omitted: seq<string>) | NoPlan(why: Failure)

  function PlanOf(es: seq<Entry>, max: nat, cap: nat): Plan {
    match Pack(Eligible(es, cap), max, cap)
    case Failed(why) => NoPlan(why)
    case Packed(kept, dropped) => Plan(AllFiles(kept), LeftOut(es, cap) + DroppedNames(dropped))
  }

  /** The child that an entry of the listing stands for: a file within the cap, or a directory that was walked. */
  ghost predicate StandsFor(e: Entry, c: Child, cap: nat) {
    || (e.LooseFile? && e.file.size <= cap && c == Child(e.name, false, [e.file]))
    || (e.Folder? && e.found.Some? && c == Child(e.name, true, e.found.value))
  }

  /** The name an entry is left out by at once: a file over the cap, or a directory whose walk was over one. */
  ghost predicate LeftOutAs(e: Entry, name: string, cap: nat) {
    || (e.LooseFile? && e.file.size > cap && name == e.name)
    || (e.Folder? && e.found.None? && name == e.name + "/")
  }

  lemma {:induction false} EligibleMeans(es: seq<Entry>, cap: nat)
    ensures forall c :: c in Eligible(es, cap) <==> exists k :: 0 <= k < |es| && StandsFor(es[k], c, cap)
    ensures forall name :: name in LeftOut(es, cap) <==> exists k :: 0 <= k < |es| && LeftOutAs(es[k], name, cap)
  {
    if es != [] {
      var n := |es| - 1;
      EligibleMeans(es[..n], cap);
      forall c
        ensures c in Eligible(es, cap) <==> exists k :: 0 <= k < |es| && StandsFor(es[k], c, cap)
      {
        assert c in ChildOf(es[n], cap) <==> StandsFor(es[n], c, cap);
        if k :| 0 <= k < n && StandsFor(es[k], c, cap) { assert StandsFor(es[..n][k], c, cap); }
        if k :| 0 <= k < n && StandsFor(es[..n][k], c, cap) { assert StandsFor(es[k], c, cap); }
      }
      forall name
        ensures name in LeftOut(es, cap) <==> exists k :: 0 <= k < |es| && LeftOutAs(es[k], name, cap)
      {
        assert name in LeftOutOf(es[n], cap) <==> LeftOutAs(es[n], name, cap);
        if k :| 0 <= k < n && LeftOutAs(es[k], name, cap) { assert LeftOutAs(es[..n][k], name, cap); }
        if k :| 0 <= k < n && LeftOutAs(es[..n][k], name, cap) { assert LeftOutAs(es[k], name, cap); }
      }
    }
  }

  method ReadListing(es: seq<Entry>, cap: nat) returns (included: seq<Child>, omitted: seq<string>)
    ensures included == Eligible(es, cap) && omitted == LeftOut(es, cap)
    ensures forall c :: c in included <==> exists k :: 0 <= k < |es| && StandsFor(es[k], c, cap)
    ensures forall name :: name in omitted <==> exists k :: 0 <= k < |es| && LeftOutAs(es[k], name, cap)
  {
    EligibleMeans(es, cap);
    included, omitted := [], [];
    for i := 0 to |es|
      invariant included == Eligible(es[..i], cap) && omitted == LeftOut(es[..i], cap)
    {
      assert es[..i + 1][..i] == es[..i];
      match es[i]
      case Ignored =>
      case LooseFile(name, file) =>
        if file.size > cap {
          omitted := omitted + [name];
        } else {
          included := included + [Child(name, false, [file])];
        }
      case Folder(name, None) => omitted := omitted + [name + "/"];
      case Folder(name, Some(found)) => included := included + [Child(name, true, found)];
    }
    assert es[..|es|] == es;
  }

  method FindFattest(included: seq<Child>, overBytes: bool) returns (fattest: int)
    ensures -1 <= fattest < |included|
    ensures Fattest(included, overBytes, |included|) == if fattest < 0 then None else Some(fattest)
  {
    fattest := -1;
    for i := 0 to |included|
      invariant -1 <= fattest < i
      invariant Fattest(included, overBytes, i) == if fattest < 0 then None else Some(fattest)
    {
      if included[i].dir {
        if fattest < 0 {
          fattest := i;
        } else if Weight(included[i], overBytes) > Weight(included[fattest], overBytes) {
          fattest := i;
        }
      }
    }
  }

  /** The outcome of packing once the directories `gone` have been dropped already. */
  function After(gone: seq<Child>, rest: Packing): Packing {
    match rest
    case Failed(why) => Failed(why)
    case Packed(kept, dropped) => Packed(kept, gone + dropped)
  }

  method PackChildren(es: seq<Entry>, max: nat, cap: nat) returns (plan: Plan)
    ensures plan == PlanOf(es, max, cap)
  {
    var included, omitted := ReadListing(es, cap);
    ghost var early, gone: seq<Child> := omitted, [];
    assert early + DroppedNames(gone) == early;
    while Bytes(included) > cap || Count(included) > max
      invariant omitted == early + DroppedNames(gone)
      invariant Pack(Eligible(es, cap), max, cap) == After(gone, Pack(included, max, cap))
      decreases |included|
    {
      var overBytes := Bytes(included) > cap;
      var fattest := FindFattest(included, overBytes);
      if fattest < 0 {
        return NoPlan(if overBytes then TooLarge else TooMany);
      }
      var drop := included[fattest];
      DroppedNamesPush(gone, drop);
      PackStep(included, fattest, max, cap, gone);
      included := Without(included, fattest);
      omitted := omitted + [drop.name + "/"];
      gone := gone + [drop];
    }
    assert Fits(included, max, cap) && gone + [] == gone;
    plan := Plan(AllFiles(included), omitted);
  }

  lemma PackStep(cs: seq<Child>, i: nat, max: nat, cap: nat, gone: seq<Child>)
    requires !Fits(cs, max, cap) && Fattest(cs, Bytes(cs) > cap, |cs|) == Some(i)
    ensures After(gone, Pack(cs, max, cap)) == After(gone + [cs[i]], Pack(Without(cs, i), max, cap))
  {
    var rest := Pack(Without(cs, i), max, cap);
    if rest.Packed? {
      assert gone + ([cs[i]] + rest.dropped) == gone + [cs[i]] + rest.dropped;
    }
  }

  lemma {:induction false} DroppedNamesPush(cs: seq<Child>, c: Child)
    ensures DroppedNames(cs + [c]) == DroppedNames(cs) + [c.name + "/"]
  {
    if cs != [] {
      DroppedNamesPush(cs[1..], c);
      assert (cs + [c])[1..] == cs[1..] + [c];
    }
  }

  // ---- What the planner promises ----

  lemma {:induction false} SumsSplit(a: seq<Child>, b: seq<Child>)
    ensures Bytes(a + b) == Bytes(a) + Bytes(b)
    ensures Count(a + b) == Count(a) + Count(b)
    ensures Loose(a + b) == Loose(a) + Loose(b)
  {
    if b == [] {
      assert a + b == a;
    } else {
      var n := |b| - 1;
      SumsSplit(a, b[..n]);
      assert (a + b)[..|a + b| - 1] == a + b[..n];
    }
  }

  lemma RemoveOne(cs: seq<Child>, i: nat)
    requires i < |cs|
    ensures Bytes(cs) == Bytes(Without(cs, i)) + cs[i].Total()
    ensures Count(cs) == Count(Without(cs, i)) + |cs[i].files|
    ensures cs[i].dir ==> Loose(cs) == Loose(Without(cs, i))
  {
    SplitAt(cs, i);
    SumsSplit(cs[..i], [cs[i]] + cs[i + 1..]);
    SumsSplit([cs[i]], cs[i + 1..]);
    SumsSplit(cs[..i], cs[i + 1..]);
  }

  lemma SplitAt(cs: seq<Child>, i: nat)
    requires i < |cs|
    ensures cs == cs[..i] + ([cs[i]] + cs[i + 1..])
  {}

  lemma RemoveFromBag(cs: seq<Child>, i: nat)
    requires i < |cs|
    ensures multiset(cs) == multiset(Without(cs, i)) + multiset{cs[i]}
  {
    SplitAt(cs, i);
  }

  ghost predicate Subsequence(a: seq<Child>, b: seq<Child>) {
    if a == [] then true
    else exists k: nat :: k < |b| && b[k] == a[|a| - 1] && Subsequence(a[..|a| - 1], b[..k])
  }

  lemma {:induction false} WholeIsSubsequence(a: seq<Child>)
    ensures Subsequence(a, a)
  {
    if a != [] {
      WholeIsSubsequence(a[..|a| - 1]);
      assert a[|a| - 1] == a[|a| - 1] && a[..|a| - 1] == a[..|a| - 1];
    }
  }

  /** What is a subsequence of the list without one child is one of the whole list. */
  lemma {:induction false} SkipOne(a: seq<Child>, b: seq<Child>, i: nat)
    requires i < |b| && Subsequence(a, Without(b, i))
    ensures Subsequence(a, b)
    decreases |a|
  {
    if a != [] {
      var w := Without(b, i);
      var k: nat :| k < |w| && w[k] == a[|a| - 1] && Subsequence(a[..|a| - 1], w[..k]);
      if k < i {
        assert w[..k] == b[..k] && b[k] == a[|a| - 1];
      } else {
        assert w[..k] == Without(b[..k + 1], i);
        SkipOne(a[..|a| - 1], b[..k + 1], i);
        assert b[k + 1] == a[|a| - 1];
      }
    }
  }

  lemma {:induction false} EachInOneBag(cs: seq<Child>, max: nat, cap: nat)
    requires Pack(cs, max, cap).Packed?
    ensures
      var p := Pack(cs, max, cap);
      multiset(cs) == multiset(p.kept) + multiset(p.dropped) && forall c :: c in p.dropped ==> c.dir
    decreases |cs|
  {
    if !Fits(cs, max, cap) {
      var i := Fattest(cs, Bytes(cs) > cap, |cs|).value;
      var rest := Pack(Without(cs, i), max, cap);
      EachInOneBag(Without(cs, i), max, cap);
      RemoveFromBag(cs, i);
      assert multiset([cs[i]] + rest.dropped) == multiset{cs[i]} + multiset(rest.dropped);
    }
  }

  lemma {:induction false} KeptInOrder(cs: seq<Child>, max: nat, cap: nat)
    requires Pack(cs, max, cap).Packed?
    ensures Subsequence(Pack(cs, max, cap).kept, cs)
    decreases |cs|
  {
    if Fits(cs, max, cap) {
      WholeIsSubsequence(cs);
    } else {
      var i := Fattest(cs, Bytes(cs) > cap, |cs|).value;
      KeptInOrder(Without(cs, i), max, cap);
      SkipOne(Pack(Without(cs, i), max, cap).kept, cs, i);
    }
  }

  lemma {:induction false} TotalsAddUp(cs: seq<Child>, max: nat, cap: nat)
    requires Pack(cs, max, cap).Packed?
    ensures
      var p := Pack(cs, max, cap);
      && Loose(p.kept) == Loose(cs)
      && Bytes(cs) == Bytes(p.kept) + Bytes(p.dropped) && Count(cs) == Count(p.kept) + Count(p.dropped)
    decreases |cs|
  {
    if !Fits(cs, max, cap) {
      var i := Fattest(cs, Bytes(cs) > cap, |cs|).value;
      TotalsAddUp(Without(cs, i), max, cap);
      RemoveOne(cs, i);
      SumsSplit([cs[i]], Pack(Without(cs, i), max, cap).dropped);
    }
  }

  /** Every child is kept or dropped, once; what is kept keeps its order; loose files are never dropped. */
  lemma EachChildOnce(cs: seq<Child>, max: nat, cap: nat)
    requires Pack(cs, max, cap).Packed?
    ensures
      var p := Pack(cs, max, cap);
      && multiset(cs) == multiset(p.kept) + multiset(p.dropped)
      && Subsequence(p.kept, cs)
      && Loose(p.kept) == Loose(cs)
      && (forall c :: c in p.dropped ==> c.dir)
  {
    EachInOneBag(cs, max, cap);
    KeptInOrder(cs, max, cap);
    TotalsAddUp(cs, max, cap);
  }

  /** What is kept is within both caps. */
  lemma {:induction false} KeptFits(cs: seq<Child>, max: nat, cap: nat)
    ensures Pack(cs, max, cap).Packed? ==> Fits(Pack(cs, max, cap).kept, max, cap)
    decreases |cs|
  {
    if !Fits(cs, max, cap) {
      var f := Fattest(cs, Bytes(cs) > cap, |cs|);
      if f.Some? { KeptFits(Without(cs, f.value), max, cap); }
    }
  }

  lemma FromBag(all: seq<Child>, a: seq<Child>, b: seq<Child>, c: Child)
    requires multiset(all) == multiset(a) + multiset(b) && c in a + b
    ensures c in all
  {
    assert c in a || c in b;
    assert c in multiset(all);
  }

  lemma FirstDropIsHeaviest(cs: seq<Child>, max: nat, cap: nat, other: Child)
    requires Pack(cs, max, cap).Packed? && Pack(cs, max, cap).dropped != []
    ensures
      var p := Pack(cs, max, cap);
      var bytes, count := Bytes(p.kept) + Bytes(p.dropped), Count(p.kept) + Count(p.dropped);
      && (bytes > cap || count > max)
      && (other.dir && other in p.kept + p.dropped ==>
            if bytes > cap then other.Total() <= p.dropped[0].Total() else |other.files| <= |p.dropped[0].files|)
  {
    var p := Pack(cs, max, cap);
    EachInOneBag(cs, max, cap);
    TotalsAddUp(cs, max, cap);
    if other.dir && other in p.kept + p.dropped {
      FromBag(cs, p.kept, p.dropped, other);
      var j: nat :| j < |cs| && cs[j] == other;
      FattestIsHeaviest(cs, Bytes(cs) > cap, |cs|, j);
    }
  }

  /**
   * Each drop happened while what was left was over a cap, and took a heaviest directory: by bytes
   * while the bytes were over, otherwise by file count.
   */
  lemma {:induction false} DropsHeaviestWhileOver(cs: seq<Child>, max: nat, cap: nat, k: nat, other: Child)
    requires Pack(cs, max, cap).Packed? && k < |Pack(cs, max, cap).dropped|
    ensures
      var p := Pack(cs, max, cap);
      var bytes, count := Bytes(p.kept) + Bytes(p.dropped[k..]), Count(p.kept) + Count(p.dropped[k..]);
      && (bytes > cap || count > max)
      && (other.dir && other in p.kept + p.dropped[k..] ==>
            if bytes > cap then other.Total() <= p.dropped[k].Total() else |other.files| <= |p.dropped[k].files|)
    decreases |cs|
  {
    var p := Pack(cs, max, cap);
    var i := Fattest(cs, Bytes(cs) > cap, |cs|).value;
    if k == 0 {
      FirstDropIsHeaviest(cs, max, cap, other);
      assert p.dropped[0..] == p.dropped;
    } else {
      DropsHeaviestWhileOver(Without(cs, i), max, cap, k - 1, other);
      assert p.dropped[k..] == Pack(Without(cs, i), max, cap).dropped[k - 1..];
    }
  }

  lemma {:induction false} NoDirectories(cs: seq<Child>)
    requires forall k :: 0 <= k < |cs| ==> !cs[k].dir
    ensures Loose(cs) == cs
  {
    if cs != [] {
      NoDirectories(cs[..|cs| - 1]);
    }
  }

  lemma {:induction false} LooseIsLighter(cs: seq<Child>)
    ensures Bytes(Loose(cs)) <= Bytes(cs) && Count(Loose(cs)) <= Count(cs)
  {
    if cs != [] {
      var n := |cs| - 1;
      LooseIsLighter(cs[..n]);
      SumsSplit(Loose(cs[..n]), if cs[n].dir then [] else [cs[n]]);
    }
  }

  /** Packing fails exactly when the loose files alone are over a cap, and says which. */
  lemma {:induction false} FailsOnlyOnLooseFiles(cs: seq<Child>, max: nat, cap: nat)
    ensures Pack(cs, max, cap).Failed? <==> !Fits(Loose(cs), max, cap)
    ensures Pack(cs, max, cap).Failed? ==> (Pack(cs, max, cap).why == TooLarge <==> Bytes(Loose(cs)) > cap)
    decreases |cs|
  {
    if Fits(cs, max, cap) {
      LooseIsLighter(cs);
    } else {
      var f := Fattest(cs, Bytes(cs) > cap, |cs|);
      if f.None? {
        forall k: nat | k < |cs|
          ensures !cs[k].dir
        {
          if cs[k].dir { FattestIsHeaviest(cs, Bytes(cs) > cap, |cs|, k); }
        }
        NoDirectories(cs);
      } else {
        RemoveOne(cs, f.value);
        FailsOnlyOnLooseFiles(Without(cs, f.value), max, cap);
      }
    }
  }

  // ---- The whole plan ----

  function NameOf(e: Entry): string
    requires !e.Ignored?
  {
    match e
    case LooseFile(name, _) => name
    case Folder(name, _) => name + "/"
  }

  function ChildName(c: Child): string { if c.dir then c.name + "/" else c.name }

  /** How often a name stands for a child, in a listing, or among omitted names. */
  function Children(cs: seq<Child>, name: string): nat {
    if cs == [] then 0
    else Children(cs[..|cs| - 1], name) + if ChildName(cs[|cs| - 1]) == name then 1 else 0
  }

  function Listed(es: seq<Entry>, name: string): nat {
    if es == [] then 0
    else Listed(es[..|es| - 1], name) + if !es[|es| - 1].Ignored? && NameOf(es[|es| - 1]) == name then 1 else 0
  }

  function Named(names: seq<string>, name: string): nat {
    if names == [] then 0
    else Named(names[..|names| - 1], name) + if names[|names| - 1] == name then 1 else 0
  }

  lemma {:induction false} ChildrenSplit(a: seq<Child>, b: seq<Child>, name: string)
    ensures Children(a + b, name) == Children(a, name) + Children(b, name)
  {
    if b == [] {
      assert a + b == a;
    } else {
      ChildrenSplit(a, b[..|b| - 1], name);
      assert (a + b)[..|a + b| - 1] == a + b[..|b| - 1];
    }
  }

  lemma {:induction false} NamedSplit(a: seq<string>, b: seq<string>, name: string)
    ensures Named(a + b, name) == Named(a, name) + Named(b, name)
  {
    if b == [] {
      assert a + b == a;
    } else {
      NamedSplit(a, b[..|b| - 1], name);
      assert (a + b)[..|a + b| - 1] == a + b[..|b| - 1];
    }
  }

  lemma EntryOnce(e: Entry, cap: nat, name: string)
    ensures (if !e.Ignored? && NameOf(e) == name then 1 else 0) ==
            Children(ChildOf(e, cap), name) + Named(LeftOutOf(e, cap), name)
  {}

  lemma {:induction false} ListedOnce(es: seq<Entry>, cap: nat, name: string)
    ensures Listed(es, name) == Children(Eligible(es, cap), name) + Named(LeftOut(es, cap), name)
  {
    if es != [] {
      var n := |es| - 1;
      ListedOnce(es[..n], cap, name);
      EntryOnce(es[n], cap, name);
      ChildrenSplit(Eligible(es[..n], cap), ChildOf(es[n], cap), name);
      NamedSplit(LeftOut(es[..n], cap), LeftOutOf(es[n], cap), name);
    }
  }

  lemma {:induction false} PackedNames(cs: seq<Child>, max: nat, cap: nat, name: string)
    requires Pack(cs, max, cap).Packed?
    ensures
      var p := Pack(cs, max, cap);
      Children(cs, name) == Children(p.kept, name) + Named(DroppedNames(p.dropped), name)
    decreases |cs|
  {
    if !Fits(cs, max, cap) {
      var i := Fattest(cs, Bytes(cs) > cap, |cs|).value;
      PackedNames(Without(cs, i), max, cap, name);
      var rest := Pack(Without(cs, i), max, cap);
      SplitAt(cs, i);
      ChildrenSplit(cs[..i], [cs[i]] + cs[i + 1..], name);
      ChildrenSplit([cs[i]], cs[i + 1..], name);
      ChildrenSplit(cs[..i], cs[i + 1..], name);
      assert ([cs[i]] + rest.dropped)[1..] == rest.dropped;
      NamedSplit([cs[i].name + "/"], DroppedNames(rest.dropped), name);
    }
  }

  lemma {:induction false} AllFilesSums(cs: seq<Child>)
    ensures |AllFiles(cs)| == Count(cs) && Sizes(AllFiles(cs)) == Bytes(cs)
  {
    if cs != [] {
      var n := |cs| - 1;
      AllFilesSums(cs[..n]);
      SizesSplit(AllFiles(cs[..n]), cs[n].files);
    }
  }

  lemma {:induction false} SizesSplit(a: seq<File>, b: seq<File>)
    ensures Sizes(a + b) == Sizes(a) + Sizes(b)
    ensures |b| == 1 ==> Sizes(b) == b[0].size
  {
    if b == [] {
      assert a + b == a;
    } else {
      SizesSplit(a, b[..|b| - 1]);
      assert (a + b)[..|a + b| - 1] == a + b[..|b| - 1];
    }
  }

  /** The plan's files are those of `kept`, a part of the eligible children in their order, within both caps. */
  ghost predicate Keeps(kept: seq<Child>, cs: seq<Child>, files: seq<File>, max: nat, cap: nat) {
    && Subsequence(kept, cs) && Loose(kept) == Loose(cs) && files == AllFiles(kept)
    && |files| <= max && Sizes(files) <= cap
  }

  /**
   * A plan keeps all loose files and some directories, within both caps, and every listed child is
   * either in it or named as omitted, once. There is no plan exactly when the loose files no bigger
   * than the cap are together over a cap.
   */
  lemma PlanAccountsForAll(es: seq<Entry>, max: nat, cap: nat, name: string) returns (kept: seq<Child>)
    ensures PlanOf(es, max, cap).NoPlan? <==> !Fits(Loose(Eligible(es, cap)), max, cap)
    ensures PlanOf(es, max, cap).NoPlan? ==>
              (PlanOf(es, max, cap).why == TooLarge <==> Bytes(Loose(Eligible(es, cap))) > cap)
    ensures PlanOf(es, max, cap).Plan? ==> Keeps(kept, Eligible(es, cap), PlanOf(es, max, cap).files, max, cap)
    ensures PlanOf(es, max, cap).Plan? ==>
              Listed(es, name) == Children(kept, name) + Named(PlanOf(es, max, cap).omitted, name)
  {
    var cs := Eligible(es, cap);
    FailsOnlyOnLooseFiles(cs, max, cap);
    KeptFits(cs, max, cap);
    kept := [];
    if Pack(cs, max, cap).Packed? {
      kept := Pack(cs, max, cap).kept;
      EachChildOnce(cs, max, cap);
      AllFilesSums(kept);
      ListedOnce(es, cap, name);
      PackedNames(cs, max, cap, name);
      NamedSplit(LeftOut(es, cap), DroppedNames(Pack(cs, max, cap).dropped), name);
    }
  }
}
