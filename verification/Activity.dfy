/**
 * The activity ledger: when each pane last moved and when it was last looked at. Looks are stamped only
 * now and then; the ledger behaves as one that stamps every look.
 */
module Activity {
  import opened Options

  type Session = string
  type Pane = string
  datatype Times = Times(activeAt: int, seenAt: int)
  type Ledger = map<Session, map<Pane, Times>>

  const REFRESH: int := 30000

  datatype Op = EnsurePane(pane: Pane) | NoteActive(pane: Pane) | NoteSeen(pane: Pane) | NoteUnseen(pane: Pane)
              | Reconcile(live: set<Pane>) | Forget(pane: Pane)
  /** An operation on a session at a reading of the clock. */
  datatype Event = Event(session: Session, time: int, op: Op)

  function Look(l: Ledger, s: Session, p: Pane): Option<Times> {
    if s in l && p in l[s] then Some(l[s][p]) else None
  }

  function Panes(l: Ledger, s: Session): map<Pane, Times> { if s in l then l[s] else map[] }

  function Set(l: Ledger, s: Session, p: Pane, t: Times): Ledger { l[s := Panes(l, s)[p := t]] }

  function Drop(l: Ledger, s: Session, p: Pane): Ledger {
    if Look(l, s, p).None? then l
    else if l[s] - {p} == map[] then l - {s}
    else l[s := l[s] - {p}]
  }

  /** Unread: the pane moved after it was last looked at. */
  predicate Unread(t: Times) { t.activeAt > t.seenAt }

  /** A look that does not move the stamp. */
  predicate Skipped(prev: Option<Times>, time: int) {
    prev.Some? && prev.value.seenAt >= prev.value.activeAt && time - prev.value.seenAt < REFRESH
  }

  /** The session has exactly the live panes; those known keep their times. */
  function Reconciled(l: Ledger, s: Session, live: set<Pane>, time: int): Ledger {
    if live == {} then l - {s}
    else l[s := map p | p in live :: if p in Panes(l, s) then Panes(l, s)[p] else Times(time, time)]
  }

  /** `eager` stamps every look. */
  function Step(l: Ledger, e: Event, eager: bool): Ledger {
    var s, t := e.session, e.time;
    match e.op
    case EnsurePane(p) => if Look(l, s, p).Some? then l else Set(l, s, p, Times(t, t))
    case NoteActive(p) =>
      var prev := Look(l, s, p);
      Set(l, s, p, Times(t, if prev.Some? then prev.value.seenAt else t))
    case NoteSeen(p) =>
      var prev := Look(l, s, p);
      if !eager && Skipped(prev, t) then l else Set(l, s, p, Times(if prev.Some? then prev.value.activeAt else t, t))
    case NoteUnseen(p) =>
      var prev := Look(l, s, p);
      if prev.Some? && Unread(prev.value) then l else
      var activeAt := if prev.Some? then prev.value.activeAt else t;
      Set(l, s, p, Times(activeAt, activeAt - 1))
    case Reconcile(live) => Reconciled(l, s, live, t)
    case Forget(p) => Drop(l, s, p)
  }

  function Run(es: seq<Event>, eager: bool): Ledger {
    if es == [] then map[] else Step(Run(es[..|es| - 1], eager), es[|es| - 1], eager)
  }

  lemma LookAfterDrop(l: Ledger, s: Session, p: Pane, s': Session, p': Pane)
    ensures Look(Drop(l, s, p), s', p') == if s' == s && p' == p then None else Look(l, s', p')
  {
    if Look(l, s, p).Some? && s' == s && p' != p && p' in l[s] { assert p' in l[s] - {p}; }
  }

  /** What one operation makes of one pane's times, given only those. */
  function PaneStep(prev: Option<Times>, s: Session, p: Pane, e: Event, eager: bool): Option<Times> {
    if e.session != s then prev else
    match e.op
    case EnsurePane(q) => if q != p || prev.Some? then prev else Some(Times(e.time, e.time))
    case NoteActive(q) => if q != p then prev else Some(Times(e.time, if prev.Some? then prev.value.seenAt else e.time))
    case NoteSeen(q) =>
      if q != p || (!eager && Skipped(prev, e.time)) then prev
      else Some(Times(if prev.Some? then prev.value.activeAt else e.time, e.time))
    case NoteUnseen(q) =>
      if q != p || (prev.Some? && Unread(prev.value)) then prev
      else
        var activeAt := if prev.Some? then prev.value.activeAt else e.time;
        Some(Times(activeAt, activeAt - 1))
    case Reconcile(live) => if p !in live then None else if prev.Some? then prev else Some(Times(e.time, e.time))
    case Forget(q) => if q == p then None else prev
  }

  /** Panes do not affect each other: an operation changes a pane's times from those times alone. */
  lemma PanesAreApart(l: Ledger, e: Event, eager: bool, s: Session, p: Pane)
    ensures Look(Step(l, e, eager), s, p) == PaneStep(Look(l, s, p), s, p, e, eager)
  {
    if e.op.Forget? { LookAfterDrop(l, e.session, e.op.pane, s, p); }
  }

  // ---- Refinement: throttled looks against every look ----

  /** The clock does not run back, and nothing happened after `now`. */
  predicate Ordered(es: seq<Event>, now: int) {
    es == [] || (es[|es| - 1].time <= now && Ordered(es[..|es| - 1], es[|es| - 1].time))
  }

  /** The throttled and the eager times of a pane tell the same story. */
  predicate Alike(a: Option<Times>, b: Option<Times>) {
    match (a, b)
    case (None, None) => true
    case (Some(x), Some(y)) =>
      x.activeAt == y.activeAt && (Unread(x) <==> Unread(y)) && 0 <= y.seenAt - x.seenAt < REFRESH
    case _ => false
  }

  predicate Before(a: Option<Times>, now: int) { a.Some? ==> a.value.activeAt <= now && a.value.seenAt <= now }

  /**
   * For one more operation, the answers stay alike exactly unless an agent moves at the very reading of
   * a look that was stamped by the eager ledger alone.
   */
  lemma AlikeExactly(a: Option<Times>, b: Option<Times>, s: Session, p: Pane, e: Event)
    requires Alike(a, b) && Before(b, e.time)
    ensures Alike(PaneStep(a, s, p, e, false), PaneStep(b, s, p, e, true)) <==>
            !(e.session == s && e.op == NoteActive(p) && a.Some? && a.value.seenAt < b.value.seenAt == e.time)
  {}

  predicate IsLook(e: Event, s: Session, p: Pane) { e.session == s && e.op == NoteSeen(p) }
  predicate IsMove(e: Event, s: Session, p: Pane) { e.session == s && e.op == NoteActive(p) }

  /** The pane was looked at when the clock read `t`, and not marked unread since. */
  predicate LookedAt(es: seq<Event>, s: Session, p: Pane, t: int) {
    if es == [] then false else
    var e := es[|es| - 1];
    if IsLook(e, s, p) && e.time == t then true
    else !(e.session == s && e.op == NoteUnseen(p)) && LookedAt(es[..|es| - 1], s, p, t)
  }

  /** No agent moves at the reading of a look that the ledger, which has an older stamp, has skipped. */
  predicate NoTie(es: seq<Event>, s: Session, p: Pane) {
    if es == [] then true else
    var before, e := es[..|es| - 1], es[|es| - 1];
    var a := Look(Run(before, false), s, p);
    NoTie(before, s, p) && !(IsMove(e, s, p) && a.Some? && a.value.seenAt < e.time && LookedAt(before, s, p, e.time))
  }

  /** After every operation so far the two ledgers told the same story. */
  predicate AlikeThroughout(es: seq<Event>, s: Session, p: Pane) {
    && Alike(Look(Run(es, false), s, p), Look(Run(es, true), s, p))
    && (es != [] ==> AlikeThroughout(es[..|es| - 1], s, p))
  }

  lemma {:induction false} EagerStampsLooks(es: seq<Event>, s: Session, p: Pane, now: int)
    requires Ordered(es, now)
    ensures Before(Look(Run(es, true), s, p), now)
    ensures LookedAt(es, s, p, now) ==>
              es != [] && es[|es| - 1].time == now &&
              (Look(Run(es, true), s, p).Some? ==> Look(Run(es, true), s, p).value.seenAt == now)
  {
    if es != [] {
      var before, e := es[..|es| - 1], es[|es| - 1];
      EagerStampsLooks(before, s, p, e.time);
      PanesAreApart(Run(before, true), e, true, s, p);
      if LookedAt(es, s, p, now) && !(IsLook(e, s, p) && e.time == now) { LookedNotLater(before, s, p, now, e.time); }
    }
  }

  lemma {:induction false} LookedNotLater(es: seq<Event>, s: Session, p: Pane, t: int, now: int)
    requires Ordered(es, now) && LookedAt(es, s, p, t)
    ensures t <= now
  {
    var e := es[|es| - 1];
    if !(IsLook(e, s, p) && e.time == t) { LookedNotLater(es[..|es| - 1], s, p, t, e.time); }
  }

  lemma {:induction false} AheadOnlyByLook(es: seq<Event>, s: Session, p: Pane, now: int)
    requires Ordered(es, now) && AlikeThroughout(es, s, p)
    ensures
      var a, b := Look(Run(es, false), s, p), Look(Run(es, true), s, p);
      a.Some? && a.value.seenAt < b.value.seenAt == now ==> LookedAt(es, s, p, now)
  {
    if es != [] {
      var before, e := es[..|es| - 1], es[|es| - 1];
      var a, b := Look(Run(before, false), s, p), Look(Run(before, true), s, p);
      PanesAreApart(Run(before, false), e, false, s, p);
      PanesAreApart(Run(before, true), e, true, s, p);
      EagerStampsLooks(before, s, p, e.time);
      if e.time == now || (b.Some? && b.value.seenAt == now) { AheadOnlyByLook(before, s, p, now); }
    }
  }

  /**
   * Over a whole run under a clock that does not run back, the throttled ledger tells the eager one's
   * story exactly when no agent moves at the reading of a skipped look.
   */
  lemma {:induction false} AlikeThroughoutExactly(es: seq<Event>, s: Session, p: Pane, now: int)
    requires Ordered(es, now)
    ensures AlikeThroughout(es, s, p) <==> NoTie(es, s, p)
  {
    if es != [] {
      var before, e := es[..|es| - 1], es[|es| - 1];
      AlikeThroughoutExactly(before, s, p, e.time);
      if AlikeThroughout(before, s, p) {
        PanesAreApart(Run(before, false), e, false, s, p);
        PanesAreApart(Run(before, true), e, true, s, p);
        EagerStampsLooks(before, s, p, e.time);
        AheadOnlyByLook(before, s, p, e.time);
        AlikeExactly(Look(Run(before, false), s, p), Look(Run(before, true), s, p), s, p, e);
      }
    }
  }

  lemma {:induction false} LookedAtSomewhere(es: seq<Event>, s: Session, p: Pane, t: int) returns (i: nat)
    requires LookedAt(es, s, p, t)
    ensures i < |es| && IsLook(es[i], s, p) && es[i].time == t
  {
    i := |es| - 1;
    if !(IsLook(es[i], s, p) && es[i].time == t) { i := LookedAtSomewhere(es[..|es| - 1], s, p, t); }
  }

  lemma {:induction false} SeparateReadingsNeverTie(es: seq<Event>, s: Session, p: Pane)
    requires forall i, j :: 0 <= i < j < |es| && IsLook(es[i], s, p) && IsMove(es[j], s, p) ==> es[i].time != es[j].time
    ensures NoTie(es, s, p)
  {
    if es != [] {
      var n := |es| - 1;
      SeparateReadingsNeverTie(es[..n], s, p);
      if IsMove(es[n], s, p) && LookedAt(es[..n], s, p, es[n].time) {
        var i := LookedAtSomewhere(es[..n], s, p, es[n].time);
        assert false;
      }
    }
  }

  /**
   * Whatever is done, under a clock that does not run back and with no move of this pane at the reading of
   * an earlier look at it, the throttled ledger knows the pane whenever the eager one does, with the same
   * moves and the same unread answers, and stamps less than 30 s behind.
   */
  lemma ThrottledSimulatesEager(es: seq<Event>, s: Session, p: Pane, now: int)
    requires Ordered(es, now)
    requires forall i, j :: 0 <= i < j < |es| && IsLook(es[i], s, p) && IsMove(es[j], s, p) ==> es[i].time != es[j].time
    ensures AlikeThroughout(es, s, p)
  {
    SeparateReadingsNeverTie(es, s, p);
    AlikeThroughoutExactly(es, s, p, now);
  }

  /** With two equal readings of the clock the two ledgers do answer differently. */
  lemma EqualReadingsDiffer()
    ensures
      var es := [Event("s", 0, EnsurePane("p")), Event("s", 1, NoteSeen("p")), Event("s", 1, NoteActive("p"))];
      && Look(Run(es, false), "s", "p") == Some(Times(1, 0)) && Look(Run(es, true), "s", "p") == Some(Times(1, 1))
      && Unread(Times(1, 0)) && !Unread(Times(1, 1))
  {
    var es := [Event("s", 0, EnsurePane("p")), Event("s", 1, NoteSeen("p")), Event("s", 1, NoteActive("p"))];
    assert es[..2][..1] == es[..1] && es[..1][..0] == [];
    RunThree(es, false);
    RunThree(es, true);
    PanesAreApart(map[], es[0], false, "s", "p");
    PanesAreApart(Step(map[], es[0], false), es[1], false, "s", "p");
    PanesAreApart(Step(Step(map[], es[0], false), es[1], false), es[2], false, "s", "p");
    PanesAreApart(map[], es[0], true, "s", "p");
    PanesAreApart(Step(map[], es[0], true), es[1], true, "s", "p");
    PanesAreApart(Step(Step(map[], es[0], true), es[1], true), es[2], true, "s", "p");
  }

  lemma RunThree(es: seq<Event>, eager: bool)
    requires |es| == 3
    ensures Run(es, eager) == Step(Step(Step(map[], es[0], eager), es[1], eager), es[2], eager)
  {
    assert es[..2][..1] == es[..1] && es[..1][..0] == [];
    assert Run(es[..1], eager) == Step(map[], es[0], eager);
    assert Run(es[..2], eager) == Step(Run(es[..1], eager), es[1], eager);
  }

  // ---- How often a look changes the ledger ----

  /** `noteSeen`'s answer: the entry changed, so a snapshot is pushed. */
  predicate Changes(l: Ledger, s: Session, p: Pane, time: int) { !Skipped(Look(l, s, p), time) }

  /** The operation may make the pane unread, new or gone. */
  predicate Disturbs(e: Event, s: Session, p: Pane) {
    e.session == s && (e.op == NoteActive(p) || e.op == NoteUnseen(p) || e.op == Forget(p) ||
                       (e.op.Reconcile? && p !in e.op.live))
  }

  /** Event `i` behind `first` leaves the pane as it is: it does not disturb it and is no look that pushes for it. */
  ghost predicate QuietAt(first: seq<Event>, es: seq<Event>, i: nat, s: Session, p: Pane)
    requires i < |es|
  {
    && !Disturbs(es[i], s, p)
    && (es[i].session == s && es[i].op == NoteSeen(p) ==> !Changes(Run(first + es[..i], false), s, p, es[i].time))
  }

  ghost predicate Quiet(first: seq<Event>, es: seq<Event>, s: Session, p: Pane) {
    forall i :: 0 <= i < |es| ==> QuietAt(first, es, i, s, p)
  }

  /**
   * Over every run: a look that pushed at `time`, then anything that does not disturb the pane and no other
   * look that pushed for it; the next look that pushes comes 30 s later at the earliest.
   */
  lemma {:induction false} PushesAreApart(before: seq<Event>, s: Session, p: Pane, time: int, between: seq<Event>,
                                          next: int)
    requires
      var l := Run(before, false);
      Changes(l, s, p, time) && (Look(l, s, p) == None || Look(l, s, p).value.activeAt <= time)
    requires
      var first := before + [Event(s, time, NoteSeen(p))];
      Quiet(first, between, s, p) && Changes(Run(first + between, false), s, p, next)
    ensures next - time >= 30000
  {
    var look := Event(s, time, NoteSeen(p));
    var first := before + [look];
    assert first[..|before|] == before;
    PanesAreApart(Run(before, false), look, false, s, p);
    StampStays(first, s, p, between);
  }

  lemma StampStep(l: Ledger, s: Session, p: Pane, e: Event)
    requires Look(l, s, p).Some? && !Disturbs(e, s, p)
    requires e.session == s && e.op == NoteSeen(p) ==> !Changes(l, s, p, e.time)
    ensures Look(Step(l, e, false), s, p) == Look(l, s, p)
  {
    PanesAreApart(l, e, false, s, p);
  }

  lemma QuietFront(first: seq<Event>, es: seq<Event>, n: nat, s: Session, p: Pane)
    requires Quiet(first, es, s, p) && n <= |es|
    ensures Quiet(first, es[..n], s, p)
  {
    forall i | 0 <= i < n
      ensures QuietAt(first, es[..n], i, s, p)
    {
      assert QuietAt(first, es, i, s, p) && es[..n][..i] == es[..i];
    }
  }

  lemma {:induction false} StampStays(first: seq<Event>, s: Session, p: Pane, es: seq<Event>)
    requires Look(Run(first, false), s, p).Some? && Quiet(first, es, s, p)
    ensures Look(Run(first + es, false), s, p) == Look(Run(first, false), s, p)
  {
    if es == [] {
      assert first + es == first;
    } else {
      var n := |es| - 1;
      QuietFront(first, es, n, s, p);
      StampStays(first, s, p, es[..n]);
      assert (first + es)[..|first + es| - 1] == first + es[..n];
      assert QuietAt(first, es, n, s, p);
      StampStep(Run(first + es[..n], false), s, p, es[n]);
    }
  }

  /** After reconciling, the session has exactly the live panes, and known ones have kept their times. */
  lemma ReconcileLeavesLive(l: Ledger, s: Session, live: set<Pane>, time: int, s': Session, p: Pane)
    ensures
      var after := Look(Step(l, Event(s, time, Reconcile(live)), false), s', p);
      && (s' == s ==> (after.Some? <==> p in live) && (p in live && Look(l, s, p).Some? ==> after == Look(l, s, p)))
      && (s' == s && after.Some? && Look(l, s, p).None? ==> !Unread(after.value))
      && (s' != s ==> after == Look(l, s', p))
  {
    PanesAreApart(l, Event(s, time, Reconcile(live)), false, s', p);
  }

  // ---- The object ----

  /** No session is left with no panes. */
  predicate NoneEmpty(l: Ledger) { forall s :: s in l ==> l[s] != map[] }

  /** No run of operations leaves an empty session behind. */
  lemma {:induction false} RunLeavesNoneEmpty(es: seq<Event>, eager: bool)
    ensures NoneEmpty(Run(es, eager))
  {
    if es != [] {
      var l, e := Run(es[..|es| - 1], eager), es[|es| - 1];
      RunLeavesNoneEmpty(es[..|es| - 1], eager);
      match e.op
      case Reconcile(live) => ReconciledNoneEmpty(l, e.session, live, e.time);
      case Forget(p) => LookAfterDropAll(l, e.session, p);
      case _ => SetLeavesNoneEmpty(l, e, eager);
    }
  }

  lemma SetLeavesNoneEmpty(l: Ledger, e: Event, eager: bool)
    requires NoneEmpty(l) && !e.op.Reconcile? && !e.op.Forget?
    ensures NoneEmpty(Step(l, e, eager))
  {
    forall s | s in Step(l, e, eager)
      ensures Step(l, e, eager)[s] != map[]
    {
      if s == e.session && Step(l, e, eager) != l { assert e.op.pane in Step(l, e, eager)[s]; }
    }
  }

  /** No pane but this one has other times than before. */
  ghost predicate OthersKept(before: Ledger, after: Ledger, session: Session, pane: Pane) {
    forall s, p :: s != session || p != pane ==> Look(after, s, p) == Look(before, s, p)
  }

  class ActivityLedger {
    var bySession: Ledger
    var dirty: bool
    /** Everything that was done, and when. */
    ghost var history: seq<Event>

    /** The ledger is what the operations so far make of an empty one. */
    ghost predicate Valid()
      reads this
    {
      bySession == Run(history, false)
    }

    function Get(session: Session, pane: Pane): Option<Times>
      reads this
    {
      Look(bySession, session, pane)
    }

    constructor ()
      ensures Valid() && history == [] && !dirty
    {
      bySession, dirty, history := map[], false, [];
    }

    ghost method Record(session: Session, time: int, op: Op)
      requires bySession == Step(Run(history, false), Event(session, time, op), false)
      modifies this`history
      ensures Valid() && history == old(history) + [Event(session, time, op)]
    {
      assert (history + [Event(session, time, op)])[..|history|] == history;
      history := history + [Event(session, time, op)];
    }

    method Ensure(session: Session, pane: Pane, now: int)
      requires Valid()
      modifies this
      ensures Valid() && history == old(history) + [Event(session, now, EnsurePane(pane))]
      ensures Get(session, pane) ==
              (if old(Get(session, pane)).None? then Some(Times(now, now)) else old(Get(session, pane)))
      ensures OthersKept(old(bySession), bySession, session, pane)
      ensures dirty == (old(dirty) || old(Get(session, pane)).None?)
    {
      Seed(session, pane, now);
      Record(session, now, EnsurePane(pane));
    }

    /** What `ensure` does to the map. */
    method Seed(session: Session, pane: Pane, now: int)
      modifies this`bySession, this`dirty
      ensures bySession == Step(old(bySession), Event(session, now, EnsurePane(pane)), false)
      ensures dirty == (old(dirty) || Look(old(bySession), session, pane).None?)
    {
      if session in bySession && pane in bySession[session] { return; }
      var panes := Panes(bySession, session);
      bySession := bySession[session := panes[pane := Times(now, now)]];
      dirty := true;
    }

    method MarkActive(session: Session, pane: Pane, now: int)
      requires Valid()
      modifies this
      ensures Valid() && history == old(history) + [Event(session, now, NoteActive(pane))]
      ensures Get(session, pane) ==
              Some(Times(now, if old(Get(session, pane)).Some? then old(Get(session, pane)).value.seenAt else now))
      ensures dirty
      ensures Unread(Get(session, pane).value) <==>
              old(Get(session, pane)).Some? && old(Get(session, pane)).value.seenAt < now
      ensures OthersKept(old(bySession), bySession, session, pane)
    {
      var panes := Panes(bySession, session);
      var seenAt := if pane in panes then panes[pane].seenAt else now;
      bySession := bySession[session := panes[pane := Times(now, seenAt)]];
      dirty := true;
      Record(session, now, NoteActive(pane));
    }

    /**
     * A look: afterwards the pane is known, its moves are as they were, it is read unless it moved in the
     * future of this look, and its stamp is less than 30 s old. The answer says whether the stamp moved.
     */
    method MarkSeen(session: Session, pane: Pane, now: int) returns (changed: bool)
      requires Valid()
      modifies this
      ensures Valid() && history == old(history) + [Event(session, now, NoteSeen(pane))]
      ensures Get(session, pane).Some? && now - Get(session, pane).value.seenAt < 30000
      ensures Get(session, pane).value.activeAt ==
              (if old(Get(session, pane)).Some? then old(Get(session, pane)).value.activeAt else now)
      ensures Get(session, pane).value.activeAt <= now ==> !Unread(Get(session, pane).value)
      ensures changed ==> Get(session, pane).value.seenAt == now
      ensures !changed ==> bySession == old(bySession) && !Unread(Get(session, pane).value)
      ensures changed <==> old(Get(session, pane)).None? || Unread(old(Get(session, pane)).value) ||
                           now - old(Get(session, pane)).value.seenAt >= 30000
      ensures OthersKept(old(bySession), bySession, session, pane) && dirty == (old(dirty) || changed)
    {
      var panes := Panes(bySession, session);
      if pane in panes && panes[pane].seenAt >= panes[pane].activeAt && now - panes[pane].seenAt < REFRESH {
        changed := false;
      } else {
        var activeAt := if pane in panes then panes[pane].activeAt else now;
        bySession := bySession[session := panes[pane := Times(activeAt, now)]];
        dirty := true;
        changed := true;
      }
      Record(session, now, NoteSeen(pane));
    }

    method MarkUnseen(session: Session, pane: Pane, now: int) returns (changed: bool)
      requires Valid()
      modifies this
      ensures Valid() && history == old(history) + [Event(session, now, NoteUnseen(pane))]
      ensures changed <==> !(old(Get(session, pane)).Some? && Unread(old(Get(session, pane)).value))
      ensures Get(session, pane).Some? && Unread(Get(session, pane).value)
      ensures changed ==> Get(session, pane).value.seenAt == Get(session, pane).value.activeAt - 1
      ensures Get(session, pane).value.activeAt ==
              (if old(Get(session, pane)).Some? then old(Get(session, pane)).value.activeAt else now)
      ensures (!changed ==> bySession == old(bySession)) && OthersKept(old(bySession), bySession, session, pane)
    {
      var panes := Panes(bySession, session);
      if pane in panes && panes[pane].activeAt > panes[pane].seenAt {
        changed := false;
      } else {
        var activeAt := if pane in panes then panes[pane].activeAt else now;
        bySession := bySession[session := panes[pane := Times(activeAt, activeAt - 1)]];
        dirty := true;
        changed := true;
      }
      Record(session, now, NoteUnseen(pane));
    }

    method ForgetPane(session: Session, pane: Pane, ghost now: int)
      requires Valid()
      modifies this
      ensures Valid() && history == old(history) + [Event(session, now, Forget(pane))]
      ensures Get(session, pane).None? && OthersKept(old(bySession), bySession, session, pane)
      ensures dirty == (old(dirty) || old(Get(session, pane)).Some?)
    {
      RunLeavesNoneEmpty(history, false);
      LookAfterDropAll(bySession, session, pane);
      Unseat(session, pane);
      Record(session, now, Forget(pane));
    }

    /** What `forget` does to the map. */
    method Unseat(session: Session, pane: Pane)
      modifies this`bySession, this`dirty
      ensures bySession == Drop(old(bySession), session, pane)
      ensures dirty == (old(dirty) || Look(old(bySession), session, pane).Some?)
    {
      if session !in bySession || pane !in bySession[session] { return; }
      var panes := bySession[session] - {pane};
      bySession := if panes == map[] then bySession - {session} else bySession[session := panes];
      dirty := true;
    }

    method ReconcilePanes(session: Session, live: set<Pane>, now: int)
      requires Valid()
      modifies this
      ensures Valid() && history == old(history) + [Event(session, now, Reconcile(live))]
      ensures forall p :: p !in live ==> Get(session, p).None?
      ensures forall p :: p in live ==>
                Get(session, p) == if old(Get(session, p)).Some? then old(Get(session, p)) else Some(Times(now, now))
      ensures forall s, p :: s != session ==> Get(s, p) == old(Get(s, p))
    {
      ghost var l := bySession;
      RunLeavesNoneEmpty(history, false);
      var left := live;
      while left != {}
        invariant left <= live && NoneEmpty(bySession) && history == old(history)
        invariant forall s, p :: Look(bySession, s, p) ==
                    if s == session && p in live - left && Look(l, s, p).None?
                    then Some(Times(now, now)) else Look(l, s, p)
        decreases left
      {
        var p :| p in left;
        LookAfterSetAll(bySession, session, p, Times(now, now));
        Seed(session, p, now);
        left := left - {p};
      }
      ghost var seeded := bySession;
      var gone := Panes(bySession, session).Keys - live;
      while gone != {}
        invariant gone !! live && NoneEmpty(bySession) && history == old(history)
        invariant forall s, p :: Look(bySession, s, p) ==
                    if s == session && p !in live && p !in gone then None else Look(seeded, s, p)
        decreases gone
      {
        var p :| p in gone;
        LookAfterDropAll(bySession, session, p);
        Unseat(session, p);
        gone := gone - {p};
      }
      forall s, p
        ensures Look(bySession, s, p) == Look(Reconciled(l, session, live, now), s, p)
      {
      }
      ReconciledNoneEmpty(l, session, live, now);
      LedgersEqual(bySession, Reconciled(l, session, live, now));
      Record(session, now, Reconcile(live));
    }
  }

  lemma LookAfterSetAll(l: Ledger, s: Session, p: Pane, t: Times)
    ensures forall s', p' :: Look(Set(l, s, p, t), s', p') == if s' == s && p' == p then Some(t) else Look(l, s', p')
  {}

  lemma LookAfterDropAll(l: Ledger, s: Session, p: Pane)
    requires NoneEmpty(l)
    ensures forall s', p' :: Look(Drop(l, s, p), s', p') == if s' == s && p' == p then None else Look(l, s', p')
    ensures NoneEmpty(Drop(l, s, p))
  {
    forall s', p'
      ensures Look(Drop(l, s, p), s', p') == if s' == s && p' == p then None else Look(l, s', p')
    {
      LookAfterDrop(l, s, p, s', p');
    }
  }

  lemma ReconciledNoneEmpty(l: Ledger, s: Session, live: set<Pane>, t: int)
    requires NoneEmpty(l)
    ensures NoneEmpty(Reconciled(l, s, live, t))
  {
    if live != {} {
      var p :| p in live;
      assert p in Reconciled(l, s, live, t)[s];
    }
  }

  /** Ledgers without empty sessions are told apart by looking. */
  lemma LedgersEqual(a: Ledger, b: Ledger)
    requires NoneEmpty(a) && NoneEmpty(b)
    requires forall s, p :: Look(a, s, p) == Look(b, s, p)
    ensures a == b
  {
    SessionsIncluded(a, b);
    SessionsIncluded(b, a);
    forall s | s in a
      ensures a[s] == b[s]
    {
      forall p
        ensures p in a[s] <==> p in b[s]
        ensures p in a[s] ==> a[s][p] == b[s][p]
      {
        assert Look(a, s, p) == Look(b, s, p);
      }
    }
  }

  lemma SessionsIncluded(a: Ledger, b: Ledger)
    requires NoneEmpty(a) && forall s, p :: Look(a, s, p) == Look(b, s, p)
    ensures a.Keys <= b.Keys
  {
    forall s | s in a
      ensures s in b
    {
      assert a[s].Keys != {};
      var p :| p in a[s];
      assert Look(a, s, p) == Look(b, s, p);
    }
  }
}
