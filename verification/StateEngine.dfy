/**
 * The poll loop's bookkeeping: the working-to-resting status hold, the transitions and removals read
 * off consecutive polls, the link machine that absorbs one time-out, and the queued follow-up poll.
 */
module StateEngine {
  import opened Options

  type PaneId = string

  datatype Status = Idle | Working | Blocked | Done | Unknown

  const STATUS_HOLD_MS := 3000
  const TRANSIENT_FLIP_AT := 2

  predicate Resting(s: Status) { s.Idle? || s.Done? || s.Unknown? }

  // ---- Status hold and publishing, one poll at a time ----

  /** What one successful poll read: the raw status of every live agent pane, at a clock reading. */
  datatype Poll = Poll(now: int, raw: map<PaneId, Status>)

  /** `prevStatus` and `statusHold` of the engine. */
  datatype Herd = Herd(published: map<PaneId, Status>, hold: map<PaneId, int>)

  datatype Held = Held(status: Status, since: Option<int>)

  function Get<T>(m: map<PaneId, T>, id: PaneId): Option<T> { if id in m then Some(m[id]) else None }

  /** The hold's verdict on one pane: what to publish, and since when it is held (if it is). */
  function HoldOne(prev: Option<Status>, since: Option<int>, raw: Status, now: int): Held {
    if prev == Some(Working) && Resting(raw) then
      match since
      case None => Held(Working, Some(now))
      case Some(t) => if now - t < STATUS_HOLD_MS then Held(Working, since) else Held(raw, None)
    else
      Held(raw, None)
  }

  function Verdict(h: Herd, now: int, id: PaneId, raw: Status): Held {
    HoldOne(Get(h.published, id), Get(h.hold, id), raw, now)
  }

  function AfterPoll(h: Herd, p: Poll): Herd {
    Herd(map id | id in p.raw :: Verdict(h, p.now, id, p.raw[id]).status,
         map id | id in p.raw && Verdict(h, p.now, id, p.raw[id]).since.Some? ::
           Verdict(h, p.now, id, p.raw[id]).since.value)
  }

  const EMPTY := Herd(map[], map[])

  function AfterPolls(polls: seq<Poll>): Herd {
    if polls == [] then EMPTY else AfterPoll(AfterPolls(polls[..|polls| - 1]), polls[|polls| - 1])
  }

  // ---- The hold in closed form ----

  predicate RestsAt(p: Poll, id: PaneId) { id in p.raw && Resting(p.raw[id]) }

  /** Where the unbroken run of resting polls that ends the history begins. */
  function StreakStart(polls: seq<Poll>, id: PaneId): (i: nat)
    ensures i <= |polls|
  {
    if polls == [] || !RestsAt(polls[|polls| - 1], id) then |polls|
    else StreakStart(polls[..|polls| - 1], id)
  }

  lemma {:induction false} StreakIs(polls: seq<Poll>, id: PaneId)
    ensures forall k :: StreakStart(polls, id) <= k < |polls| ==> RestsAt(polls[k], id)
    ensures var i := StreakStart(polls, id); i > 0 ==> !RestsAt(polls[i - 1], id)
  {
    if polls != [] { StreakIs(polls[..|polls| - 1], id); }
  }

  /** The resting streak directly follows a working poll and no poll of it came 3 s after its first. */
  predicate HeldNow(polls: seq<Poll>, id: PaneId) {
    var i := StreakStart(polls, id);
    && 0 < i < |polls|
    && id in polls[i - 1].raw && polls[i - 1].raw[id] == Working
    && forall k :: i <= k < |polls| ==> polls[k].now - polls[i].now < STATUS_HOLD_MS
  }

  /** The engine's two maps are what the whole history says they should be. */
  ghost predicate HoldMatches(polls: seq<Poll>, id: PaneId) {
    var h := AfterPolls(polls);
    && (id in h.published <==> polls != [] && id in polls[|polls| - 1].raw)
    && (id in h.hold <==> HeldNow(polls, id))
    && (id in h.published ==>
          h.published[id] == if HeldNow(polls, id) then Working else polls[|polls| - 1].raw[id])
    && (id in h.hold ==> h.hold[id] == polls[StreakStart(polls, id)].now)
  }

  lemma StreakGrows(polls: seq<Poll>, p: Poll, id: PaneId)
    ensures StreakStart(polls + [p], id) == if RestsAt(p, id) then StreakStart(polls, id) else |polls| + 1
  {
    assert (polls + [p])[..|polls|] == polls;
  }

  predicate WorkingLast(polls: seq<Poll>, id: PaneId) {
    polls != [] && id in polls[|polls| - 1].raw && polls[|polls| - 1].raw[id] == Working
  }

  lemma HeldGrows(polls: seq<Poll>, p: Poll, id: PaneId)
    ensures HeldNow(polls + [p], id) <==>
            RestsAt(p, id) &&
            (WorkingLast(polls, id) ||
             (HeldNow(polls, id) && p.now - polls[StreakStart(polls, id)].now < STATUS_HOLD_MS))
  {
    var all, i := polls + [p], StreakStart(polls, id);
    StreakGrows(polls, p, id);
    if RestsAt(p, id) && i < |polls| {
      StreakIs(polls, id);
      assert RestsAt(polls[|polls| - 1], id);
      assert forall k :: i <= k < |polls| ==> all[k] == polls[k];
      HeldWithin(polls, p, id, i);
    }
  }

  lemma HeldWithin(polls: seq<Poll>, p: Poll, id: PaneId, i: nat)
    requires i < |polls|
    ensures
      var all := polls + [p];
      (forall k :: i <= k < |all| ==> all[k].now - all[i].now < STATUS_HOLD_MS) <==>
      (forall k :: i <= k < |polls| ==> polls[k].now - polls[i].now < STATUS_HOLD_MS) &&
        p.now - polls[i].now < STATUS_HOLD_MS
  {
    var all := polls + [p];
    assert forall k :: i <= k < |polls| ==> all[k] == polls[k];
    assert all[|polls|] == p;
  }

  lemma AfterPollAt(h: Herd, p: Poll, id: PaneId)
    ensures
      var after := AfterPoll(h, p);
      && (id in after.published <==> id in p.raw)
      && (id in after.hold <==> id in p.raw && Verdict(h, p.now, id, p.raw[id]).since.Some?)
      && (id in p.raw ==> after.published[id] == Verdict(h, p.now, id, p.raw[id]).status)
      && (id in after.hold ==> after.hold[id] == Verdict(h, p.now, id, p.raw[id]).since.value)
  {}

  lemma HoldStep(polls: seq<Poll>, p: Poll, id: PaneId)
    requires HoldMatches(polls, id)
    ensures HoldMatches(polls + [p], id)
  {
    assert (polls + [p])[..|polls|] == polls;
    AfterPollAt(AfterPolls(polls), p, id);
    StreakGrows(polls, p, id);
    HeldGrows(polls, p, id);
  }

  /**
   * The incremental hold equals its closed form over every history of polls: a pane is published as
   * working exactly when it is, or while its resting streak is held.
   */
  lemma {:induction false} HoldEqualsClosedForm(polls: seq<Poll>, id: PaneId)
    ensures HoldMatches(polls, id)
  {
    if polls != [] {
      var front, p := polls[..|polls| - 1], polls[|polls| - 1];
      HoldEqualsClosedForm(front, id);
      HoldStep(front, p, id);
      assert polls == front + [p];
    }
  }

  /** Under a clock that never runs back, only the time since the streak's first poll counts. */
  lemma HoldUnderMonotoneClock(polls: seq<Poll>, id: PaneId)
    requires forall a, b :: 0 <= a < b < |polls| ==> polls[a].now <= polls[b].now
    requires polls != [] && RestsAt(polls[|polls| - 1], id)
    ensures id in AfterPolls(polls).published
    ensures
      var i := StreakStart(polls, id);
      AfterPolls(polls).published[id] ==
        if i > 0 && id in polls[i - 1].raw && polls[i - 1].raw[id] == Working &&
           polls[|polls| - 1].now - polls[i].now < STATUS_HOLD_MS
        then Working else polls[|polls| - 1].raw[id]
  {
    HoldEqualsClosedForm(polls, id);
    StreakIs(polls, id);
    assert StreakStart(polls, id) < |polls|;
  }

  /** A blocked or working pane is published as such at once, whatever was published before. */
  lemma OnlyRestIsHeld(polls: seq<Poll>, id: PaneId)
    requires polls != [] && id in polls[|polls| - 1].raw
    requires polls[|polls| - 1].raw[id] == Blocked || polls[|polls| - 1].raw[id] == Working
    ensures Get(AfterPolls(polls).published, id) == Some(polls[|polls| - 1].raw[id])
  {
    HoldEqualsClosedForm(polls, id);
  }

  /** At poll `w` the pane was working, and it has been at rest ever since, never 3 s past the first such poll. */
  ghost predicate JustWorked(polls: seq<Poll>, id: PaneId, w: nat) {
    && w + 1 < |polls| && id in polls[w].raw && polls[w].raw[id] == Working
    && forall k :: w < k < |polls| ==>
         && id in polls[k].raw && (polls[k].raw[id] == Idle || polls[k].raw[id] == Done || polls[k].raw[id] == Unknown)
         && polls[k].now - polls[w + 1].now < 3000
  }

  lemma HeldIsJustWorked(polls: seq<Poll>, id: PaneId)
    ensures HeldNow(polls, id) <==> exists w: nat :: JustWorked(polls, id, w)
  {
    var i := StreakStart(polls, id);
    StreakIs(polls, id);
    if HeldNow(polls, id) {
      assert forall k :: i <= k < |polls| ==> RestsAt(polls[k], id);
      var w: nat := i - 1;
      assert JustWorked(polls, id, w);
    }
    if w: nat :| JustWorked(polls, id, w) {
      assert forall k :: w < k < |polls| ==> RestsAt(polls[k], id);
      assert !RestsAt(polls[w], id);
      assert i == w + 1;
    }
  }

  ghost predicate ReadsAsWorking(polls: seq<Poll>, id: PaneId) { exists w: nat :: JustWorked(polls, id, w) }

  /**
   * What is published of a live pane, from the raw readings alone: a pane that has just worked still
   * reads as working, and any other as it is.
   */
  lemma PublishedExactly(polls: seq<Poll>, id: PaneId)
    requires polls != [] && id in polls[|polls| - 1].raw
    ensures Get(AfterPolls(polls).published, id) ==
            Some(if ReadsAsWorking(polls, id) then Working else polls[|polls| - 1].raw[id])
  {
    HoldEqualsClosedForm(polls, id);
    HeldIsJustWorked(polls, id);
  }

  // ---- Transitions and removals ----

  /** What listeners hear about one pane: a changed status, or that it is gone. */
  datatype PaneEvent = Moved(from: Status, to: Status) | Gone

  /** The event of one poll for one pane, from what was published before and after it. */
  function PaneEvents(before: Option<Status>, after: Option<Status>): seq<PaneEvent> {
    match (before, after)
    case (Some(s), Some(t)) => if s != t then [Moved(s, t)] else []
    case (Some(_), None) => [Gone]
    case (None, _) => []
  }

  function Shown(polls: seq<Poll>, id: PaneId): Option<Status> { Get(AfterPolls(polls).published, id) }

  /** Everything heard about one pane over a whole run. */
  function Heard(polls: seq<Poll>, id: PaneId): seq<PaneEvent> {
    if polls == [] then [] else
    Heard(polls[..|polls| - 1], id) + PaneEvents(Shown(polls[..|polls| - 1], id), Shown(polls, id))
  }

  /** How often the pane was live in one poll and absent from the next. */
  function Disappearances(polls: seq<Poll>, id: PaneId): nat {
    if |polls| < 2 then 0 else
    var n := |polls| - 1;
    Disappearances(polls[..n], id) + if id in polls[n - 1].raw && id !in polls[n].raw then 1 else 0
  }

  function GoneCount(events: seq<PaneEvent>): nat {
    if events == [] then 0 else
    GoneCount(events[..|events| - 1]) + if events[|events| - 1].Gone? then 1 else 0
  }

  /** Transitions link up: each changes the status, and starts where the pane's last one ended. */
  ghost predicate Chained(events: seq<PaneEvent>) {
    && (forall k :: 0 <= k < |events| && events[k].Moved? ==> events[k].from != events[k].to)
    && (forall k, l :: 0 <= k < l < |events| && l == k + 1 && events[k].Moved? && events[l].Moved? ==>
          events[k].to == events[l].from)
  }

  lemma ChainGrows(front: seq<PaneEvent>, before: Option<Status>, after: Option<Status>)
    requires Chained(front)
    requires front != [] && front[|front| - 1].Moved? ==> before == Some(front[|front| - 1].to)
    ensures
      var all := front + PaneEvents(before, after);
      && Chained(all)
      && (all != [] && all[|all| - 1].Moved? ==> after == Some(all[|all| - 1].to))
      && GoneCount(all) == GoneCount(front) + if before.Some? && after.None? then 1 else 0
  {
    var e := PaneEvents(before, after);
    if e == [] {
      assert front + e == front;
    } else {
      ChainPush(front, e[0]);
      assert e == [e[0]];
    }
  }

  lemma ChainPush(front: seq<PaneEvent>, e: PaneEvent)
    requires Chained(front) && (e.Moved? ==> e.from != e.to)
    requires front != [] && front[|front| - 1].Moved? && e.Moved? ==> e.from == front[|front| - 1].to
    ensures Chained(front + [e]) && GoneCount(front + [e]) == GoneCount(front) + if e.Gone? then 1 else 0
  {
    GonePush(front, e);
    var all := front + [e];
    forall k | 0 <= k < |all| && all[k].Moved?
      ensures all[k].from != all[k].to
    {
      if k < |front| { assert all[k] == front[k]; }
    }
    forall k, l | 0 <= k < l < |all| && l == k + 1 && all[k].Moved? && all[l].Moved?
      ensures all[k].to == all[l].from
    {
      assert all[k] == front[k];
      if l < |front| { assert all[l] == front[l]; }
    }
  }

  lemma GonePush(front: seq<PaneEvent>, e: PaneEvent)
    ensures GoneCount(front + [e]) == GoneCount(front) + if e.Gone? then 1 else 0
  {
    assert (front + [e])[..|front|] == front;
  }

  /**
   * Over every run a pane's transitions form one chain that ends at what is published now, and each
   * disappearance is announced exactly once.
   */
  lemma {:induction false} TransitionsFormAChain(polls: seq<Poll>, id: PaneId)
    ensures Chained(Heard(polls, id))
    ensures Heard(polls, id) != [] && Heard(polls, id)[|Heard(polls, id)| - 1].Moved? ==>
              Shown(polls, id) == Some(Heard(polls, id)[|Heard(polls, id)| - 1].to)
    ensures GoneCount(Heard(polls, id)) == Disappearances(polls, id)
  {
    if polls != [] {
      var n := |polls| - 1;
      TransitionsFormAChain(polls[..n], id);
      ShownExactlyWhenLive(polls[..n], id);
      ShownExactlyWhenLive(polls, id);
      ChainGrows(Heard(polls[..n], id), Shown(polls[..n], id), Shown(polls, id));
    }
  }

  /** What a listener believes who saw a pane as `seen` and has followed the events since. */
  function Followed(seen: Option<Status>, events: seq<PaneEvent>): Option<Status> {
    if events == [] then seen else
    match events[|events| - 1]
    case Moved(_, to) => Some(to)
    case Gone => None
  }

  lemma FollowedMore(seen: Option<Status>, events: seq<PaneEvent>, before: Option<Status>, after: Option<Status>)
    requires Followed(seen, events) == before && before.Some?
    ensures Followed(seen, events + PaneEvents(before, after)) == after
  {
    if PaneEvents(before, after) == [] { assert events + [] == events; }
  }

  /** A listener who knows a pane's status after `n` polls stays up to date by its events, while it is live. */
  lemma {:induction false} ListenersKeepUp(polls: seq<Poll>, n: nat, id: PaneId)
    requires 0 < n <= |polls| && forall k :: n - 1 <= k < |polls| - 1 ==> id in polls[k].raw
    requires id in polls[n - 1].raw
    ensures Heard(polls[..n], id) <= Heard(polls, id)
    ensures Followed(Shown(polls[..n], id), Heard(polls, id)[|Heard(polls[..n], id)|..]) == Shown(polls, id)
  {
    if n == |polls| {
      assert polls[..n] == polls;
    } else {
      var front := polls[..|polls| - 1];
      assert front[..n] == polls[..n];
      ListenersKeepUp(front, n, id);
      ShownExactlyWhenLive(front, id);
      var heard, more := Heard(front, id), PaneEvents(Shown(front, id), Shown(polls, id));
      var k := |Heard(polls[..n], id)|;
      assert (heard + more)[k..] == heard[k..] + more;
      FollowedMore(Shown(polls[..n], id), heard[k..], Shown(front, id), Shown(polls, id));
    }
  }

  lemma ShownExactlyWhenLive(polls: seq<Poll>, id: PaneId)
    ensures Shown(polls, id).Some? <==> polls != [] && id in polls[|polls| - 1].raw
  {
    HoldEqualsClosedForm(polls, id);
  }

  // ---- The link machine ----

  datatype Outcome = Good | TimedOut | Failed

  datatype Link = Link(connected: bool, failures: nat)

  datatype LinkEvent = Up | Down | Slow

  function LinkStep(l: Link, o: Outcome): (Link, seq<LinkEvent>) {
    if o.Good? then
      (Link(true, 0), if l.connected then [] else [Up])
    else if l.connected && o.TimedOut? && l.failures + 1 < TRANSIENT_FLIP_AT then
      (Link(true, l.failures + 1), if l.failures + 1 == 1 then [Slow] else [])
    else
      (Link(false, 0), if l.connected then [Down] else [])
  }

  function LinkAfter(outcomes: seq<Outcome>): Link {
    if outcomes == [] then Link(false, 0)
    else LinkStep(LinkAfter(outcomes[..|outcomes| - 1]), outcomes[|outcomes| - 1]).0
  }

  function LinkHeard(outcomes: seq<Outcome>): seq<LinkEvent> {
    if outcomes == [] then [] else
    var front := outcomes[..|outcomes| - 1];
    LinkHeard(front) + LinkStep(LinkAfter(front), outcomes[|outcomes| - 1]).1
  }

  /** The link reads as up right after a good poll, and after one time-out directly behind one. */
  predicate UpAfter(outcomes: seq<Outcome>) {
    var n := |outcomes|;
    && n > 0
    && (outcomes[n - 1].Good? || (n > 1 && outcomes[n - 2].Good? && outcomes[n - 1].TimedOut?))
  }

  lemma {:induction false} LinkEqualsClosedForm(outcomes: seq<Outcome>)
    ensures LinkAfter(outcomes).connected <==> UpAfter(outcomes)
    ensures LinkAfter(outcomes).failures == if UpAfter(outcomes) && outcomes[|outcomes| - 1].TimedOut? then 1 else 0
  {
    if outcomes != [] { LinkEqualsClosedForm(outcomes[..|outcomes| - 1]); }
  }

  function UpsAndDowns(events: seq<LinkEvent>): seq<LinkEvent> {
    if events == [] then [] else
    UpsAndDowns(events[..|events| - 1]) + if events[|events| - 1].Slow? then [] else [events[|events| - 1]]
  }

  /** Events alternate, beginning with `Up`. */
  ghost predicate Alternate(events: seq<LinkEvent>) {
    forall k :: 0 <= k < |events| ==> events[k] == if k % 2 == 0 then Up else Down
  }

  lemma AlternateGrows(l: Link, o: Outcome, events: seq<LinkEvent>)
    requires Alternate(events) && (l.connected <==> |events| % 2 == 1)
    ensures
      var step := LinkStep(l, o);
      var all := events + if step.1 == [] || step.1[0].Slow? then [] else step.1;
      Alternate(all) && (step.0.connected <==> |all| % 2 == 1)
  {}

  lemma UpsAndDownsPush(events: seq<LinkEvent>, more: seq<LinkEvent>)
    requires |more| <= 1
    ensures UpsAndDowns(events + more) == UpsAndDowns(events) + if more == [] || more[0].Slow? then [] else more
  {
    if more == [] {
      assert events + more == events;
    } else {
      assert (events + more)[..|events|] == events && more == [more[0]];
    }
  }

  /** Link events strictly alternate, beginning with `Up`, and the last one tells how the link reads. */
  lemma {:induction false} LinkEventsAlternate(outcomes: seq<Outcome>)
    ensures Alternate(UpsAndDowns(LinkHeard(outcomes)))
    ensures LinkAfter(outcomes).connected <==> |UpsAndDowns(LinkHeard(outcomes))| % 2 == 1
  {
    if outcomes != [] {
      var front := outcomes[..|outcomes| - 1];
      LinkEventsAlternate(front);
      AlternateGrows(LinkAfter(front), outcomes[|outcomes| - 1], UpsAndDowns(LinkHeard(front)));
      UpsAndDownsPush(LinkHeard(front), LinkStep(LinkAfter(front), outcomes[|outcomes| - 1]).1);
    }
  }

  /** What a poll's end does to the link, in terms of the polls alone. */
  lemma LinkStepMeans(outcomes: seq<Outcome>, o: Outcome)
    ensures LinkAfter(outcomes + [o]) == LinkStep(LinkAfter(outcomes), o).0
    ensures
      var heard := LinkStep(LinkAfter(outcomes), o).1;
      && (heard == [Up] <==> !UpAfter(outcomes) && UpAfter(outcomes + [o]))
      && (heard == [Down] <==> UpAfter(outcomes) && !UpAfter(outcomes + [o]))
      && (heard == [Slow] <==> UpAfter(outcomes) && UpAfter(outcomes + [o]) && o.TimedOut?)
  {
    LinkEqualsClosedForm(outcomes);
    LinkEqualsClosedForm(outcomes + [o]);
    assert (outcomes + [o])[..|outcomes|] == outcomes;
  }

  /** The link goes down only on a failure that is no time-out, or on the second time-out in a row. */
  lemma DownOnlyWhenGone(outcomes: seq<Outcome>, o: Outcome)
    requires UpAfter(outcomes) && !UpAfter(outcomes + [o])
    ensures o.Failed? || (o.TimedOut? && outcomes[|outcomes| - 1].TimedOut?)
    ensures LinkHeard(outcomes + [o]) == LinkHeard(outcomes) + [Down]
  {
    LinkEqualsClosedForm(outcomes);
    assert (outcomes + [o])[..|outcomes|] == outcomes;
  }

  // ---- One poll at a time, and no poke lost ----

  /** `pending` (not in the engine): a poke arrived and no poll has begun since. */
  datatype Pace = Pace(started: bool, polling: bool, queued: bool, begun: nat, ended: nat, pending: bool)

  datatype PaceEvent = Start | Stop | Tick | Poke | Finished

  function Begin(s: Pace): Pace {
    if s.polling then s else s.(polling := true, begun := s.begun + 1, pending := false)
  }

  function PaceStep(s: Pace, e: PaceEvent): Pace {
    match e
    case Start => if s.started then s else Begin(s.(started := true))
    case Stop => s.(started := false, pending := false)
    case Tick => if s.started then Begin(s) else s
    case Poke =>
      if !s.started then s
      else if s.polling then s.(queued := true, pending := true)
      else Begin(s)
    case Finished =>
      if !s.polling then s else
      var s1 := s.(polling := false, ended := s.ended + 1, queued := false);
      if s.queued && s.started then Begin(s1) else s1
  }

  function PaceAfter(es: seq<PaceEvent>): Pace {
    if es == [] then Pace(false, false, false, 0, 0, false)
    else PaceStep(PaceAfter(es[..|es| - 1]), es[|es| - 1])
  }

  ghost predicate PaceOk(s: Pace) {
    && (s.pending ==> s.started && s.polling && s.queued)
    && s.begun == s.ended + (if s.polling then 1 else 0)
  }

  /**
   * Polls never overlap, and a poke is never lost: once the poll it fell into has finished, a newer
   * one has begun, unless the engine was stopped.
   */
  lemma {:induction false} NoPokeLost(es: seq<PaceEvent>)
    ensures PaceOk(PaceAfter(es))
    ensures PaceAfter(es).pending ==> !PaceAfter(es + [Finished]).pending
    ensures PaceAfter(es).pending ==> PaceAfter(es + [Finished]).begun == PaceAfter(es).begun + 1
  {
    if es != [] { NoPokeLost(es[..|es| - 1]); }
    assert (es + [Finished])[..|es|] == es;
  }

  lemma {:induction false} PromisedPoll(s: Pace, es: seq<PaceEvent>, more: seq<PaceEvent>)
    requires s == PaceAfter(es) && s.started && s.polling && s.queued && Stop !in more
    ensures
      var t := PaceAfter(es + more);
      t.started && if Finished in more then t.begun > s.begun else t.polling && t.queued && t.begun == s.begun
  {
    if more == [] {
      assert es + more == es;
    } else {
      PromisedPoll(s, es, more[..|more| - 1]);
      assert (es + more)[..|es + more| - 1] == es + more[..|more| - 1];
    }
  }

  /**
   * Over every run: a poke of a started engine begins a poll at once, or, when one is in flight, as soon as
   * that one has finished, whatever else happens short of a stop.
   */
  lemma PokesArePolled(es: seq<PaceEvent>, more: seq<PaceEvent>)
    requires PaceAfter(es).started && Stop !in more && (PaceAfter(es).polling ==> Finished in more)
    ensures PaceAfter(es + [Poke] + more).begun > PaceAfter(es).begun
  {
    assert (es + [Poke])[..|es|] == es;
    if PaceAfter(es).polling {
      PromisedPoll(PaceAfter(es + [Poke]), es + [Poke], more);
    } else {
      BegunStays(es + [Poke], more);
    }
  }

  lemma {:induction false} BegunStays(es: seq<PaceEvent>, more: seq<PaceEvent>)
    ensures PaceAfter(es + more).begun >= PaceAfter(es).begun
  {
    if more == [] {
      assert es + more == es;
    } else {
      BegunStays(es, more[..|more| - 1]);
      assert (es + more)[..|es + more| - 1] == es + more[..|more| - 1];
    }
  }

  /** A stopped engine begins no poll until it is started again. */
  lemma {:induction false} StoppedBeginsNothing(es: seq<PaceEvent>, more: seq<PaceEvent>)
    requires Start !in more
    ensures !PaceAfter(es + [Stop] + more).started
    ensures PaceAfter(es + [Stop] + more).begun == PaceAfter(es).begun
  {
    if more == [] {
      assert es + [Stop] + more == es + [Stop];
      assert (es + [Stop])[..|es|] == es;
    } else {
      var front := more[..|more| - 1];
      StoppedBeginsNothing(es, front);
      assert (es + [Stop] + more)[..|es + [Stop] + more| - 1] == es + [Stop] + front;
    }
  }

  // ---- The engine ----

  datatype Agent = Agent(id: PaneId, status: Status)

  /** What the listeners of one pane are told. */
  datatype Notice = Notice(id: PaneId, event: PaneEvent)

  ghost predicate Distinct(agents: seq<Agent>) {
    forall i, j :: 0 <= i < j < |agents| ==> agents[i].id != agents[j].id
  }

  ghost function Raw(agents: seq<Agent>): map<PaneId, Status> {
    if agents == [] then map[] else
    var n := |agents| - 1;
    Raw(agents[..n])[agents[n].id := agents[n].status]
  }

  predicate Lists(agents: seq<Agent>, id: PaneId) { exists i :: 0 <= i < |agents| && agents[i].id == id }

  lemma {:induction false} RawOf(agents: seq<Agent>, i: nat)
    requires Distinct(agents) && i < |agents|
    ensures agents[i].id in Raw(agents) && Raw(agents)[agents[i].id] == agents[i].status
  {
    if i < |agents| - 1 { RawOf(agents[..|agents| - 1], i); }
  }

  lemma {:induction false} RawLists(agents: seq<Agent>, id: PaneId)
    ensures id in Raw(agents) <==> Lists(agents, id)
  {
    if agents != [] {
      var n := |agents| - 1;
      RawLists(agents[..n], id);
      if Lists(agents[..n], id) {
        var i :| 0 <= i < n && agents[..n][i].id == id;
        assert agents[i].id == id;
      }
      if Lists(agents, id) && agents[n].id != id {
        var i :| 0 <= i < |agents| && agents[i].id == id;
        assert agents[..n][i].id == id;
      }
      assert agents[n].id == id ==> Lists(agents, id);
    }
  }

  function SetHold(hold: map<PaneId, int>, id: PaneId, since: Option<int>): map<PaneId, int> {
    if since.Some? then hold[id := since.value] else hold - {id}
  }

  /** The hold map with the verdicts of the first `i` agents in place. */
  ghost predicate HoldSoFar(before: Herd, p: Poll, agents: seq<Agent>, i: nat, hold: map<PaneId, int>)
    requires Distinct(agents) && p.raw == Raw(agents)
  {
    && (forall id :: id in hold ==> id in p.raw)
    && (forall k: nat :: k < |agents| ==> Settled(before, p, agents, i, hold, k))
  }

  ghost predicate Settled(before: Herd, p: Poll, agents: seq<Agent>, i: nat, hold: map<PaneId, int>, k: nat)
    requires Distinct(agents) && p.raw == Raw(agents) && k < |agents|
  {
    Get(hold, agents[k].id) ==
    if k < i then Verdict(before, p.now, agents[k].id, agents[k].status).since else Get(before.hold, agents[k].id)
  }

  lemma HoldStarts(before: Herd, p: Poll, agents: seq<Agent>, hold: map<PaneId, int>)
    requires Distinct(agents) && p.raw == Raw(agents)
    requires hold == map id | id in before.hold && Lists(agents, id) :: before.hold[id]
    ensures HoldSoFar(before, p, agents, 0, hold)
  {
    forall k: nat | k < |agents|
      ensures Settled(before, p, agents, 0, hold, k)
    {
      assert Lists(agents, agents[k].id);
    }
    ListsRaw(agents);
  }

  /** The verdict on the next agent is the one on the herd before the pass, and setting it carries on. */
  lemma VerdictStands(before: Herd, p: Poll, agents: seq<Agent>, i: nat, hold: map<PaneId, int>, now': Herd)
    requires Distinct(agents) && p.raw == Raw(agents) && i < |agents| && HoldSoFar(before, p, agents, i, hold)
    requires now' == Herd(before.published, hold)
    ensures
      var verdict := Verdict(before, p.now, agents[i].id, agents[i].status);
      && Verdict(now', p.now, agents[i].id, agents[i].status) == verdict
      && HoldSoFar(before, p, agents, i + 1, SetHold(hold, agents[i].id, verdict.since))
  {
    HoldSoFarNext(before, p, agents, i, hold);
    assert Settled(before, p, agents, i, hold, i);
  }

  lemma HoldSoFarNext(before: Herd, p: Poll, agents: seq<Agent>, i: nat, hold: map<PaneId, int>)
    requires Distinct(agents) && p.raw == Raw(agents) && i < |agents| && HoldSoFar(before, p, agents, i, hold)
    ensures HoldSoFar(before, p, agents, i + 1,
                      SetHold(hold, agents[i].id, Verdict(before, p.now, agents[i].id, agents[i].status).since))
  {
    RawOf(agents, i);
    var hold', next := SetHold(hold, agents[i].id, Verdict(before, p.now, agents[i].id, agents[i].status).since), i + 1;
    forall k: nat | k < |agents|
      ensures Settled(before, p, agents, next, hold', k)
    {
      assert Settled(before, p, agents, i, hold, k);
      assert k != i ==> agents[k].id != agents[i].id;
    }
  }

  lemma HoldSoFarAll(before: Herd, p: Poll, agents: seq<Agent>, hold: map<PaneId, int>)
    requires Distinct(agents) && p.raw == Raw(agents) && HoldSoFar(before, p, agents, |agents|, hold)
    ensures hold == AfterPoll(before, p).hold
  {
    forall id | id in p.raw
      ensures Get(hold, id) == Verdict(before, p.now, id, p.raw[id]).since
    {
      RawLists(agents, id);
      var k :| 0 <= k < |agents| && agents[k].id == id;
      RawOf(agents, k);
      assert Settled(before, p, agents, |agents|, hold, k);
    }
  }

  function Notices(id: PaneId, events: seq<PaneEvent>): (r: seq<Notice>)
    ensures |r| == |events|
  {
    seq(|events|, k requires 0 <= k < |events| => Notice(id, events[k]))
  }

  /** The transition of one agent, if it makes one. */
  function Change(before: map<PaneId, Status>, a: Agent): seq<Notice> {
    Notices(a.id, PaneEvents(Get(before, a.id), Some(a.status)))
  }

  /** The transitions of a whole herd, in herd order. */
  function Changes(before: map<PaneId, Status>, agents: seq<Agent>): seq<Notice> {
    if agents == [] then [] else
    Changes(before, agents[..|agents| - 1]) + Change(before, agents[|agents| - 1])
  }

  function Recorded(before: map<PaneId, Status>, agents: seq<Agent>): map<PaneId, Status> {
    if agents == [] then before else
    Recorded(before, agents[..|agents| - 1])[agents[|agents| - 1].id := agents[|agents| - 1].status]
  }

  lemma {:induction false} RecordedIs(before: map<PaneId, Status>, agents: seq<Agent>)
    ensures Recorded(before, agents) == before + Raw(agents)
  {
    if agents != [] {
      var last := agents[|agents| - 1];
      RecordedIs(before, agents[..|agents| - 1]);
      assert before + Raw(agents[..|agents| - 1])[last.id := last.status] ==
             (before + Raw(agents[..|agents| - 1]))[last.id := last.status];
    }
  }

  /** Each pane that was published with another status fires once, and no other pane does. */
  lemma {:induction false} ChangesAreExact(before: map<PaneId, Status>, agents: seq<Agent>, id: PaneId)
    requires Distinct(agents)
    ensures Of(Changes(before, agents), id) ==
            if id in Raw(agents) then PaneEvents(Get(before, id), Some(Raw(agents)[id])) else []
  {
    if agents != [] {
      var n := |agents| - 1;
      ChangesAreExact(before, agents[..n], id);
      NotYetListed(agents, n);
      OfAppend(Changes(before, agents[..n]), Change(before, agents[n]), id);
      ChangeOf(before, agents[n], id);
    }
  }

  lemma ChangeOf(before: map<PaneId, Status>, a: Agent, id: PaneId)
    ensures Of(Change(before, a), id) == if a.id == id then PaneEvents(Get(before, id), Some(a.status)) else []
  {
    var c := Change(before, a);
    if c != [] { assert c[..0] == []; }
  }

  /** What was fired about one pane. */
  function Of(fired: seq<Notice>, id: PaneId): seq<PaneEvent> {
    if fired == [] then [] else
    Of(fired[..|fired| - 1], id) + if fired[|fired| - 1].id == id then [fired[|fired| - 1].event] else []
  }

  lemma OfAppend(fired: seq<Notice>, more: seq<Notice>, id: PaneId)
    requires |more| <= 1
    ensures Of(fired + more, id) == Of(fired, id) + Of(more, id)
  {
    if more == [] {
      assert fired + more == fired;
    } else {
      assert (fired + more)[..|fired|] == fired && more[..0] == [];
    }
  }

  /** Everything one poll tells the listeners of a pane: its transition, or its removal. */
  function Told(fired: seq<Notice>, removed: set<PaneId>, id: PaneId): seq<PaneEvent> {
    Of(fired, id) + if id in removed then [Gone] else []
  }

  lemma HeldArePublished(before: Herd, p: Poll)
    ensures AfterPoll(before, p).hold.Keys <= AfterPoll(before, p).published.Keys
  {}

  /** Publishing over a poll history tells each pane's listeners exactly what the history says they hear. */
  lemma PollTells(polls: seq<Poll>, p: Poll, shown: seq<Agent>, fired: seq<Notice>, removed: set<PaneId>)
    requires Distinct(shown) && Raw(shown) == AfterPoll(AfterPolls(polls), p).published
    requires fired == Changes(AfterPolls(polls).published, shown)
    requires removed == AfterPolls(polls).published.Keys - Raw(shown).Keys
    ensures AfterPolls(polls + [p]) == AfterPoll(AfterPolls(polls), p)
    ensures forall id :: Heard(polls + [p], id) == Heard(polls, id) + Told(fired, removed, id)
  {
    assert (polls + [p])[..|polls|] == polls;
    forall id
      ensures Heard(polls + [p], id) == Heard(polls, id) + Told(fired, removed, id)
    {
      ToldIs(AfterPolls(polls).published, shown, fired, removed, id);
    }
  }

  lemma ToldIs(before: map<PaneId, Status>, shown: seq<Agent>, fired: seq<Notice>, removed: set<PaneId>, id: PaneId)
    requires Distinct(shown) && fired == Changes(before, shown) && removed == before.Keys - Raw(shown).Keys
    ensures Told(fired, removed, id) == PaneEvents(Get(before, id), Get(Raw(shown), id))
  {
    ChangesAreExact(before, shown, id);
  }

  class Engine {
    var prevStatus: map<PaneId, Status>
    var statusHold: map<PaneId, int>
    var link: Link
    var pace: Pace
    ghost var polls: seq<Poll>
    ghost var outcomes: seq<Outcome>
    ghost var paceEvents: seq<PaceEvent>

    ghost function Contents(): Herd
      reads this
    {
      Herd(prevStatus, statusHold)
    }

    /** The engine is what all its polls, their outcomes and the poke machine's events have made of it. */
    ghost predicate Valid()
      reads this
    {
      Contents() == AfterPolls(polls) && link == LinkAfter(outcomes) && pace == PaceAfter(paceEvents)
    }

    constructor ()
      ensures Valid() && polls == [] && outcomes == [] && paceEvents == []
    {
      prevStatus, statusHold, link, pace := map[], map[], Link(false, 0), Pace(false, false, false, 0, 0, false);
      polls, outcomes, paceEvents := [], [], [];
    }

    method HoldAgent(a: Agent, now: int) returns (shown: Agent)
      modifies this`statusHold
      ensures shown == Agent(a.id, Verdict(old(Contents()), now, a.id, a.status).status)
      ensures statusHold == SetHold(old(statusHold), a.id, Verdict(old(Contents()), now, a.id, a.status).since)
    {
      if a.id in prevStatus && prevStatus[a.id] == Working && Resting(a.status) {
        if a.id !in statusHold {
          statusHold := statusHold[a.id := now];
          return Agent(a.id, Working);
        }
        if now - statusHold[a.id] < STATUS_HOLD_MS {
          return Agent(a.id, Working);
        }
      }
      statusHold := statusHold - {a.id};
      shown := a;
    }

    /** The pass over the agents, one verdict each. */
    method HoldAgents(agents: seq<Agent>, now: int) returns (out: seq<Agent>)
      requires Distinct(agents)
      modifies this`statusHold
      ensures |out| == |agents|
      ensures forall i :: 0 <= i < |agents| ==>
                out[i] == Agent(agents[i].id, Verdict(old(Contents()), now, agents[i].id, agents[i].status).status)
      ensures statusHold == AfterPoll(old(Contents()), Poll(now, Raw(agents))).hold
    {
      ghost var before, poll := Contents(), Poll(now, Raw(agents));
      statusHold := map id | id in statusHold && Lists(agents, id) :: statusHold[id];
      HoldStarts(before, poll, agents, statusHold);
      out := [];
      for i := 0 to |agents|
        invariant |out| == i
        invariant forall k :: 0 <= k < i ==>
                  out[k] == Agent(agents[k].id, Verdict(before, now, agents[k].id, agents[k].status).status)
        invariant HoldSoFar(before, poll, agents, i, statusHold)
      {
        VerdictStands(before, poll, agents, i, statusHold, Contents());
        var shown := HoldAgent(agents[i], now);
        out := out + [shown];
      }
      HoldSoFarAll(before, poll, agents, statusHold);
    }

    /**
     * `applyStatusHold`: the statuses to publish, in the order the agents were given. A blocked or working
     * agent passes as it is, and a resting one reads as working exactly while it has just worked.
     */
    method ApplyStatusHold(agents: seq<Agent>, now: int) returns (out: seq<Agent>)
      requires Distinct(agents) && Contents() == AfterPolls(polls)
      modifies this`statusHold
      ensures |out| == |agents|
      ensures forall i :: 0 <= i < |agents| ==>
                out[i] == Agent(agents[i].id, Verdict(old(Contents()), now, agents[i].id, agents[i].status).status)
      ensures statusHold == AfterPoll(old(Contents()), Poll(now, Raw(agents))).hold
      ensures forall i :: 0 <= i < |agents| && (agents[i].status == Blocked || agents[i].status == Working) ==>
                out[i] == agents[i]
      ensures forall i :: 0 <= i < |agents| ==>
                out[i] == if ReadsAsWorking(polls + [Poll(now, Raw(agents))], agents[i].id)
                          then Agent(agents[i].id, Working) else agents[i]
    {
      VerdictsExactly(polls, agents, now);
      out := HoldAgents(agents, now);
    }

    /**
     * The transition and removal pass over what is published: `fired` in herd order, `removed` the
     * panes announced as gone.
     */
    method Publish(agents: seq<Agent>) returns (fired: seq<Notice>, removed: set<PaneId>)
      requires Distinct(agents)
      modifies this`prevStatus, this`statusHold
      ensures prevStatus == Raw(agents)
      ensures fired == Changes(old(prevStatus), agents)
      ensures removed == old(prevStatus).Keys - Raw(agents).Keys
      ensures statusHold == old(statusHold) - removed
    {
      ghost var before := prevStatus;
      fired := [];
      for i := 0 to |agents|
        invariant prevStatus == Recorded(before, agents[..i])
        invariant fired == Changes(before, agents[..i])
        invariant statusHold == old(statusHold)
      {
        var a := agents[i];
        PublishNext(before, agents, i);
        if a.id in prevStatus && prevStatus[a.id] != a.status {
          fired := fired + [Notice(a.id, Moved(prevStatus[a.id], a.status))];
        }
        prevStatus := prevStatus[a.id := a.status];
      }
      PublishDone(before, agents, prevStatus);
      removed := set id | id in prevStatus && !Lists(agents, id);
      prevStatus := prevStatus - removed;
      statusHold := statusHold - removed;
    }

    /** The two passes of a successful poll over the herd. */
    method PollHerd(agents: seq<Agent>, now: int) returns (shown: seq<Agent>, fired: seq<Notice>, removed: set<PaneId>)
      requires Distinct(agents) && Contents() == AfterPolls(polls)
      modifies this`prevStatus, this`statusHold
      ensures Contents() == AfterPoll(old(Contents()), Poll(now, Raw(agents)))
      ensures Distinct(shown) && Raw(shown) == prevStatus
      ensures fired == Changes(old(prevStatus), shown) && removed == old(prevStatus).Keys - Raw(shown).Keys
    {
      ghost var before := Contents();
      shown := ApplyStatusHold(agents, now);
      ShownRaw(before, Poll(now, Raw(agents)), agents, shown);
      HeldArePublished(before, Poll(now, Raw(agents)));
      fired, removed := Publish(shown);
      assert statusHold == AfterPoll(before, Poll(now, Raw(agents))).hold;
    }

    /** One successful poll: the hold, what the listeners of each pane are told, and the link. */
    method PollSucceeded(agents: seq<Agent>, now: int) returns (fired: seq<Notice>, removed: set<PaneId>, up: bool)
      requires Valid() && Distinct(agents)
      modifies this`prevStatus, this`statusHold, this`link, this`polls, this`outcomes
      ensures Valid() && polls == old(polls) + [Poll(now, Raw(agents))] && outcomes == old(outcomes) + [Good]
      ensures forall id :: Heard(polls, id) == Heard(old(polls), id) + Told(fired, removed, id)
      ensures up <==> !UpAfter(old(outcomes))
    {
      ghost var poll := Poll(now, Raw(agents));
      ghost var shown;
      shown, fired, removed := PollHerd(agents, now);
      PollTells(polls, poll, shown, fired, removed);
      polls := polls + [poll];
      up := MarkUp();
    }

    method MarkUp() returns (up: bool)
      requires link == LinkAfter(outcomes)
      modifies this`link, this`outcomes
      ensures outcomes == old(outcomes) + [Good] && link == LinkAfter(outcomes)
      ensures up <==> !UpAfter(old(outcomes))
    {
      LinkStepMeans(outcomes, Good);
      LinkEqualsClosedForm(outcomes);
      up := !link.connected;
      link := Link(true, 0);
      outcomes := outcomes + [Good];
    }

    /**
     * One failed poll. A time-out right behind a good poll is absorbed and reported as slow; anything
     * else leaves the link down, which is reported if it was up.
     */
    method PollFailed(timedOut: bool) returns (down: bool, slow: bool)
      requires Valid()
      modifies this`link, this`outcomes
      ensures Valid() && outcomes == old(outcomes) + [if timedOut then TimedOut else Failed]
      ensures link.connected <==> UpAfter(outcomes)
      ensures down <==> UpAfter(old(outcomes)) && !(timedOut && old(outcomes)[|old(outcomes)| - 1].Good?)
      ensures slow <==> UpAfter(old(outcomes)) && timedOut && old(outcomes)[|old(outcomes)| - 1].Good?
    {
      ghost var o := if timedOut then TimedOut else Failed;
      LinkEqualsClosedForm(outcomes);
      LinkEqualsClosedForm(outcomes + [o]);
      LinkStepMeans(outcomes, o);
      var wasConnected := link.connected;
      down, slow := false, false;
      if wasConnected && timedOut && link.failures + 1 < TRANSIENT_FLIP_AT {
        link := link.(failures := link.failures + 1);
        slow := link.failures == 1;
      } else {
        link := Link(false, 0);
        down := wasConnected;
      }
      outcomes := outcomes + [o];
    }

    ghost method Note(e: PaceEvent)
      requires pace == PaceStep(PaceAfter(paceEvents), e) && Contents() == AfterPolls(polls) &&
               link == LinkAfter(outcomes)
      modifies this`paceEvents
      ensures Valid() && paceEvents == old(paceEvents) + [e]
    {
      assert (paceEvents + [e])[..|paceEvents|] == paceEvents;
      paceEvents := paceEvents + [e];
    }

    /** `start`: poll at once. */
    method StartPolling()
      requires Valid()
      modifies this`pace, this`paceEvents
      ensures Valid() && paceEvents == old(paceEvents) + [Start] && pace.started
      ensures old(pace.started) ==> pace == old(pace)
      ensures !old(pace.started) ==>
                pace.polling && pace.begun == old(pace.begun) + if old(pace.polling) then 0 else 1
    {
      if !pace.started {
        pace := pace.(started := true);
        BeginPoll();
      }
      Note(Start);
    }

    /** `stop`: a poll in flight goes on, nothing new begins. */
    method StopPolling()
      requires Valid()
      modifies this`pace, this`paceEvents
      ensures Valid() && paceEvents == old(paceEvents) + [Stop]
      ensures pace == old(pace).(started := false, pending := false)
    {
      pace := pace.(started := false, pending := false);
      Note(Stop);
    }

    /** The interval timer: a poll begins unless one is in flight or the engine is stopped. */
    method Ticked()
      requires Valid()
      modifies this`pace, this`paceEvents
      ensures Valid() && paceEvents == old(paceEvents) + [Tick]
      ensures pace.polling == (old(pace.polling) || pace.started) && pace.started == old(pace.started)
      ensures pace.begun == old(pace.begun) + if pace.started && !old(pace.polling) then 1 else 0
    {
      if pace.started {
        BeginPoll();
      }
      Note(Tick);
    }

    /** `pokeNow`: a poll that begins after the poke is in flight or promised, unless the engine is stopped. */
    method PokeNow()
      requires Valid()
      modifies this`pace, this`paceEvents
      ensures Valid() && paceEvents == old(paceEvents) + [Poke]
      ensures pace.started && old(pace.polling) ==> pace.polling && pace.queued && pace.begun == old(pace.begun)
      ensures pace.started && !old(pace.polling) ==> pace.polling && pace.begun == old(pace.begun) + 1
      ensures !pace.started ==> pace == old(pace)
    {
      if pace.started {
        if pace.polling {
          pace := pace.(queued := true, pending := true);
        } else {
          BeginPoll();
        }
      }
      Note(Poke);
    }

    method BeginPoll()
      modifies this`pace
      ensures pace == Begin(old(pace))
    {
      if !pace.polling {
        pace := pace.(polling := true, begun := pace.begun + 1, pending := false);
      }
    }

    /**
     * The `finally` of a poll. A poke that fell into the poll gets a poll that begins now; without one, or
     * once stopped, none begins.
     */
    method PollEnded()
      requires Valid() && pace.polling
      modifies this`pace, this`paceEvents
      ensures Valid() && paceEvents == old(paceEvents) + [Finished]
      ensures !pace.pending && !pace.queued
      ensures old(pace.pending) ==> pace.polling && pace.begun == old(pace.begun) + 1
      ensures pace.polling <==> old(pace.queued) && pace.started
      ensures pace.begun == pace.ended + if pace.polling then 1 else 0
    {
      NoPokeLost(paceEvents);
      pace := pace.(polling := false, ended := pace.ended + 1);
      if pace.queued {
        pace := pace.(queued := false);
        if pace.started {
          BeginPoll();
        }
      }
      Note(Finished);
    }
  }

  lemma VerdictsExactly(polls: seq<Poll>, agents: seq<Agent>, now: int)
    requires Distinct(agents)
    ensures forall i :: 0 <= i < |agents| ==>
              var status := Verdict(AfterPolls(polls), now, agents[i].id, agents[i].status).status;
              && (agents[i].status == Blocked || agents[i].status == Working ==> status == agents[i].status)
              && status == if ReadsAsWorking(polls + [Poll(now, Raw(agents))], agents[i].id) then Working
                           else agents[i].status
  {
    forall i | 0 <= i < |agents|
      ensures
        var status := Verdict(AfterPolls(polls), now, agents[i].id, agents[i].status).status;
        && (agents[i].status == Blocked || agents[i].status == Working ==> status == agents[i].status)
        && status == if ReadsAsWorking(polls + [Poll(now, Raw(agents))], agents[i].id) then Working
                     else agents[i].status
    {
      VerdictExactly(polls, agents, now, i);
    }
  }

  lemma VerdictExactly(polls: seq<Poll>, agents: seq<Agent>, now: int, i: nat)
    requires Distinct(agents) && i < |agents|
    ensures
      var status := Verdict(AfterPolls(polls), now, agents[i].id, agents[i].status).status;
      && (agents[i].status == Blocked || agents[i].status == Working ==> status == agents[i].status)
      && status == if ReadsAsWorking(polls + [Poll(now, Raw(agents))], agents[i].id) then Working
                   else agents[i].status
  {
    var p := Poll(now, Raw(agents));
    RawOf(agents, i);
    assert (polls + [p])[..|polls|] == polls;
    PublishedExactly(polls + [p], agents[i].id);
    AfterPollAt(AfterPolls(polls), p, agents[i].id);
    if agents[i].status == Blocked || agents[i].status == Working { OnlyRestIsHeld(polls + [p], agents[i].id); }
  }

  lemma NotYetListed(agents: seq<Agent>, i: nat)
    requires Distinct(agents) && i < |agents|
    ensures agents[i].id !in Raw(agents[..i])
  {
    RawLists(agents[..i], agents[i].id);
  }

  lemma NotYetRecorded(before: map<PaneId, Status>, agents: seq<Agent>, i: nat)
    requires Distinct(agents) && i < |agents|
    ensures Get(Recorded(before, agents[..i]), agents[i].id) == Get(before, agents[i].id)
  {
    RecordedIs(before, agents[..i]);
    NotYetListed(agents, i);
  }

  /** One agent of the pass: what it fires goes by what was published before the pass. */
  lemma PublishNext(before: map<PaneId, Status>, agents: seq<Agent>, i: nat)
    requires Distinct(agents) && i < |agents|
    ensures
      var a, recorded := agents[i], Recorded(before, agents[..i]);
      && Recorded(before, agents[..i + 1]) == recorded[a.id := a.status]
      && Changes(before, agents[..i + 1]) == Changes(before, agents[..i]) +
         if a.id in recorded && recorded[a.id] != a.status then [Notice(a.id, Moved(recorded[a.id], a.status))] else []
  {
    assert agents[..i + 1][..i] == agents[..i];
    NotYetRecorded(before, agents, i);
  }

  lemma PublishDone(before: map<PaneId, Status>, agents: seq<Agent>, recorded: map<PaneId, Status>)
    requires recorded == Recorded(before, agents[..|agents|])
    ensures agents[..|agents|] == agents
    ensures (set id | id in recorded && !Lists(agents, id)) == before.Keys - Raw(agents).Keys
    ensures recorded - (before.Keys - Raw(agents).Keys) == Raw(agents)
  {
    assert agents[..|agents|] == agents;
    RecordedIs(before, agents);
    UnlistedAre(agents, recorded);
  }

  lemma UnlistedAre(agents: seq<Agent>, m: map<PaneId, Status>)
    ensures (set id | id in m && !Lists(agents, id)) == m.Keys - Raw(agents).Keys
  {
    ListsRaw(agents);
  }

  lemma ListsRaw(agents: seq<Agent>)
    ensures forall id :: Lists(agents, id) <==> id in Raw(agents)
  {
    forall id
      ensures Lists(agents, id) <==> id in Raw(agents)
    {
      RawLists(agents, id);
    }
  }

  /** What is published is the verdict on every live pane. */
  lemma ShownRaw(before: Herd, p: Poll, agents: seq<Agent>, shown: seq<Agent>)
    requires Distinct(agents) && p.raw == Raw(agents) && |shown| == |agents|
    requires forall i :: 0 <= i < |agents| ==>
             shown[i] == Agent(agents[i].id, Verdict(before, p.now, agents[i].id, agents[i].status).status)
    ensures Distinct(shown) && Raw(shown) == AfterPoll(before, p).published
  {
    RawMapped(before, p.now, agents, shown);
    SameIds(agents, shown);
  }

  lemma SameIds(a: seq<Agent>, b: seq<Agent>)
    requires Distinct(a) && |a| == |b| && forall i :: 0 <= i < |a| ==> b[i].id == a[i].id
    ensures Distinct(b)
  {}

  lemma {:induction false} RawMapped(before: Herd, now: int, agents: seq<Agent>, shown: seq<Agent>)
    requires |shown| == |agents|
    requires forall i :: 0 <= i < |agents| ==>
             shown[i] == Agent(agents[i].id, Verdict(before, now, agents[i].id, agents[i].status).status)
    ensures Raw(shown).Keys == Raw(agents).Keys
    ensures forall id :: id in Raw(agents) ==> Raw(shown)[id] == Verdict(before, now, id, Raw(agents)[id]).status
  {
    if agents != [] { RawMapped(before, now, agents[..|agents| - 1], shown[..|agents| - 1]); }
  }
}
