/**
 * The per-pane write queue: a promise-chain lock with a wait timeout and map clean-up.
 *
 * Every call of `run` is a ticket. Its promise `mine` is resolved when the ticket is released, its
 * `tail` is `prev.then(() => mine)`, and `tails` maps a pane key to the newest tail. Everything
 * asynchronous (a turn arriving, the timer, an RPC settling, the clean-up reaction) is one event, and
 * a run is any sequence of events, so every interleaving is covered.
 */
module PaneQueue {
  import opened Options

  type Key = string

  /** One write to the pane: `pane.send_text` or `pane.send_keys` with a single key. */
  datatype Rpc = SendText(text: string) | SendKey(key: string)

  datatype Phase = Waiting | Running | GaveUp | Finished

  /**
   * One call of `run(key, fn)`. `plan` is the writes `fn` would make if none failed, `issued` how many
   * it has made, `failed` that one of them was refused. `prev` is the tail the ticket waits for (`None` for the
   * resolved promise used when the map has no entry).
   */
  datatype Ticket = Ticket(key: Key, plan: seq<Rpc>, prev: Option<nat>, phase: Phase,
                           issued: nat, inFlight: bool, failed: bool, cleaned: bool)

  datatype LogEntry = LogEntry(ticket: nat, rpc: Rpc)

  datatype State = State(tickets: seq<Ticket>, tails: map<Key, nat>, log: seq<LogEntry>)

  datatype Event =
    | Enqueue(key: Key, plan: seq<Rpc>)
    | Turn(i: nat)
    | Timeout(i: nat)
    | Issue(i: nat)
    | Settle(i: nat, ok: bool)
    | Finish(i: nat)
    | CleanUp(i: nat)

  predicate Released(t: Ticket) { t.phase == GaveUp || t.phase == Finished }

  predicate Started(t: Ticket) { t.phase == Running || t.phase == Finished }

  /** Whether the promise `tail` of ticket `i` has resolved: its own release and its predecessor's tail. */
  predicate TailResolved(ts: seq<Ticket>, i: nat)
    decreases i
  {
    i < |ts| && Released(ts[i]) &&
    match ts[i].prev
    case None => true
    case Some(p) => p < i && TailResolved(ts, p)
  }

  predicate TurnCame(ts: seq<Ticket>, i: nat)
    requires i < |ts|
  {
    ts[i].prev.None? || TailResolved(ts, ts[i].prev.value)
  }

  predicate Enabled(s: State, e: Event) {
    match e
    case Enqueue(_, _) => true
    case Turn(i) => i < |s.tickets| && s.tickets[i].phase == Waiting && TurnCame(s.tickets, i)
    case Timeout(i) => i < |s.tickets| && s.tickets[i].phase == Waiting
    case Issue(i) =>
      i < |s.tickets| &&
      var t := s.tickets[i];
      t.phase == Running && !t.inFlight && !t.failed && t.issued < |t.plan|
    case Settle(i, _) => i < |s.tickets| && s.tickets[i].inFlight
    // `fn` may stop between two writes: done, refused, or a prompt check that said no
    case Finish(i) => i < |s.tickets| && s.tickets[i].phase == Running && !s.tickets[i].inFlight
    case CleanUp(i) => TailResolved(s.tickets, i) && !s.tickets[i].cleaned
  }

  function LookUp(tails: map<Key, nat>, key: Key): Option<nat> {
    if key in tails then Some(tails[key]) else None
  }

  /** An event that cannot happen in `s` changes nothing. */
  function Step(s: State, e: Event): State {
    if !Enabled(s, e) then s else
    match e
    case Enqueue(key, plan) =>
      var ticket := Ticket(key, plan, LookUp(s.tails, key), Waiting, 0, false, false, false);
      s.(tickets := s.tickets + [ticket], tails := s.tails[key := |s.tickets|])
    case Turn(i) => s.(tickets := s.tickets[i := s.tickets[i].(phase := Running)])
    case Timeout(i) => s.(tickets := s.tickets[i := s.tickets[i].(phase := GaveUp)])
    case Issue(i) =>
      var t := s.tickets[i];
      s.(tickets := s.tickets[i := t.(issued := t.issued + 1, inFlight := true)],
         log := s.log + [LogEntry(i, t.plan[t.issued])])
    case Settle(i, ok) => s.(tickets := s.tickets[i := s.tickets[i].(inFlight := false, failed := !ok)])
    case Finish(i) => s.(tickets := s.tickets[i := s.tickets[i].(phase := Finished)])
    case CleanUp(i) =>
      var t := s.tickets[i];
      s.(tickets := s.tickets[i := t.(cleaned := true)],
         tails := if LookUp(s.tails, t.key) == Some(i) then s.tails - {t.key} else s.tails)
  }

  const INITIAL := State([], map[], [])

  function Run(es: seq<Event>): State {
    if es == [] then INITIAL else Step(Run(es[..|es| - 1]), es[|es| - 1])
  }

  // ---- The invariant every event keeps ----

  ghost predicate EarlierReleased(ts: seq<Ticket>, i: nat)
    requires i < |ts|
  {
    forall j :: 0 <= j < i && ts[j].key == ts[i].key ==> Released(ts[j])
  }

  ghost predicate TicketOk(ts: seq<Ticket>, i: nat)
    requires i < |ts|
  {
    var t := ts[i];
    && t.issued <= |t.plan|
    && (t.inFlight ==> t.phase == Running && !t.failed)
    && (!Started(t) ==> t.issued == 0 && !t.failed)
    && (Started(t) ==> EarlierReleased(ts, i))
    && (t.cleaned ==> Released(t) && EarlierReleased(ts, i))
    && match t.prev
       case None => EarlierReleased(ts, i)
       case Some(p) => p < i && ts[p].key == t.key && forall j :: p < j < i ==> ts[j].key != t.key
  }

  ghost predicate TailOk(s: State, key: Key)
    requires key in s.tails
  {
    var t := s.tails[key];
    && t < |s.tickets| && s.tickets[t].key == key && !s.tickets[t].cleaned
    && forall j :: t < j < |s.tickets| ==> s.tickets[j].key != key
  }

  ghost predicate Inv(s: State) {
    && (forall i :: 0 <= i < |s.tickets| ==> TicketOk(s.tickets, i))
    && (forall key :: key in s.tails ==> TailOk(s, key))
    && (forall i :: 0 <= i < |s.tickets| && s.tickets[i].key !in s.tails ==> Released(s.tickets[i]))
    && (forall key :: PaneLog(s.log, s.tickets, key) == Planned(s.tickets, key))
    && (forall k :: 0 <= k < |s.log| ==> s.log[k].ticket < |s.tickets|)
  }

  /** The writes that reached the pane of `key`, in the order they were issued. */
  function PaneLog(log: seq<LogEntry>, ts: seq<Ticket>, key: Key): seq<Rpc> {
    if log == [] then [] else
    var last := log[|log| - 1];
    PaneLog(log[..|log| - 1], ts, key) +
    if last.ticket < |ts| && ts[last.ticket].key == key then [last.rpc] else []
  }

  /** What every ticket of `key` has issued of its plan, one ticket after the other in arrival order. */
  function Planned(ts: seq<Ticket>, key: Key): seq<Rpc> {
    if ts == [] then [] else
    var last := ts[|ts| - 1];
    Planned(ts[..|ts| - 1], key) +
    if last.key == key && last.issued <= |last.plan| then last.plan[..last.issued] else []
  }

  /** A tail is resolved exactly when no ticket of that pane up to it is still waiting or running. */
  lemma {:induction false} TailResolvedMeans(ts: seq<Ticket>, i: nat)
    requires forall j :: 0 <= j < |ts| ==> TicketOk(ts, j)
    requires i < |ts|
    ensures TailResolved(ts, i) <==> Released(ts[i]) && EarlierReleased(ts, i)
    decreases i
  {
    assert TicketOk(ts, i);
    if ts[i].prev.Some? { TailResolvedMeans(ts, ts[i].prev.value); }
  }

  lemma {:induction false} PaneLogSameKeys(log: seq<LogEntry>, ts: seq<Ticket>, ts': seq<Ticket>, key: Key)
    requires |ts| <= |ts'| && forall j :: 0 <= j < |ts| ==> ts[j].key == ts'[j].key
    requires forall k :: 0 <= k < |log| ==> log[k].ticket < |ts|
    ensures PaneLog(log, ts, key) == PaneLog(log, ts', key)
  {
    if log != [] { PaneLogSameKeys(log[..|log| - 1], ts, ts', key); }
  }

  lemma {:induction false} PlannedSameProgress(ts: seq<Ticket>, ts': seq<Ticket>, key: Key)
    requires |ts| == |ts'|
    requires forall j :: 0 <= j < |ts| ==>
      ts[j].key == ts'[j].key && ts[j].plan == ts'[j].plan && ts[j].issued == ts'[j].issued
    ensures Planned(ts, key) == Planned(ts', key)
  {
    if ts != [] { PlannedSameProgress(ts[..|ts| - 1], ts'[..|ts| - 1], key); }
  }

  /** One more write of ticket `i` lands at the end, because no later ticket of the pane has issued any. */
  lemma {:induction false} PlannedIssue(ts: seq<Ticket>, i: nat, key: Key)
    requires i < |ts| && ts[i].issued < |ts[i].plan|
    requires forall j :: i < j < |ts| && ts[j].key == ts[i].key ==> ts[j].issued == 0
    ensures Planned(ts[i := ts[i].(issued := ts[i].issued + 1, inFlight := true)], key) ==
            Planned(ts, key) + if ts[i].key == key then [ts[i].plan[ts[i].issued]] else []
  {
    var n := |ts| - 1;
    var t' := ts[i].(issued := ts[i].issued + 1, inFlight := true);
    var ts' := ts[i := t'];
    if i == n {
      assert ts'[..n] == ts[..n];
      assert t'.plan[..t'.issued] == ts[i].plan[..ts[i].issued] + [ts[i].plan[ts[i].issued]];
    } else {
      assert ts'[..n] == ts[..n][i := t'];
      PlannedIssue(ts[..n], i, key);
      if ts[n].key == key && ts[i].key == key { assert ts[n].plan[..ts[n].issued] == []; }
    }
  }

  /** A ticket changed at `i` keeps the others in order when it stays what it was and only ever gets released. */
  lemma TicketsOkUpdate(ts: seq<Ticket>, i: nat, t: Ticket, ts': seq<Ticket>)
    requires i < |ts| && forall j :: 0 <= j < |ts| ==> TicketOk(ts, j)
    requires ts' == ts[i := t] && TicketOk(ts', i)
    requires t.key == ts[i].key && t.plan == ts[i].plan && t.prev == ts[i].prev
    requires Released(ts[i]) ==> Released(t)
    ensures forall j :: 0 <= j < |ts'| ==> TicketOk(ts', j)
  {
    forall j | 0 <= j < |ts| && j != i
      ensures TicketOk(ts', j)
    {
      assert TicketOk(ts, j);
      assert EarlierReleased(ts, j) ==> EarlierReleased(ts', j);
    }
  }

  lemma TicketsOkAppend(s: State, e: Event)
    requires Inv(s) && e.Enqueue?
    ensures forall i :: 0 <= i < |Step(s, e).tickets| ==> TicketOk(Step(s, e).tickets, i)
  {
    var ts' := Step(s, e).tickets;
    forall i | 0 <= i < |s.tickets|
      ensures TicketOk(ts', i)
    {
      assert TicketOk(s.tickets, i);
      assert EarlierReleased(s.tickets, i) ==> EarlierReleased(ts', i);
    }
    if e.key in s.tails { assert TailOk(s, e.key); }
  }

  lemma TicketsOkKept(s: State, e: Event)
    requires Inv(s) && Enabled(s, e)
    ensures forall i :: 0 <= i < |Step(s, e).tickets| ==> TicketOk(Step(s, e).tickets, i)
  {
    if e.Enqueue? {
      TicketsOkAppend(s, e);
    } else {
      var i, ts' := e.i, Step(s, e).tickets;
      assert TicketOk(s.tickets, i);
      assert EarlierReleased(s.tickets, i) ==> EarlierReleased(ts', i);
      if e.CleanUp? { TailResolvedMeans(s.tickets, i); }
      if e.Turn? && s.tickets[i].prev.Some? { TailResolvedMeans(s.tickets, s.tickets[i].prev.value); }
      TicketsOkUpdate(s.tickets, i, ts'[i], ts');
    }
  }

  lemma TailsOkKept(s: State, e: Event)
    requires Inv(s) && Enabled(s, e)
    ensures forall key :: key in Step(s, e).tails ==> TailOk(Step(s, e), key)
    ensures forall i :: 0 <= i < |Step(s, e).tickets| && Step(s, e).tickets[i].key !in Step(s, e).tails ==>
              Released(Step(s, e).tickets[i])
  {
    var s' := Step(s, e);
    forall key | key in s'.tails
      ensures TailOk(s', key)
    {
      if key in s.tails { assert TailOk(s, key); }
    }
    if e.CleanUp? {
      TailResolvedMeans(s.tickets, e.i);
      var key := s.tickets[e.i].key;
      if key in s.tails { assert TailOk(s, key); }
    }
  }

  lemma LogGrows(log: seq<LogEntry>, ts: seq<Ticket>, ts': seq<Ticket>, i: nat, rpc: Rpc, key: Key)
    requires |ts| == |ts'| && i < |ts| && forall j :: 0 <= j < |ts| ==> ts[j].key == ts'[j].key
    requires forall k :: 0 <= k < |log| ==> log[k].ticket < |ts|
    ensures PaneLog(log + [LogEntry(i, rpc)], ts', key) ==
            PaneLog(log, ts, key) + if ts[i].key == key then [rpc] else []
  {
    PaneLogSameKeys(log, ts, ts', key);
    assert (log + [LogEntry(i, rpc)])[..|log|] == log;
  }

  /** Behind a running ticket no ticket of its pane has issued anything. */
  lemma NoneBehindIssued(s: State, i: nat)
    requires Inv(s) && i < |s.tickets| && s.tickets[i].phase == Running
    ensures forall j :: i < j < |s.tickets| && s.tickets[j].key == s.tickets[i].key ==> s.tickets[j].issued == 0
  {
    forall j | i < j < |s.tickets| && s.tickets[j].key == s.tickets[i].key
      ensures s.tickets[j].issued == 0
    {
      assert TicketOk(s.tickets, j);
    }
  }

  lemma IssueKeepsLog(log: seq<LogEntry>, ts: seq<Ticket>, i: nat, t: Ticket, key: Key)
    requires i < |ts| && ts[i].issued < |ts[i].plan| && PaneLog(log, ts, key) == Planned(ts, key)
    requires t == ts[i].(issued := ts[i].issued + 1, inFlight := true)
    requires forall k :: 0 <= k < |log| ==> log[k].ticket < |ts|
    requires forall j :: i < j < |ts| && ts[j].key == ts[i].key ==> ts[j].issued == 0
    ensures PaneLog(log + [LogEntry(i, ts[i].plan[ts[i].issued])], ts[i := t], key) == Planned(ts[i := t], key)
  {
    LogGrows(log, ts, ts[i := t], i, ts[i].plan[ts[i].issued], key);
    PlannedIssue(ts, i, key);
  }

  lemma LogKeptByIssue(s: State, i: nat, key: Key)
    requires Inv(s) && Enabled(s, Issue(i))
    ensures PaneLog(Step(s, Issue(i)).log, Step(s, Issue(i)).tickets, key) == Planned(Step(s, Issue(i)).tickets, key)
  {
    var t := s.tickets[i];
    NoneBehindIssued(s, i);
    IssueKeepsLog(s.log, s.tickets, i, t.(issued := t.issued + 1, inFlight := true), key);
  }

  lemma LogKept(s: State, e: Event, key: Key)
    requires Inv(s) && Enabled(s, e)
    ensures PaneLog(Step(s, e).log, Step(s, e).tickets, key) == Planned(Step(s, e).tickets, key)
  {
    if e.Issue? {
      LogKeptByIssue(s, e.i, key);
    } else {
      var ts' := Step(s, e).tickets;
      PaneLogSameKeys(s.log, s.tickets, ts', key);
      if e.Enqueue? {
        assert ts'[..|s.tickets|] == s.tickets;
      } else {
        PlannedSameProgress(s.tickets, ts', key);
      }
    }
  }

  lemma StepKeepsInv(s: State, e: Event)
    requires Inv(s)
    ensures Inv(Step(s, e))
  {
    if Enabled(s, e) {
      TicketsOkKept(s, e);
      TailsOkKept(s, e);
      forall key
        ensures PaneLog(Step(s, e).log, Step(s, e).tickets, key) == Planned(Step(s, e).tickets, key)
      {
        LogKept(s, e, key);
      }
    }
  }

  lemma {:induction false} RunKeepsInv(es: seq<Event>)
    ensures Inv(Run(es))
  {
    if es != [] {
      RunKeepsInv(es[..|es| - 1]);
      StepKeepsInv(Run(es[..|es| - 1]), es[|es| - 1]);
    }
  }

  // ---- What the queue promises, over every run ----

  /**
   * No interleaving: what a pane receives is, ticket by ticket in arrival order, a prefix of what
   * each ticket planned; a ticket that gave up contributes nothing.
   */
  lemma WritesNeverInterleave(es: seq<Event>, key: Key)
    ensures PaneLog(Run(es).log, Run(es).tickets, key) == Planned(Run(es).tickets, key)
    ensures forall i :: 0 <= i < |Run(es).tickets| ==>
              Run(es).tickets[i].issued <= |Run(es).tickets[i].plan| &&
              (Run(es).tickets[i].phase == GaveUp ==> Run(es).tickets[i].issued == 0)
  {
    RunKeepsInv(es);
    forall i | 0 <= i < |Run(es).tickets|
      ensures Run(es).tickets[i].issued <= |Run(es).tickets[i].plan| &&
              (Run(es).tickets[i].phase == GaveUp ==> Run(es).tickets[i].issued == 0)
    {
      assert TicketOk(Run(es).tickets, i);
    }
  }

  /** A later ticket starts only after every earlier one of its pane released, time-outs or not. */
  lemma NoOvertaking(es: seq<Event>, i: nat, j: nat)
    requires i < j < |Run(es).tickets| && Run(es).tickets[i].key == Run(es).tickets[j].key
    requires Started(Run(es).tickets[j])
    ensures Released(Run(es).tickets[i]) && !Run(es).tickets[i].inFlight
  {
    RunKeepsInv(es);
    assert TicketOk(Run(es).tickets, j) && TicketOk(Run(es).tickets, i);
  }

  /** A pane missing from the map has no ticket waiting or running, so an entry is never dropped early. */
  lemma AbsentMeansReleased(es: seq<Event>, i: nat)
    requires i < |Run(es).tickets| && Run(es).tickets[i].key !in Run(es).tails
    ensures Released(Run(es).tickets[i])
  {
    RunKeepsInv(es);
  }

  /** Panes are independent: whether a ticket's turn came is decided by the tickets of its own pane. */
  lemma TurnDependsOnOwnPane(es: seq<Event>, i: nat)
    requires i < |Run(es).tickets|
    ensures TurnCame(Run(es).tickets, i) <==> EarlierReleased(Run(es).tickets, i)
  {
    RunKeepsInv(es);
    var ts := Run(es).tickets;
    assert TicketOk(ts, i);
    if ts[i].prev.Some? { TailResolvedMeans(ts, ts[i].prev.value); }
  }

  // ---- What becomes of one call ----

  datatype Call = Call(key: Key, plan: seq<Rpc>)

  /** The calls of `run`, in order. */
  function Calls(es: seq<Event>): seq<Call> {
    if es == [] then [] else
    Calls(es[..|es| - 1]) + match es[|es| - 1] case Enqueue(key, plan) => [Call(key, plan)] case _ => []
  }

  /** Each call has its ticket, with its pane and its plan, and there are no others. */
  lemma {:induction false} TicketsAreTheCalls(es: seq<Event>)
    ensures |Run(es).tickets| == |Calls(es)|
    ensures forall i :: 0 <= i < |Calls(es)| ==>
              Run(es).tickets[i].key == Calls(es)[i].key && Run(es).tickets[i].plan == Calls(es)[i].plan
  {
    if es != [] { TicketsAreTheCalls(es[..|es| - 1]); }
  }

  /** Once every earlier ticket of its pane is released, a waiting one can run, with its whole plan before it. */
  lemma TurnRuns(es: seq<Event>, i: nat)
    requires i < |Run(es).tickets| && Run(es).tickets[i].phase == Waiting
    requires forall j :: 0 <= j < i && Run(es).tickets[j].key == Run(es).tickets[i].key ==>
               Run(es).tickets[j].phase == GaveUp || Run(es).tickets[j].phase == Finished
    ensures
      var t := Run(es + [Turn(i)]).tickets[i];
      t.phase == Running && !t.inFlight && t.issued == 0 && !Refused(es + [Turn(i)], i)
  {
    assert (es + [Turn(i)])[..|es|] == es;
    RunKeepsInv(es);
    assert TicketOk(Run(es).tickets, i) && EarlierReleased(Run(es).tickets, i);
    TurnDependsOnOwnPane(es, i);
    FailedIsRefused(es + [Turn(i)], i);
  }

  /** A write of ticket `i` was refused in the course of the run. */
  ghost predicate Refused(es: seq<Event>, i: nat) {
    es != [] &&
    var front, e := es[..|es| - 1], es[|es| - 1];
    Refused(front, i) || (e == Settle(i, false) && i < |Run(front).tickets| && Run(front).tickets[i].inFlight)
  }

  lemma {:induction false} FailedIsRefused(es: seq<Event>, i: nat)
    ensures Refused(es, i) <==> i < |Run(es).tickets| && Run(es).tickets[i].failed
  {
    if es != [] {
      var front := es[..|es| - 1];
      FailedIsRefused(front, i);
      RunKeepsInv(front);
      if i < |Run(front).tickets| { assert TicketOk(Run(front).tickets, i); }
    }
  }

  /** How many writes of ticket `i` have been answered. */
  ghost function Answered(es: seq<Event>, i: nat): nat {
    if es == [] then 0 else
    var front, e := es[..|es| - 1], es[|es| - 1];
    Answered(front, i) +
    if e.Settle? && e.i == i && i < |Run(front).tickets| && Run(front).tickets[i].inFlight then 1 else 0
  }

  /** One write at a time: all writes a ticket has issued are answered, but for one while it is in flight. */
  lemma {:induction false} WritesOneAtATime(es: seq<Event>, i: nat)
    ensures i < |Run(es).tickets| ==>
              Run(es).tickets[i].issued == Answered(es, i) + if Run(es).tickets[i].inFlight then 1 else 0
    ensures i >= |Run(es).tickets| ==> Answered(es, i) == 0
  {
    if es != [] { WritesOneAtATime(es[..|es| - 1], i); }
  }

  /** A ticket whose turn it is makes the next write of its plan, unless one was refused; then none. */
  lemma WritesUntilRefused(es: seq<Event>, i: nat)
    requires i < |Run(es).tickets|
    requires
      var t := Run(es).tickets[i];
      t.phase == Running && !t.inFlight && t.issued < |t.plan|
    ensures
      var t := Run(es).tickets[i];
      Run(es + [Issue(i)]).log ==
      Run(es).log + if Refused(es, i) then [] else [LogEntry(i, t.plan[t.issued])]
  {
    assert (es + [Issue(i)])[..|es|] == es;
    FailedIsRefused(es, i);
    assert Run(es).log + [] == Run(es).log;
  }

  /** Ticket `i` makes no write from now on. */
  ghost predicate Silent(s: State, i: nat) {
    i < |s.tickets| && ((s.tickets[i].failed && !s.tickets[i].inFlight) || s.tickets[i].phase == GaveUp)
  }

  /** The log grows at its end, by writes of other tickets than `i`. */
  ghost predicate GrowsWithout(log: seq<LogEntry>, log': seq<LogEntry>, i: nat) {
    log <= log' && forall k :: |log| <= k < |log'| ==> log'[k].ticket != i
  }

  lemma SilentStep(s: State, e: Event, i: nat)
    requires Inv(s) && Silent(s, i)
    ensures Silent(Step(s, e), i) && GrowsWithout(s.log, Step(s, e).log, i)
    ensures s.tickets[i].phase == GaveUp ==> Step(s, e).tickets[i].phase == GaveUp
  {
    assert TicketOk(s.tickets, i);
  }

  lemma GrowsOn(a: seq<LogEntry>, b: seq<LogEntry>, c: seq<LogEntry>, i: nat)
    requires GrowsWithout(a, b, i) && GrowsWithout(b, c, i)
    ensures GrowsWithout(a, c, i)
  {}

  /** Between two moments ticket `i` has written nothing, is as silent as it was, and given up if it had. */
  ghost predicate StayedSilent(s: State, t: State, i: nat) {
    && Silent(s, i) && Silent(t, i) && GrowsWithout(s.log, t.log, i)
    && (s.tickets[i].phase == GaveUp ==> t.tickets[i].phase == GaveUp)
  }

  lemma StaysSilent(s: State, t: State, e: Event, i: nat)
    requires Inv(t) && StayedSilent(s, t, i)
    ensures StayedSilent(s, Step(t, e), i)
  {
    SilentStep(t, e, i);
    GrowsOn(s.log, t.log, Step(t, e).log, i);
  }

  lemma {:induction false} SilentForGood(es: seq<Event>, more: seq<Event>, i: nat)
    requires Silent(Run(es), i)
    ensures StayedSilent(Run(es), Run(es + more), i)
  {
    if more == [] {
      assert es + more == es;
    } else {
      var front := more[..|more| - 1];
      assert (es + more)[..|es + more| - 1] == es + front;
      SilentForGood(es, front, i);
      RunKeepsInv(es + front);
      StaysSilent(Run(es), Run(es + front), more[|more| - 1], i);
    }
  }

  /** After a refused write of a ticket none of its later writes is ever made. */
  lemma NothingAfterRefusal(es: seq<Event>, i: nat, more: seq<Event>)
    requires i < |Run(es).tickets| && Run(es).tickets[i].inFlight
    ensures GrowsWithout(Run(es).log, Run(es + [Settle(i, false)] + more).log, i)
  {
    assert (es + [Settle(i, false)])[..|es|] == es;
    SilentForGood(es + [Settle(i, false)], more, i);
  }

  /** Every write that was made was made by a ticket whose turn had come. */
  ghost predicate WritersStarted(s: State) {
    forall k :: 0 <= k < |s.log| ==> s.log[k].ticket < |s.tickets| && Started(s.tickets[s.log[k].ticket])
  }

  lemma WritersStartedStep(s: State, e: Event)
    requires WritersStarted(s)
    ensures WritersStarted(Step(s, e))
  {}

  lemma {:induction false} OnlyTheStartedWrite(es: seq<Event>)
    ensures WritersStarted(Run(es))
  {
    if es != [] {
      OnlyTheStartedWrite(es[..|es| - 1]);
      WritersStartedStep(Run(es[..|es| - 1]), es[|es| - 1]);
    }
  }

  /** A ticket that waits can give up at any time; then its caller is told so, and it never writes anything. */
  lemma GivesUpForGood(es: seq<Event>, i: nat, more: seq<Event>)
    requires i < |Run(es).tickets| && Run(es).tickets[i].phase == Waiting
    ensures
      var t := Run(es + [Timeout(i)] + more);
      && i < |t.tickets| && t.tickets[i].phase == GaveUp
      && forall k :: 0 <= k < |t.log| ==> t.log[k].ticket != i
  {
    assert (es + [Timeout(i)])[..|es|] == es;
    SilentForGood(es + [Timeout(i)], more, i);
    OnlyTheStartedWrite(es);
  }

  // ---- Every ticket settles and the map empties ----

  function Work(t: Ticket): nat {
    (if t.cleaned then 0 else 1) +
    match t.phase
    case Waiting => 2 + 2 * |t.plan|
    case Running => 1 + (if t.issued <= |t.plan| then 2 * (|t.plan| - t.issued) else 0) + (if t.inFlight then 1 else 0)
    case _ => 0
  }

  function TotalWork(ts: seq<Ticket>): nat {
    if ts == [] then 0 else TotalWork(ts[..|ts| - 1]) + Work(ts[|ts| - 1])
  }

  lemma {:induction false} TotalWorkUpdate(ts: seq<Ticket>, i: nat, t: Ticket)
    requires i < |ts|
    ensures TotalWork(ts[i := t]) == TotalWork(ts) - Work(ts[i]) + Work(t)
  {
    var n := |ts| - 1;
    if i == n {
      assert ts[i := t][..n] == ts[..n];
    } else {
      assert ts[i := t][..n] == ts[..n][i := t];
      TotalWorkUpdate(ts[..n], i, t);
    }
  }

  ghost predicate AllSettled(s: State) {
    forall i :: 0 <= i < |s.tickets| ==> s.tickets[i].cleaned
  }

  /** Without new arrivals every event uses up work, so only finitely many can happen. */
  lemma StepUsesWork(s: State, e: Event)
    requires Inv(s) && Enabled(s, e) && !e.Enqueue?
    ensures TotalWork(Step(s, e).tickets) < TotalWork(s.tickets)
  {
    var i := e.i;
    assert TicketOk(s.tickets, i);
    TotalWorkUpdate(s.tickets, i, Step(s, e).tickets[i]);
  }

  /** Until all is settled some ticket can move without waiting for its timer: there is no deadlock. */
  lemma SomeEventEnabled(s: State) returns (e: Event)
    requires Inv(s) && !AllSettled(s)
    ensures Enabled(s, e) && !e.Enqueue? && !e.Timeout?
  {
    var i := 0;
    while s.tickets[i].cleaned
      invariant i < |s.tickets|
      invariant forall j :: 0 <= j < i ==> s.tickets[j].cleaned
      invariant exists j :: i <= j < |s.tickets| && !s.tickets[j].cleaned
      decreases |s.tickets| - i
    {
      i := i + 1;
    }
    assert TicketOk(s.tickets, i);
    forall j | 0 <= j < i
      ensures Released(s.tickets[j])
    {
      assert TicketOk(s.tickets, j);
    }
    TailResolvedMeans(s.tickets, i);
    var t := s.tickets[i];
    if t.prev.Some? { TailResolvedMeans(s.tickets, t.prev.value); }
    match t.phase
    case Waiting => e := Turn(i);
    case Running => e := if t.inFlight then Settle(i, true) else Finish(i);
    case _ => e := CleanUp(i);
  }

  lemma SettledMeansEmpty(s: State)
    requires Inv(s) && AllSettled(s)
    ensures s.tails == map[]
  {
    if key :| key in s.tails {
      assert false;
    }
  }

  lemma {:induction false} DrainFrom(es: seq<Event>) returns (more: seq<Event>)
    ensures forall k :: 0 <= k < |more| ==> !more[k].Enqueue? && !more[k].Timeout?
    ensures AllSettled(Run(es + more))
    decreases TotalWork(Run(es).tickets)
  {
    RunKeepsInv(es);
    if AllSettled(Run(es)) {
      more := [];
      assert es + more == es;
    } else {
      var e := SomeEventEnabled(Run(es));
      StepUsesWork(Run(es), e);
      assert (es + [e])[..|es|] == es;
      var rest := DrainFrom(es + [e]);
      more := [e] + rest;
      assert es + more == es + [e] + rest;
    }
  }

  /**
   * From every reachable state the tickets can all settle without a single time-out, and once they
   * have, the map holds no pane.
   */
  lemma QueueDrains(es: seq<Event>) returns (more: seq<Event>)
    ensures forall k :: 0 <= k < |more| ==> !more[k].Enqueue? && !more[k].Timeout?
    ensures AllSettled(Run(es + more)) && Run(es + more).tails == map[]
  {
    more := DrainFrom(es);
    RunKeepsInv(es + more);
    SettledMeansEmpty(Run(es + more));
  }

  // ---- The queue itself ----

  /** `createPaneQueue`: the map of tails, and the tickets its promises stand for. */
  class Queue {
    var tails: map<Key, nat>
    var tickets: seq<Ticket>
    ghost var log: seq<LogEntry>
    /** Everything that happened so far. */
    ghost var history: seq<Event>

    ghost function Contents(): State
      reads this
    {
      State(tickets, tails, log)
    }

    /** The queue is what its history makes of an empty one. */
    ghost predicate Valid()
      reads this
    {
      Contents() == Run(history) && Inv(Contents())
    }

    constructor ()
      ensures Valid() && Contents() == INITIAL && history == []
    {
      tails, tickets, log, history := map[], [], [], [];
    }

    ghost method Record(was: State, e: Event)
      requires was == Run(history) && Contents() == Step(was, e)
      modifies this`history
      ensures Valid() && history == old(history) + [e]
    {
      assert (history + [e])[..|history|] == history;
      history := history + [e];
      RunKeepsInv(history);
    }

    /** The synchronous half of `run`: read the old tail, put the new one in its place. */
    method Enter(key: Key, plan: seq<Rpc>) returns (i: nat)
      requires Valid()
      modifies this
      ensures Valid() && history == old(history) + [Enqueue(key, plan)]
      ensures i == |old(tickets)|
      ensures Contents() == Step(old(Contents()), Enqueue(key, plan))
      ensures tickets[..i] == old(tickets) && tickets[i].key == key && tickets[i].plan == plan
      ensures tickets[i].phase == Waiting && tickets[i].prev == LookUp(old(tails), key) && tails == old(tails)[key := i]
    {
      ghost var was := Contents();
      var prev := None;
      if key in tails {
        prev := Some(tails[key]);
      }
      i := |tickets|;
      tickets := tickets + [Ticket(key, plan, prev, Waiting, 0, false, false, false)];
      tails := tails[key := i];
      Record(was, Enqueue(key, plan));
    }

    /** `waitTurn` resolving: the tail in front is resolved, so `fn` starts. */
    method TakeTurn(i: nat)
      requires Valid() && Enabled(Contents(), Turn(i))
      modifies this
      ensures Valid() && history == old(history) + [Turn(i)]
      ensures Contents() == Step(old(Contents()), Turn(i)) && tickets[i].phase == Running
    {
      ghost var was := Contents();
      tickets := tickets[i := tickets[i].(phase := Running)];
      Record(was, Turn(i));
    }

    /** `waitTurn` rejecting: the caller gets a busy error and the ticket is released unused. */
    method GiveUp(i: nat)
      requires Valid() && Enabled(Contents(), Timeout(i))
      modifies this
      ensures Valid() && history == old(history) + [Timeout(i)]
      ensures Contents() == Step(old(Contents()), Timeout(i)) && tickets[i].phase == GaveUp
    {
      ghost var was := Contents();
      tickets := tickets[i := tickets[i].(phase := GaveUp)];
      Record(was, Timeout(i));
    }

    method IssueNext(i: nat) returns (rpc: Rpc)
      requires Valid() && Enabled(Contents(), Issue(i))
      modifies this
      ensures Valid() && history == old(history) + [Issue(i)]
      ensures Contents() == Step(old(Contents()), Issue(i))
      ensures log == old(log) + [LogEntry(i, rpc)] && rpc == old(tickets[i].plan[tickets[i].issued])
    {
      ghost var was := Contents();
      var t := tickets[i];
      rpc := t.plan[t.issued];
      tickets := tickets[i := t.(issued := t.issued + 1, inFlight := true)];
      log := log + [LogEntry(i, rpc)];
      Record(was, Issue(i));
    }

    method Settled(i: nat, ok: bool)
      requires Valid() && Enabled(Contents(), Settle(i, ok))
      modifies this
      ensures Valid() && history == old(history) + [Settle(i, ok)]
      ensures Contents() == Step(old(Contents()), Settle(i, ok)) && !tickets[i].inFlight && tickets[i].failed == !ok
    {
      ghost var was := Contents();
      tickets := tickets[i := tickets[i].(inFlight := false, failed := !ok)];
      Record(was, Settle(i, ok));
    }

    /** `done()` after `fn` returned or threw. */
    method Release(i: nat)
      requires Valid() && Enabled(Contents(), Finish(i))
      modifies this
      ensures Valid() && history == old(history) + [Finish(i)]
      ensures Contents() == Step(old(Contents()), Finish(i)) && tickets[i].phase == Finished
    {
      ghost var was := Contents();
      tickets := tickets[i := tickets[i].(phase := Finished)];
      Record(was, Finish(i));
    }

    /** The reaction on a resolved tail: drop the map entry unless a newer ticket took it over. */
    method Forget(i: nat)
      requires Valid() && Enabled(Contents(), CleanUp(i))
      modifies this
      ensures Valid() && history == old(history) + [CleanUp(i)]
      ensures Contents() == Step(old(Contents()), CleanUp(i))
      ensures forall key ::
                LookUp(tails, key) == if LookUp(old(tails), key) == Some(i) then None else LookUp(old(tails), key)
    {
      ghost var was := Contents();
      var key := tickets[i].key;
      if key in tails && tails[key] == i {
        tails := tails - {key};
      }
      tickets := tickets[i := tickets[i].(cleaned := true)];
      Record(was, CleanUp(i));
    }
  }
}
