/**
 * The event stream that makes polls come early: connecting, reconnecting with backoff, subscribing anew
 * when the set of agent panes changes, and dropping subscriptions that the server refuses.
 * A run is any sequence of calls, stream callbacks (of any stream ever opened), timers and time.
 */
module EventPoker {
  import opened Options

  type PaneId = string

  datatype Subscription = Global(kind: string) | AgentStatus(pane: PaneId)

  const PANE_STATUS := "pane.agent_status_changed"

  const GLOBALS: seq<string> := [
    "workspace.created", "workspace.updated", "workspace.renamed", "workspace.closed", "workspace.focused",
    "tab.created", "tab.closed", "tab.focused", "tab.renamed",
    "pane.created", "pane.closed", "pane.focused", "pane.moved", "pane.exited", "pane.agent_detected"]

  const STABLE_MS := 30000
  const DEBOUNCE_MS := 200
  const DEFAULT_DELAY := 1000

  function Kind(s: Subscription): string { if s.Global? then s.kind else PANE_STATUS }

  function BuildSubscriptions(panes: seq<PaneId>): seq<Subscription> {
    seq(|GLOBALS|, i requires 0 <= i < |GLOBALS| => Global(GLOBALS[i])) +
    seq(|panes|, i requires 0 <= i < |panes| => AgentStatus(panes[i]))
  }

  function Ids(panes: seq<PaneId>): set<PaneId> { set id | id in panes }

  // ---- Rejected subscriptions ----

  predicate OccursAt(text: string, part: string, i: nat) {
    i + |part| <= |text| && text[i..i + |part|] == part
  }

  predicate Contains(text: string, part: string) {
    exists i :: 0 <= i <= |text| && OccursAt(text, part, i)
  }

  function Lower(text: string): string {
    seq(|text|, i requires 0 <= i < |text| =>
      if 'A' <= text[i] <= 'Z' then text[i] - 'A' + 'a' else text[i])
  }

  predicate LooksRejected(reason: string) {
    var r := Lower(reason);
    || Contains(r, "invalid_request") || Contains(r, "unknown variant")
    || Contains(r, "unknown invalid subscription") || Contains(r, "unknown or invalid subscription")
  }

  /** The same letters, small or capital. */
  predicate SameLetters(text: string, small: string) {
    && |text| == |small|
    && forall i :: 0 <= i < |text| ==>
         text[i] == small[i] || ('a' <= small[i] <= 'z' && text[i] as int == small[i] as int - 32)
  }

  /** Some part of the reason is these words, in whatever case. */
  ghost predicate Says(reason: string, words: string) {
    exists i, j :: 0 <= i <= j <= |reason| && SameLetters(reason[i..j], words)
  }

  lemma LowerIs(text: string, part: string, i: nat)
    requires i + |part| <= |text| && forall c :: c in part ==> !('A' <= c <= 'Z')
    ensures OccursAt(Lower(text), part, i) <==> SameLetters(text[i..i + |part|], part)
  {
    var low, here := Lower(text), text[i..i + |part|];
    if OccursAt(low, part, i) {
      forall k | 0 <= k < |part|
        ensures here[k] == part[k] || ('a' <= part[k] <= 'z' && here[k] as int == part[k] as int - 32)
      {
        assert low[i..i + |part|][k] == low[i + k] == part[k];
      }
    }
    if SameLetters(here, part) {
      forall k | 0 <= k < |part|
        ensures low[i..i + |part|][k] == part[k]
      {
        assert here[k] == text[i + k] && part[k] in part;
      }
    }
  }

  lemma SaidInAnyCase(reason: string, words: string)
    requires forall c :: c in words ==> !('A' <= c <= 'Z')
    ensures Contains(Lower(reason), words) <==> Says(reason, words)
  {
    if Contains(Lower(reason), words) {
      var i :| 0 <= i <= |Lower(reason)| && OccursAt(Lower(reason), words, i);
      LowerIs(reason, words, i);
      assert SameLetters(reason[i..i + |words|], words);
    }
    if i, j :| 0 <= i <= j <= |reason| && SameLetters(reason[i..j], words) {
      LowerIs(reason, words, i);
    }
  }

  /** A reason is a refusal exactly when some part of it is one of four phrases, in whatever case. */
  lemma LooksRejectedExactly(reason: string)
    ensures LooksRejected(reason) <==>
            Says(reason, "invalid_request") || Says(reason, "unknown variant") ||
            Says(reason, "unknown invalid subscription") || Says(reason, "unknown or invalid subscription")
  {
    SaidInAnyCase(reason, "invalid_request");
    SaidInAnyCase(reason, "unknown variant");
    SaidInAnyCase(reason, "unknown invalid subscription");
    SaidInAnyCase(reason, "unknown or invalid subscription");
  }

  datatype Dropped = Dropped(types: set<string>, panes: set<PaneId>)

  /** The first of the longest subscription types the reason names. */
  function BestMatch(subs: seq<Subscription>, reason: string): Option<Subscription> {
    if subs == [] then None else
    var best, s := BestMatch(subs[..|subs| - 1], reason), subs[|subs| - 1];
    if Contains(reason, Kind(s)) && (best.None? || |Kind(s)| > |Kind(best.value)|) then Some(s) else best
  }

  /** What stays dropped after the server refused with `reason`; unchanged when nothing new is named. */
  function AfterRejection(panes: seq<PaneId>, d: Dropped, reason: string): Dropped {
    if !LooksRejected(reason) then d else
    match BestMatch(BuildSubscriptions(panes), reason)
    case None => d
    case Some(Global(kind)) => d.(types := d.types + {kind})
    case Some(AgentStatus(pane)) =>
      d.(panes := d.panes + if Contains(reason, pane) then {pane} else set id | id in panes && id != "")
  }

  predicate Wanted(d: Dropped, s: Subscription) {
    if s.Global? then s.kind !in d.types else s.pane !in d.panes
  }

  /** What the next request holds: the subscriptions for these panes, without those that were dropped. */
  function Requested(panes: seq<PaneId>, d: Dropped): set<Subscription> {
    set s | s in BuildSubscriptions(panes) && Wanted(d, s)
  }

  // ---- State ----

  /** What the outside sees: the streams opened so far, and a record of what the poker did. */
  datatype World = World(now: nat, handles: nat, open: set<nat>, asked: set<Subscription>, acked: bool,
                         lastDrop: Option<nat>, delays: seq<nat>, quick: nat, pokes: nat, health: seq<bool>)

  /** `debounce` and `stable` say when the timer was armed, `reconnect` how long it waits. */
  datatype State = State(panes: seq<PaneId>, dropped: Dropped, started: bool, healthy: bool, backoffIdx: nat,
                         stream: Option<nat>, debounce: Option<nat>, reconnect: Option<nat>, stable: Option<nat>,
                         w: World)

  datatype Event =
    | Start
    | Stop
    | SetAgentPanes(ids: seq<PaneId>)
    | OnUp(handle: nat)
    | OnEvent(handle: nat)
    | OnDown(handle: nat, reason: string)
    | StableFires
    | ReconnectFires
    | DebounceFires
    | Advance(ms: nat)

  const INITIAL := State([], Dropped({}, {}), false, false, 0, None, None, None, None,
                         World(0, 0, {}, {}, false, None, [], 0, 0, []))

  function Delay(backoff: seq<nat>, i: nat): nat {
    if backoff == [] then DEFAULT_DELAY else if i < |backoff| then backoff[i] else backoff[|backoff| - 1]
  }

  function Connect(s: State): State {
    s.(stream := Some(s.w.handles),
       w := s.w.(handles := s.w.handles + 1, open := s.w.open + {s.w.handles},
                 asked := Requested(s.panes, s.dropped), acked := false))
  }

  function Closed(s: State): State {
    if s.stream.None? then s else s.(stream := None, w := s.w.(open := s.w.open - {s.stream.value}))
  }

  function SetHealthy(s: State, healthy: bool): State {
    if s.healthy == healthy then s else s.(healthy := healthy, w := s.w.(health := s.w.health + [healthy]))
  }

  function ScheduleReconnect(backoff: seq<nat>, s: State): State {
    if s.reconnect.Some? then s else
    var delay := Delay(backoff, s.backoffIdx);
    s.(reconnect := Some(delay), backoffIdx := s.backoffIdx + 1, w := s.w.(delays := s.w.delays + [delay]))
  }

  /** The current stream ended; `d` is what is dropped from now on. */
  function StreamEnded(backoff: seq<nat>, s: State, d: Dropped): State {
    var s1 := SetHealthy(Closed(s).(stable := None), false);
    var s2 := s1.(w := s1.w.(lastDrop := Some(s.w.now)));
    if !s.started then s2
    else if d != s.dropped then
      var s3 := Connect(s2.(dropped := d));
      s3.(w := s3.w.(quick := s3.w.quick + 1))
    else ScheduleReconnect(backoff, s2)
  }

  function Step(backoff: seq<nat>, s: State, e: Event): State {
    match e
    case Start => if s.started then s else Connect(s.(started := true))
    case Stop => Closed(s.(started := false, debounce := None, reconnect := None, stable := None))
    case SetAgentPanes(ids) =>
      if Ids(ids) == Ids(s.panes) then s
      else if s.started then Connect(Closed(s.(panes := ids, reconnect := None)))
      else s.(panes := ids)
    case OnUp(h) =>
      if s.stream != Some(h) then s else
      var s1 := if s.backoffIdx > 0 && s.stable.None? then s.(stable := Some(s.w.now)) else s;
      SetHealthy(s1.(w := s1.w.(acked := true)), true)
    case OnEvent(h) => if s.stream != Some(h) then s else s.(debounce := Some(s.w.now))
    case OnDown(h, reason) =>
      if s.stream != Some(h) then s.(w := s.w.(open := s.w.open - {h}))
      else StreamEnded(backoff, s, AfterRejection(s.panes, s.dropped, reason))
    case StableFires =>
      if s.stable.Some? && s.w.now >= s.stable.value + STABLE_MS then s.(stable := None, backoffIdx := 0) else s
    case ReconnectFires =>
      if s.reconnect.None? then s
      else if s.started then Connect(s.(reconnect := None)) else s.(reconnect := None)
    case DebounceFires =>
      if s.debounce.Some? && s.w.now >= s.debounce.value + DEBOUNCE_MS
      then s.(debounce := None, w := s.w.(pokes := s.w.pokes + 1)) else s
    case Advance(ms) => s.(w := s.w.(now := s.w.now + ms))
  }

  function Run(backoff: seq<nat>, s: State, es: seq<Event>): State {
    if es == [] then s else Step(backoff, Run(backoff, s, es[..|es| - 1]), es[|es| - 1])
  }

  // ---- The connection invariant ----

  ghost predicate Inv(s: State) {
    && (s.started ==> (s.stream.Some? <==> s.reconnect.None?))
    && (!s.started ==> s.stream.None? && s.reconnect.None? && s.stable.None? && s.debounce.None?)
    && (s.debounce.Some? ==> s.debounce.value <= s.w.now)
    && (s.stream.Some? ==> s.w.asked == Requested(s.panes, s.dropped))
    && s.w.open == (if s.stream.Some? then {s.stream.value} else {})
    && (forall h :: h in s.w.open ==> h < s.w.handles)
    && (s.reconnect.Some? ==>
          !s.healthy && s.w.delays != [] && s.reconnect == Some(s.w.delays[|s.w.delays| - 1]))
    && (s.stable.Some? ==> s.stream.Some? && s.healthy && s.stable.value <= s.w.now)
    && (s.stable.Some? && s.w.lastDrop.Some? ==> s.w.lastDrop.value <= s.stable.value)
    && (s.w.lastDrop.Some? ==> s.w.lastDrop.value <= s.w.now)
  }

  lemma StreamEndedKeepsInv(backoff: seq<nat>, s: State, d: Dropped)
    requires Inv(s) && s.stream.Some?
    ensures Inv(StreamEnded(backoff, s, d))
  {}

  lemma ClosingKeepsInv(s: State, h: nat)
    requires Inv(s) && s.stream != Some(h)
    ensures Inv(s.(w := s.w.(open := s.w.open - {h})))
  {}

  lemma NewPanesKeepInv(backoff: seq<nat>, s: State, ids: seq<PaneId>)
    requires Inv(s)
    ensures Inv(Step(backoff, s, SetAgentPanes(ids)))
  {}

  lemma AcknowledgedKeepsInv(backoff: seq<nat>, s: State, h: nat)
    requires Inv(s)
    ensures Inv(Step(backoff, s, OnUp(h)))
  {}

  lemma OtherEventsKeepInv(backoff: seq<nat>, s: State, e: Event)
    requires Inv(s) && !e.OnDown? && !e.SetAgentPanes? && !e.OnUp?
    ensures Inv(Step(backoff, s, e))
  {}

  lemma StepKeepsInv(backoff: seq<nat>, s: State, e: Event)
    requires Inv(s)
    ensures Inv(Step(backoff, s, e))
  {
    match e {
      case SetAgentPanes(ids) => NewPanesKeepInv(backoff, s, ids);
      case OnUp(h) => AcknowledgedKeepsInv(backoff, s, h);
      case OnDown(h, reason) =>
        if s.stream == Some(h) {
          StreamEndedKeepsInv(backoff, s, AfterRejection(s.panes, s.dropped, reason));
        } else {
          ClosingKeepsInv(s, h);
        }
      case _ => OtherEventsKeepInv(backoff, s, e);
    }
  }

  lemma {:induction false} RunKeepsInv(backoff: seq<nat>, s: State, es: seq<Event>)
    requires Inv(s)
    ensures Inv(Run(backoff, s, es))
  {
    if es != [] {
      RunKeepsInv(backoff, s, es[..|es| - 1]);
      StepKeepsInv(backoff, Run(backoff, s, es[..|es| - 1]), es[|es| - 1]);
    }
  }

  /**
   * While started there is exactly one of a current stream and a reconnect timer, which is armed with
   * the last wait, and the only open subscription is the current stream's.
   */
  lemma OneStreamOrOneTimer(backoff: seq<nat>, es: seq<Event>)
    ensures
      var s := Run(backoff, INITIAL, es);
      && (s.started ==> (s.stream.Some? <==> s.reconnect.None?))
      && (s.reconnect.Some? ==> s.w.delays != [] && s.reconnect.value == s.w.delays[|s.w.delays| - 1])
      && s.w.open == (if s.stream.Some? then {s.stream.value} else {})
  {
    RunKeepsInv(backoff, INITIAL, es);
  }

  /** Callbacks of a superseded stream change nothing at all. */
  lemma StaleCallbacksIgnored(backoff: seq<nat>, es: seq<Event>, h: nat, reason: string)
    requires Run(backoff, INITIAL, es).stream != Some(h)
    ensures
      var s := Run(backoff, INITIAL, es);
      Step(backoff, s, OnUp(h)) == s && Step(backoff, s, OnEvent(h)) == s && Step(backoff, s, OnDown(h, reason)) == s
  {
    RunKeepsInv(backoff, INITIAL, es);
    var s := Run(backoff, INITIAL, es);
    assert s.w.open - {h} == s.w.open;
  }

  /** After `stop` nothing is poked, reported or opened until the next `start`. */
  lemma {:induction false} StoppedIsSilent(backoff: seq<nat>, s: State, es: seq<Event>)
    requires Inv(s) && !s.started && Start !in es
    ensures
      var t := Run(backoff, s, es);
      !t.started && t.w.pokes == s.w.pokes && t.w.health == s.w.health &&
      t.w.handles == s.w.handles && t.w.delays == s.w.delays && t.w.open == {}
  {
    if es != [] {
      var n := |es| - 1;
      assert es[n] in es;
      StoppedIsSilent(backoff, s, es[..n]);
      RunKeepsInv(backoff, s, es[..n]);
    }
  }

  /** However the poker was used before and whatever still comes in, `stop` ends it all. */
  lemma StopSilences(backoff: seq<nat>, es: seq<Event>, more: seq<Event>)
    requires Start !in more
    ensures
      var s, t := Run(backoff, INITIAL, es), Run(backoff, INITIAL, es + [Stop] + more);
      && !t.started && t.w.open == {} && t.w.pokes == s.w.pokes && t.w.health == s.w.health
      && t.w.handles == s.w.handles && t.w.delays == s.w.delays
  {
    Unfold(backoff, es, Stop);
    RunKeepsInv(backoff, INITIAL, es + [Stop]);
    StoppedIsSilent(backoff, Run(backoff, INITIAL, es + [Stop]), more);
    RunAppend(backoff, INITIAL, es + [Stop], more);
  }

  lemma Unfold(backoff: seq<nat>, es: seq<Event>, e: Event)
    ensures Run(backoff, INITIAL, es + [e]) == Step(backoff, Run(backoff, INITIAL, es), e)
  {
    assert (es + [e])[..|es|] == es;
  }

  lemma {:induction false} RunAppend(backoff: seq<nat>, s: State, es: seq<Event>, more: seq<Event>)
    ensures Run(backoff, s, es + more) == Run(backoff, Run(backoff, s, es), more)
  {
    if more == [] {
      assert es + more == es;
    } else {
      RunAppend(backoff, s, es, more[..|more| - 1]);
      assert (es + more)[..|es + more| - 1] == es + more[..|more| - 1];
    }
  }

  // ---- Events become pokes ----

  /** All states of a run, from the first one on: number `k` is the one that event `k` meets. */
  function States(backoff: seq<nat>, es: seq<Event>): (ss: seq<State>)
    ensures |ss| == |es| + 1
  {
    if es == [] then [INITIAL] else
    var front := States(backoff, es[..|es| - 1]);
    front + [Step(backoff, front[|es| - 1], es[|es| - 1])]
  }

  lemma {:induction false} LastState(backoff: seq<nat>, es: seq<Event>)
    ensures States(backoff, es)[|es|] == Run(backoff, INITIAL, es)
  {
    if es != [] { LastState(backoff, es[..|es| - 1]); }
  }

  /** The stream that is current receives an event. */
  predicate OwnEvent(s: State, e: Event) { e.OnEvent? && s.stream == Some(e.handle) }

  /** Of the first `n` events, number `k` is the last one of a current stream; no poke and no stop has come since. */
  ghost predicate Unanswered(es: seq<Event>, ss: seq<State>, n: nat, k: nat)
    requires n <= |es| && |ss| == |es| + 1
  {
    && k < n && OwnEvent(ss[k], es[k])
    && (forall j :: k < j < n ==> es[j] != Stop && !OwnEvent(ss[j], es[j]))
    && ss[n].w.pokes == ss[k].w.pokes
  }

  /** What one event does to the debounce timer and the pokes. */
  ghost predicate Beat(s: State, e: Event, t: State) {
    var poke := e == DebounceFires && s.debounce.Some? && s.w.now >= s.debounce.value + 200;
    && t.debounce == (if OwnEvent(s, e) then Some(s.w.now) else if e == Stop || poke then None else s.debounce)
    && t.w.pokes == s.w.pokes + (if poke then 1 else 0)
  }

  ghost predicate Beats(es: seq<Event>, ss: seq<State>) {
    && |ss| == |es| + 1 && ss[0].debounce.None?
    && forall k, l :: 0 <= k < |es| && l == k + 1 ==> Beat(ss[k], es[k], ss[l])
  }

  lemma StepBeats(backoff: seq<nat>, s: State, e: Event)
    ensures Beat(s, e, Step(backoff, s, e))
  {}

  lemma {:induction false} StatesBeat(backoff: seq<nat>, es: seq<Event>)
    ensures Beats(es, States(backoff, es))
  {
    if es != [] {
      var n := |es| - 1;
      var front, ss := States(backoff, es[..n]), States(backoff, es);
      StatesBeat(backoff, es[..n]);
      StepBeats(backoff, front[n], es[n]);
      forall k, l | 0 <= k < |es| && l == k + 1
        ensures Beat(ss[k], es[k], ss[l])
      {
        if k < n { assert es[..n][k] == es[k] && Beat(front[k], es[..n][k], front[l]); }
      }
    }
  }

  lemma {:induction false} PokesOnlyRise(es: seq<Event>, ss: seq<State>, k: nat, n: nat)
    requires Beats(es, ss) && k <= n <= |es|
    ensures ss[k].w.pokes <= ss[n].w.pokes
    decreases n
  {
    if k < n {
      PokesOnlyRise(es, ss, k, n - 1);
      assert Beat(ss[n - 1], es[n - 1], ss[n]);
    }
  }

  lemma {:induction false} UnansweredArms(es: seq<Event>, ss: seq<State>, n: nat, k: nat)
    requires Beats(es, ss) && n <= |es| && Unanswered(es, ss, n, k)
    ensures ss[n].debounce == Some(ss[k].w.now)
    decreases n
  {
    assert Beat(ss[n - 1], es[n - 1], ss[n]);
    if k < n - 1 {
      PokesOnlyRise(es, ss, k, n - 1);
      UnansweredArms(es, ss, n - 1, k);
    }
  }

  lemma {:induction false} ArmedIsUnanswered(es: seq<Event>, ss: seq<State>, n: nat) returns (k: nat)
    requires Beats(es, ss) && n <= |es| && ss[n].debounce.Some?
    ensures Unanswered(es, ss, n, k)
    decreases n
  {
    assert Beat(ss[n - 1], es[n - 1], ss[n]);
    if OwnEvent(ss[n - 1], es[n - 1]) {
      k := n - 1;
    } else {
      k := ArmedIsUnanswered(es, ss, n - 1);
    }
  }

  /** An event of the stream current then came 200 ms ago or earlier, and nothing came of it yet. */
  ghost predicate PokeIsDue(es: seq<Event>, ss: seq<State>)
    requires |ss| == |es| + 1
  {
    exists k :: 0 <= k < |es| && Unanswered(es, ss, |es|, k) && ss[|es|].w.now >= ss[k].w.now + 200
  }

  /** Over every run: a poke comes exactly when the timer fires for an unanswered event 200 ms old. */
  lemma PokesExactly(backoff: seq<nat>, es: seq<Event>, e: Event)
    ensures Run(backoff, INITIAL, es + [e]).w.pokes ==
            Run(backoff, INITIAL, es).w.pokes +
            if e == DebounceFires && PokeIsDue(es, States(backoff, es)) then 1 else 0
  {
    var s, ss := Run(backoff, INITIAL, es), States(backoff, es);
    Unfold(backoff, es, e);
    StepBeats(backoff, s, e);
    LastState(backoff, es);
    StatesBeat(backoff, es);
    TimerTells(es, ss);
  }

  lemma TimerTells(es: seq<Event>, ss: seq<State>)
    requires Beats(es, ss)
    ensures
      var s := ss[|es|];
      PokeIsDue(es, ss) <==> s.debounce.Some? && s.w.now >= s.debounce.value + 200
  {
    if ss[|es|].debounce.Some? {
      var k := ArmedIsUnanswered(es, ss, |es|);
      UnansweredArms(es, ss, |es|, k);
    }
    if PokeIsDue(es, ss) {
      var k :| 0 <= k < |es| && Unanswered(es, ss, |es|, k) && ss[|es|].w.now >= ss[k].w.now + 200;
      UnansweredArms(es, ss, |es|, k);
    }
  }

  lemma {:induction false} PokedOrArmed(backoff: seq<nat>, s: State, more: seq<Event>)
    requires Inv(s) && s.debounce.Some? && Stop !in more
    ensures
      var t := Run(backoff, s, more);
      && Inv(t) && t.w.pokes >= s.w.pokes && (t.w.pokes > s.w.pokes || t.debounce.Some?)
      && (DebounceFires !in more ==> t.w.pokes == s.w.pokes)
  {
    if more != [] {
      var n := |more| - 1;
      assert more[n] in more;
      PokedOrArmed(backoff, s, more[..n]);
      StepBeats(backoff, Run(backoff, s, more[..n]), more[n]);
      StepKeepsInv(backoff, Run(backoff, s, more[..n]), more[n]);
    }
  }

  lemma QuietThenFires(backoff: seq<nat>, s: State)
    requires Inv(s)
    ensures Run(backoff, s, [Advance(200), DebounceFires]).w.pokes == s.w.pokes + if s.debounce.Some? then 1 else 0
  {
    assert [Advance(200), DebounceFires][..1] == [Advance(200)] && [Advance(200)][..0] == [];
    assert Run(backoff, s, []) == s;
    assert Run(backoff, s, [Advance(200)]) == Step(backoff, s, Advance(200));
  }

  /**
   * An event of the current stream is never lost: whatever follows short of a stop, a poke has come by
   * the time the timer fires after 200 quiet ms. Any number of events before it make one poke.
   */
  lemma EventsArePoked(backoff: seq<nat>, es: seq<Event>, h: nat, more: seq<Event>)
    requires Run(backoff, INITIAL, es).stream == Some(h) && Stop !in more
    ensures
      var s := Run(backoff, INITIAL, es);
      var t := Run(backoff, INITIAL, es + [OnEvent(h)] + more + [Advance(200), DebounceFires]);
      && t.w.pokes > s.w.pokes
      && (DebounceFires !in more ==> t.w.pokes == s.w.pokes + 1)
  {
    var s, s1 := Run(backoff, INITIAL, es), Run(backoff, INITIAL, es + [OnEvent(h)]);
    Unfold(backoff, es, OnEvent(h));
    RunKeepsInv(backoff, INITIAL, es + [OnEvent(h)]);
    PokedOrArmed(backoff, s1, more);
    QuietThenFires(backoff, Run(backoff, s1, more));
    RunAppend(backoff, INITIAL, es + [OnEvent(h)], more);
    RunAppend(backoff, INITIAL, es + [OnEvent(h)] + more, [Advance(200), DebounceFires]);
  }

  // ---- What is asked for, and what is reported ----

  /** The agent panes named last. */
  function LatestPanes(es: seq<Event>): set<PaneId> {
    if es == [] then {} else
    match es[|es| - 1]
    case SetAgentPanes(ids) => set id | id in ids
    case _ => LatestPanes(es[..|es| - 1])
  }

  lemma PanesStep(backoff: seq<nat>, s: State, e: Event)
    ensures Ids(Step(backoff, s, e).panes) == if e.SetAgentPanes? then Ids(e.ids) else Ids(s.panes)
  {
    if e.OnDown? { StreamEndedParts(backoff, s, AfterRejection(s.panes, s.dropped, e.reason)); }
  }

  lemma {:induction false} PanesAreLatest(backoff: seq<nat>, es: seq<Event>)
    ensures Ids(Run(backoff, INITIAL, es).panes) == LatestPanes(es)
  {
    if es != [] {
      PanesAreLatest(backoff, es[..|es| - 1]);
      PanesStep(backoff, Run(backoff, INITIAL, es[..|es| - 1]), es[|es| - 1]);
    }
  }

  /**
   * Over every run the current stream asked for exactly the global types that were not refused and the
   * agent status of the panes named last that were not refused.
   */
  lemma AsksForTheHerd(backoff: seq<nat>, es: seq<Event>)
    requires Run(backoff, INITIAL, es).stream.Some?
    ensures
      var s := Run(backoff, INITIAL, es);
      && (forall kind :: Global(kind) in s.w.asked <==> kind in GLOBALS && kind !in s.dropped.types)
      && (forall id :: AgentStatus(id) in s.w.asked <==> id in LatestPanes(es) && id !in s.dropped.panes)
  {
    var s := Run(backoff, INITIAL, es);
    RunKeepsInv(backoff, INITIAL, es);
    PanesAreLatest(backoff, es);
    forall id
      ensures AgentStatus(id) in s.w.asked <==> id in Ids(s.panes) && id !in s.dropped.panes
    {
      PaneRequested(s.panes, s.dropped, id);
    }
    forall kind
      ensures Global(kind) in s.w.asked <==> kind in GLOBALS && kind !in s.dropped.types
    {
      KindRequested(s.panes, s.dropped, kind);
    }
  }

  lemma KindRequested(panes: seq<PaneId>, d: Dropped, kind: string)
    ensures Global(kind) in Requested(panes, d) <==> kind in GLOBALS && kind !in d.types
  {
    var subs := BuildSubscriptions(panes);
    if kind in GLOBALS {
      var k :| 0 <= k < |GLOBALS| && GLOBALS[k] == kind;
      assert subs[k] == Global(kind);
    }
  }

  /** Health reports take turns, beginning with `true`, and the last one is how the poker reads. */
  ghost predicate ReportsTakeTurns(s: State) {
    && (forall k :: 0 <= k < |s.w.health| ==> (s.w.health[k] <==> k % 2 == 0))
    && (s.healthy <==> |s.w.health| % 2 == 1)
  }

  lemma ReportsStep(backoff: seq<nat>, s: State, e: Event)
    requires ReportsTakeTurns(s)
    ensures ReportsTakeTurns(Step(backoff, s, e))
  {
    if e.OnDown? { ReportsEnded(backoff, s, AfterRejection(s.panes, s.dropped, e.reason)); }
  }

  lemma ReportsEnded(backoff: seq<nat>, s: State, d: Dropped)
    requires ReportsTakeTurns(s)
    ensures ReportsTakeTurns(StreamEnded(backoff, s, d))
  {}

  /**
   * Over every run health reports alternate; an acknowledgement of the current stream leaves the poker
   * healthy, the end of it unhealthy.
   */
  lemma {:induction false} HealthIsReported(backoff: seq<nat>, es: seq<Event>, h: nat, reason: string)
    ensures ReportsTakeTurns(Run(backoff, INITIAL, es))
    ensures Run(backoff, INITIAL, es).stream == Some(h) ==>
              Run(backoff, INITIAL, es + [OnUp(h)]).healthy && !Run(backoff, INITIAL, es + [OnDown(h, reason)]).healthy
  {
    if es != [] {
      HealthIsReported(backoff, es[..|es| - 1], h, reason);
      ReportsStep(backoff, Run(backoff, INITIAL, es[..|es| - 1]), es[|es| - 1]);
    }
    var s := Run(backoff, INITIAL, es);
    Unfold(backoff, es, OnUp(h));
    Unfold(backoff, es, OnDown(h, reason));
    StreamEndedIsDown(backoff, s, AfterRejection(s.panes, s.dropped, reason));
  }

  // ---- Immediate reconnects are bounded ----

  lemma {:induction false} BestMatchIsListed(subs: seq<Subscription>, reason: string)
    ensures BestMatch(subs, reason).Some? ==>
              BestMatch(subs, reason).value in subs && Contains(reason, Kind(BestMatch(subs, reason).value))
  {
    if subs != [] { BestMatchIsListed(subs[..|subs| - 1], reason); }
  }

  /** Nothing the reason names is longer than the best match. */
  lemma {:induction false} BestMatchIsLongest(subs: seq<Subscription>, reason: string, k: nat)
    requires k < |subs| && Contains(reason, Kind(subs[k]))
    ensures BestMatch(subs, reason).Some? && |Kind(subs[k])| <= |Kind(BestMatch(subs, reason).value)|
  {
    if k < |subs| - 1 { BestMatchIsLongest(subs[..|subs| - 1], reason, k); }
  }

  /** The reason names subscription `m`, nothing longer, and nothing as long in front of it. */
  ghost predicate Leads(subs: seq<Subscription>, reason: string, m: nat) {
    && m < |subs| && Contains(reason, Kind(subs[m]))
    && forall j :: 0 <= j < |subs| && j != m && Contains(reason, Kind(subs[j])) ==> Behind(subs, m, j)
  }

  predicate Behind(subs: seq<Subscription>, m: nat, j: nat)
    requires m < |subs| && j < |subs|
  {
    |Kind(subs[j])| < |Kind(subs[m])| || (|Kind(subs[j])| == |Kind(subs[m])| && m < j)
  }

  lemma BestOfMore(subs: seq<Subscription>, reason: string)
    requires subs != []
    ensures
      var n := |subs| - 1;
      var best, s := BestMatch(subs[..n], reason), subs[n];
      BestMatch(subs, reason) ==
      if Contains(reason, Kind(s)) && (best.None? || |Kind(s)| > |Kind(best.value)|) then Some(s) else best
  {}

  lemma LastLeads(subs: seq<Subscription>, reason: string)
    requires subs != [] && Contains(reason, Kind(subs[|subs| - 1]))
    requires var best := BestMatch(subs[..|subs| - 1], reason);
             best.None? || |Kind(subs[|subs| - 1])| > |Kind(best.value)|
    ensures Leads(subs, reason, |subs| - 1)
  {
    var n := |subs| - 1;
    forall j | 0 <= j < |subs| && j != n && Contains(reason, Kind(subs[j]))
      ensures Behind(subs, n, j)
    {
      BestMatchIsLongest(subs[..n], reason, j);
    }
  }

  lemma StillLeads(subs: seq<Subscription>, reason: string, m: nat)
    requires subs != [] && Leads(subs[..|subs| - 1], reason, m)
    requires Contains(reason, Kind(subs[|subs| - 1])) ==> |Kind(subs[|subs| - 1])| <= |Kind(subs[m])|
    ensures Leads(subs, reason, m)
  {
    var n := |subs| - 1;
    forall j | 0 <= j < |subs| && j != m && Contains(reason, Kind(subs[j]))
      ensures Behind(subs, m, j)
    {
      if j < n { assert Behind(subs[..n], m, j); }
    }
  }

  lemma {:induction false} BestMatchLeads(subs: seq<Subscription>, reason: string) returns (m: nat)
    requires BestMatch(subs, reason).Some?
    ensures Leads(subs, reason, m) && BestMatch(subs, reason) == Some(subs[m])
  {
    var n := |subs| - 1;
    var best := BestMatch(subs[..n], reason);
    BestOfMore(subs, reason);
    if Contains(reason, Kind(subs[n])) && (best.None? || |Kind(subs[n])| > |Kind(best.value)|) {
      LastLeads(subs, reason);
      m := n;
    } else {
      m := BestMatchLeads(subs[..n], reason);
      StillLeads(subs, reason, m);
    }
  }

  lemma OneLeads(subs: seq<Subscription>, reason: string, k: nat, m: nat)
    requires Leads(subs, reason, k) && Leads(subs, reason, m)
    ensures k == m
  {}

  lemma LeaderIsBest(subs: seq<Subscription>, reason: string, k: nat)
    requires Leads(subs, reason, k)
    ensures BestMatch(subs, reason) == Some(subs[k])
  {
    BestMatchIsLongest(subs, reason, k);
    var m := BestMatchLeads(subs, reason);
    OneLeads(subs, reason, k, m);
  }

  lemma PaneStatusIsLongest(panes: seq<PaneId>, j: nat)
    requires j < 15
    ensures BuildSubscriptions(panes)[j].Global? && |Kind(BuildSubscriptions(panes)[j])| < |PANE_STATUS|
  {
    assert forall k :: 0 <= k < 15 ==> |GLOBALS[k]| < 20;
  }

  lemma FirstPaneIsBest(panes: seq<PaneId>, reason: string)
    requires panes != [] && Contains(reason, PANE_STATUS)
    ensures BestMatch(BuildSubscriptions(panes), reason) == Some(AgentStatus(panes[0]))
  {
    var subs := BuildSubscriptions(panes);
    assert subs[15] == AgentStatus(panes[0]);
    forall j | 0 <= j < |subs| && j != 15
      ensures Behind(subs, 15, j)
    {
      if j < 15 { PaneStatusIsLongest(panes, j); }
    }
    LeaderIsBest(subs, reason, 15);
  }

  // ---- What a refusal is for ----

  /** The server refused the agent status of `refused`, a listed pane that was asked for. */
  predicate RefusesPane(panes: seq<PaneId>, d: Dropped, reason: string, refused: PaneId) {
    && LooksRejected(reason) && Contains(reason, PANE_STATUS)
    && refused in panes && refused != "" && refused !in d.panes
  }

  lemma PaneRequested(panes: seq<PaneId>, d: Dropped, id: PaneId)
    ensures AgentStatus(id) in Requested(panes, d) <==> id in panes && id !in d.panes
  {
    if id in panes {
      var k :| 0 <= k < |panes| && panes[k] == id;
      assert BuildSubscriptions(panes)[|GLOBALS| + k] == AgentStatus(id);
    }
  }

  /**
   * A refused pane leaves the request exactly when it is the first one listed or the reason does not
   * contain the id of the first one listed: that id is the only one looked for.
   */
  lemma RefusedPaneLeavesExactly(panes: seq<PaneId>, d: Dropped, reason: string, refused: PaneId)
    requires RefusesPane(panes, d, reason, refused)
    ensures AgentStatus(refused) !in Requested(panes, AfterRejection(panes, d, reason)) <==>
            refused == panes[0] || !Contains(reason, panes[0])
  {
    FirstPaneIsBest(panes, reason);
    PaneRequested(panes, AfterRejection(panes, d, reason), refused);
  }

  /**
   * The refused pane and no other is dropped exactly when the reason contains the id of the first one
   * listed and that is the refused one, or when it does not and nothing else is left to drop.
   */
  lemma OnlyRefusedPaneDroppedExactly(panes: seq<PaneId>, d: Dropped, reason: string, refused: PaneId)
    requires RefusesPane(panes, d, reason, refused)
    ensures AfterRejection(panes, d, reason) == d.(panes := d.panes + {refused}) <==>
            if Contains(reason, panes[0]) then refused == panes[0]
            else forall id :: id in panes && id != "" ==> id == refused || id in d.panes
  {
    FirstPaneIsBest(panes, reason);
    var after := AfterRejection(panes, d, reason);
    if Contains(reason, panes[0]) {
      assert after.panes == d.panes + {panes[0]};
    } else {
      var listed := set id | id in panes && id != "";
      assert after.panes == d.panes + listed;
      if after.panes == d.panes + {refused} {
        forall id | id in panes && id != ""
          ensures id == refused || id in d.panes
        {
          assert id in listed;
        }
      }
    }
  }

  lemma KindsDiffer(i: nat, j: nat)
    requires i < j < 15
    ensures GLOBALS[i] != GLOBALS[j]
  {}

  /**
   * A refused global type leaves the request exactly when the reason names no longer type that is listed,
   * and none as long that is listed before it.
   */
  lemma RefusedKindLeavesExactly(panes: seq<PaneId>, d: Dropped, reason: string, g: nat)
    requires g < 15 && LooksRejected(reason) && Contains(reason, GLOBALS[g]) && GLOBALS[g] !in d.types
    ensures Global(GLOBALS[g]) !in Requested(panes, AfterRejection(panes, d, reason)) <==>
            Leads(BuildSubscriptions(panes), reason, g)
  {
    var subs := BuildSubscriptions(panes);
    assert subs[g] == Global(GLOBALS[g]);
    BestMatchIsLongest(subs, reason, g);
    var m := BestMatchLeads(subs, reason);
    if m == g {
      assert GLOBALS[g] in AfterRejection(panes, d, reason).types;
    } else {
      assert Behind(subs, m, g);
      OtherKind(panes, m, g);
      assert subs[g] in Requested(panes, AfterRejection(panes, d, reason));
    }
  }

  lemma OtherKind(panes: seq<PaneId>, m: nat, g: nat)
    requires m < 15 + |panes| && g < 15 && m != g
    ensures BuildSubscriptions(panes)[m] != Global(GLOBALS[g])
  {
    if m < 15 { KindsDiffer(if m < g then m else g, if m < g then g else m); }
  }

  /**
   * A rejection that drops something new takes at least one subscription out of the next request, and
   * adds none. One that does not leaves the request as it was; and the same rejection again drops
   * nothing, so what is still asked for after the first is asked for after any number of them.
   */
  lemma RejectionShrinksRequest(panes: seq<PaneId>, d: Dropped, reason: string)
    ensures
      var d' := AfterRejection(panes, d, reason);
      && (d' != d ==> Requested(panes, d') < Requested(panes, d))
      && AfterRejection(panes, d', reason) == d'
  {
    if AfterRejection(panes, d, reason) != d { NewRejectionShrinks(panes, d, reason); }
  }

  lemma NewRejectionShrinks(panes: seq<PaneId>, d: Dropped, reason: string)
    requires AfterRejection(panes, d, reason) != d
    ensures Requested(panes, AfterRejection(panes, d, reason)) < Requested(panes, d)
  {
    var subs, d' := BuildSubscriptions(panes), AfterRejection(panes, d, reason);
    BestMatchIsListed(subs, reason);
    var best := BestMatch(subs, reason).value;
    match best
    case Global(kind) =>
      assert kind !in d.types;
      assert best in Requested(panes, d) && best !in Requested(panes, d');
    case AgentStatus(_) =>
      var id :| id in d'.panes && id !in d.panes;
      PaneIsListed(panes, best, id, reason);
      assert AgentStatus(id) in Requested(panes, d) && AgentStatus(id) !in Requested(panes, d');
  }

  lemma Named(front: string, part: string, back: string)
    ensures Contains(front + part + back, part)
  {
    assert OccursAt(front + part + back, part, |front|);
  }

  /**
   * Two panes, the id of the second one an extension of the first one's, and a refusal of the second:
   * the first one is dropped, which nobody refused, and the same refusal again drops nothing.
   */
  lemma LongerIdIsNeverDropped(front: string, a: PaneId, more: string, back: string, d: Dropped)
    requires var reason := front + (a + more) + back; LooksRejected(reason) && Contains(reason, PANE_STATUS)
    requires more != "" && a !in d.panes && a + more !in d.panes
    ensures
      var panes, reason := [a, a + more], front + (a + more) + back;
      var once := AfterRejection(panes, d, reason);
      && once == d.(panes := d.panes + {a}) && AfterRejection(panes, once, reason) == once
      && AgentStatus(a + more) in Requested(panes, once)
  {
    var panes, reason := [a, a + more], front + (a + more) + back;
    assert reason == front + a + (more + back);
    Named(front, a, more + back);
    FirstPaneIsBest(panes, reason);
    assert panes[1] == a + more && a != a + more;
    PaneRequested(panes, AfterRejection(panes, d, reason), a + more);
  }

  lemma LooksLikeRefusal(rest: string)
    ensures LooksRejected("invalid_request" + rest)
  {
    var start := "invalid_request";
    assert Lower(start) == start;
    assert Lower(start + rest) == "" + start + Lower(rest);
    Named("", start, Lower(rest));
  }

  /** So it is with `w1:p1` and `w1:p10`. */
  lemma TenthPaneIsNeverDropped() returns (reason: string)
    ensures reason == "invalid_request" + ": " + PANE_STATUS + ", pane " + "w1:p10"
    ensures
      var panes, once := ["w1:p1", "w1:p10"], Dropped({}, {"w1:p1"});
      && RefusesPane(panes, Dropped({}, {}), reason, "w1:p10")
      && AfterRejection(panes, Dropped({}, {}), reason) == once && AfterRejection(panes, once, reason) == once
      && AgentStatus("w1:p10") in Requested(panes, once)
  {
    var front := "invalid_request" + ": " + PANE_STATUS + ", pane ";
    reason := front + "w1:p10";
    LooksLikeRefusal(": " + PANE_STATUS + ", pane " + "w1:p10");
    assert reason == "invalid_request" + (": " + PANE_STATUS + ", pane " + "w1:p10");
    Named("invalid_request" + ": ", PANE_STATUS, ", pane " + "w1:p10");
    assert reason == "invalid_request" + ": " + PANE_STATUS + (", pane " + "w1:p10");
    var a, more := "w1:p1", "0";
    assert "w1:p10" == a + more && reason == front + (a + more) + "";
    LongerIdIsNeverDropped(front, a, more, "", Dropped({}, {}));
    assert {} + {a} == {a} && ["w1:p1", "w1:p10"][1] == "w1:p10";
  }

  /** A refusal of one global type that also lists a longer one drops the longer one and never the refused. */
  lemma ListedTypeHidesRefused(panes: seq<PaneId>, reason: string, g: nat, other: nat)
    requires g < 15 && other < 15 && |GLOBALS[g]| < |GLOBALS[other]|
    requires LooksRejected(reason) && Contains(reason, GLOBALS[g]) && Contains(reason, GLOBALS[other])
    ensures
      var once := AfterRejection(panes, Dropped({}, {}), reason);
      AfterRejection(panes, once, reason) == once && Global(GLOBALS[g]) in Requested(panes, once)
  {
    var subs := BuildSubscriptions(panes);
    assert subs[g] == Global(GLOBALS[g]) && Kind(subs[other]) == GLOBALS[other];
    assert !Behind(subs, g, other);
    RefusedKindLeavesExactly(panes, Dropped({}, {}), reason, g);
  }

  /** Such a refusal: `pane.moved` is refused, and the reason goes on to name `workspace.created`. */
  lemma MovedIsNeverDropped(panes: seq<PaneId>) returns (reason: string)
    ensures reason == "invalid_request" + ": " + GLOBALS[12] + ", expected " + GLOBALS[0] && GLOBALS[12] == "pane.moved"
    ensures
      var once := AfterRejection(panes, Dropped({}, {}), reason);
      AfterRejection(panes, once, reason) == once && Global("pane.moved") in Requested(panes, once)
  {
    var start, moved, created := "invalid_request", GLOBALS[12], GLOBALS[0];
    reason := start + ": " + moved + ", expected " + created;
    LooksLikeRefusal(": " + moved + ", expected " + created);
    assert reason == start + (": " + moved + ", expected " + created);
    Named(start + ": ", moved, ", expected " + created);
    assert reason == start + ": " + moved + (", expected " + created);
    Named(start + ": " + moved + ", expected ", created, "");
    assert reason == start + ": " + moved + ", expected " + created + "";
    ListedTypeHidesRefused(panes, reason, 12, 0);
  }

  /** A refusal of the current stream, and the reconnect after the wait if it has to wait. */
  function RefusedOnce(backoff: seq<nat>, s: State, reason: string): State
    requires s.stream.Some?
  {
    var t := Step(backoff, s, OnDown(s.stream.value, reason));
    if t.reconnect.Some? then Step(backoff, t, ReconnectFires) else t
  }

  /** Started, with a stream and no wait. */
  predicate Asking(s: State) { s.started && s.stream.Some? && s.reconnect.None? }

  lemma RefusedOnceIs(backoff: seq<nat>, s: State, reason: string)
    requires Asking(s)
    ensures
      var t, d := RefusedOnce(backoff, s, reason), AfterRejection(s.panes, s.dropped, reason);
      && Asking(t) && t.panes == s.panes && t.dropped == d
      && (if d == s.dropped then |t.w.delays| == |s.w.delays| + 1 && t.w.quick == s.w.quick
          else |t.w.delays| == |s.w.delays| && t.w.quick == s.w.quick + 1)
  {
    StreamEndedAsks(backoff, s, AfterRejection(s.panes, s.dropped, reason));
  }

  lemma StreamEndedAsks(backoff: seq<nat>, s: State, d: Dropped)
    requires Asking(s)
    ensures
      var t := StreamEnded(backoff, s, d);
      && t.started && t.panes == s.panes && t.dropped == d && (t.stream.Some? <==> t.reconnect.None?)
      && (if d == s.dropped then t.reconnect.Some? && |t.w.delays| == |s.w.delays| + 1 && t.w.quick == s.w.quick
          else t.reconnect.None? && t.w.delays == s.w.delays && t.w.quick == s.w.quick + 1)
  {}

  function RefusedTimes(backoff: seq<nat>, s: State, reason: string, n: nat): (t: State)
    requires Asking(s)
    ensures Asking(t)
  {
    if n == 0 then s else
    var before := RefusedTimes(backoff, s, reason, n - 1);
    RefusedOnceIs(backoff, before, reason);
    RefusedOnce(backoff, before, reason)
  }

  /**
   * The same refusal any number of times drops what the first one drops. All but the first take the
   * backoff, and the first one too when it drops nothing new.
   */
  lemma {:induction false} RefusedAgain(backoff: seq<nat>, s: State, reason: string, n: nat)
    requires Asking(s) && n > 0
    ensures
      var t, d := RefusedTimes(backoff, s, reason, n), AfterRejection(s.panes, s.dropped, reason);
      && t.panes == s.panes && t.dropped == d
      && |t.w.delays| == |s.w.delays| + n - (if d == s.dropped then 0 else 1)
      && t.w.quick == s.w.quick + (if d == s.dropped then 0 else 1)
  {
    var before := RefusedTimes(backoff, s, reason, n - 1);
    RefusedOnceIs(backoff, before, reason);
    if n > 1 {
      RefusedAgain(backoff, s, reason, n - 1);
      RejectionShrinksRequest(s.panes, s.dropped, reason);
    }
  }

  /**
   * Refusals of a pane's subscription converge exactly when the pane is the first one listed or the
   * reason does not contain the id of the first one listed; else it is asked for after every one of them.
   */
  lemma RefusalsConvergeExactly(backoff: seq<nat>, s: State, reason: string, refused: PaneId, n: nat)
    requires Asking(s) && n > 0 && RefusesPane(s.panes, s.dropped, reason, refused)
    ensures
      var t := RefusedTimes(backoff, s, reason, n);
      AgentStatus(refused) !in Requested(t.panes, t.dropped) <==>
      refused == s.panes[0] || !Contains(reason, s.panes[0])
  {
    RefusedAgain(backoff, s, reason, n);
    RefusedPaneLeavesExactly(s.panes, s.dropped, reason, refused);
  }

  /** The same for a global type: they converge exactly when it leads what the reason names. */
  lemma KindRefusalsConvergeExactly(backoff: seq<nat>, s: State, reason: string, g: nat, n: nat)
    requires Asking(s) && n > 0
    requires g < 15 && LooksRejected(reason) && Contains(reason, GLOBALS[g]) && GLOBALS[g] !in s.dropped.types
    ensures
      var t := RefusedTimes(backoff, s, reason, n);
      Global(GLOBALS[g]) !in Requested(t.panes, t.dropped) <==> Leads(BuildSubscriptions(s.panes), reason, g)
  {
    RefusedAgain(backoff, s, reason, n);
    RefusedKindLeavesExactly(s.panes, s.dropped, reason, g);
  }

  lemma PaneIsListed(panes: seq<PaneId>, best: Subscription, id: PaneId, reason: string)
    requires best in BuildSubscriptions(panes) && best.AgentStatus?
    requires id in if Contains(reason, best.pane) then {best.pane} else set p | p in panes && p != ""
    ensures AgentStatus(id) in BuildSubscriptions(panes)
  {
    var subs := BuildSubscriptions(panes);
    if !Contains(reason, best.pane) {
      var k :| 0 <= k < |panes| && panes[k] == id;
      assert subs[|GLOBALS| + k] == AgentStatus(id);
    }
  }

  /** The base set holds the fifteen global types and one subscription per distinct agent pane. */
  lemma RequestedSize(panes: seq<PaneId>, d: Dropped)
    ensures |Requested(panes, d)| <= 15 + |Ids(panes)|
  {
    var globals := set i | 0 <= i < 15 :: Global(GLOBALS[i]);
    var agents := set id | id in Ids(panes) :: AgentStatus(id);
    ImageSize(Ids(panes), agents);
    KindsSize(GLOBALS, 15, globals);
    forall s | s in Requested(panes, d)
      ensures s in globals + agents
    {
      var k :| 0 <= k < |BuildSubscriptions(panes)| && BuildSubscriptions(panes)[k] == s;
      if k >= 15 { assert panes[k - 15] in Ids(panes); }
    }
    SubsetSize(Requested(panes, d), globals + agents);
  }

  lemma {:induction false} KindsSize(kinds: seq<string>, n: nat, image: set<Subscription>)
    requires n <= |kinds| && image == set i | 0 <= i < n :: Global(kinds[i])
    ensures |image| <= n
  {
    if n > 0 {
      var fewer := set i | 0 <= i < n - 1 :: Global(kinds[i]);
      KindsSize(kinds, n - 1, fewer);
      assert image == fewer + {Global(kinds[n - 1])};
    }
  }

  lemma {:induction false} ImageSize(ids: set<PaneId>, image: set<Subscription>)
    requires image == set id | id in ids :: AgentStatus(id)
    ensures |image| <= |ids|
    decreases ids
  {
    if ids != {} {
      var id :| id in ids;
      var fewer := set k | k in ids - {id} :: AgentStatus(k);
      ImageSize(ids - {id}, fewer);
      assert image == fewer + {AgentStatus(id)};
    }
  }

  lemma {:induction false} SubsetSize<T>(a: set<T>, b: set<T>)
    requires a <= b
    ensures |a| <= |b| && (a < b ==> |a| < |b|)
  {
    assert b == a + (b - a);
  }

  lemma StreamEndedParts(backoff: seq<nat>, s: State, d: Dropped)
    ensures
      var s' := StreamEnded(backoff, s, d);
      && s'.panes == s.panes
      && ((s'.dropped == s.dropped && s'.w.quick == s.w.quick) ||
          (s'.dropped == d != s.dropped && s'.w.quick == s.w.quick + 1))
      && ((s'.w.delays == s.w.delays && s'.backoffIdx == s.backoffIdx) ||
          (s'.w.delays == s.w.delays + [Delay(backoff, s.backoffIdx)] && s'.backoffIdx == s.backoffIdx + 1))
  {}

  /** Only the end of the current stream drops subscriptions or reconnects at once, and never one without the other. */
  lemma OnlyRejectionIsQuick(backoff: seq<nat>, s: State, e: Event)
    ensures
      var s' := Step(backoff, s, e);
      || (s'.dropped == s.dropped && s'.w.quick == s.w.quick)
      || (e.OnDown? && s'.dropped == AfterRejection(s.panes, s.dropped, e.reason) != s.dropped &&
          s'.w.quick == s.w.quick + 1)
    ensures (e.SetAgentPanes? ==> Ids(e.ids) == Ids(s.panes)) ==> Step(backoff, s, e).panes == s.panes
  {
    if e.OnDown? {
      StreamEndedParts(backoff, s, AfterRejection(s.panes, s.dropped, e.reason));
    }
  }

  lemma QuickStep(backoff: seq<nat>, s: State, e: Event)
    ensures
      var s' := Step(backoff, s, e);
      s'.w.quick + |Requested(s.panes, s'.dropped)| <= s.w.quick + |Requested(s.panes, s.dropped)|
  {
    OnlyRejectionIsQuick(backoff, s, e);
    var d' := Step(backoff, s, e).dropped;
    if d' != s.dropped {
      RejectionShrinksRequest(s.panes, s.dropped, e.reason);
      SubsetSize(Requested(s.panes, d'), Requested(s.panes, s.dropped));
    }
  }

  /**
   * Between two changes of the pane set at most fifteen plus the number of distinct agent panes
   * reconnects skip the backoff, however the server answers.
   */
  lemma {:induction false} QuickReconnectsBounded(backoff: seq<nat>, s: State, es: seq<Event>)
    requires forall k :: 0 <= k < |es| && es[k].SetAgentPanes? ==> Ids(es[k].ids) == Ids(s.panes)
    ensures Run(backoff, s, es).panes == s.panes
    ensures Run(backoff, s, es).w.quick + |Requested(s.panes, Run(backoff, s, es).dropped)| <=
            s.w.quick + |Requested(s.panes, s.dropped)|
    ensures Run(backoff, s, es).w.quick <= s.w.quick + 15 + |Ids(s.panes)|
  {
    RequestedSize(s.panes, s.dropped);
    if es != [] {
      var n := |es| - 1;
      QuickReconnectsBounded(backoff, s, es[..n]);
      QuickStep(backoff, Run(backoff, s, es[..n]), es[n]);
      OnlyRejectionIsQuick(backoff, Run(backoff, s, es[..n]), es[n]);
    }
  }

  // ---- Backoff ----

  lemma WaitStep(backoff: seq<nat>, s: State, e: Event)
    requires !e.StableFires?
    ensures
      var s' := Step(backoff, s, e);
      || (s'.w.delays == s.w.delays && s'.backoffIdx == s.backoffIdx)
      || (s'.w.delays == s.w.delays + [Delay(backoff, s.backoffIdx)] && s'.backoffIdx == s.backoffIdx + 1)
  {
    if e.OnDown? {
      StreamEndedParts(backoff, s, AfterRejection(s.panes, s.dropped, e.reason));
    }
  }

  /** The wait at position `i` of the schedule: its last entry repeats, and an empty one means a second. */
  ghost predicate WaitIs(backoff: seq<nat>, i: nat, ms: nat) {
    && (backoff == [] ==> ms == 1000)
    && (i < |backoff| ==> ms == backoff[i])
    && (0 < |backoff| <= i ==> ms == backoff[|backoff| - 1])
  }

  /** From `s` to `t` the waits walked the schedule from where it stood. */
  ghost predicate Walked(backoff: seq<nat>, s: State, t: State) {
    && |t.w.delays| >= |s.w.delays|
    && t.backoffIdx == s.backoffIdx + (|t.w.delays| - |s.w.delays|)
    && forall k :: |s.w.delays| <= k < |t.w.delays| ==>
         WaitIs(backoff, s.backoffIdx + (k - |s.w.delays|), t.w.delays[k])
  }

  lemma WalkedOn(backoff: seq<nat>, s: State, t: State, t': State)
    requires Walked(backoff, s, t)
    requires (t'.w.delays == t.w.delays && t'.backoffIdx == t.backoffIdx) ||
             (t'.w.delays == t.w.delays + [Delay(backoff, t.backoffIdx)] && t'.backoffIdx == t.backoffIdx + 1)
    ensures Walked(backoff, s, t')
  {}

  /** Drop by drop the waits walk the schedule from where it stood, the last entry repeating. */
  lemma {:induction false} WaitsFollowSchedule(backoff: seq<nat>, s: State, es: seq<Event>)
    requires StableFires !in es
    ensures Walked(backoff, s, Run(backoff, s, es))
  {
    if es != [] {
      var n := |es| - 1;
      assert es[n] in es;
      WaitsFollowSchedule(backoff, s, es[..n]);
      WaitStep(backoff, Run(backoff, s, es[..n]), es[n]);
      WalkedOn(backoff, s, Run(backoff, s, es[..n]), Run(backoff, s, es));
    }
  }

  /** With a schedule that never decreases, neither do the waits until a stable timer has run. */
  lemma WaitsNeverDecrease(backoff: seq<nat>, s: State, es: seq<Event>, i: nat, j: nat)
    requires StableFires !in es
    requires forall a, b :: 0 <= a < b < |backoff| ==> backoff[a] <= backoff[b]
    requires |s.w.delays| <= i < j < |Run(backoff, s, es).w.delays|
    ensures Run(backoff, s, es).w.delays[i] <= Run(backoff, s, es).w.delays[j]
  {
    WaitsFollowSchedule(backoff, s, es);
    WalkedRises(backoff, s, Run(backoff, s, es), i, j);
  }

  lemma WalkedRises(backoff: seq<nat>, s: State, t: State, i: nat, j: nat)
    requires forall a, b :: 0 <= a < b < |backoff| ==> backoff[a] <= backoff[b]
    requires Walked(backoff, s, t) && |s.w.delays| <= i < j < |t.w.delays|
    ensures t.w.delays[i] <= t.w.delays[j]
  {}

  /** The stream that is current ends. */
  predicate OwnDrop(s: State, e: Event) { e.OnDown? && s.stream == Some(e.handle) }

  lemma DropStep(backoff: seq<nat>, s: State, e: Event)
    ensures
      var t := Step(backoff, s, e);
      t.w.lastDrop == (if OwnDrop(s, e) then Some(s.w.now) else s.w.lastDrop) && s.w.now <= t.w.now
  {
    if e.OnDown? { EndedAt(backoff, s, AfterRejection(s.panes, s.dropped, e.reason)); }
  }

  lemma EndedAt(backoff: seq<nat>, s: State, d: Dropped)
    ensures StreamEnded(backoff, s, d).w.lastDrop == Some(s.w.now) && StreamEnded(backoff, s, d).w.now == s.w.now
  {}

  /** No stream that was current has ended later than the record says. */
  ghost predicate DropsRecorded(es: seq<Event>, ss: seq<State>, last: Option<nat>)
    requires |ss| == |es| + 1
  {
    forall k :: 0 <= k < |es| && OwnDrop(ss[k], es[k]) ==> last.Some? && ss[k].w.now <= last.value
  }

  lemma {:induction false} DropsAreRecorded(backoff: seq<nat>, es: seq<Event>)
    ensures DropsRecorded(es, States(backoff, es), States(backoff, es)[|es|].w.lastDrop)
  {
    if es != [] {
      var n := |es| - 1;
      var front, ss := States(backoff, es[..n]), States(backoff, es);
      DropsAreRecorded(backoff, es[..n]);
      LastState(backoff, es[..n]);
      RunKeepsInv(backoff, INITIAL, es[..n]);
      DropStep(backoff, front[n], es[n]);
      RecordedNext(es, front, ss);
    }
  }

  lemma RecordedNext(es: seq<Event>, front: seq<State>, ss: seq<State>)
    requires es != [] && |front| == |es| && |ss| == |es| + 1 && front <= ss
    requires
      var n := |es| - 1;
      && (front[n].w.lastDrop.Some? ==> front[n].w.lastDrop.value <= front[n].w.now)
      && ss[n + 1].w.lastDrop == (if OwnDrop(front[n], es[n]) then Some(front[n].w.now) else front[n].w.lastDrop)
      && DropsRecorded(es[..n], front, front[n].w.lastDrop)
    ensures DropsRecorded(es, ss, ss[|es|].w.lastDrop)
  {
    var n := |es| - 1;
    forall k | 0 <= k < |es| && OwnDrop(ss[k], es[k])
      ensures ss[n + 1].w.lastDrop.Some? && ss[k].w.now <= ss[n + 1].w.lastDrop.value
    {
      if k < n { assert es[..n][k] == es[k] && front[k] == ss[k]; }
    }
  }

  /** The backoff is reset only when no stream has ended in the last 30 s. */
  lemma ResetNeedsQuiet(backoff: seq<nat>, es: seq<Event>, k: nat)
    requires Run(backoff, INITIAL, es).backoffIdx > 0
    requires Run(backoff, INITIAL, es + [StableFires]).backoffIdx == 0
    requires k < |es| && OwnDrop(States(backoff, es)[k], es[k])
    ensures Run(backoff, INITIAL, es).w.now - States(backoff, es)[k].w.now >= 30000
  {
    Unfold(backoff, es, StableFires);
    LastState(backoff, es);
    DropsAreRecorded(backoff, es);
    RunKeepsInv(backoff, INITIAL, es);
  }

  // ---- What health and a reset say about the current stream ----

  /** Whether the stream is vouched for after `e`, when `was` says so of the state before. */
  predicate VouchedAfter(s: State, e: Event, was: bool) {
    match e
    case OnUp(h) => s.stream == Some(h) || was
    case SetAgentPanes(ids) => was && (s.started ==> Ids(ids) == Ids(s.panes))
    case Start => was && s.started
    case _ => was
  }

  /**
   * There was an acknowledgement by the stream current then, and since the last one neither did a
   * changed pane set replace the stream nor did a start open a new one.
   */
  predicate Vouched(backoff: seq<nat>, es: seq<Event>) {
    if es == [] then false else
    var n := |es| - 1;
    VouchedAfter(Run(backoff, INITIAL, es[..n]), es[n], Vouched(backoff, es[..n]))
  }

  predicate Vouches(s: State, vouched: bool) {
    s.healthy && s.stream.Some? ==> (s.w.acked <==> vouched)
  }

  lemma StreamEndedIsDown(backoff: seq<nat>, s: State, d: Dropped)
    ensures !StreamEnded(backoff, s, d).healthy
  {}

  lemma VouchesStep(backoff: seq<nat>, s: State, e: Event, was: bool)
    requires Inv(s) && Vouches(s, was)
    ensures Vouches(Step(backoff, s, e), VouchedAfter(s, e, was))
  {
    if e.OnDown? {
      StreamEndedIsDown(backoff, s, AfterRejection(s.panes, s.dropped, e.reason));
    }
  }

  /** While health is reported, the current stream is acknowledged exactly when it is vouched for. */
  lemma {:induction false} HealthVouchesExactly(backoff: seq<nat>, es: seq<Event>)
    ensures
      var s := Run(backoff, INITIAL, es);
      s.healthy && s.stream.Some? ==> (s.w.acked <==> Vouched(backoff, es))
  {
    if es != [] {
      var n := |es| - 1;
      var s := Run(backoff, INITIAL, es[..n]);
      HealthVouchesExactly(backoff, es[..n]);
      RunKeepsInv(backoff, INITIAL, es[..n]);
      VouchesStep(backoff, s, es[n], Vouched(backoff, es[..n]));
    }
  }

  /** The stable timer resets the backoff for an acknowledged stream exactly when that one is vouched for. */
  lemma ResetVouchesExactly(backoff: seq<nat>, es: seq<Event>)
    requires Run(backoff, INITIAL, es).backoffIdx > 0
    requires Run(backoff, INITIAL, es + [StableFires]).backoffIdx == 0
    ensures
      var t := Run(backoff, INITIAL, es + [StableFires]);
      t.stream.Some? && t.healthy && (t.w.acked <==> Vouched(backoff, es))
  {
    Unfold(backoff, es, StableFires);
    RunKeepsInv(backoff, INITIAL, es);
    HealthVouchesExactly(backoff, es);
  }

  /**
   * Quiet is not the same as a working stream: a changed pane set replaces the stream by one that
   * has not been acknowledged, and leaves both the health report and the running stable timer alone.
   */
  lemma ResubscribeKeepsStableTimer(backoff: seq<nat>, es: seq<Event>, ids: seq<PaneId>)
    requires Run(backoff, INITIAL, es).started && Ids(ids) != Ids(Run(backoff, INITIAL, es).panes)
    ensures
      var s, t := Run(backoff, INITIAL, es), Run(backoff, INITIAL, es + [SetAgentPanes(ids)]);
      && t.stream.Some? && t.stream != s.stream && !t.w.acked
      && t.stable == s.stable && t.healthy == s.healthy && t.backoffIdx == s.backoffIdx
  {
    RunKeepsInv(backoff, INITIAL, es);
    assert (es + [SetAgentPanes(ids)])[..|es|] == es;
  }

  lemma NothingIsNoRejection()
    ensures !LooksRejected("")
  {}

  /** A drop, the reconnect after it and its acknowledgement: the stable timer runs. */
  lemma Reconnected(backoff: seq<nat>) returns (es: seq<Event>)
    ensures es == [Start, OnDown(0, ""), ReconnectFires, OnUp(1)]
    ensures
      var s := Run(backoff, INITIAL, es);
      && s.started && s.panes == [] && s.healthy && s.stream == Some(1) && s.w.handles == 2
      && s.backoffIdx == 1 && s.stable == Some(0) && s.w.now == 0
  {
    es := [Start];
    Unfold(backoff, [], Start);
    NothingIsNoRejection();
    Unfold(backoff, es, OnDown(0, ""));
    es := es + [OnDown(0, "")];
    Unfold(backoff, es, ReconnectFires);
    es := es + [ReconnectFires];
    Unfold(backoff, es, OnUp(1));
    es := es + [OnUp(1)];
  }

  /** A run in which the backoff is reset although the current stream never was acknowledged. */
  lemma ResetOnUnacknowledgedStream(backoff: seq<nat>) returns (es: seq<Event>)
    ensures es == [Start, OnDown(0, ""), ReconnectFires, OnUp(1), SetAgentPanes(["p"]), Advance(30000)]
    ensures
      var s, t := Run(backoff, INITIAL, es), Run(backoff, INITIAL, es + [StableFires]);
      s.backoffIdx > 0 && t.backoffIdx == 0 && t.healthy && t.stream == Some(2) && !t.w.acked
  {
    es := Reconnected(backoff);
    assert "p" in Ids(["p"]) && "p" !in Ids([]);
    Unfold(backoff, es, SetAgentPanes(["p"]));
    es := es + [SetAgentPanes(["p"])];
    Unfold(backoff, es, Advance(30000));
    es := es + [Advance(30000)];
    Unfold(backoff, es, StableFires);
  }

  /** A restart keeps the health report of the stream before the stop. */
  lemma RestartLooksHealthy(backoff: seq<nat>) returns (es: seq<Event>)
    ensures es == [Start, OnUp(0), Stop, Start]
    ensures
      var s := Run(backoff, INITIAL, es);
      s.healthy && s.stream == Some(1) && !s.w.acked
  {
    es := [Start];
    Unfold(backoff, [], Start);
    Unfold(backoff, es, OnUp(0));
    es := es + [OnUp(0)];
    Unfold(backoff, es, Stop);
    es := es + [Stop];
    Unfold(backoff, es, Start);
    es := es + [Start];
  }

  // ---- The poker ----

  method FindBest(subs: seq<Subscription>, reason: string) returns (best: Option<Subscription>)
    ensures best == BestMatch(subs, reason)
  {
    best := None;
    for i := 0 to |subs|
      invariant best == BestMatch(subs[..i], reason)
    {
      assert subs[..i + 1][..i] == subs[..i];
      if Contains(reason, Kind(subs[i])) && (best == None || |Kind(subs[i])| > |Kind(best.value)|) {
        best := Some(subs[i]);
      }
    }
    assert subs[..|subs|] == subs;
  }

  class Poker {
    const backoff: seq<nat>
    var agentPanes: seq<PaneId>
    var droppedTypes: set<string>
    var droppedPanes: set<PaneId>
    var started: bool
    var healthy: bool
    var backoffIdx: nat
    var stream: Option<nat>
    var debounceTimer: Option<nat>
    var reconnectTimer: Option<nat>
    var stableTimer: Option<nat>
    var world: World
    /** Everything that happened so far. */
    ghost var history: seq<Event>

    ghost function Contents(): State
      reads this
    {
      State(agentPanes, Dropped(droppedTypes, droppedPanes), started, healthy, backoffIdx,
            stream, debounceTimer, reconnectTimer, stableTimer, world)
    }

    /** The poker is what its history makes of a fresh one. */
    ghost predicate Valid()
      reads this
    {
      Contents() == Run(backoff, INITIAL, history) && Inv(Contents())
    }

    constructor (backoff: seq<nat>)
      ensures Valid() && Contents() == INITIAL && this.backoff == backoff && history == []
    {
      this.backoff := backoff;
      agentPanes, droppedTypes, droppedPanes := [], {}, {};
      started, healthy, backoffIdx, stream := false, false, 0, None;
      debounceTimer, reconnectTimer, stableTimer := None, None, None;
      world, history := World(0, 0, {}, {}, false, None, [], 0, 0, []), [];
    }

    ghost method Record(was: State, e: Event)
      requires was == Run(backoff, INITIAL, history) && Contents() == Step(backoff, was, e)
      modifies this`history
      ensures Valid() && history == old(history) + [e]
    {
      Unfold(backoff, history, e);
      history := history + [e];
      RunKeepsInv(backoff, INITIAL, history);
    }

    method OpenStream()
      modifies this`stream, this`world
      ensures Contents() == Connect(old(Contents()))
    {
      var handle := world.handles;
      var asked := Requested(agentPanes, Dropped(droppedTypes, droppedPanes));
      world := world.(handles := handle + 1, open := world.open + {handle}, asked := asked, acked := false);
      stream := Some(handle);
    }

    /** Detach, then close: the close's own callback must find the stream already gone. */
    method CloseStream()
      modifies this`stream, this`world
      ensures Contents() == Closed(old(Contents()))
    {
      var old' := stream;
      stream := None;
      if old'.Some? {
        world := world.(open := world.open - {old'.value});
      }
    }

    method ReportHealth(up: bool)
      modifies this`healthy, this`world
      ensures Contents() == SetHealthy(old(Contents()), up)
    {
      if healthy != up {
        healthy := up;
        world := world.(health := world.health + [up]);
      }
    }

    method StartUp()
      requires Valid()
      modifies this
      ensures Valid() && history == old(history) + [Start]
      ensures Contents() == Step(backoff, old(Contents()), Start)
      ensures started && stream == if old(started) then old(stream) else Some(old(world.handles))
      ensures world.open == if stream.Some? then {stream.value} else {}
    {
      ghost var was := Contents();
      if !started {
        started := true;
        OpenStream();
      }
      Record(was, Start);
    }

    method ShutDown()
      requires Valid()
      modifies this
      ensures Valid() && history == old(history) + [Stop]
      ensures Contents() == Step(backoff, old(Contents()), Stop)
      ensures !started && stream.None? && debounceTimer.None? && reconnectTimer.None? && stableTimer.None?
      ensures world.open == {} && world.pokes == old(world.pokes) && world.health == old(world.health)
    {
      ghost var was := Contents();
      started, debounceTimer, reconnectTimer, stableTimer := false, None, None, None;
      CloseStream();
      Record(was, Stop);
    }

    method UpdateAgentPanes(ids: seq<PaneId>)
      requires Valid()
      modifies this
      ensures Valid() && history == old(history) + [SetAgentPanes(ids)]
      ensures Contents() == Step(backoff, old(Contents()), SetAgentPanes(ids))
      ensures Ids(agentPanes) == Ids(ids)
      ensures if started && Ids(ids) != Ids(old(agentPanes))
              then stream == Some(old(world.handles)) && reconnectTimer.None? &&
                   world.asked == Requested(ids, Dropped(droppedTypes, droppedPanes))
              else stream == old(stream) && world == old(world)
    {
      ghost var was := Contents();
      if Ids(ids) != Ids(agentPanes) {
        agentPanes := ids;
        if started {
          reconnectTimer := None;
          CloseStream();
          OpenStream();
        }
      }
      Record(was, SetAgentPanes(ids));
    }

    method StreamUp(handle: nat)
      requires Valid()
      modifies this
      ensures Valid() && history == old(history) + [OnUp(handle)]
      ensures Contents() == Step(backoff, old(Contents()), OnUp(handle))
      ensures old(stream) == Some(handle) ==>
                healthy && world.acked && backoffIdx == old(backoffIdx) &&
                stableTimer == if old(backoffIdx) > 0 && old(stableTimer).None? then Some(world.now)
                               else old(stableTimer)
      ensures old(stream) != Some(handle) ==> Contents() == old(Contents())
    {
      ghost var was := Contents();
      if stream == Some(handle) {
        if backoffIdx > 0 && stableTimer == None {
          stableTimer := Some(world.now);
        }
        world := world.(acked := true);
        ReportHealth(true);
      }
      Record(was, OnUp(handle));
    }

    /** `dropRejectedSubscription`: true when something new was dropped. */
    method DropRejectedSubscription(reason: string) returns (droppedNew: bool)
      modifies this`droppedTypes, this`droppedPanes
      ensures Contents() == old(Contents()).(dropped := AfterRejection(agentPanes, old(Contents()).dropped, reason))
      ensures droppedNew <==> Contents().dropped != old(Contents()).dropped
    {
      if !LooksRejected(reason) {
        return false;
      }
      var best := FindBest(BuildSubscriptions(agentPanes), reason);
      match best {
        case None =>
          droppedNew := false;
        case Some(AgentStatus(pane)) =>
          var before := droppedPanes;
          if Contains(reason, pane) {
            droppedPanes := droppedPanes + {pane};
          } else {
            droppedPanes := droppedPanes + set id | id in agentPanes && id != "";
          }
          droppedNew := droppedPanes != before;
        case Some(Global(kind)) =>
          droppedNew := kind !in droppedTypes;
          droppedTypes := droppedTypes + {kind};
      }
    }

    /** The current stream is gone: report it, then reconnect at once or after the backoff. */
    method Recover(reason: string)
      requires stream.Some?
      modifies this`stream, this`stableTimer, this`healthy, this`world, this`droppedTypes, this`droppedPanes,
               this`reconnectTimer, this`backoffIdx
      ensures Contents() == StreamEnded(backoff, old(Contents()),
                              AfterRejection(old(agentPanes), old(Contents()).dropped, reason))
    {
      CloseStream();
      stableTimer := None;
      ReportHealth(false);
      world := world.(lastDrop := Some(world.now));
      if started {
        var droppedNew := DropRejectedSubscription(reason);
        if droppedNew {
          OpenStream();
          world := world.(quick := world.quick + 1);
        } else {
          WaitForReconnect();
        }
      }
    }

    /** `scheduleReconnect`: one timer at most, and the next delay each time. */
    method WaitForReconnect()
      modifies this`backoffIdx, this`world, this`reconnectTimer
      ensures Contents() == ScheduleReconnect(backoff, old(Contents()))
    {
      if reconnectTimer == None {
        var delay := Delay(backoff, backoffIdx);
        backoffIdx := backoffIdx + 1;
        world := world.(delays := world.delays + [delay]);
        reconnectTimer := Some(delay);
      }
    }

    method StreamDown(handle: nat, reason: string)
      requires Valid()
      modifies this
      ensures Valid() && history == old(history) + [OnDown(handle, reason)]
      ensures Contents() == Step(backoff, old(Contents()), OnDown(handle, reason))
      ensures old(stream) == Some(handle) ==> !healthy && stableTimer.None? && world.lastDrop == Some(world.now)
      ensures old(stream) != Some(handle) ==> Contents() == old(Contents())
    {
      ghost var was := Contents();
      if stream == Some(handle) {
        Recover(reason);
      } else {
        world := world.(open := world.open - {handle});
      }
      Record(was, OnDown(handle, reason));
    }

    /** `onEvent`: an event of the current stream starts the debounce timer anew. */
    method StreamEvent(handle: nat)
      requires Valid()
      modifies this
      ensures Valid() && history == old(history) + [OnEvent(handle)]
      ensures Contents() == Step(backoff, old(Contents()), OnEvent(handle))
      ensures Contents() == if old(stream) == Some(handle) then old(Contents()).(debounce := Some(world.now))
                            else old(Contents())
    {
      ghost var was := Contents();
      if stream == Some(handle) {
        debounceTimer := Some(world.now);
      }
      Record(was, OnEvent(handle));
    }

    /** The debounce timer, 200 ms after the last event: one poke. */
    method DebounceTimerFired()
      requires Valid() && debounceTimer.Some? && world.now >= debounceTimer.value + DEBOUNCE_MS
      modifies this
      ensures Valid() && history == old(history) + [DebounceFires]
      ensures Contents() == Step(backoff, old(Contents()), DebounceFires)
      ensures world == old(world).(pokes := old(world.pokes) + 1) && debounceTimer.None?
    {
      ghost var was := Contents();
      debounceTimer := None;
      world := world.(pokes := world.pokes + 1);
      Record(was, DebounceFires);
    }

    method StableTimerFired()
      requires Valid() && stableTimer.Some? && world.now >= stableTimer.value + STABLE_MS
      modifies this
      ensures Valid() && history == old(history) + [StableFires]
      ensures Contents() == Step(backoff, old(Contents()), StableFires)
      ensures backoffIdx == 0 && stableTimer.None? && stream == old(stream) && world == old(world)
    {
      ghost var was := Contents();
      stableTimer, backoffIdx := None, 0;
      Record(was, StableFires);
    }

    method ReconnectTimerFired()
      requires Valid() && reconnectTimer.Some?
      modifies this
      ensures Valid() && history == old(history) + [ReconnectFires]
      ensures Contents() == Step(backoff, old(Contents()), ReconnectFires)
      ensures reconnectTimer.None? && stream == Some(old(world.handles)) && world.delays == old(world.delays)
    {
      ghost var was := Contents();
      reconnectTimer := None;
      if started {
        OpenStream();
      }
      Record(was, ReconnectFires);
    }
  }
}
