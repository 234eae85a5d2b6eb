/**
 * The notification coordinator: one debounce timer per pane, and one summary on the phone for all alerts
 * that have fired and are not resolved.
 */
module Notifications {
  import opened Options
  import opened OrderedMap

  type Pane = string
  type Handle = nat

  datatype Status = Blocked | Done | Working | Idle | Unknown

  /** What an alert shows; `name` is the agent's own name or its kind. */
  datatype Alert = Alert(name: string, workspace: string, cwd: string, status: Status)

  datatype Kind = AllBlocked | AllDone | Mixed
  datatype Summary =
    | Single(name: string, needsYou: bool, workspace: string, cwd: string, pane: Pane, renotify: bool)
    | Several(count: nat, kind: Kind, names: seq<string>, renotify: bool)
  datatype Message = Clear | Render(summary: Summary)

  datatype Armed = Armed(handle: Handle, status: Status)
  datatype Timer = Timer(pane: Pane, alert: Alert)

  /** `timers` and `next` belong to the clock, `sent` to the phone, `enabled` to the preferences store. */
  datatype State = State(
    enabled: set<Status>,
    pending: map<Pane, Armed>,
    outstanding: seq<Entry<Pane, Alert>>,
    timers: map<Handle, Timer>,
    next: Handle,
    sent: seq<Message>)

  datatype Event =
    | Transition(pane: Pane, alert: Alert)
    | Vanish(pane: Pane)
    | Fire(handle: Handle)
    | SetPrefs(enabled: set<Status>)
    | ApplyPrefs
    | ClearAll

  function Names(es: seq<Entry<Pane, Alert>>): seq<string> {
    if es == [] then [] else Names(es[..|es| - 1]) + [es[|es| - 1].value.name]
  }

  function KindOf(es: seq<Entry<Pane, Alert>>): Kind {
    if forall i :: 0 <= i < |es| ==> es[i].value.status == Blocked then AllBlocked
    else if forall i :: 0 <= i < |es| ==> es[i].value.status == Done then AllDone
    else Mixed
  }

  function Summarize(es: seq<Entry<Pane, Alert>>, renotify: bool): Summary
    requires es != []
  {
    if |es| == 1 then
      var a := es[0].value;
      Single(a.name, a.status == Blocked, a.workspace, a.cwd, es[0].key, renotify)
    else Several(|es|, KindOf(es), Names(es), renotify)
  }

  function Emit(s: State, renotify: bool): State {
    s.(sent := s.sent + [if s.outstanding == [] then Clear else Render(Summarize(s.outstanding, renotify))])
  }

  function CancelPending(s: State, pane: Pane): State {
    if pane in s.pending
    then s.(timers := s.timers - {s.pending[pane].handle}, pending := s.pending - {pane})
    else s
  }

  function Resolve(s: State, pane: Pane): State {
    var c := CancelPending(s, pane);
    if Get(c.outstanding, pane).Some? then Emit(c.(outstanding := Delete(c.outstanding, pane)), false) else c
  }

  function Arm(s: State, pane: Pane, alert: Alert): State {
    var c := CancelPending(s, pane);
    c.(timers := c.timers[c.next := Timer(pane, alert)], pending := c.pending[pane := Armed(c.next, alert.status)],
       next := c.next + 1)
  }

  /** Cancelling the timers of some panes, in any order. */
  function CancelAll(s: State, panes: set<Pane>): State {
    s.(timers := s.timers - (set p | p in panes && p in s.pending :: s.pending[p].handle), pending := s.pending - panes)
  }

  function Disabled(s: State): set<Pane> { set p | p in s.pending && s.pending[p].status !in s.enabled }

  function Step(s: State, e: Event): State {
    match e
    case Transition(pane, alert) => if alert.status in s.enabled then Arm(s, pane, alert) else Resolve(s, pane)
    case Vanish(pane) => Resolve(s, pane)
    case Fire(h) =>
      if h !in s.timers then s else
      var t := s.timers[h];
      Emit(s.(timers := s.timers - {h}, pending := s.pending - {t.pane},
              outstanding := Put(s.outstanding, t.pane, t.alert)), true)
    case SetPrefs(enabled) => s.(enabled := enabled)
    case ApplyPrefs =>
      var c := CancelAll(s, Disabled(s));
      var kept := Filter(c.outstanding, (a: Alert) => a.status in c.enabled);
      if |kept| < |c.outstanding| then Emit(c.(outstanding := kept), false) else c
    case ClearAll =>
      var c := CancelAll(s, s.pending.Keys);
      if c.outstanding != [] then Emit(c.(outstanding := []), false) else c
  }

  const START: State := State({}, map[], [], map[], 0, [])

  function Run(es: seq<Event>): State { if es == [] then START else Step(Run(es[..|es| - 1]), es[|es| - 1]) }

  /**
   * The bookkeeping after every event: timers match `pending` one to one, and the last message shows
   * what is outstanding, or cleared the slot when nothing is.
   */
  ghost predicate Inv(s: State) { TimersMatch(s) && Distinct(s.outstanding) && PhoneShows(s) }

  ghost predicate TimersMatch(s: State) {
    && (forall p :: p in s.pending ==>
          && s.pending[p].handle in s.timers
          && s.timers[s.pending[p].handle].pane == p
          && s.timers[s.pending[p].handle].alert.status == s.pending[p].status)
    && (forall h :: h in s.timers ==>
          h < s.next && s.timers[h].pane in s.pending && s.pending[s.timers[h].pane].handle == h)
  }

  ghost predicate PhoneShows(s: State) {
    if s.outstanding == [] then s.sent == [] || s.sent[|s.sent| - 1] == Clear
    else s.sent != [] && exists renotify :: s.sent[|s.sent| - 1] == Render(Summarize(s.outstanding, renotify))
  }

  lemma CancelKeeps(s: State, pane: Pane)
    requires TimersMatch(s)
    ensures TimersMatch(CancelPending(s, pane))
  {}

  lemma EmitShows(s: State, renotify: bool)
    ensures PhoneShows(Emit(s, renotify))
  {}

  lemma ResolveKeeps(s: State, pane: Pane)
    requires Inv(s)
    ensures Inv(Resolve(s, pane))
  {
    CancelKeeps(s, pane);
    EmitShows(CancelPending(s, pane).(outstanding := Delete(s.outstanding, pane)), false);
    var c := CancelPending(s, pane);
    DeleteSets(c.outstanding, pane, pane);
  }

  lemma ArmKeeps(s: State, pane: Pane, alert: Alert)
    requires Inv(s)
    ensures Inv(Arm(s, pane, alert))
  {}

  lemma FireKeeps(s: State, h: Handle)
    requires Inv(s)
    ensures Inv(Step(s, Fire(h)))
  {
    if h in s.timers {
      var t := s.timers[h];
      PutSets(s.outstanding, t.pane, t.alert, t.pane);
    }
  }

  lemma ApplyPrefsKeeps(s: State)
    requires Inv(s)
    ensures Inv(Step(s, ApplyPrefs))
  {
    var c := CancelAll(s, Disabled(s));
    var keep := (a: Alert) => a.status in c.enabled;
    FilterSets(c.outstanding, keep);
  }

  lemma ClearAllKeeps(s: State)
    requires Inv(s)
    ensures Inv(Step(s, ClearAll))
  {}

  lemma StepKeepsInv(s: State, e: Event)
    requires Inv(s)
    ensures Inv(Step(s, e))
  {
    match e
    case Transition(pane, alert) =>
      if alert.status in s.enabled { ArmKeeps(s, pane, alert); } else { ResolveKeeps(s, pane); }
    case Vanish(pane) => ResolveKeeps(s, pane);
    case Fire(h) => FireKeeps(s, h);
    case SetPrefs(_) =>
    case ApplyPrefs => ApplyPrefsKeeps(s);
    case ClearAll => ClearAllKeeps(s);
  }

  lemma {:induction false} RunKeepsInv(es: seq<Event>)
    ensures Inv(Run(es))
  {
    if es != [] {
      RunKeepsInv(es[..|es| - 1]);
      StepKeepsInv(Run(es[..|es| - 1]), es[|es| - 1]);
    }
  }

  // ---- What the phone is told ----

  /** A message shows an alert of a pane. */
  ghost predicate Shows(s: State, pane: Pane, alert: Alert) { Get(s.outstanding, pane) == Some(alert) }

  /** One alert is told in full, with its pane to go to. */
  ghost predicate TellsOfOne(s: State, m: Summary)
    requires m.Single?
  {
    && (forall p, a :: Shows(s, p, a) ==> p == m.pane)
    && exists a :: Shows(s, m.pane, a) && m.name == a.name && m.workspace == a.workspace && m.cwd == a.cwd &&
         (m.needsYou <==> a.status == Blocked)
  }

  /** Of several alerts the number, the names in the order they came, and what they have in common are told. */
  ghost predicate TellsOfSeveral(s: State, m: Summary)
    requires m.Several?
  {
    && m.count == |s.outstanding| == |m.names| >= 2
    && (forall i :: 0 <= i < m.count ==> m.names[i] == s.outstanding[i].value.name)
    && (m.kind == AllBlocked <==> forall p, a :: Shows(s, p, a) ==> a.status == Blocked)
    && (m.kind == AllDone <==> forall p, a :: Shows(s, p, a) ==> a.status == Done)
  }

  ghost predicate Tells(s: State, m: Message) {
    match m
    case Clear => forall p, a :: !Shows(s, p, a)
    case Render(summary) => if summary.Single? then TellsOfOne(s, summary) else TellsOfSeveral(s, summary)
  }

  lemma {:induction false} NamesAre(es: seq<Entry<Pane, Alert>>)
    ensures |Names(es)| == |es| && forall i :: 0 <= i < |es| ==> Names(es)[i] == es[i].value.name
  {
    if es != [] { NamesAre(es[..|es| - 1]); }
  }

  /** In a map with distinct keys, what stands in it is what is looked up. */
  lemma {:induction false} Stands(es: seq<Entry<Pane, Alert>>, i: nat)
    requires Distinct(es) && i < |es|
    ensures Get(es, es[i].key) == Some(es[i].value)
  {
    if i > 0 {
      Stands(es[1..], i - 1);
      assert es[1..][i - 1] == es[i];
    }
  }

  lemma {:induction false} Found(es: seq<Entry<Pane, Alert>>, pane: Pane) returns (i: nat)
    requires Get(es, pane).Some?
    ensures i < |es| && es[i] == Entry(pane, Get(es, pane).value)
  {
    if es[0].key == pane {
      i := 0;
    } else {
      i := Found(es[1..], pane);
      i := i + 1;
    }
  }

  /** Whatever test all entries pass, all alerts shown pass, and the other way round. */
  lemma AllShown(s: State, status: Status)
    requires Distinct(s.outstanding)
    ensures (forall i :: 0 <= i < |s.outstanding| ==> s.outstanding[i].value.status == status) <==>
            (forall p, a :: Shows(s, p, a) ==> a.status == status)
  {
    forall i | 0 <= i < |s.outstanding|
      ensures Shows(s, s.outstanding[i].key, s.outstanding[i].value)
    {
      Stands(s.outstanding, i);
    }
    forall p, a | Shows(s, p, a)
      ensures exists i :: 0 <= i < |s.outstanding| && s.outstanding[i] == Entry(p, a)
    {
      var i := Found(s.outstanding, p);
    }
  }

  lemma KindMeans(s: State)
    requires Distinct(s.outstanding) && s.outstanding != []
    ensures KindOf(s.outstanding) == AllBlocked <==> forall p, a :: Shows(s, p, a) ==> a.status == Blocked
    ensures KindOf(s.outstanding) == AllDone <==> forall p, a :: Shows(s, p, a) ==> a.status == Done
  {
    AllShown(s, Blocked);
    AllShown(s, Done);
    assert s.outstanding[0].value.status == Blocked ==> s.outstanding[0].value.status != Done;
  }

  lemma SummaryTells(s: State, renotify: bool)
    requires Distinct(s.outstanding) && s.outstanding != []
    ensures Tells(s, Render(Summarize(s.outstanding, renotify)))
    ensures Summarize(s.outstanding, renotify).renotify == renotify
  {
    var es := s.outstanding;
    NamesAre(es);
    KindMeans(s);
    if |es| == 1 {
      assert Shows(s, es[0].key, es[0].value);
      forall p, a | Shows(s, p, a)
        ensures p == es[0].key
      {
        var i := Found(es, p);
      }
    }
  }

  /** The last message tells what is outstanding; before the first one nothing is. */
  lemma PhoneTells(s: State)
    requires Inv(s)
    ensures s.sent == [] ==> s.outstanding == []
    ensures s.sent != [] ==> Tells(s, s.sent[|s.sent| - 1])
  {
    if s.outstanding != [] {
      var renotify :| s.sent[|s.sent| - 1] == Render(Summarize(s.outstanding, renotify));
      SummaryTells(s, renotify);
    }
  }

  /** Over every run the last message tells exactly what is shown. */
  lemma LastMessageTells(es: seq<Event>)
    ensures Run(es).sent == [] ==> forall p, a :: !Shows(Run(es), p, a)
    ensures Run(es).sent != [] ==> Tells(Run(es), Run(es).sent[|Run(es).sent| - 1])
  {
    RunKeepsInv(es);
    PhoneTells(Run(es));
  }

  // ---- What is shown, and why ----

  /** The event that settles a waiting or a shown alert of `pane` of this status, in state `s`. */
  predicate Settles(s: State, e: Event, pane: Pane, status: Status) {
    match e
    case Transition(p, alert) => p == pane && alert.status !in s.enabled
    case Vanish(p) => p == pane
    case ApplyPrefs => status !in s.enabled
    case ClearAll => true
    case _ => false
  }

  /** The event that arms the timer of `pane` anew. */
  predicate Rearms(s: State, e: Event, pane: Pane) { e.Transition? && e.pane == pane && e.alert.status in s.enabled }

  /** A timer that is running was armed by a transition, and nothing has settled or re-armed it since. */
  lemma {:induction false} WaitingMeans(es: seq<Event>, h: Handle) returns (j: nat)
    requires h in Run(es).timers
    ensures j < |es|
    ensures
      var t := Run(es).timers[h];
      && es[j] == Transition(t.pane, t.alert) && t.alert.status in Run(es[..j]).enabled
      && LeftAlone(es, j, t)
  {
    var n := |es| - 1;
    var s, e := Run(es[..n]), es[n];
    RunKeepsInv(es[..n]);
    if h in s.timers {
      TimerStays(s, e, h);
      j := WaitingMeans(es[..n], h);
      assert es[..n][..j] == es[..j];
      StillLeftAlone(es, j, s.timers[h]);
    } else {
      TimerIsNew(s, e, h);
      j := n;
    }
  }

  /** Since event `j` nothing has settled or re-armed the timer of that alert. */
  ghost predicate LeftAlone(es: seq<Event>, j: nat, t: Timer) {
    forall i: nat :: j < i < |es| ==>
      !Settles(Run(es[..i]), es[i], t.pane, t.alert.status) && !Rearms(Run(es[..i]), es[i], t.pane)
  }

  lemma StillLeftAlone(es: seq<Event>, j: nat, t: Timer)
    requires es != [] && LeftAlone(es[..|es| - 1], j, t)
    requires !Settles(Run(es[..|es| - 1]), es[|es| - 1], t.pane, t.alert.status)
    requires !Rearms(Run(es[..|es| - 1]), es[|es| - 1], t.pane)
    ensures LeftAlone(es, j, t)
  {
    var n := |es| - 1;
    forall i: nat | j < i < |es|
      ensures !Settles(Run(es[..i]), es[i], t.pane, t.alert.status) && !Rearms(Run(es[..i]), es[i], t.pane)
    {
      if i < n { assert es[..n][..i] == es[..i]; }
    }
  }

  lemma TimerStays(s: State, e: Event, h: Handle)
    requires Inv(s) && h in s.timers && h in Step(s, e).timers
    ensures Step(s, e).timers[h] == s.timers[h]
    ensures !Settles(s, e, s.timers[h].pane, s.timers[h].alert.status) && !Rearms(s, e, s.timers[h].pane)
  {}

  lemma TimerIsNew(s: State, e: Event, h: Handle)
    requires Inv(s) && h !in s.timers && h in Step(s, e).timers
    ensures e.Transition? && e.alert.status in s.enabled && Step(s, e).timers[h] == Timer(e.pane, e.alert)
  {}

  /** Since event `k` nothing has settled an alert of this pane and status. */
  ghost predicate Unsettled(es: seq<Event>, k: nat, pane: Pane, status: Status) {
    forall i: nat :: k < i < |es| ==> !Settles(Run(es[..i]), es[i], pane, status)
  }

  lemma StillUnsettled(es: seq<Event>, k: nat, pane: Pane, status: Status)
    requires es != [] && Unsettled(es[..|es| - 1], k, pane, status)
    requires !Settles(Run(es[..|es| - 1]), es[|es| - 1], pane, status)
    ensures Unsettled(es, k, pane, status)
  {
    var n := |es| - 1;
    forall i: nat | k < i < |es|
      ensures !Settles(Run(es[..i]), es[i], pane, status)
    {
      if i < n {
        assert es[..n][..i] == es[..i] && es[..n][i] == es[i];
        assert !Settles(Run(es[..n][..i]), es[..n][i], pane, status);
      } else {
        assert es[..i] == es[..n];
      }
    }
  }

  /** A shown alert was put there by the firing of its timer, and nothing has settled it since. */
  lemma {:induction false} ShownMeans(es: seq<Event>, pane: Pane, alert: Alert) returns (k: nat, h: Handle)
    requires Shows(Run(es), pane, alert)
    ensures k < |es| && es[k] == Fire(h) && h in Run(es[..k]).timers && Run(es[..k]).timers[h] == Timer(pane, alert)
    ensures Unsettled(es, k, pane, alert.status)
  {
    var n := |es| - 1;
    var s, e := Run(es[..n]), es[n];
    RunKeepsInv(es[..n]);
    if Fired(s, e, pane, alert) {
      k, h := n, e.handle;
    } else {
      StaysShown(s, e, pane, alert);
      k, h := ShownMeans(es[..n], pane, alert);
      assert es[..n][..k] == es[..k];
      StillUnsettled(es, k, pane, alert.status);
    }
  }

  predicate Fired(s: State, e: Event, pane: Pane, alert: Alert) {
    e.Fire? && e.handle in s.timers && s.timers[e.handle] == Timer(pane, alert)
  }

  lemma StaysShown(s: State, e: Event, pane: Pane, alert: Alert)
    requires Inv(s) && Shows(Step(s, e), pane, alert) && !Fired(s, e, pane, alert)
    ensures Shows(s, pane, alert) && !Settles(s, e, pane, alert.status)
  {
    match e
    case Transition(p, _) => DeleteSets(s.outstanding, p, pane);
    case Vanish(p) => DeleteSets(s.outstanding, p, pane);
    case Fire(h) => if h in s.timers { PutSets(s.outstanding, s.timers[h].pane, s.timers[h].alert, pane); }
    case SetPrefs(_) =>
    case ApplyPrefs =>
      FilterSets(s.outstanding, (a: Alert) => a.status in s.enabled);
      FilterGets(s.outstanding, (a: Alert) => a.status in s.enabled, pane);
    case ClearAll =>
  }

  /** An alert stays shown until something settles it or its pane's timer fires again. */
  lemma ShownUntilSettled(s: State, e: Event, pane: Pane, alert: Alert)
    requires Inv(s) && Shows(s, pane, alert) && !Settles(s, e, pane, alert.status)
    requires e.Fire? && e.handle in s.timers ==> s.timers[e.handle].pane != pane
    ensures Shows(Step(s, e), pane, alert)
  {
    match e
    case Transition(p, _) => DeleteSets(s.outstanding, p, pane);
    case Vanish(p) => DeleteSets(s.outstanding, p, pane);
    case Fire(h) => if h in s.timers { PutSets(s.outstanding, s.timers[h].pane, s.timers[h].alert, pane); }
    case SetPrefs(_) =>
    case ApplyPrefs =>
      FilterSets(s.outstanding, (a: Alert) => a.status in s.enabled);
      FilterGets(s.outstanding, (a: Alert) => a.status in s.enabled, pane);
    case ClearAll =>
  }

  /** A timer that fires shows its alert at once, with a sound. */
  lemma FiringShows(s: State, h: Handle)
    requires Inv(s) && h in s.timers
    ensures
      var t, after := s.timers[h], Step(s, Fire(h));
      && Shows(after, t.pane, t.alert)
      && |after.sent| == |s.sent| + 1 && after.sent[..|s.sent|] == s.sent
      && Loud(after.sent[|s.sent|]) && Tells(after, after.sent[|s.sent|])
  {
    var t, after := s.timers[h], Step(s, Fire(h));
    PutSets(s.outstanding, t.pane, t.alert, t.pane);
    SummaryTells(after, true);
  }

  predicate Loud(m: Message) { m.Render? && m.summary.renotify }

  function LoudCount(ms: seq<Message>): nat {
    if ms == [] then 0 else LoudCount(ms[..|ms| - 1]) + if Loud(ms[|ms| - 1]) then 1 else 0
  }

  /** How many timers fired. */
  function Firings(es: seq<Event>): nat {
    if es == [] then 0 else
    Firings(es[..|es| - 1]) + if es[|es| - 1].Fire? && es[|es| - 1].handle in Run(es[..|es| - 1]).timers then 1 else 0
  }

  lemma LoudPush(ms: seq<Message>, m: Message)
    ensures LoudCount(ms + [m]) == LoudCount(ms) + if Loud(m) then 1 else 0
  {
    assert (ms + [m])[..|ms|] == ms;
  }

  lemma EmitLoud(s: State, renotify: bool)
    ensures LoudCount(Emit(s, renotify).sent) == LoudCount(s.sent) + if renotify && s.outstanding != [] then 1 else 0
  {
    LoudPush(s.sent, if s.outstanding == [] then Clear else Render(Summarize(s.outstanding, renotify)));
  }

  lemma StepLoud(s: State, e: Event)
    ensures LoudCount(Step(s, e).sent) == LoudCount(s.sent) + if e.Fire? && e.handle in s.timers then 1 else 0
  {
    match e
    case Transition(p, alert) => EmitLoud(CancelPending(s, p).(outstanding := Delete(s.outstanding, p)), false);
    case Vanish(p) => EmitLoud(CancelPending(s, p).(outstanding := Delete(s.outstanding, p)), false);
    case Fire(h) =>
      if h in s.timers {
        var t := s.timers[h];
        PutIsFull(s.outstanding, t.pane, t.alert);
        EmitLoud(s.(timers := s.timers - {h}, pending := s.pending - {t.pane},
                    outstanding := Put(s.outstanding, t.pane, t.alert)), true);
      }
    case SetPrefs(_) =>
    case ApplyPrefs =>
      EmitLoud(CancelAll(s, Disabled(s)).(outstanding := Filter(s.outstanding, (a: Alert) => a.status in s.enabled)),
               false);
    case ClearAll => EmitLoud(CancelAll(s, s.pending.Keys).(outstanding := []), false);
  }

  lemma PutIsFull(es: seq<Entry<Pane, Alert>>, pane: Pane, alert: Alert)
    ensures Put(es, pane, alert) != []
  {}

  /** The phone makes a sound once for each timer that fires, and for nothing else. */
  lemma {:induction false} LoudExactlyOnFiring(es: seq<Event>)
    ensures LoudCount(Run(es).sent) == Firings(es)
  {
    if es != [] {
      LoudExactlyOnFiring(es[..|es| - 1]);
      StepLoud(Run(es[..|es| - 1]), es[|es| - 1]);
    }
  }

  // ---- What each operation means for the panes ----

  /** The alert that waits for its timer. */
  function Waiting(s: State, pane: Pane): Option<Alert> {
    if pane in s.pending && s.pending[pane].handle in s.timers
    then Some(s.timers[s.pending[pane].handle].alert) else None
  }

  /** The alert that the phone shows. */
  function Shown(s: State, pane: Pane): Option<Alert> { Get(s.outstanding, pane) }

  /** No other pane's alerts have changed. */
  ghost predicate OthersKept(s: State, t: State, pane: Pane) {
    forall p :: p != pane ==> Waiting(t, p) == Waiting(s, p) && Shown(t, p) == Shown(s, p)
  }

  /** One message without a sound was sent, which tells what is shown now, or none. */
  ghost predicate Quietly(s: State, t: State, any: bool) {
    if any then |t.sent| == |s.sent| + 1 && t.sent[..|s.sent|] == s.sent && !Loud(t.sent[|s.sent|]) &&
                Tells(t, t.sent[|s.sent|])
    else t.sent == s.sent
  }

  lemma CancelMeans(s: State, pane: Pane)
    requires TimersMatch(s)
    ensures Waiting(CancelPending(s, pane), pane) == None
    ensures forall p :: p != pane ==> Waiting(CancelPending(s, pane), p) == Waiting(s, p)
  {}

  lemma ResolveMeans(s: State, pane: Pane)
    requires Inv(s)
    ensures
      var t := Resolve(s, pane);
      && Waiting(t, pane) == None && Shown(t, pane) == None && OthersKept(s, t, pane)
      && Quietly(s, t, Shown(s, pane).Some?)
      && (if Shown(s, pane).Some? then Without(Keys(s.outstanding), Keys(t.outstanding), pane)
          else t.outstanding == s.outstanding)
  {
    if Shown(s, pane).Some? { DeleteKeepsOrder(s.outstanding, pane); }
    ResolveKeeps(s, pane);
    PhoneTells(Resolve(s, pane));
    CancelMeans(s, pane);
    var t := Resolve(s, pane);
    forall p
      ensures Shown(t, p) == if p == pane then None else Shown(s, p)
    {
      DeleteSets(s.outstanding, pane, p);
    }
  }

  lemma ArmMeans(s: State, pane: Pane, alert: Alert)
    requires Inv(s)
    ensures
      var t := Arm(s, pane, alert);
      Waiting(t, pane) == Some(alert) && t.outstanding == s.outstanding && t.sent == s.sent && OthersKept(s, t, pane)
  {
    CancelMeans(s, pane);
  }

  lemma FireMeans(s: State, h: Handle)
    requires Inv(s) && h in s.timers
    ensures
      var t, pane := Step(s, Fire(h)), s.timers[h].pane;
      && Waiting(t, pane) == None && Shown(t, pane) == Some(s.timers[h].alert) && OthersKept(s, t, pane)
      && Keys(t.outstanding) == Keys(s.outstanding) + if Shown(s, pane).Some? then [] else [pane]
  {
    var t := s.timers[h];
    PutKeepsOrder(s.outstanding, t.pane, t.alert);
    forall p
      ensures Shown(Step(s, Fire(h)), p) == if p == t.pane then Some(t.alert) else Shown(s, p)
    {
      PutSets(s.outstanding, t.pane, t.alert, p);
    }
  }

  /** The alert, when its kind is enabled. */
  function IfEnabled(alert: Option<Alert>, enabled: set<Status>): Option<Alert> {
    if alert.Some? && alert.value.status in enabled then alert else None
  }

  lemma CancelDisabledMeans(s: State, p: Pane)
    requires TimersMatch(s)
    ensures Waiting(CancelAll(s, Disabled(s)), p) == IfEnabled(Waiting(s, p), s.enabled)
  {
    var handles := set q | q in Disabled(s) && q in s.pending :: s.pending[q].handle;
    if p in s.pending && s.pending[p].handle in handles {
      var q :| q in Disabled(s) && q in s.pending && s.pending[q].handle == s.pending[p].handle;
      assert s.timers[s.pending[p].handle].pane == p;
    }
  }

  lemma {:induction false} FilterShortens(es: seq<Entry<Pane, Alert>>, keep: Alert -> bool)
    ensures |Filter(es, keep)| <= |es|
    ensures |Filter(es, keep)| < |es| <==> exists i :: 0 <= i < |es| && !keep(es[i].value)
  {
    if es != [] {
      FilterShortens(es[1..], keep);
      assert forall i :: 0 <= i < |es| - 1 ==> es[1..][i] == es[i + 1];
      if |Filter(es[1..], keep)| < |es| - 1 {
        var i :| 0 <= i < |es[1..]| && !keep(es[1..][i].value);
        assert !keep(es[i + 1].value);
      }
      if i :| 0 <= i < |es| && !keep(es[i].value) {
        if i > 0 { assert !keep(es[1..][i - 1].value); }
      }
    }
  }

  lemma ApplyQuiet(s: State)
    requires Distinct(s.outstanding)
    ensures
      var t := Step(s, ApplyPrefs);
      && t.outstanding == Filter(s.outstanding, (a: Alert) => a.status in s.enabled)
      && Quietly(s, t, exists i :: 0 <= i < |s.outstanding| && s.outstanding[i].value.status !in s.enabled)
      && t.pending == CancelAll(s, Disabled(s)).pending && t.timers == CancelAll(s, Disabled(s)).timers
  {
    FilterSets(s.outstanding, (a: Alert) => a.status in s.enabled);
    FilterShortens(s.outstanding, (a: Alert) => a.status in s.enabled);
    var t := Step(s, ApplyPrefs);
    if t.outstanding != [] { SummaryTells(t, false); }
  }

  lemma ApplyPane(s: State, t: State, p: Pane)
    requires Inv(s) && t.pending == CancelAll(s, Disabled(s)).pending && t.timers == CancelAll(s, Disabled(s)).timers
    requires t.outstanding == Filter(s.outstanding, (a: Alert) => a.status in s.enabled)
    ensures Waiting(t, p) == IfEnabled(Waiting(s, p), s.enabled) && Shown(t, p) == IfEnabled(Shown(s, p), s.enabled)
  {
    CancelDisabledMeans(s, p);
    assert Waiting(t, p) == Waiting(CancelAll(s, Disabled(s)), p);
    FilterGets(s.outstanding, (a: Alert) => a.status in s.enabled, p);
  }

  lemma ApplyMeans(s: State)
    requires Inv(s)
    ensures
      var t := Step(s, ApplyPrefs);
      && (forall p ::
            Waiting(t, p) == IfEnabled(Waiting(s, p), s.enabled)
            && Shown(t, p) == IfEnabled(Shown(s, p), s.enabled))
      && Quietly(s, t, exists i :: 0 <= i < |s.outstanding| && s.outstanding[i].value.status !in s.enabled)
  {
    var t := Step(s, ApplyPrefs);
    ApplyQuiet(s);
    forall p
      ensures Waiting(t, p) == IfEnabled(Waiting(s, p), s.enabled) && Shown(t, p) == IfEnabled(Shown(s, p), s.enabled)
    {
      ApplyPane(s, t, p);
    }
  }

  lemma ClearMeans(s: State)
    requires Inv(s)
    ensures
      var t := Step(s, ClearAll);
      && t.pending == map[] && t.timers == map[] && t.outstanding == []
      && t.sent == s.sent + if s.outstanding == [] then [] else [Clear]
  {
    ClearAllKeeps(s);
    assert Step(s, ClearAll).timers.Keys == {};
  }

  // ---- The object ----

  method KeepEnabled(es: seq<Entry<Pane, Alert>>, enabled: set<Status>)
    returns (kept: seq<Entry<Pane, Alert>>, removed: bool)
    ensures kept == Filter(es, (a: Alert) => a.status in enabled)
    ensures removed <==> |kept| < |es|
  {
    ghost var test := (a: Alert) => a.status in enabled;
    kept, removed := [], false;
    for i := 0 to |es|
      invariant kept + Filter(es[i..], test) == Filter(es, test)
      invariant |kept| <= i && (removed <==> |kept| < i)
    {
      assert es[i..][1..] == es[i + 1..];
      if es[i].value.status in enabled {
        assert kept + ([es[i]] + Filter(es[i + 1..], test)) == kept + [es[i]] + Filter(es[i + 1..], test);
        kept := kept + [es[i]];
      } else {
        removed := true;
      }
    }
    assert kept + [] == kept;
  }

  class NotificationCoordinator {
    var enabled: set<Status>
    var pending: map<Pane, Armed>
    var outstanding: seq<Entry<Pane, Alert>>
    var timers: map<Handle, Timer>
    var next: Handle
    var sent: seq<Message>
    /** Everything that happened so far. */
    ghost var history: seq<Event>

    ghost function Contents(): State
      reads this
    {
      State(enabled, pending, outstanding, timers, next, sent)
    }

    /** The state is what the history makes of a fresh one, so its bookkeeping is in order. */
    ghost predicate Valid()
      reads this
    {
      Contents() == Run(history) && Inv(Contents())
    }

    constructor ()
      ensures Valid() && history == []
    {
      enabled, pending, outstanding, timers, next, sent, history := {}, map[], [], map[], 0, [], [];
    }

    ghost method Record(s: State, e: Event)
      requires s == Run(history) && Contents() == Step(s, e)
      modifies this`history
      ensures Valid() && history == old(history) + [e]
    {
      assert (history + [e])[..|history|] == history;
      history := history + [e];
      RunKeepsInv(history);
    }

    method UpdatePrefs(enabled: set<Status>)
      requires Valid()
      modifies this
      ensures Valid() && history == old(history) + [SetPrefs(enabled)]
      ensures this.enabled == enabled && pending == old(pending) && outstanding == old(outstanding) && sent == old(sent)
    {
      ghost var was := Contents();
      this.enabled := enabled;
      Record(was, SetPrefs(enabled));
    }

    method SendSummary(renotify: bool)
      modifies this`sent
      ensures Contents() == Emit(old(Contents()), renotify)
    {
      if |outstanding| == 0 {
        sent := sent + [Clear];
      } else {
        sent := sent + [Render(Summarize(outstanding, renotify))];
      }
    }

    method CancelTimer(pane: Pane)
      modifies this`timers, this`pending
      ensures Contents() == CancelPending(old(Contents()), pane)
    {
      if pane in pending {
        timers := timers - {pending[pane].handle};
        pending := pending - {pane};
      }
    }

    method ResolvePane(pane: Pane)
      modifies this`timers, this`pending, this`outstanding, this`sent
      ensures Contents() == Resolve(old(Contents()), pane)
    {
      CancelTimer(pane);
      if Get(outstanding, pane).Some? {
        outstanding := Delete(outstanding, pane);
        SendSummary(false);
      }
    }

    /**
     * A transition into an enabled kind makes this alert the one that waits for the pane and sends nothing;
     * any other takes what waits or is shown for the pane back, with one silent message if it was shown.
     */
    method OnTransition(pane: Pane, alert: Alert)
      requires Valid()
      modifies this
      ensures Valid() && history == old(history) + [Transition(pane, alert)]
      ensures OthersKept(old(Contents()), Contents(), pane)
      ensures alert.status in enabled ==>
                Waiting(Contents(), pane) == Some(alert) && outstanding == old(outstanding) && sent == old(sent)
      ensures alert.status !in enabled ==>
                Waiting(Contents(), pane) == None && Shown(Contents(), pane) == None &&
                Quietly(old(Contents()), Contents(), Shown(old(Contents()), pane).Some?)
    {
      ghost var was := Contents();
      if alert.status !in enabled {
        ResolveMeans(was, pane);
        ResolvePane(pane);
      } else {
        ArmMeans(was, pane, alert);
        ArmTimer(pane, alert);
      }
      Record(was, Transition(pane, alert));
    }

    /** Starts the debounce, again if it was running. */
    method ArmTimer(pane: Pane, alert: Alert)
      modifies this`timers, this`pending, this`next
      ensures Contents() == Arm(old(Contents()), pane, alert)
    {
      CancelTimer(pane);
      timers, pending := timers[next := Timer(pane, alert)], pending[pane := Armed(next, alert.status)];
      next := next + 1;
    }

    method OnRemove(pane: Pane)
      requires Valid()
      modifies this
      ensures Valid() && history == old(history) + [Vanish(pane)]
      ensures Waiting(Contents(), pane) == None && Shown(Contents(), pane) == None
      ensures OthersKept(old(Contents()), Contents(), pane)
      ensures Quietly(old(Contents()), Contents(), Shown(old(Contents()), pane).Some?)
    {
      ghost var was := Contents();
      ResolveMeans(was, pane);
      ResolvePane(pane);
      Record(was, Vanish(pane));
    }

    /** The clock runs a timer's callback: what waited is shown, with a sound. */
    method TimerFired(h: Handle)
      requires Valid() && h in timers
      modifies this
      ensures Valid() && history == old(history) + [Fire(h)]
      ensures Waiting(Contents(), old(timers[h]).pane) == None
      ensures Shown(Contents(), old(timers[h]).pane) == Some(old(timers[h]).alert)
      ensures OthersKept(old(Contents()), Contents(), old(timers[h]).pane)
      ensures Keys(outstanding) == Keys(old(outstanding)) +
                if Shown(old(Contents()), old(timers[h]).pane).Some? then [] else [old(timers[h]).pane]
      ensures |sent| == |old(sent)| + 1 && sent[..|old(sent)|] == old(sent)
      ensures Loud(sent[|old(sent)|]) && Tells(Contents(), sent[|old(sent)|])
    {
      ghost var was := Contents();
      FireMeans(was, h);
      FiringShows(was, h);
      RunTimer(h);
      Record(was, Fire(h));
    }

    /** The callback itself. */
    method RunTimer(h: Handle)
      requires h in timers
      modifies this`timers, this`pending, this`outstanding, this`sent
      ensures Contents() == Step(old(Contents()), Fire(h))
    {
      var t := timers[h];
      timers := timers - {h};
      pending := pending - {t.pane};
      outstanding := Put(outstanding, t.pane, t.alert);
      SendSummary(true);
    }

    /** Cancels the timers of `panes`, one after the other. */
    method CancelTimers(panes: set<Pane>)
      requires panes <= pending.Keys
      modifies this`timers, this`pending
      ensures Contents() == CancelAll(old(Contents()), panes)
    {
      var left := panes;
      ghost var was := Contents();
      ghost var gone: set<Pane> := {};
      assert was.pending - {} == was.pending && was.timers - {} == was.timers;
      while left != {}
        invariant left + gone == panes && left !! gone
        invariant Contents() == CancelAll(was, gone)
        decreases left
      {
        var p :| p in left;
        CancelOneMore(was, gone, p);
        CancelTimer(p);
        left, gone := left - {p}, gone + {p};
      }
      assert gone == panes;
    }

    /** What waits or is shown stays exactly when its kind is enabled; one silent message if anything shown went. */
    method ReapplyPrefs()
      requires Valid()
      modifies this
      ensures Valid() && history == old(history) + [ApplyPrefs]
      ensures forall p :: Waiting(Contents(), p) == IfEnabled(Waiting(old(Contents()), p), enabled) &&
                          Shown(Contents(), p) == IfEnabled(Shown(old(Contents()), p), enabled)
      ensures Quietly(old(Contents()), Contents(),
                      exists i :: 0 <= i < |old(outstanding)| && old(outstanding)[i].value.status !in enabled)
    {
      ghost var was := Contents();
      ApplyMeans(was);
      DropDisabled();
      Record(was, ApplyPrefs);
    }

    /** The two passes over what is now disabled. */
    method DropDisabled()
      modifies this`timers, this`pending, this`outstanding, this`sent
      ensures Contents() == Step(old(Contents()), ApplyPrefs)
    {
      CancelTimers(set p | p in pending && pending[p].status !in enabled);
      var kept, removed := KeepEnabled(outstanding, enabled);
      if removed {
        outstanding := kept;
        SendSummary(false);
      }
    }

    method CloseAll()
      requires Valid()
      modifies this
      ensures Valid() && history == old(history) + [ClearAll]
      ensures pending == map[] && timers == map[] && outstanding == []
      ensures sent == old(sent) + if old(outstanding) == [] then [] else [Clear]
    {
      ghost var was := Contents();
      ClearMeans(was);
      CancelTimers(pending.Keys);
      var had := |outstanding| > 0;
      outstanding := [];
      if had { sent := sent + [Clear]; }
      Record(was, ClearAll);
    }
  }

  lemma CancelOneMore(s: State, gone: set<Pane>, p: Pane)
    requires p in s.pending && p !in gone
    ensures CancelPending(CancelAll(s, gone), p) == CancelAll(s, gone + {p})
  {
    var handles := set q | q in gone && q in s.pending :: s.pending[q].handle;
    var more := set q | q in gone + {p} && q in s.pending :: s.pending[q].handle;
    assert more == handles + {s.pending[p].handle};
    assert s.pending - gone - {p} == s.pending - (gone + {p});
    assert s.timers - handles - {s.pending[p].handle} == s.timers - more;
  }
}
