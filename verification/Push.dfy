/**
 * The push subscriptions: which rows a device, the operator or a delivery round may drop, and how failures
 * are counted against a row.
 */
module Push {
  import opened Options
  import opened OrderedMap

  /** An endpoint URL: the push service's origin and the rest. */
  datatype Endpoint = Endpoint(origin: string, rest: string)

  /** Rows read from disk may lack the time of their first appearance. */
  datatype Row = Row(keys: string, createdAt: Option<int>, userAgent: Option<string>)

  /** How sending to one endpoint ended; `Gone` is status 404 or 410. */
  datatype Outcome = Delivered | Gone | Failed

  const MAX_SUBSCRIPTIONS: nat := 20
  const EVICT_AFTER: nat := 5

  datatype State = State(subs: seq<Entry<Endpoint, Row>>, failures: map<Endpoint, nat>)

  /** `Round` is the end of a delivery round, with one result for each row attempted. */
  datatype Event =
    | Add(endpoint: Endpoint, keys: string, replaced: Option<Endpoint>, userAgent: Option<string>, now: int)
    | Forget(pattern: string)
    | Round(results: seq<Entry<Endpoint, Outcome>>)

  datatype Answer = Stored | Full

  function Supersede(s: State, e: Endpoint, replaced: Option<Endpoint>): State {
    if replaced.Some? && replaced.value != e
    then State(Delete(s.subs, replaced.value), s.failures - {replaced.value})
    else s
  }

  function AnswerTo(s: State, e: Event): Answer
    requires e.Add?
  {
    var c := Supersede(s, e.endpoint, e.replaced);
    if Get(c.subs, e.endpoint).None? && |c.subs| >= MAX_SUBSCRIPTIONS then Full else Stored
  }

  /** Re-subscribing keeps the time of first appearance, and the user agent when none is given. */
  function RowFor(c: State, e: Event): Row
    requires e.Add?
  {
    var previous := Get(c.subs, e.endpoint);
    var userAgent := if e.userAgent.Some? || previous.None? then e.userAgent else previous.value.userAgent;
    var createdAt := if previous.Some? && previous.value.createdAt.Some? then previous.value.createdAt else Some(e.now);
    Row(e.keys, createdAt, if userAgent == Some("") then None else userAgent)
  }

  function Url(e: Endpoint): string { e.origin + e.rest }

  predicate Includes(s: string, part: string) {
    |part| <= |s| && (s[..|part|] == part || (s != "" && Includes(s[1..], part)))
  }

  predicate Matches(e: Endpoint, pattern: string) { pattern == "*" || Includes(Url(e), pattern) }

  function Doomed(subs: seq<Entry<Endpoint, Row>>, pattern: string): seq<Endpoint> {
    if subs == [] then []
    else (if Matches(subs[0].key, pattern) then [subs[0].key] else []) + Doomed(subs[1..], pattern)
  }

  function RemoveAll(s: State, gone: seq<Endpoint>): State {
    if gone == [] then s else
    var c := RemoveAll(s, gone[..|gone| - 1]);
    State(Delete(c.subs, gone[|gone| - 1]), c.failures - {gone[|gone| - 1]})
  }

  /** The origins that delivered to somebody this round. */
  function Healthy(results: seq<Entry<Endpoint, Outcome>>): set<string> {
    if results == [] then {}
    else
      var last := results[|results| - 1];
      Healthy(results[..|results| - 1]) + if last.value == Delivered then {last.key.origin} else {}
  }

  function Count(failures: map<Endpoint, nat>, e: Endpoint): nat { if e in failures then failures[e] else 0 }

  function Counted(failures: map<Endpoint, nat>, e: Endpoint, o: Outcome, healthy: set<string>): map<Endpoint, nat> {
    match o
    case Delivered => failures - {e}
    case Gone => failures
    case Failed => if e.origin in healthy then failures[e := Count(failures, e) + 1] else failures
  }

  predicate Dead(failures: map<Endpoint, nat>, e: Endpoint, o: Outcome, healthy: set<string>) {
    o == Gone || (o == Failed && e.origin in healthy && Count(failures, e) + 1 >= EVICT_AFTER)
  }

  datatype Tally = Tally(failures: map<Endpoint, nat>, dead: seq<Endpoint>)

  function TallyUp(failures: map<Endpoint, nat>, results: seq<Entry<Endpoint, Outcome>>, healthy: set<string>): Tally {
    if results == [] then Tally(failures, []) else
    var n := |results| - 1;
    var before := TallyUp(failures, results[..n], healthy);
    var e, o := results[n].key, results[n].value;
    Tally(Counted(before.failures, e, o, healthy),
          before.dead + if Dead(before.failures, e, o, healthy) then [e] else [])
  }

  function Step(s: State, e: Event): State {
    match e
    case Add(endpoint, _, replaced, _, _) =>
      var c := Supersede(s, endpoint, replaced);
      if AnswerTo(s, e) == Full then c
      else State(Put(c.subs, endpoint, RowFor(c, e)), c.failures - {endpoint})
    case Forget(pattern) => RemoveAll(s, Doomed(s.subs, pattern))
    case Round(results) =>
      var t := TallyUp(s.failures, results, Healthy(results));
      RemoveAll(s.(failures := t.failures), t.dead)
  }

  function Run(s: State, es: seq<Event>): State {
    if es == [] then s else Step(Run(s, es[..|es| - 1]), es[|es| - 1])
  }

  /** What a store read from disk looks like: distinct endpoints, at most the cap, no failures yet. */
  predicate Fresh(s: State) { Distinct(s.subs) && |s.subs| <= MAX_SUBSCRIPTIONS && s.failures == map[] }

  predicate Has(s: State, e: Endpoint) { Get(s.subs, e).Some? }

  // ---- Rows ----

  lemma {:induction false} RemoveAllAt(s: State, gone: seq<Endpoint>, e: Endpoint)
    requires Distinct(s.subs)
    ensures
      var c := RemoveAll(s, gone);
      && Distinct(c.subs) && |c.subs| <= |s.subs|
      && Get(c.subs, e) == (if e in gone then None else Get(s.subs, e))
      && Count(c.failures, e) == (if e in gone then 0 else Count(s.failures, e))
  {
    if gone != [] {
      var n := |gone| - 1;
      RemoveAllAt(s, gone[..n], e);
      DeleteSets(RemoveAll(s, gone[..n]).subs, gone[n], e);
      assert gone == gone[..n] + [gone[n]];
    }
  }

  lemma {:induction false} DoomedAre(subs: seq<Entry<Endpoint, Row>>, pattern: string, e: Endpoint)
    ensures e in Doomed(subs, pattern) <==> Get(subs, e).Some? && Matches(e, pattern)
  {
    if subs != [] { DoomedAre(subs[1..], pattern, e); }
  }

  lemma SupersedeAt(s: State, e: Endpoint, replaced: Option<Endpoint>, asked: Endpoint)
    requires Distinct(s.subs)
    ensures
      var c := Supersede(s, e, replaced);
      && Distinct(c.subs)
      && (if replaced == Some(asked) && asked != e
          then Get(c.subs, asked) == None && Count(c.failures, asked) == 0
          else Get(c.subs, asked) == Get(s.subs, asked) && Count(c.failures, asked) == Count(s.failures, asked))
  {
    if replaced.Some? && replaced.value != e { DeleteSets(s.subs, replaced.value, asked); }
  }

  lemma SupersedeSize(s: State, e: Endpoint, replaced: Option<Endpoint>)
    requires Distinct(s.subs)
    ensures
      var c := Supersede(s, e, replaced);
      && |c.subs| == (if replaced.Some? && replaced.value != e && Has(s, replaced.value)
                      then |s.subs| - 1 else |s.subs|)
      && (|c.subs| == |s.subs| ==> c.subs == s.subs)
  {
    if replaced.Some? { DeleteSets(s.subs, replaced.value, e); }
  }

  /** A "full" answer drops a row exactly when it names one to replace and the store is over its cap. */
  lemma FullDropsExactlyWhenOverCap(s: State, e: Event)
    requires Distinct(s.subs) && e.Add? && AnswerTo(s, e) == Full
    ensures Step(s, e).subs == s.subs || |Step(s, e).subs| == |s.subs| - 1
    ensures Step(s, e).subs != s.subs <==>
            e.replaced.Some? && e.replaced.value != e.endpoint && Has(s, e.replaced.value)
    ensures Step(s, e).subs != s.subs ==> |s.subs| > MAX_SUBSCRIPTIONS
  {
    SupersedeSize(s, e.endpoint, e.replaced);
  }

  lemma StepKeepsCap(s: State, e: Event)
    requires Distinct(s.subs) && |s.subs| <= MAX_SUBSCRIPTIONS
    ensures Distinct(Step(s, e).subs) && |Step(s, e).subs| <= MAX_SUBSCRIPTIONS
  {
    match e
    case Add(endpoint, _, replaced, _, _) =>
      var c := Supersede(s, endpoint, replaced);
      SupersedeAt(s, endpoint, replaced, endpoint);
      SupersedeSize(s, endpoint, replaced);
      PutSets(c.subs, endpoint, RowFor(c, e), endpoint);
    case Forget(pattern) => RemoveAllAt(s, Doomed(s.subs, pattern), Endpoint("", ""));
    case Round(results) =>
      var t := TallyUp(s.failures, results, Healthy(results));
      RemoveAllAt(s.(failures := t.failures), t.dead, Endpoint("", ""));
  }

  lemma {:induction false} RunKeepsCap(start: State, es: seq<Event>)
    requires Fresh(start)
    ensures Distinct(Run(start, es).subs) && |Run(start, es).subs| <= 20
  {
    if es != [] {
      RunKeepsCap(start, es[..|es| - 1]);
      StepKeepsCap(Run(start, es[..|es| - 1]), es[|es| - 1]);
    }
  }

  /** From a store within its cap, a "full" answer never changes a row. */
  lemma FullChangesNoRow(start: State, es: seq<Event>, e: Event)
    requires Fresh(start) && e.Add? && AnswerTo(Run(start, es), e) == Full
    ensures Step(Run(start, es), e).subs == Run(start, es).subs
  {
    RunKeepsCap(start, es);
    FullDropsExactlyWhenOverCap(Run(start, es), e);
  }

  /** When the endpoint first appeared, as far as the store knows. */
  function FirstSeen(s: State, e: Endpoint, now: int): Option<int> {
    if Has(s, e) && Get(s.subs, e).value.createdAt.Some? then Get(s.subs, e).value.createdAt else Some(now)
  }

  /** The user agent given, or else the one the row had; an empty one counts as none. */
  ghost predicate AgentKept(s: State, e: Event, kept: Option<string>)
    requires e.Add?
  {
    && (e.userAgent.Some? ==> kept == if e.userAgent.value == "" then None else e.userAgent)
    && (e.userAgent.None? && Has(s, e.endpoint) && Get(s.subs, e.endpoint).value.userAgent != Some("") ==>
          kept == Get(s.subs, e.endpoint).value.userAgent)
    && (e.userAgent.None? && !Has(s, e.endpoint) ==> kept == None)
    && kept != Some("")
  }

  /**
   * A stored subscription is there, keeps its first time and its user agent, and leaves every row but the
   * replaced one alone.
   */
  lemma StoredChangesItsRows(s: State, e: Event, other: Endpoint)
    requires Distinct(s.subs) && e.Add? && AnswerTo(s, e) == Stored
    ensures
      var after := Step(s, e);
      && Has(after, e.endpoint) && Count(after.failures, e.endpoint) == 0
      && Get(after.subs, e.endpoint).value.keys == e.keys
      && Get(after.subs, e.endpoint).value.createdAt == FirstSeen(s, e.endpoint, e.now)
      && AgentKept(s, e, Get(after.subs, e.endpoint).value.userAgent)
      && (other != e.endpoint && e.replaced != Some(other) ==> Get(after.subs, other) == Get(s.subs, other))
      && (other != e.endpoint && e.replaced == Some(other) ==> !Has(after, other))
  {
    var c := Supersede(s, e.endpoint, e.replaced);
    SupersedeAt(s, e.endpoint, e.replaced, e.endpoint);
    SupersedeAt(s, e.endpoint, e.replaced, other);
    PutSets(c.subs, e.endpoint, RowFor(c, e), e.endpoint);
    PutSets(c.subs, e.endpoint, RowFor(c, e), other);
  }

  // ---- Failures ----

  lemma {:induction false} TallyAt(failures: map<Endpoint, nat>, results: seq<Entry<Endpoint, Outcome>>,
                                   healthy: set<string>, e: Endpoint)
    requires Apart(results)
    ensures
      var t := TallyUp(failures, results, healthy);
      match OutcomeOf(results, e)
      case None => Count(t.failures, e) == Count(failures, e) && e !in t.dead
      case Some(o) =>
        && Count(t.failures, e) == Count(Counted(failures, e, o, healthy), e)
        && (e in t.dead <==> Dead(failures, e, o, healthy))
  {
    if results != [] {
      var n := |results| - 1;
      TallyAt(failures, results[..n], healthy, e);
      if results[n].key == e { NotAmong(results, e); }
    }
  }

  /** No endpoint has two results. */
  ghost predicate Apart(results: seq<Entry<Endpoint, Outcome>>) {
    forall i, j :: 0 <= i < j < |results| ==> results[i].key != results[j].key
  }

  function OutcomeOf(results: seq<Entry<Endpoint, Outcome>>, e: Endpoint): Option<Outcome> {
    if results == [] then None
    else if results[|results| - 1].key == e then Some(results[|results| - 1].value)
    else OutcomeOf(results[..|results| - 1], e)
  }

  lemma NotAmong(results: seq<Entry<Endpoint, Outcome>>, e: Endpoint)
    requires Apart(results) && results != [] && results[|results| - 1].key == e
    ensures OutcomeOf(results[..|results| - 1], e) == None
  {
    NotAmongPrefix(results[..|results| - 1], e);
  }

  lemma {:induction false} NotAmongPrefix(results: seq<Entry<Endpoint, Outcome>>, e: Endpoint)
    requires forall i :: 0 <= i < |results| ==> results[i].key != e
    ensures OutcomeOf(results, e) == None
  {
    if results != [] { NotAmongPrefix(results[..|results| - 1], e); }
  }

  /** The round failed for `e` while a sibling on the same origin got its message. */
  predicate Strike(e: Event, ep: Endpoint) {
    e.Round? && OutcomeOf(e.results, ep) == Some(Failed) && ep.origin in Healthy(e.results)
  }

  /** The event clears the slate of `ep`: a delivery, or the device subscribing again. */
  predicate Clears(s: State, e: Event, ep: Endpoint) {
    match e
    case Add(endpoint, _, _, _, _) => endpoint == ep && AnswerTo(s, e) == Stored
    case Forget(_) => false
    case Round(results) => OutcomeOf(results, ep) == Some(Delivered)
  }

  /** The event names `ep` for removal: replaced, forgotten by hand, or gone at the push service. */
  predicate Names(s: State, e: Event, ep: Endpoint) {
    match e
    case Add(endpoint, _, replaced, _, _) => replaced == Some(ep) && ep != endpoint
    case Forget(pattern) => Has(s, ep) && Matches(ep, pattern)
    case Round(results) => OutcomeOf(results, ep) == Some(Gone)
  }

  lemma StepAt(s: State, e: Event, ep: Endpoint)
    requires Distinct(s.subs) && (e.Round? ==> Apart(e.results))
    ensures Has(s, ep) && !Has(Step(s, e), ep) ==>
              Names(s, e, ep) || (Strike(e, ep) && Count(s.failures, ep) + 1 >= EVICT_AFTER)
    ensures Count(Step(s, e).failures, ep) ==
            if Names(s, e, ep) || Clears(s, e, ep) then 0
            else if Strike(e, ep)
            then (if Count(s.failures, ep) + 1 >= EVICT_AFTER then 0 else Count(s.failures, ep) + 1)
            else Count(s.failures, ep)
  {
    match e
    case Add(endpoint, _, replaced, _, _) =>
      var c := Supersede(s, endpoint, replaced);
      SupersedeAt(s, endpoint, replaced, ep);
      SupersedeAt(s, endpoint, replaced, endpoint);
      PutSets(c.subs, endpoint, RowFor(c, e), ep);
    case Forget(pattern) =>
      DoomedAre(s.subs, pattern, ep);
      RemoveAllAt(s, Doomed(s.subs, pattern), ep);
    case Round(results) =>
      var t := TallyUp(s.failures, results, Healthy(results));
      TallyAt(s.failures, results, Healthy(results), ep);
      RemoveAllAt(s.(failures := t.failures), t.dead, ep);
  }

  ghost predicate Rounds(es: seq<Event>) { forall i :: 0 <= i < |es| && es[i].Round? ==> Apart(es[i].results) }

  /** From event `from` on nothing cleared the slate of `ep`. */
  ghost predicate Uncleared(start: State, es: seq<Event>, ep: Endpoint, from: nat) {
    forall i: nat :: from <= i < |es| ==> !Clears(Run(start, es[..i]), es[i], ep)
  }

  ghost predicate Marked(es: seq<Event>, ep: Endpoint, marks: seq<nat>) {
    && (forall k :: 0 <= k < |marks| ==> marks[k] < |es| && Strike(es[marks[k]], ep))
    && (forall k, l :: 0 <= k < l < |marks| ==> marks[k] < marks[l])
  }

  /** The events `marks`, in order, struck `ep`, and since the first of them nothing cleared its slate. */
  ghost predicate Struck(start: State, es: seq<Event>, ep: Endpoint, marks: seq<nat>) {
    Marked(es, ep, marks) && (marks != [] ==> Uncleared(start, es, ep, marks[0]))
  }

  lemma UnclearedGoesOn(start: State, es: seq<Event>, ep: Endpoint, from: nat)
    requires es != [] && Uncleared(start, es[..|es| - 1], ep, from)
    requires !Clears(Run(start, es[..|es| - 1]), es[|es| - 1], ep)
    ensures Uncleared(start, es, ep, from)
  {
    var n := |es| - 1;
    forall i: nat | from <= i < |es|
      ensures !Clears(Run(start, es[..i]), es[i], ep)
    {
      if i < n { assert es[..n][..i] == es[..i]; }
    }
  }

  lemma StruckGoesOn(start: State, es: seq<Event>, ep: Endpoint, marks: seq<nat>)
    requires es != [] && Struck(start, es[..|es| - 1], ep, marks)
    requires !Clears(Run(start, es[..|es| - 1]), es[|es| - 1], ep)
    ensures Struck(start, es, ep, marks)
    ensures Strike(es[|es| - 1], ep) ==> Struck(start, es, ep, marks + [|es| - 1])
  {
    var n := |es| - 1;
    if marks != [] {
      UnclearedGoesOn(start, es, ep, marks[0]);
    } else {
      assert Uncleared(start, es[..n], ep, n);
      UnclearedGoesOn(start, es, ep, n);
    }
  }

  /** A count of `n` against an endpoint stands for `n` rounds that struck it, with no clean slate since. */
  lemma {:induction false} CountMeans(start: State, es: seq<Event>, ep: Endpoint) returns (marks: seq<nat>)
    requires Fresh(start) && Rounds(es)
    ensures |marks| == Count(Run(start, es).failures, ep) < EVICT_AFTER && Struck(start, es, ep, marks)
  {
    if es == [] {
      marks := [];
    } else {
      var n := |es| - 1;
      var s, e := Run(start, es[..n]), es[n];
      marks := CountMeans(start, es[..n], ep);
      RunKeepsCap(start, es[..n]);
      StepAt(s, e, ep);
      if Count(Step(s, e).failures, ep) == 0 {
        marks := [];
      } else {
        StruckGoesOn(start, es, ep, marks);
        if Strike(e, ep) { marks := marks + [n]; }
      }
    }
  }

  /**
   * A row leaves only when it is replaced, forgotten by hand, reported gone, or has failed five times
   * while a sibling on its origin was delivered to, with no delivery and no re-subscribe in between.
   */
  lemma RowLeavesOnlyFor(start: State, es: seq<Event>, e: Event, ep: Endpoint) returns (marks: seq<nat>)
    requires Fresh(start) && Rounds(es + [e])
    requires Has(Run(start, es), ep) && !Has(Step(Run(start, es), e), ep)
    ensures Names(Run(start, es), e, ep) || (|marks| == 5 && Struck(start, es + [e], ep, marks))
  {
    forall i | 0 <= i < |es| && es[i].Round?
      ensures Apart(es[i].results)
    {
      assert (es + [e])[i] == es[i];
    }
    assert (es + [e])[..|es|] == es;
    marks := CountMeans(start, es, ep);
    RunKeepsCap(start, es);
    assert (es + [e])[|es|] == e;
    StepAt(Run(start, es), e, ep);
    if !Names(Run(start, es), e, ep) {
      StruckGoesOn(start, es + [e], ep, marks);
      marks := marks + [|es|];
    }
  }

  lemma {:induction false} HealthyMeans(results: seq<Entry<Endpoint, Outcome>>, origin: string)
    ensures origin in Healthy(results) <==>
            exists i :: 0 <= i < |results| && results[i].value == Delivered && results[i].key.origin == origin
  {
    if results != [] {
      var n := |results| - 1;
      HealthyMeans(results[..n], origin);
      if origin in Healthy(results[..n]) {
        var i :| 0 <= i < n && results[..n][i].value == Delivered && results[..n][i].key.origin == origin;
        assert results[i].value == Delivered;
      }
      if i :| 0 <= i < n && results[i].value == Delivered && results[i].key.origin == origin {
        assert results[..n][i].value == Delivered;
      }
    }
  }

  /** While a push service refuses everyone, none of its rows is dropped for failing, nor counted against. */
  lemma DownServiceEvictsNobody(s: State, results: seq<Entry<Endpoint, Outcome>>, ep: Endpoint)
    requires Distinct(s.subs) && Apart(results) && OutcomeOf(results, ep) != Some(Gone)
    requires forall i :: 0 <= i < |results| && results[i].key.origin == ep.origin ==> results[i].value != Delivered
    ensures Has(s, ep) ==> Has(Step(s, Round(results)), ep)
    ensures Count(Step(s, Round(results)).failures, ep) <= Count(s.failures, ep)
  {
    HealthyMeans(results, ep.origin);
    StepAt(s, Round(results), ep);
  }

  // ---- What each operation means for the rows ----

  /** Full exactly when the endpoint is new, the store at its cap, and no row is given up for it. */
  lemma FullExactly(s: State, e: Event)
    requires Distinct(s.subs) && |s.subs| <= MAX_SUBSCRIPTIONS && e.Add?
    ensures AnswerTo(s, e) == Full <==>
            !Has(s, e.endpoint) && |s.subs| == 20 &&
            !(e.replaced.Some? && e.replaced.value != e.endpoint && Has(s, e.replaced.value))
  {
    SupersedeSize(s, e.endpoint, e.replaced);
    SupersedeAt(s, e.endpoint, e.replaced, e.endpoint);
  }

  ghost predicate Added(s: State, e: Event, t: State, answer: Answer)
    requires e.Add?
  {
    && (answer == Full ==> t.subs == s.subs)
    && (answer == Full <==> !Has(s, e.endpoint) && |s.subs| == MAX_SUBSCRIPTIONS &&
                            !(e.replaced.Some? && e.replaced.value != e.endpoint && Has(s, e.replaced.value)))
    && (answer == Stored ==>
          && Has(t, e.endpoint) && Count(t.failures, e.endpoint) == 0
          && Get(t.subs, e.endpoint).value.keys == e.keys
          && Get(t.subs, e.endpoint).value.createdAt == FirstSeen(s, e.endpoint, e.now)
          && AgentKept(s, e, Get(t.subs, e.endpoint).value.userAgent)
          && (e.replaced.Some? && e.replaced.value != e.endpoint ==> !Has(t, e.replaced.value)))
    && (forall o :: o != e.endpoint && e.replaced != Some(o) ==> Get(t.subs, o) == Get(s.subs, o))
  }

  lemma AddMeans(s: State, e: Event)
    requires Distinct(s.subs) && |s.subs| <= MAX_SUBSCRIPTIONS && e.Add?
    ensures Added(s, e, Step(s, e), AnswerTo(s, e))
  {
    FullExactly(s, e);
    if AnswerTo(s, e) == Full {
      FullDropsExactlyWhenOverCap(s, e);
    } else {
      StoredChangesItsRows(s, e, if e.replaced.Some? then e.replaced.value else e.endpoint);
      forall o | o != e.endpoint && e.replaced != Some(o)
        ensures Get(Step(s, e).subs, o) == Get(s.subs, o)
      {
        StoredChangesItsRows(s, e, o);
      }
    }
  }

  predicate StandsAt(s: string, part: string, i: nat) { i + |part| <= |s| && s[i..i + |part|] == part }

  /** The pattern stands somewhere in the endpoint's URL, or is the one that means all. */
  ghost predicate Asked(e: Endpoint, pattern: string) {
    pattern == "*" || exists i: nat :: StandsAt(e.origin + e.rest, pattern, i)
  }

  lemma StandsLater(s: string, part: string, i: nat)
    requires s != ""
    ensures StandsAt(s[1..], part, i) <==> StandsAt(s, part, i + 1)
  {
    if i + 1 + |part| <= |s| { assert s[1..][i..i + |part|] == s[i + 1..i + 1 + |part|]; }
  }

  lemma {:induction false} IncludesMeans(s: string, part: string)
    ensures Includes(s, part) <==> exists i: nat :: StandsAt(s, part, i)
  {
    if |part| <= |s| && s[..|part|] == part {
      assert StandsAt(s, part, 0);
    } else if s != "" {
      IncludesMeans(s[1..], part);
      if i: nat :| StandsAt(s[1..], part, i) { StandsLater(s, part, i); }
      if i: nat :| StandsAt(s, part, i) {
        assert i != 0;
        StandsLater(s, part, i - 1);
      }
    }
  }

  lemma MatchesMeans(e: Endpoint, pattern: string)
    ensures Matches(e, pattern) <==> Asked(e, pattern)
  {
    IncludesMeans(Url(e), pattern);
  }

  ghost predicate NoneTwice(es: seq<Endpoint>) { forall i, j :: 0 <= i < j < |es| ==> es[i] != es[j] }

  lemma {:induction false} DoomedOnce(subs: seq<Entry<Endpoint, Row>>, pattern: string)
    requires Distinct(subs)
    ensures NoneTwice(Doomed(subs, pattern))
  {
    if subs != [] {
      DoomedOnce(subs[1..], pattern);
      DoomedAre(subs[1..], pattern, subs[0].key);
    }
  }

  lemma {:induction false} RemoveAllSize(s: State, gone: seq<Endpoint>)
    requires Distinct(s.subs)
    requires NoneTwice(gone)
    requires forall i :: 0 <= i < |gone| ==> Has(s, gone[i])
    ensures |RemoveAll(s, gone).subs| == |s.subs| - |gone|
  {
    if gone != [] {
      var n := |gone| - 1;
      RemoveAllSize(s, gone[..n]);
      RemoveAllAt(s, gone[..n], gone[n]);
      DeleteSets(RemoveAll(s, gone[..n]).subs, gone[n], gone[n]);
    }
  }

  lemma ForgetMeans(s: State, pattern: string)
    requires Distinct(s.subs)
    ensures
      var t := Step(s, Forget(pattern));
      && (forall e :: Get(t.subs, e) == if Asked(e, pattern) then None else Get(s.subs, e))
      && |Doomed(s.subs, pattern)| + |t.subs| == |s.subs|
  {
    var gone := Doomed(s.subs, pattern);
    forall e
      ensures e in gone <==> Has(s, e) && Matches(e, pattern)
      ensures Matches(e, pattern) <==> Asked(e, pattern)
      ensures Get(RemoveAll(s, gone).subs, e) == if e in gone then None else Get(s.subs, e)
    {
      MatchesMeans(e, pattern);
      DoomedAre(s.subs, pattern, e);
      RemoveAllAt(s, gone, e);
    }
    DoomedOnce(s.subs, pattern);
    RemoveAllSize(s, gone);
  }

  /** The round takes the row away: it is gone, or this is its fifth strike. */
  predicate Dies(s: State, results: seq<Entry<Endpoint, Outcome>>, ep: Endpoint) {
    OutcomeOf(results, ep) == Some(Gone) || (Strike(Round(results), ep) && Count(s.failures, ep) + 1 >= EVICT_AFTER)
  }

  lemma RoundMeans(s: State, results: seq<Entry<Endpoint, Outcome>>, ep: Endpoint)
    requires Distinct(s.subs) && Apart(results)
    ensures
      var t := Step(s, Round(results));
      && Get(t.subs, ep) == (if Dies(s, results, ep) then None else Get(s.subs, ep))
      && Count(t.failures, ep) == (if Dies(s, results, ep) || OutcomeOf(results, ep) == Some(Delivered) then 0
                                   else if Strike(Round(results), ep) then Count(s.failures, ep) + 1
                                   else Count(s.failures, ep))
  {
    var t := TallyUp(s.failures, results, Healthy(results));
    TallyAt(s.failures, results, Healthy(results), ep);
    RemoveAllAt(s.(failures := t.failures), t.dead, ep);
  }

  // ---- The store on disk ----

  /** Rows are taken until the cap is reached; a later row for the same endpoint takes the place of the first. */
  function Loaded(rows: seq<Entry<Endpoint, Row>>): seq<Entry<Endpoint, Row>> {
    if rows == [] then [] else
    var before, row := Loaded(rows[..|rows| - 1]), rows[|rows| - 1];
    if |before| >= MAX_SUBSCRIPTIONS then before else Put(before, row.key, row.value)
  }

  lemma {:induction false} LoadedIsFresh(rows: seq<Entry<Endpoint, Row>>)
    ensures Distinct(Loaded(rows)) && |Loaded(rows)| <= MAX_SUBSCRIPTIONS
  {
    if rows != [] {
      var n := |rows| - 1;
      LoadedIsFresh(rows[..n]);
      PutSets(Loaded(rows[..n]), rows[n].key, rows[n].value, rows[n].key);
    }
  }

  /** The row that stands last for an endpoint. */
  function LastRow(rows: seq<Entry<Endpoint, Row>>, e: Endpoint): Option<Row> {
    if rows == [] then None
    else if rows[|rows| - 1].key == e then Some(rows[|rows| - 1].value)
    else LastRow(rows[..|rows| - 1], e)
  }

  /**
   * What is loaded are the rows up to the one that fills the store, or all of them; of several for one
   * endpoint the last one counts.
   */
  lemma {:induction false} LoadedMeans(rows: seq<Entry<Endpoint, Row>>) returns (taken: nat)
    ensures taken <= |rows| && forall e :: Get(Loaded(rows), e) == LastRow(rows[..taken], e)
    ensures taken < |rows| ==> |Loaded(rows)| == 20
    ensures forall k :: 0 <= k < taken ==> |Loaded(rows[..k])| < 20
  {
    if rows == [] {
      taken := 0;
    } else {
      var n := |rows| - 1;
      var before := Loaded(rows[..n]);
      taken := LoadedMeans(rows[..n]);
      LoadedIsFresh(rows[..n]);
      assert forall k :: 0 <= k <= n ==> rows[..n][..k] == rows[..k];
      if |before| < MAX_SUBSCRIPTIONS {
        taken := |rows|;
        assert rows[..|rows|] == rows;
        forall e
          ensures Get(Loaded(rows), e) == LastRow(rows, e)
        {
          PutSets(before, rows[n].key, rows[n].value, e);
        }
      }
    }
  }

  // ---- The object ----

  class PushService {
    var subs: seq<Entry<Endpoint, Row>>
    var failures: map<Endpoint, nat>
    /** The store as it was loaded, and everything that happened since. */
    ghost const start: State
    ghost var history: seq<Event>

    ghost function Contents(): State
      reads this
    {
      State(subs, failures)
    }

    /** The rows are what the history makes of those loaded: distinct, and within the cap. */
    ghost predicate Valid()
      reads this
    {
      && Fresh(start) && Rounds(history) && Contents() == Run(start, history)
      && Distinct(subs) && |subs| <= MAX_SUBSCRIPTIONS
    }

    constructor (stored: seq<Entry<Endpoint, Row>>)
      ensures Valid() && history == [] && subs == Loaded(stored)
    {
      subs, failures := [], map[];
      start, history := State(Loaded(stored), map[]), [];
      new;
      for i := 0 to |stored|
        invariant subs == Loaded(stored[..i]) && failures == map[] && history == [] &&
                  start == State(Loaded(stored), map[])
      {
        assert stored[..i + 1][..i] == stored[..i];
        if |subs| < MAX_SUBSCRIPTIONS {
          subs := Put(subs, stored[i].key, stored[i].value);
        }
      }
      assert stored[..|stored|] == stored;
      LoadedIsFresh(stored);
    }

    ghost method Record(was: State, e: Event)
      requires Fresh(start) && Rounds(history) && was == Run(start, history) && Contents() == Step(was, e)
      requires e.Round? ==> Apart(e.results)
      modifies this`history
      ensures Valid() && history == old(history) + [e]
    {
      assert (history + [e])[..|history|] == history;
      history := history + [e];
      RunKeepsCap(start, history);
    }

    /**
     * A new endpoint at the cap is turned away and no row changes, unless it gives up a row that is held.
     * Otherwise the row is there with a clean slate and the time it first appeared, the one it replaces is
     * gone, and every other row is as it was.
     */
    method AddSubscription(e: Event) returns (answer: Answer)
      requires Valid() && e.Add?
      modifies this
      ensures Valid() && history == old(history) + [e]
      ensures Added(old(Contents()), e, Contents(), answer)
    {
      ghost var was := Contents();
      AddMeans(was, e);
      answer := PutRow(e);
      Record(was, e);
    }

    method PutRow(e: Event) returns (answer: Answer)
      requires e.Add?
      modifies this`subs, this`failures
      ensures Contents() == Step(old(Contents()), e) && answer == AnswerTo(old(Contents()), e)
    {
      if e.replaced.Some? && e.replaced.value != e.endpoint {
        subs := Delete(subs, e.replaced.value);
        failures := failures - {e.replaced.value};
      }
      if Get(subs, e.endpoint).None? && |subs| >= MAX_SUBSCRIPTIONS { return Full; }
      var previous := Get(subs, e.endpoint);
      var userAgent := if e.userAgent.Some? then e.userAgent
                       else if previous.Some? then previous.value.userAgent
                       else None;
      if userAgent == Some("") { userAgent := None; }
      var createdAt := if previous.Some? && previous.value.createdAt.Some? then previous.value.createdAt
                       else Some(e.now);
      subs := Put(subs, e.endpoint, Row(e.keys, createdAt, userAgent));
      failures := failures - {e.endpoint};
      answer := Stored;
    }

    method DropAll(gone: seq<Endpoint>)
      modifies this`subs, this`failures
      ensures Contents() == RemoveAll(old(Contents()), gone)
    {
      for i := 0 to |gone|
        invariant Contents() == RemoveAll(old(Contents()), gone[..i])
      {
        assert gone[..i + 1][..i] == gone[..i];
        subs := Delete(subs, gone[i]);
        failures := failures - {gone[i]};
      }
      assert gone[..|gone|] == gone;
    }

    /** The rows that match are gone, all others as they were, and `count` is how many went. */
    method ForgetMatching(pattern: string) returns (count: nat)
      requires Valid()
      modifies this
      ensures Valid() && history == old(history) + [Forget(pattern)]
      ensures forall e :: Get(subs, e) == if Asked(e, pattern) then None else Get(old(subs), e)
      ensures count + |subs| == |old(subs)|
    {
      ghost var was := Contents();
      ForgetMeans(was, pattern);
      var doomed := Doomed(subs, pattern);
      if |doomed| > 0 { DropAll(doomed); }
      count := |doomed|;
      Record(was, Forget(pattern));
    }

    /**
     * The end of a round, once every attempt has settled. A row goes exactly when it was reported gone or
     * struck for the fifth time; a delivery wipes its slate, a strike adds to it, and nothing else counts.
     */
    method RoundSettled(results: seq<Entry<Endpoint, Outcome>>)
      requires Valid() && Apart(results)
      modifies this
      ensures Valid() && history == old(history) + [Round(results)]
      ensures forall ep :: Get(subs, ep) == if Dies(old(Contents()), results, ep) then None else Get(old(subs), ep)
      ensures forall ep :: Count(failures, ep) ==
                if Dies(old(Contents()), results, ep) || OutcomeOf(results, ep) == Some(Delivered) then 0
                else if Strike(Round(results), ep) then Count(old(failures), ep) + 1
                else Count(old(failures), ep)
    {
      ghost var was := Contents();
      Settle(results);
      forall ep
        ensures Get(subs, ep) == if Dies(was, results, ep) then None else Get(was.subs, ep)
        ensures Count(failures, ep) ==
                  if Dies(was, results, ep) || OutcomeOf(results, ep) == Some(Delivered) then 0
                  else if Strike(Round(results), ep) then Count(was.failures, ep) + 1
                  else Count(was.failures, ep)
      {
        RoundMeans(was, results, ep);
      }
      Record(was, Round(results));
    }

    /** The two passes over the results, and the dropping. */
    method Settle(results: seq<Entry<Endpoint, Outcome>>)
      modifies this`subs, this`failures
      ensures Contents() == Step(old(Contents()), Round(results))
    {
      var healthy: set<string> := {};
      for i := 0 to |results|
        invariant Contents() == old(Contents()) && healthy == Healthy(results[..i])
      {
        assert results[..i + 1][..i] == results[..i];
        if results[i].value == Delivered { healthy := healthy + {results[i].key.origin}; }
      }
      assert results[..|results|] == results;
      var dead: seq<Endpoint> := [];
      for i := 0 to |results|
        invariant subs == old(subs)
        invariant TallyUp(old(failures), results[..i], healthy) == Tally(failures, dead)
      {
        assert results[..i + 1][..i] == results[..i];
        var e := results[i].key;
        match results[i].value
        case Delivered => failures := failures - {e};
        case Gone => dead := dead + [e];
        case Failed =>
          if e.origin in healthy {
            var n := Count(failures, e) + 1;
            failures := failures[e := n];
            if n >= EVICT_AFTER { dead := dead + [e]; }
          }
      }
      assert results[..|results|] == results;
      DropAll(dead);
    }
  }
}
