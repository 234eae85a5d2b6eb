/**
 * The bounded gate in front of git processes: a global cap, a cap per repository, a bounded queue
 * and a deadline per waiter. A run is any sequence of arrivals, completions and deadlines.
 */
module Gate {
  import opened Options

  type Repo = string

  datatype Limits = Limits(maxGit: nat, maxPerRepo: nat, maxQueue: nat)

  /** One call of `schedule`; ids count the calls, so a smaller id arrived earlier. */
  datatype Waiter = Waiter(id: nat, repo: Repo)

  datatype Outcome = Ran | Busy | TimedOut

  /** `active` are the tasks between start and completion, `started` every start so far, in order. */
  datatype State = State(running: nat, perRepo: map<Repo, nat>, queue: seq<Waiter>,
                         next: nat, active: map<nat, Repo>, started: seq<Waiter>, settled: map<nat, Outcome>)

  datatype Event =
    | Arrive(repo: Repo, late: bool)  // `late`: the deadline has passed before the call
    | Complete(id: nat)
    | Deadline(id: nat)

  const INITIAL := State(0, map[], [], 0, map[], [], map[])

  function Load(perRepo: map<Repo, nat>, repo: Repo): nat {
    if repo in perRepo then perRepo[repo] else 0
  }

  predicate HasRoom(c: Limits, s: State, repo: Repo) {
    s.running < c.maxGit && Load(s.perRepo, repo) < c.maxPerRepo
  }

  function Start(s: State, w: Waiter): State {
    s.(running := s.running + 1, perRepo := s.perRepo[w.repo := Load(s.perRepo, w.repo) + 1],
       active := s.active[w.id := w.repo], started := s.started + [w])
  }

  /** `pump` from position `i`: one pass over the queue that starts every waiter whose slot is free. */
  function Pump(c: Limits, s: State, i: nat): State
    decreases |s.queue| - i
  {
    if i >= |s.queue| || s.running >= c.maxGit then s
    else if Load(s.perRepo, s.queue[i].repo) >= c.maxPerRepo then Pump(c, s, i + 1)
    else Pump(c, Start(s.(queue := Removed(s.queue, i)), s.queue[i]), i)
  }

  /** The bookkeeping half of a task's completion: its slot is free again. */
  function Freed(s: State, id: nat): State
    requires id in s.active
  {
    var repo := s.active[id];
    var n := Load(s.perRepo, repo);
    s.(running := if s.running > 0 then s.running - 1 else 0,
       perRepo := if n <= 1 then s.perRepo - {repo} else s.perRepo[repo := n - 1],
       active := s.active - {id}, settled := s.settled[id := Ran])
  }

  /** Where the waiter stands in the queue, or the length of the queue when it is not in it. */
  function Position(queue: seq<Waiter>, id: nat, from: nat): (i: nat)
    requires from <= |queue|
    ensures i <= |queue|
    decreases |queue| - from
  {
    if from == |queue| || queue[from].id == id then from else Position(queue, id, from + 1)
  }

  function Removed(queue: seq<Waiter>, i: nat): seq<Waiter>
    requires i < |queue|
  {
    queue[..i] + queue[i + 1..]
  }

  function Step(c: Limits, s: State, e: Event): State {
    match e
    case Arrive(repo, late) =>
      var s1 := s.(next := s.next + 1);
      if late then s1.(settled := s1.settled[s.next := TimedOut])
      else if HasRoom(c, s, repo) then Start(s1, Waiter(s.next, repo))
      else if |s.queue| >= c.maxQueue then s1.(settled := s1.settled[s.next := Busy])
      else s1.(queue := s1.queue + [Waiter(s.next, repo)])
    case Complete(id) => if id in s.active then Pump(c, Freed(s, id), 0) else s
    case Deadline(id) =>
      var i := Position(s.queue, id, 0);
      if i == |s.queue| then s
      else s.(queue := Removed(s.queue, i), settled := s.settled[id := TimedOut])
  }

  function Run(c: Limits, es: seq<Event>): State {
    if es == [] then INITIAL else Step(c, Run(c, es[..|es| - 1]), es[|es| - 1])
  }

  // ---- Invariants ----

  ghost function TasksOf(active: map<nat, Repo>, repo: Repo): set<nat> {
    set id | id in active && active[id] == repo
  }

  ghost predicate RepoCounted(c: Limits, perRepo: map<Repo, nat>, active: map<nat, Repo>, repo: Repo) {
    && Load(perRepo, repo) == |TasksOf(active, repo)| <= c.maxPerRepo
    && (repo in perRepo ==> perRepo[repo] > 0)
  }

  /** Both counters count the active tasks, and stay under the caps. */
  ghost predicate Counted(c: Limits, running: nat, perRepo: map<Repo, nat>, active: map<nat, Repo>) {
    running == |active| <= c.maxGit && forall repo :: RepoCounted(c, perRepo, active, repo)
  }

  ghost predicate Sorted(queue: seq<Waiter>, next: nat) {
    && (forall i, j :: 0 <= i < j < |queue| ==> queue[i].id < queue[j].id)
    && (forall i :: 0 <= i < |queue| ==> queue[i].id < next)
  }

  /** Within a repository, tasks started in arrival order and before everyone still queued. */
  ghost predicate InOrder(queue: seq<Waiter>, started: seq<Waiter>, next: nat) {
    && (forall i, j :: 0 <= i < j < |started| && started[i].repo == started[j].repo ==>
          started[i].id < started[j].id)
    && (forall i, j :: 0 <= i < |started| && 0 <= j < |queue| && started[i].repo == queue[j].repo ==>
          started[i].id < queue[j].id)
    && (forall i :: 0 <= i < |started| ==> started[i].id < next)
  }

  ghost function Ids(queue: seq<Waiter>): set<nat> { set w | w in queue :: w.id }

  /** Every call is waiting, running or settled, and never two of them. */
  ghost predicate OnePlace(queue: set<nat>, active: set<nat>, settled: set<nat>, next: nat) {
    && queue !! active && queue !! settled && active !! settled
    && (forall id :: (id in queue || id in active || id in settled) <==> 0 <= id < next)
  }

  ghost predicate Sound(c: Limits, s: State) {
    && |s.queue| <= c.maxQueue
    && Counted(c, s.running, s.perRepo, s.active)
    && Sorted(s.queue, s.next) && InOrder(s.queue, s.started, s.next)
    && OnePlace(Ids(s.queue), s.active.Keys, s.settled.Keys, s.next)
  }

  ghost predicate Blocked(c: Limits, s: State, i: nat)
    requires i < |s.queue|
  {
    Load(s.perRepo, s.queue[i].repo) >= c.maxPerRepo
  }

  /** Work conservation: nobody waits who could run. */
  ghost predicate Saturated(c: Limits, s: State) {
    s.running < c.maxGit ==> forall i :: 0 <= i < |s.queue| ==> Blocked(c, s, i)
  }

  ghost predicate Inv(c: Limits, s: State) { Sound(c, s) && Saturated(c, s) }

  lemma TasksAfterStart(active: map<nat, Repo>, w: Waiter, repo: Repo)
    requires w.id !in active
    ensures |TasksOf(active[w.id := w.repo], repo)| == |TasksOf(active, repo)| + if repo == w.repo then 1 else 0
  {
    assert TasksOf(active[w.id := w.repo], repo) == TasksOf(active, repo) + if repo == w.repo then {w.id} else {};
  }

  lemma StartCounted(c: Limits, s: State, w: Waiter)
    requires Counted(c, s.running, s.perRepo, s.active) && w.id !in s.active && HasRoom(c, s, w.repo)
    ensures Counted(c, Start(s, w).running, Start(s, w).perRepo, Start(s, w).active)
  {
    var perRepo', active' := Start(s, w).perRepo, Start(s, w).active;
    assert active'.Keys == s.active.Keys + {w.id};
    forall repo
      ensures RepoCounted(c, perRepo', active', repo)
    {
      assert RepoCounted(c, s.perRepo, s.active, repo);
      TasksAfterStart(s.active, w, repo);
    }
  }

  lemma FreedCounted(c: Limits, s: State, id: nat)
    requires Counted(c, s.running, s.perRepo, s.active) && id in s.active
    ensures s.running > 0 && Load(s.perRepo, s.active[id]) > 0
    ensures Counted(c, Freed(s, id).running, Freed(s, id).perRepo, Freed(s, id).active)
  {
    var s', repo' := Freed(s, id), s.active[id];
    assert s'.active.Keys == s.active.Keys - {id};
    assert RepoCounted(c, s.perRepo, s.active, repo') && id in TasksOf(s.active, repo');
    forall repo
      ensures RepoCounted(c, s'.perRepo, s'.active, repo)
    {
      assert RepoCounted(c, s.perRepo, s.active, repo);
      assert TasksOf(s'.active, repo) == TasksOf(s.active, repo) - if repo == repo' then {id} else {};
    }
  }

  /** Taking one waiter out of the queue leaves the others in place and takes exactly its id. */
  lemma RemoveAt(queue: seq<Waiter>, i: nat, queue': seq<Waiter>, next: nat)
    requires i < |queue| && queue' == Removed(queue, i) && Sorted(queue, next)
    ensures Sorted(queue', next) && Ids(queue') == Ids(queue) - {queue[i].id}
    ensures forall w :: w in queue' ==> w in queue
  {
    forall id | id in Ids(queue) - {queue[i].id}
      ensures id in Ids(queue')
    {
      var k :| 0 <= k < |queue| && queue[k].id == id;
      assert queue'[if k < i then k else k - 1] == queue[k];
    }
    forall k | 0 <= k < |queue'|
      ensures queue'[k] == queue[if k < i then k else k + 1]
    {}
  }

  lemma InOrderFewer(queue: seq<Waiter>, queue': seq<Waiter>, started: seq<Waiter>, next: nat)
    requires InOrder(queue, started, next) && forall w :: w in queue' ==> w in queue
    ensures InOrder(queue', started, next)
  {
    forall i, j | 0 <= i < |started| && 0 <= j < |queue'| && started[i].repo == queue'[j].repo
      ensures started[i].id < queue'[j].id
    {
      assert queue'[j] in queue';
      var k :| 0 <= k < |queue| && queue[k] == queue'[j];
      assert started[i].id < queue[k].id;
    }
  }

  /** The first waiter of its repository starts before the later ones and after the earlier starts. */
  lemma InOrderStart(queue: seq<Waiter>, i: nat, queue': seq<Waiter>, started: seq<Waiter>, next: nat)
    requires i < |queue| && queue' == Removed(queue, i) && Sorted(queue, next)
    requires InOrder(queue, started, next)
    requires forall k :: 0 <= k < i ==> queue[k].repo != queue[i].repo
    ensures InOrder(queue', started + [queue[i]], next)
  {
    forall k | 0 <= k < |queue'|
      ensures queue'[k] == queue[if k < i then k else k + 1]
    {}
    InOrderFewer(queue, queue', started, next);
  }

  lemma OnePlaceStart(queue: set<nat>, active: map<nat, Repo>, settled: set<nat>, next: nat, id: nat, repo: Repo)
    requires OnePlace(queue, active.Keys, settled, next) && id in queue
    ensures OnePlace(queue - {id}, active[id := repo].Keys, settled, next)
  {
    assert active[id := repo].Keys == active.Keys + {id};
  }

  /** Waiter `i` leaves the queue and starts; everyone else keeps their place. */
  lemma StartFromQueue(c: Limits, s: State, i: nat)
    requires Sound(c, s) && i < |s.queue| && HasRoom(c, s, s.queue[i].repo)
    requires forall k :: 0 <= k < i ==> s.queue[k].repo != s.queue[i].repo
    ensures Sound(c, Start(s.(queue := Removed(s.queue, i)), s.queue[i]))
  {
    var queue' := Removed(s.queue, i);
    RemoveAt(s.queue, i, queue', s.next);
    InOrderStart(s.queue, i, queue', s.started, s.next);
    assert s.queue[i].id in Ids(s.queue);
    OnePlaceStart(Ids(s.queue), s.active, s.settled.Keys, s.next, s.queue[i].id, s.queue[i].repo);
    StartCounted(c, s.(queue := queue'), s.queue[i]);
  }

  lemma StartKeepsBlocked(c: Limits, s: State, i: nat, k: nat)
    requires k < i < |s.queue| && Blocked(c, s, k)
    ensures Blocked(c, Start(s.(queue := Removed(s.queue, i)), s.queue[i]), k)
  {}

  /** A pass of the pump keeps the books and leaves nobody waiting who could run. */
  lemma {:induction false} PumpSaturates(c: Limits, s: State, i: nat)
    requires Sound(c, s) && i <= |s.queue|
    requires forall k :: 0 <= k < i ==> Blocked(c, s, k)
    ensures Inv(c, Pump(c, s, i))
    decreases |s.queue| - i
  {
    if i < |s.queue| && s.running < c.maxGit {
      if Blocked(c, s, i) {
        PumpSaturates(c, s, i + 1);
      } else {
        forall k | 0 <= k < i
          ensures s.queue[k].repo != s.queue[i].repo
          ensures Blocked(c, Start(s.(queue := Removed(s.queue, i)), s.queue[i]), k)
        {
          assert Blocked(c, s, k);
          StartKeepsBlocked(c, s, i, k);
        }
        StartFromQueue(c, s, i);
        PumpSaturates(c, Start(s.(queue := Removed(s.queue, i)), s.queue[i]), i);
      }
    }
  }

  lemma OnePlaceNew(queue: set<nat>, active: map<nat, Repo>, settled: map<nat, Outcome>, next: nat, repo: Repo,
                    o: Outcome)
    requires OnePlace(queue, active.Keys, settled.Keys, next)
    ensures OnePlace(queue, active[next := repo].Keys, settled.Keys, next + 1)
    ensures OnePlace(queue + {next}, active.Keys, settled.Keys, next + 1)
    ensures OnePlace(queue, active.Keys, settled[next := o].Keys, next + 1)
  {
    assert active[next := repo].Keys == active.Keys + {next};
    assert settled[next := o].Keys == settled.Keys + {next};
  }

  lemma ArriveStarts(c: Limits, s: State, repo: Repo)
    requires Inv(c, s) && HasRoom(c, s, repo)
    ensures Inv(c, Start(s.(next := s.next + 1), Waiter(s.next, repo)))
  {
    NobodyWaitsFor(c, s, repo);
    StartedSound(c, s, repo);
    StartedSaturated(c, s, repo);
  }

  lemma StartedSaturated(c: Limits, s: State, repo: Repo)
    requires Saturated(c, s) && forall i :: 0 <= i < |s.queue| ==> s.queue[i].repo != repo
    ensures Saturated(c, Start(s.(next := s.next + 1), Waiter(s.next, repo)))
  {
    StillSaturated(c, s, Start(s.(next := s.next + 1), Waiter(s.next, repo)));
  }

  lemma StartedSound(c: Limits, s: State, repo: Repo)
    requires Sound(c, s) && HasRoom(c, s, repo)
    requires forall i :: 0 <= i < |s.queue| ==> s.queue[i].repo != repo
    ensures Sound(c, Start(s.(next := s.next + 1), Waiter(s.next, repo)))
  {
    var w := Waiter(s.next, repo);
    assert OnePlace(Ids(s.queue), s.active[s.next := repo].Keys, s.settled.Keys, s.next + 1) by {
      OnePlaceNew(Ids(s.queue), s.active, s.settled, s.next, repo, Ran);
    }
    StartCounted(c, s.(next := s.next + 1), w);
    StartedLast(s.queue, s.started, s.next, w);
  }

  /** When there is room for a repository at once, nobody of it is waiting. */
  lemma NobodyWaitsFor(c: Limits, s: State, repo: Repo)
    requires Saturated(c, s) && HasRoom(c, s, repo)
    ensures forall i :: 0 <= i < |s.queue| ==> s.queue[i].repo != repo
  {
    forall i | 0 <= i < |s.queue|
      ensures s.queue[i].repo != repo
    {
      assert Blocked(c, s, i);
    }
  }

  lemma StartedLast(queue: seq<Waiter>, started: seq<Waiter>, next: nat, w: Waiter)
    requires Sorted(queue, next) && InOrder(queue, started, next) && w.id == next
    requires forall i :: 0 <= i < |queue| ==> queue[i].repo != w.repo
    ensures Sorted(queue, next + 1) && InOrder(queue, started + [w], next + 1)
  {}

  lemma QueuedLast(queue: seq<Waiter>, started: seq<Waiter>, next: nat, w: Waiter)
    requires Sorted(queue, next) && InOrder(queue, started, next) && w.id == next
    ensures Sorted(queue + [w], next + 1) && InOrder(queue + [w], started, next + 1)
  {}

  lemma OneCallMore(queue: seq<Waiter>, started: seq<Waiter>, next: nat)
    requires Sorted(queue, next) && InOrder(queue, started, next)
    ensures Sorted(queue, next + 1) && InOrder(queue, started, next + 1)
  {}

  /** Starting tasks only takes room away, so whoever was blocked stays so. */
  lemma StillSaturated(c: Limits, s: State, s': State)
    requires Saturated(c, s) && s'.queue == s.queue && s'.running >= s.running
    requires forall i :: 0 <= i < |s.queue| ==> Load(s'.perRepo, s.queue[i].repo) == Load(s.perRepo, s.queue[i].repo)
    ensures Saturated(c, s')
  {
    if s'.running < c.maxGit {
      forall i | 0 <= i < |s.queue|
        ensures Blocked(c, s', i)
      {
        assert Blocked(c, s, i);
      }
    }
  }

  lemma IdsGrow(queue: seq<Waiter>, w: Waiter)
    ensures Ids(queue + [w]) == Ids(queue) + {w.id}
  {
    forall id | id in Ids(queue) + {w.id}
      ensures id in Ids(queue + [w])
    {
      if id in Ids(queue) {
        var v :| v in queue && v.id == id;
        assert v in queue + [w];
      } else {
        assert w in queue + [w];
      }
    }
  }

  lemma ArriveWaits(c: Limits, s: State, repo: Repo)
    requires Inv(c, s) && !HasRoom(c, s, repo)
    ensures Inv(c, Step(c, s, Arrive(repo, false)))
  {
    var w := Waiter(s.next, repo);
    OnePlaceNew(Ids(s.queue), s.active, s.settled, s.next, repo, Busy);
    if |s.queue| < c.maxQueue {
      QueuedKeeps(c, s, w);
    } else {
      RefusedKeeps(c, s, w, Busy);
    }
  }

  lemma QueuedKeeps(c: Limits, s: State, w: Waiter)
    requires Inv(c, s) && !HasRoom(c, s, w.repo) && |s.queue| < c.maxQueue && w.id == s.next
    requires OnePlace(Ids(s.queue) + {s.next}, s.active.Keys, s.settled.Keys, s.next + 1)
    ensures Inv(c, s.(next := s.next + 1, queue := s.queue + [w]))
  {
    var s' := s.(next := s.next + 1, queue := s.queue + [w]);
    IdsGrow(s.queue, w);
    QueuedLast(s.queue, s.started, s.next, w);
    assert Sound(c, s');
    if s.running < c.maxGit {
      forall i | 0 <= i < |s'.queue|
        ensures Blocked(c, s', i)
      {
        if i < |s.queue| { assert Blocked(c, s, i); }
      }
    }
  }

  lemma RefusedKeeps(c: Limits, s: State, w: Waiter, o: Outcome)
    requires Inv(c, s) && w.id == s.next
    requires OnePlace(Ids(s.queue), s.active.Keys, s.settled[s.next := o].Keys, s.next + 1)
    ensures Inv(c, s.(next := s.next + 1, settled := s.settled[s.next := o]))
  {
    var s' := s.(next := s.next + 1, settled := s.settled[s.next := o]);
    OneCallMore(s.queue, s.started, s.next);
    assert Sound(c, s');
    StillSaturated(c, s, s');
  }

  lemma {:induction false} PositionFinds(queue: seq<Waiter>, id: nat, from: nat)
    requires from <= |queue|
    ensures from <= Position(queue, id, from)
    ensures Position(queue, id, from) < |queue| ==> queue[Position(queue, id, from)].id == id
    ensures forall k :: from <= k < Position(queue, id, from) ==> queue[k].id != id
    decreases |queue| - from
  {
    if from < |queue| && queue[from].id != id { PositionFinds(queue, id, from + 1); }
  }

  lemma DeadlineKeeps(c: Limits, s: State, id: nat)
    requires Inv(c, s)
    ensures Inv(c, Step(c, s, Deadline(id)))
  {
    var s', i := Step(c, s, Deadline(id)), Position(s.queue, id, 0);
    PositionFinds(s.queue, id, 0);
    if i < |s.queue| {
      RemoveAt(s.queue, i, s'.queue, s.next);
      InOrderFewer(s.queue, s'.queue, s.started, s.next);
      assert id in Ids(s.queue);
      RemovedSaturated(c, s, s', i);
    }
  }

  lemma RemovedSaturated(c: Limits, s: State, s': State, i: nat)
    requires Saturated(c, s) && i < |s.queue| && s'.queue == Removed(s.queue, i)
    requires s'.running == s.running && s'.perRepo == s.perRepo
    ensures Saturated(c, s')
  {
    if s.running < c.maxGit {
      forall k | 0 <= k < |s'.queue|
        ensures Blocked(c, s', k)
      {
        assert Blocked(c, s, if k < i then k else k + 1);
      }
    }
  }

  lemma CompleteKeeps(c: Limits, s: State, id: nat)
    requires Inv(c, s) && id in s.active
    ensures Inv(c, Pump(c, Freed(s, id), 0))
  {
    FreedCounted(c, s, id);
    PumpSaturates(c, Freed(s, id), 0);
  }

  lemma StepKeepsInv(c: Limits, s: State, e: Event)
    requires Inv(c, s)
    ensures Inv(c, Step(c, s, e))
  {
    match e
    case Arrive(repo, late) =>
      if late {
        OnePlaceNew(Ids(s.queue), s.active, s.settled, s.next, repo, TimedOut);
        RefusedKeeps(c, s, Waiter(s.next, repo), TimedOut);
      }
      else if HasRoom(c, s, repo) { ArriveStarts(c, s, repo); }
      else { ArriveWaits(c, s, repo); }
    case Complete(id) => if id in s.active { CompleteKeeps(c, s, id); }
    case Deadline(id) => DeadlineKeeps(c, s, id);
  }

  lemma {:induction false} RunKeepsInv(c: Limits, es: seq<Event>)
    ensures Inv(c, Run(c, es))
  {
    if es != [] {
      RunKeepsInv(c, es[..|es| - 1]);
      StepKeepsInv(c, Run(c, es[..|es| - 1]), es[|es| - 1]);
    } else {
      assert forall repo :: TasksOf(map[], repo) == {};
    }
  }

  // ---- What the gate promises, over every run ----

  ghost function Sum(m: map<Repo, nat>): nat
    decreases |m|
  {
    if m == map[] then 0 else
    var repo :| repo in m;
    m[repo] + Sum(m - {repo})
  }

  /** Summing per repository counts every active task once. */
  lemma {:induction false} SumCountsTasks(perRepo: map<Repo, nat>, active: map<nat, Repo>)
    requires forall repo :: Load(perRepo, repo) == |TasksOf(active, repo)|
    ensures Sum(perRepo) == |active|
    decreases |perRepo|
  {
    if perRepo == map[] {
      assert forall id :: id in active ==> id in TasksOf(active, active[id]);
      assert active == map[];
    } else {
      var repo :| repo in perRepo && Sum(perRepo) == perRepo[repo] + Sum(perRepo - {repo});
      var others := map id | id in active && active[id] != repo :: active[id];
      assert active.Keys == others.Keys + TasksOf(active, repo);
      forall r
        ensures Load(perRepo - {repo}, r) == |TasksOf(others, r)|
      {
        assert TasksOf(others, r) == if r == repo then {} else TasksOf(active, r);
      }
      SumCountsTasks(perRepo - {repo}, others);
    }
  }

  /** Both caps, the queue bound and the books hold at every moment of every run. */
  lemma CapsHold(c: Limits, es: seq<Event>)
    ensures Run(c, es).running == Sum(Run(c, es).perRepo) == |Run(c, es).active| <= c.maxGit
    ensures |Run(c, es).queue| <= c.maxQueue
    ensures forall repo :: |TasksOf(Run(c, es).active, repo)| == Load(Run(c, es).perRepo, repo) <= c.maxPerRepo
    ensures forall i :: 0 <= i < |Run(c, es).queue| ==> !HasRoom(c, Run(c, es), Run(c, es).queue[i].repo)
  {
    RunKeepsInv(c, es);
    var s := Run(c, es);
    forall repo
      ensures |TasksOf(s.active, repo)| == Load(s.perRepo, repo) <= c.maxPerRepo
    {
      assert RepoCounted(c, s.perRepo, s.active, repo);
    }
    SumCountsTasks(s.perRepo, s.active);
    assert forall i :: 0 <= i < |s.queue| && Blocked(c, s, i) ==> !HasRoom(c, s, s.queue[i].repo);
  }

  /** Tasks of one repository start in the order they were scheduled. */
  lemma StartsInArrivalOrder(c: Limits, es: seq<Event>, i: nat, j: nat)
    requires i < j < |Run(c, es).started| && Run(c, es).started[i].repo == Run(c, es).started[j].repo
    ensures Run(c, es).started[i].id < Run(c, es).started[j].id
  {
    RunKeepsInv(c, es);
  }

  /** The immediate start overtakes nobody: no waiter of that repository, and no waiter that could run. */
  lemma FastPathOvertakesNone(c: Limits, es: seq<Event>, repo: Repo, i: nat)
    requires HasRoom(c, Run(c, es), repo) && i < |Run(c, es).queue|
    ensures Run(c, es).queue[i].repo != repo && !HasRoom(c, Run(c, es), Run(c, es).queue[i].repo)
  {
    RunKeepsInv(c, es);
    assert Blocked(c, Run(c, es), i);
  }

  lemma StepKeepsSettled(c: Limits, s: State, e: Event, id: nat)
    requires Inv(c, s) && id in s.settled
    ensures id in Step(c, s, e).settled && Step(c, s, e).settled[id] == s.settled[id]
  {
    match e
    case Arrive(_, _) => assert id < s.next;
    case Complete(k) => if k in s.active { PumpFrame(c, Freed(s, k), 0); }
    case Deadline(k) =>
      PositionFinds(s.queue, k, 0);
      assert Position(s.queue, k, 0) < |s.queue| ==> k in Ids(s.queue);
  }

  /** Once settled, a call keeps its answer, whatever happens later. */
  lemma SettledForGood(c: Limits, es: seq<Event>, e: Event, id: nat)
    requires id in Run(c, es).settled
    ensures id in Run(c, es + [e]).settled && Run(c, es + [e]).settled[id] == Run(c, es).settled[id]
  {
    RunKeepsInv(c, es);
    assert (es + [e])[..|es|] == es;
    StepKeepsSettled(c, Run(c, es), e, id);
  }

  lemma {:induction false} PumpFrame(c: Limits, s: State, i: nat)
    ensures Pump(c, s, i).settled == s.settled && Pump(c, s, i).next == s.next
    ensures s.started <= Pump(c, s, i).started
    ensures |Pump(c, s, i).started| + |Pump(c, s, i).queue| == |s.started| + |s.queue|
    decreases |s.queue| - i
  {
    if i < |s.queue| && s.running < c.maxGit {
      if Load(s.perRepo, s.queue[i].repo) >= c.maxPerRepo {
        PumpFrame(c, s, i + 1);
      } else {
        PumpFrame(c, Start(s.(queue := Removed(s.queue, i)), s.queue[i]), i);
      }
    }
  }

  /** Every call is in exactly one place, so no call is lost, answered twice or run twice. */
  lemma EveryCallInOnePlace(c: Limits, es: seq<Event>)
    ensures OnePlace(Ids(Run(c, es).queue), Run(c, es).active.Keys, Run(c, es).settled.Keys, Run(c, es).next)
  {
    RunKeepsInv(c, es);
  }

  // ---- What one event does ----

  /** Nothing but the queue and the answers has changed. */
  ghost predicate SameTasks(s: State, t: State) {
    t.running == s.running && t.perRepo == s.perRepo && t.active == s.active && t.started == s.started
  }

  /** `id` is out of the queue, and everybody else in it keeps their place and order. */
  ghost predicate LeftAlone(before: seq<Waiter>, after: seq<Waiter>, id: nat) {
    exists i :: 0 <= i < |before| && before[i].id == id && after == before[..i] + before[i + 1..]
  }

  /** A deadline answers exactly the call that still waits: it leaves the queue with `timeout`. */
  lemma DeadlineMeans(c: Limits, s: State, id: nat)
    requires Inv(c, s)
    ensures
      var t := Step(c, s, Deadline(id));
      && SameTasks(s, t) && t.next == s.next
      && (id in Ids(s.queue) ==>
            id !in Ids(t.queue) && LeftAlone(s.queue, t.queue, id) && t.settled == s.settled[id := TimedOut])
      && (id !in Ids(s.queue) ==> t == s)
  {
    var t, i := Step(c, s, Deadline(id)), Position(s.queue, id, 0);
    PositionFinds(s.queue, id, 0);
    if i < |s.queue| {
      RemoveAt(s.queue, i, t.queue, s.next);
      assert s.queue[i] in s.queue;
    }
  }

  /** A call that arrives is late, runs, is refused or waits, by the tasks and waiters there are. */
  lemma ArrivalMeans(c: Limits, s: State, repo: Repo, late: bool)
    requires Inv(c, s)
    ensures
      var t := Step(c, s, Arrive(repo, late));
      var room := |s.active| < c.maxGit && |TasksOf(s.active, repo)| < c.maxPerRepo;
      && t.next == s.next + 1
      && (if late then t.settled == s.settled[s.next := TimedOut] && t.queue == s.queue && SameTasks(s, t)
          else if room then t.settled == s.settled && t.queue == s.queue && t.active == s.active[s.next := repo] &&
                            t.started == s.started + [Waiter(s.next, repo)]
          else if |s.queue| < c.maxQueue then t.settled == s.settled && SameTasks(s, t) &&
                                              t.queue == s.queue + [Waiter(s.next, repo)]
          else t.settled == s.settled[s.next := Busy] && t.queue == s.queue && SameTasks(s, t))
  {
    assert RepoCounted(c, s.perRepo, s.active, repo);
  }

  lemma PumpOnlyFills(c: Limits, s: State, i: nat, repo: Repo)
    ensures Load(Pump(c, s, i).perRepo, repo) >= Load(s.perRepo, repo)
    ensures forall w :: w in Pump(c, s, i).queue ==> w in s.queue
    decreases |s.queue| - i
  {
    if i < |s.queue| && s.running < c.maxGit {
      if Load(s.perRepo, s.queue[i].repo) >= c.maxPerRepo {
        PumpOnlyFills(c, s, i + 1, repo);
      } else {
        PumpOnlyFills(c, Start(s.(queue := Removed(s.queue, i)), s.queue[i]), i, repo);
      }
    }
  }

  /** Whoever is passed by while a later call starts belongs to a repository that is at its cap. */
  ghost predicate PassedFairly(c: Limits, before: seq<Waiter>, t: State) {
    forall v, w :: v in before && v.id in t.active && w in t.queue && w.id < v.id ==>
      Load(t.perRepo, w.repo) >= c.maxPerRepo
  }

  lemma TakenOut(s: State, i: nat, s1: State)
    requires Sorted(s.queue, s.next) && Ids(s.queue) !! s.active.Keys && i < |s.queue|
    requires s1 == Start(s.(queue := Removed(s.queue, i)), s.queue[i])
    ensures Sorted(s1.queue, s1.next) && Ids(s1.queue) !! s1.active.Keys
    ensures |s1.queue| == |s.queue| - 1 && |s1.active| == |s.active| + 1
  {
    var w := s.queue[i];
    RemoveAt(s.queue, i, s1.queue, s.next);
    assert w.id in Ids(s.queue);
    OneMore(s.active, w.id, w.repo);
  }

  lemma OneMore(active: map<nat, Repo>, id: nat, repo: Repo)
    requires id !in active
    ensures active[id := repo].Keys == active.Keys + {id} && |active[id := repo]| == |active| + 1
  {}

  lemma StayBlocked(c: Limits, s: State, i: nat, s1: State)
    requires i < |s.queue| && s1 == Start(s.(queue := Removed(s.queue, i)), s.queue[i])
    requires forall k :: 0 <= k < i ==> Blocked(c, s, k)
    ensures forall k :: 0 <= k < i ==> Blocked(c, s1, k)
  {
    forall k | 0 <= k < i
      ensures Blocked(c, s1, k)
    {
      assert Blocked(c, s, k);
      StartKeepsBlocked(c, s, i, k);
    }
  }

  lemma PumpPassesFairly(c: Limits, s: State, i: nat)
    requires Sorted(s.queue, s.next) && Ids(s.queue) !! s.active.Keys && i <= |s.queue|
    requires forall k :: 0 <= k < i ==> Blocked(c, s, k)
    ensures PassedFairly(c, s.queue, Pump(c, s, i))
    decreases |s.queue| - i
  {
    if i < |s.queue| && s.running < c.maxGit && Blocked(c, s, i) {
      PumpPassesFairly(c, s, i + 1);
    } else if i < |s.queue| && s.running < c.maxGit {
      var s1 := Start(s.(queue := Removed(s.queue, i)), s.queue[i]);
      TakenOut(s, i, s1);
      StayBlocked(c, s, i, s1);
      PumpPassesFairly(c, s1, i);
      PassedByStart(c, s, s1, i);
    } else {
      assert forall v :: v in s.queue ==> v.id in Ids(s.queue);
    }
  }

  lemma OthersRemain(queue: seq<Waiter>, i: nat, v: Waiter)
    requires i < |queue| && v in queue && v != queue[i]
    ensures v in Removed(queue, i)
  {
    var m :| 0 <= m < |queue| && queue[m] == v;
    assert Removed(queue, i)[if m < i then m else m - 1] == v;
  }

  lemma PassedByFirst(c: Limits, s: State, s1: State, i: nat, w: Waiter)
    requires Sorted(s.queue, s.next) && i < |s.queue| && forall k :: 0 <= k < i ==> Blocked(c, s, k)
    requires s1 == Start(s.(queue := Removed(s.queue, i)), s.queue[i])
    requires w in Pump(c, s1, i).queue && w.id < s.queue[i].id
    ensures Load(Pump(c, s1, i).perRepo, w.repo) >= c.maxPerRepo
  {
    PumpOnlyFills(c, s1, i, w.repo);
    var k :| 0 <= k < |s1.queue| && s1.queue[k] == w;
    assert w == s.queue[if k < i then k else k + 1];
    assert Blocked(c, s, k);
  }

  lemma PassedByStart(c: Limits, s: State, s1: State, i: nat)
    requires Sorted(s.queue, s.next) && i < |s.queue| && forall k :: 0 <= k < i ==> Blocked(c, s, k)
    requires s1 == Start(s.(queue := Removed(s.queue, i)), s.queue[i]) && PassedFairly(c, s1.queue, Pump(c, s1, i))
    ensures PassedFairly(c, s.queue, Pump(c, s1, i))
  {
    var t := Pump(c, s1, i);
    forall v, w | v in s.queue && v.id in t.active && w in t.queue && w.id < v.id
      ensures Load(t.perRepo, w.repo) >= c.maxPerRepo
    {
      if v == s.queue[i] {
        PassedByFirst(c, s, s1, i, w);
      } else {
        OthersRemain(s.queue, i, v);
      }
    }
  }

  /**
   * A completion settles its call as run and frees one slot. Nobody is left waiting who could run, and
   * whoever was passed by belongs to a repository that is at its cap.
   */
  lemma CompletionMeans(c: Limits, s: State, id: nat)
    requires Inv(c, s) && id in s.active
    ensures
      var t := Step(c, s, Complete(id));
      && t.settled == s.settled[id := Ran] && t.next == s.next
      && |t.queue| + |t.active| == |s.queue| + |s.active| - 1
      && (forall i :: 0 <= i < |t.queue| ==> !HasRoom(c, t, t.queue[i].repo))
      && PassedFairly(c, s.queue, t)
  {
    CompletionSettles(c, s, id);
    CompleteKeeps(c, s, id);
    var t := Step(c, s, Complete(id));
    assert forall i :: 0 <= i < |t.queue| && Blocked(c, t, i) ==> !HasRoom(c, t, t.queue[i].repo);
    assert (s.active - {id}).Keys <= s.active.Keys;
    PumpPassesFairly(c, Freed(s, id), 0);
  }

  // ---- The gate always drains ----

  /** With caps above zero, somebody runs whenever somebody waits. */
  lemma SomebodyRuns(c: Limits, s: State)
    requires Inv(c, s) && c.maxGit > 0 && c.maxPerRepo > 0 && s.queue != []
    ensures s.active != map[]
  {
    var tasks := TasksOf(s.active, s.queue[0].repo);
    assert RepoCounted(c, s.perRepo, s.active, s.queue[0].repo);
    if s.running < c.maxGit {
      assert Blocked(c, s, 0) && tasks != {};
      var id :| id in tasks;
      assert id in s.active;
    }
  }

  lemma {:induction false} PumpMoves(c: Limits, s: State, i: nat)
    requires Sorted(s.queue, s.next) && Ids(s.queue) !! s.active.Keys
    ensures |Pump(c, s, i).queue| + |Pump(c, s, i).active| == |s.queue| + |s.active|
    decreases |s.queue| - i
  {
    if i < |s.queue| && s.running < c.maxGit {
      if Load(s.perRepo, s.queue[i].repo) >= c.maxPerRepo {
        PumpMoves(c, s, i + 1);
      } else {
        var s1 := Start(s.(queue := Removed(s.queue, i)), s.queue[i]);
        TakenOut(s, i, s1);
        PumpMoves(c, s1, i);
      }
    }
  }

  /** A completion takes one call out of the waiting and the running, and settles it as run. */
  lemma CompletionSettles(c: Limits, s: State, id: nat)
    requires Inv(c, s) && id in s.active
    ensures
      var t := Step(c, s, Complete(id));
      |t.queue| + |t.active| == |s.queue| + |s.active| - 1 && t.settled == s.settled[id := Ran] && t.next == s.next
  {
    var f := Freed(s, id);
    assert f.active.Keys == s.active.Keys - {id};
    PumpMoves(c, f, 0);
    PumpFrame(c, f, 0);
  }

  ghost predicate InGate(s: State, id: nat) { id in Ids(s.queue) || id in s.active }

  lemma {:induction false} SettledThroughout(c: Limits, es: seq<Event>, more: seq<Event>, id: nat)
    requires id in Run(c, es).settled
    ensures id in Run(c, es + more).settled && Run(c, es + more).settled[id] == Run(c, es).settled[id]
  {
    if more == [] {
      assert es + more == es;
    } else {
      var front, last := more[..|more| - 1], more[|more| - 1];
      assert es + more == es + front + [last];
      SettledThroughout(c, es, front, id);
      SettledForGood(c, es + front, last, id);
    }
  }

  lemma StaysOrRan(c: Limits, s: State, id: nat, other: nat)
    requires Inv(c, s) && id in s.active && InGate(s, other)
    ensures other == id || InGate(Step(c, s, Complete(id)), other)
  {
    CompletionSettles(c, s, id);
    StepKeepsInv(c, s, Complete(id));
  }

  /** After `more` the gate is empty, and every call that was in it has run. */
  ghost predicate Drained(c: Limits, es: seq<Event>, more: seq<Event>) {
    && Run(c, es + more).queue == [] && Run(c, es + more).active == map[]
    && forall id :: InGate(Run(c, es), id) ==>
         id in Run(c, es + more).settled && Run(c, es + more).settled[id] == Ran
  }

  lemma DrainedSooner(c: Limits, es: seq<Event>, id: nat, rest: seq<Event>)
    requires id in Run(c, es).active && Drained(c, es + [Complete(id)], rest)
    ensures Drained(c, es, [Complete(id)] + rest)
  {
    var s, next := Run(c, es), es + [Complete(id)];
    RunKeepsInv(c, es);
    assert next[..|es|] == es;
    CompletionSettles(c, s, id);
    assert es + ([Complete(id)] + rest) == next + rest;
    SettledThroughout(c, next, rest, id);
    forall other | InGate(s, other)
      ensures other == id || InGate(Run(c, next), other)
    {
      StaysOrRan(c, s, id, other);
    }
  }

  lemma CompletionShrinks(c: Limits, es: seq<Event>, id: nat)
    requires id in Run(c, es).active
    ensures
      var s, t := Run(c, es), Run(c, es + [Complete(id)]);
      |t.queue| + |t.active| == |s.queue| + |s.active| - 1
  {
    RunKeepsInv(c, es);
    assert (es + [Complete(id)])[..|es|] == es;
    CompletionSettles(c, Run(c, es), id);
  }

  /**
   * From every moment of every run, with caps above zero, completions alone empty the gate, as many as
   * there are calls in it, and every call that waited or ran then has run.
   */
  lemma {:induction false} GateDrains(c: Limits, es: seq<Event>) returns (more: seq<Event>)
    requires c.maxGit > 0 && c.maxPerRepo > 0
    ensures forall k :: 0 <= k < |more| ==> more[k].Complete?
    ensures |more| == |Run(c, es).queue| + |Run(c, es).active|
    ensures Drained(c, es, more)
    decreases |Run(c, es).queue| + |Run(c, es).active|
  {
    var s := Run(c, es);
    RunKeepsInv(c, es);
    if s.queue != [] { SomebodyRuns(c, s); }
    if s.active == map[] {
      more := [];
      assert es + more == es;
    } else {
      var id :| id in s.active;
      CompletionShrinks(c, es, id);
      var rest := GateDrains(c, es + [Complete(id)]);
      more := [Complete(id)] + rest;
      DrainedSooner(c, es, id, rest);
    }
  }

  lemma NewCall(c: Limits, s: State)
    requires Inv(c, s)
    ensures s.next !in s.settled && s.next !in s.active && s.next !in Ids(s.queue)
  {}

  // ---- The gate itself ----

  class ProcessGate {
    const limits: Limits
    var running: nat
    var perRepo: map<Repo, nat>
    var queue: seq<Waiter>
    ghost var next: nat
    ghost var active: map<nat, Repo>
    ghost var started: seq<Waiter>
    ghost var settled: map<nat, Outcome>
    /** Everything that happened so far. */
    ghost var history: seq<Event>

    ghost function Contents(): State
      reads this
    {
      State(running, perRepo, queue, next, active, started, settled)
    }

    /** The gate is what its history makes of a fresh one, so its books are in order. */
    ghost predicate Valid()
      reads this
    {
      Contents() == Run(limits, history) && Inv(limits, Contents())
    }

    constructor (limits: Limits)
      ensures Valid() && this.limits == limits && history == [] && Contents() == INITIAL
    {
      this.limits := limits;
      running, perRepo, queue := 0, map[], [];
      next, active, started, settled, history := 0, map[], [], map[], [];
      new;
      RunKeepsInv(limits, []);
    }

    ghost method Record(was: State, e: Event)
      requires was == Run(limits, history) && Contents() == Step(limits, was, e)
      modifies this`history
      ensures Valid() && history == old(history) + [e]
    {
      assert (history + [e])[..|history|] == history;
      history := history + [e];
      RunKeepsInv(limits, history);
    }

    method StartTask(id: nat, repo: Repo)
      modifies this`running, this`perRepo, this`queue, this`next, this`active, this`started, this`settled
      ensures Contents() == Start(old(Contents()), Waiter(id, repo))
    {
      running := running + 1;
      perRepo := perRepo[repo := (if repo in perRepo then perRepo[repo] else 0) + 1];
      active, started := active[id := repo], started + [Waiter(id, repo)];
    }

    method PumpQueue()
      modifies this`running, this`perRepo, this`queue, this`next, this`active, this`started, this`settled
      ensures Contents() == Pump(limits, old(Contents()), 0)
    {
      var i := 0;
      while i < |queue| && running < limits.maxGit
        invariant Pump(limits, Contents(), i) == Pump(limits, old(Contents()), 0)
        decreases |queue| - i
      {
        var w := queue[i];
        if (if w.repo in perRepo then perRepo[w.repo] else 0) >= limits.maxPerRepo {
          i := i + 1;
        } else {
          queue := Removed(queue, i);
          StartTask(w.id, w.repo);
        }
      }
    }

    /** `schedule`: start at once, wait, or answer `busy` or `timeout` on the spot. */
    method Schedule(repo: Repo, late: bool, id: nat) returns (answer: Option<Outcome>)
      requires Valid() && id == next
      modifies this
      ensures Valid() && history == old(history) + [Arrive(repo, late)]
      ensures Contents() == Step(limits, old(Contents()), Arrive(repo, late))
      ensures answer == if id in settled then Some(settled[id]) else None
      ensures
        var room := |old(active)| < limits.maxGit && |TasksOf(old(active), repo)| < limits.maxPerRepo;
        && settled == (if late then old(settled)[id := TimedOut]
                       else if !room && |old(queue)| >= limits.maxQueue then old(settled)[id := Busy]
                       else old(settled))
        && active == (if !late && room then old(active)[id := repo] else old(active))
        && queue == old(queue) + (if late || room || |old(queue)| >= limits.maxQueue then [] else [Waiter(id, repo)])
    {
      ghost var was := Contents();
      ArrivalMeans(limits, Contents(), repo, late);
      NewCall(limits, Contents());
      answer := Admit(repo, late, id);
      Record(was, Arrive(repo, late));
    }

    method Admit(repo: Repo, late: bool, id: nat) returns (answer: Option<Outcome>)
      requires id == next
      modifies this`running, this`perRepo, this`queue, this`next, this`active, this`started, this`settled
      ensures Contents() == Step(limits, old(Contents()), Arrive(repo, late))
      ensures answer == if late then Some(TimedOut)
                        else if old(!HasRoom(limits, Contents(), repo) && |queue| >= limits.maxQueue) then Some(Busy)
                        else None
    {
      next := next + 1;
      answer := None;
      if late {
        answer := Some(TimedOut);
        Answer(id, TimedOut);
      } else if running < limits.maxGit && (if repo in perRepo then perRepo[repo] else 0) < limits.maxPerRepo {
        StartTask(id, repo);
      } else if |queue| >= limits.maxQueue {
        answer := Some(Busy);
        Answer(id, Busy);
      } else {
        queue := queue + [Waiter(id, repo)];
      }
    }

    ghost method Answer(id: nat, outcome: Outcome)
      modifies this`settled
      ensures Contents() == old(Contents()).(settled := old(settled)[id := outcome])
    {
      settled := settled[id := outcome];
    }

    /** The task's `finally`: give the slot back and pump. */
    method Completed(id: nat, repo: Repo)
      requires Valid() && id in active && active[id] == repo
      modifies this
      ensures Valid() && history == old(history) + [Complete(id)]
      ensures Contents() == Step(limits, old(Contents()), Complete(id))
      ensures settled == old(settled)[id := Ran] && |queue| + |active| == |old(queue)| + |old(active)| - 1
      ensures forall i :: 0 <= i < |queue| ==> !HasRoom(limits, Contents(), queue[i].repo)
      ensures PassedFairly(limits, old(queue), Contents())
    {
      ghost var was := Contents();
      CompletionMeans(limits, Contents(), id);
      FreedCounted(limits, Contents(), id);
      GiveBack(id, repo);
      PumpQueue();
      Record(was, Complete(id));
    }

    method GiveBack(id: nat, repo: Repo)
      requires id in active && active[id] == repo && running > 0 && Load(perRepo, repo) > 0
      modifies this`running, this`perRepo, this`queue, this`next, this`active, this`started, this`settled
      ensures Contents() == Freed(old(Contents()), id)
    {
      running := running - 1;
      var n := (if repo in perRepo then perRepo[repo] else 1) - 1;
      if n <= 0 {
        perRepo := perRepo - {repo};
      } else {
        perRepo := perRepo[repo := n];
      }
      active, settled := active - {id}, settled[id := Ran];
    }

    /** The waiter's timer: leave the queue, if it is still in it, with `timeout`. */
    method Expire(id: nat)
      requires Valid()
      modifies this
      ensures Valid() && history == old(history) + [Deadline(id)]
      ensures Contents() == Step(limits, old(Contents()), Deadline(id))
      ensures SameTasks(old(Contents()), Contents())
      ensures id !in Ids(queue)
      ensures old(id in Ids(queue)) ==>
                LeftAlone(old(queue), queue, id) && settled == old(settled)[id := TimedOut]
      ensures old(id !in Ids(queue)) ==> queue == old(queue) && settled == old(settled)
    {
      ghost var was := Contents();
      DeadlineMeans(limits, Contents(), id);
      Leave(id);
      Record(was, Deadline(id));
    }

    method Leave(id: nat)
      modifies this`running, this`perRepo, this`queue, this`next, this`active, this`started, this`settled
      ensures Contents() == Step(limits, old(Contents()), Deadline(id))
    {
      var i := Position(queue, id, 0);
      if i < |queue| {
        queue := Removed(queue, i);
        settled := settled[id := TimedOut];
      }
    }
  }
}
