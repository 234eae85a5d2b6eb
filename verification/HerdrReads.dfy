/**
 * Pane reads in flight, shared between callers, and the writes that make them stale; and the line
 * framing of the event stream.
 */
module HerdrReads {
  import opened Texts

  // ---- Shared reads ----

  type PaneId = string

  const NUL := '\0'

  predicate NulFree(pane: PaneId) { NUL !in pane }

  /** The map key of a read: pane id, NUL, and the shape of the read (source, line count, format). */
  function Key(pane: PaneId, shape: string): string { pane + [NUL] + shape }

  /** One `pane.read` round trip. `sentAt` is the index of the event that sent it. */
  datatype Request = Request(pane: PaneId, shape: string, sentAt: nat, settled: bool)

  datatype State = State(inFlight: map<string, nat>, requests: seq<Request>, now: nat)

  datatype Event =
    | Read(pane: PaneId, shape: string)
    | ReadSettles(r: nat)
    | WriteBegins(pane: PaneId)
    | WriteSettles(pane: PaneId)

  const INITIAL := State(map[], [], 0)

  function ForgetReads(inFlight: map<string, nat>, pane: PaneId): map<string, nat> {
    map k | k in inFlight && !StartsWith(k, pane + [NUL]) :: inFlight[k]
  }

  /** The request a read asked for now is answered by: the one in flight, or a new one. */
  function Answer(s: State, pane: PaneId, shape: string): nat {
    if Key(pane, shape) in s.inFlight then s.inFlight[Key(pane, shape)] else |s.requests|
  }

  function Act(s: State, e: Event): State {
    match e
    case Read(pane, shape) =>
      var key := Key(pane, shape);
      if key in s.inFlight then s
      else s.(inFlight := s.inFlight[key := |s.requests|],
              requests := s.requests + [Request(pane, shape, s.now, false)])
    case ReadSettles(r) =>
      if r >= |s.requests| || s.requests[r].settled then s else
      var q := s.requests[r];
      var key := Key(q.pane, q.shape);
      s.(requests := s.requests[r := q.(settled := true)],
         inFlight := if key in s.inFlight && s.inFlight[key] == r then s.inFlight - {key} else s.inFlight)
    case WriteBegins(pane) => s.(inFlight := ForgetReads(s.inFlight, pane))
    case WriteSettles(pane) => s.(inFlight := ForgetReads(s.inFlight, pane))
  }

  function Step(s: State, e: Event): State { Act(s, e).(now := s.now + 1) }

  function Run(es: seq<Event>): State {
    if es == [] then INITIAL else Step(Run(es[..|es| - 1]), es[|es| - 1])
  }

  predicate IsWrite(e: Event, pane: PaneId) {
    (e.WriteBegins? && e.pane == pane) || (e.WriteSettles? && e.pane == pane)
  }

  /** Herdr's pane ids hold no NUL, which is what keeps the keys of two panes apart. */
  predicate RealPanes(es: seq<Event>) {
    forall i :: 0 <= i < |es| && !es[i].ReadSettles? ==> NulFree(es[i].pane)
  }

  lemma KeysApart(p: PaneId, shape: string, q: PaneId)
    requires NulFree(p) && NulFree(q)
    ensures StartsWith(Key(p, shape), q + [NUL]) <==> p == q
  {
    var key, prefix := Key(p, shape), q + [NUL];
    if StartsWith(key, prefix) {
      assert key[|q|] == prefix[|q|] == NUL && key[|p|] == NUL;
      assert forall i :: 0 <= i < |q| ==> key[i] == q[i] && q[i] in q;
      assert forall i :: 0 <= i < |p| ==> key[i] == p[i] && p[i] in p;
      assert |p| == |q|;
    }
  }

  lemma KeyInjective(p: PaneId, shape: string, q: PaneId, other: string)
    requires NulFree(p) && NulFree(q) && Key(p, shape) == Key(q, other)
    ensures p == q && shape == other
  {
    KeysApart(p, shape, q);
    assert q + [NUL] <= Key(q, other);
    assert Key(p, shape)[|p| + 1..] == shape && Key(q, other)[|q| + 1..] == other;
  }

  /** Every remembered read is in flight, is what its key says, and was sent after the pane's last write. */
  ghost predicate Remembered(es: seq<Event>, s: State, k: string)
    requires k in s.inFlight
  {
    var r := s.inFlight[k];
    && r < |s.requests| && !s.requests[r].settled
    && k == Key(s.requests[r].pane, s.requests[r].shape) && NulFree(s.requests[r].pane)
    && forall j :: 0 <= j < |es| && IsWrite(es[j], s.requests[r].pane) ==> j < s.requests[r].sentAt
  }

  ghost predicate Inv(es: seq<Event>, s: State) {
    && s.now == |es|
    && (forall k :: k in s.inFlight ==> Remembered(es, s, k))
    && (forall r :: 0 <= r < |s.requests| ==> s.requests[r].sentAt < s.now)
  }

  lemma StepKeepsInv(es: seq<Event>, s: State, e: Event)
    requires Inv(es, s) && RealPanes(es + [e])
    ensures Inv(es + [e], Step(s, e))
  {
    var s', all := Step(s, e), es + [e];
    assert all[|es|] == e;
    forall k | k in s'.inFlight
      ensures Remembered(all, s', k)
    {
      if k in s.inFlight {
        assert Remembered(es, s, k);
        var q := s.requests[s.inFlight[k]];
        if !e.Read? && !e.ReadSettles? { KeysApart(q.pane, q.shape, e.pane); }
      }
    }
  }

  lemma {:induction false} RunKeepsInv(es: seq<Event>)
    requires RealPanes(es)
    ensures Inv(es, Run(es))
  {
    if es != [] {
      var n := |es| - 1;
      RunKeepsInv(es[..n]);
      assert es == es[..n] + [es[n]];
      StepKeepsInv(es[..n], Run(es[..n]), es[n]);
    }
  }

  /** The read asked for now is answered by an open request of its own kind, sent after all writes to its pane. */
  lemma ReadIsAnswered(es: seq<Event>, pane: PaneId, shape: string)
    requires RealPanes(es) && NulFree(pane)
    ensures
      var r, t := Answer(Run(es), pane, shape), Run(es + [Read(pane, shape)]);
      && r < |t.requests| && t.requests[r].pane == pane && t.requests[r].shape == shape && !t.requests[r].settled
      && forall j :: 0 <= j < |es| && IsWrite(es[j], pane) ==> j < t.requests[r].sentAt
  {
    RunKeepsInv(es);
    var s := Run(es);
    assert (es + [Read(pane, shape)])[..|es|] == es;
    if Key(pane, shape) in s.inFlight {
      assert Remembered(es, s, Key(pane, shape));
      var q := s.requests[s.inFlight[Key(pane, shape)]];
      KeyInjective(pane, shape, q.pane, q.shape);
    }
  }

  /**
   * No stale screens: a read asked for after a write to the pane began or settled is answered by a
   * request for that pane and shape that was sent after it, however reads and writes overlap.
   */
  lemma ReadsAreFresh(es: seq<Event>, pane: PaneId, shape: string, j: nat)
    requires RealPanes(es) && NulFree(pane) && j < |es| && IsWrite(es[j], pane)
    ensures
      var r, t := Answer(Run(es), pane, shape), Run(es + [Read(pane, shape)]);
      r < |t.requests| && t.requests[r].pane == pane && t.requests[r].shape == shape &&
      !t.requests[r].settled && t.requests[r].sentAt > j
  {
    ReadIsAnswered(es, pane, shape);
  }

  /** What may take a remembered read away: its own settling, or a write to its pane. Nothing else does. */
  lemma OnlyOwnEventsForget(es: seq<Event>, e: Event, pane: PaneId, shape: string)
    requires RealPanes(es + [e]) && NulFree(pane) && Key(pane, shape) in Run(es).inFlight
    ensures
      var r := Run(es).inFlight[Key(pane, shape)];
      if IsWrite(e, pane) || e == ReadSettles(r) then Key(pane, shape) !in Run(es + [e]).inFlight
      else Key(pane, shape) in Run(es + [e]).inFlight && Run(es + [e]).inFlight[Key(pane, shape)] == r
  {
    assert (es + [e])[..|es|] == es;
    assert RealPanes(es) by {
      assert forall i :: 0 <= i < |es| ==> (es + [e])[i] == es[i];
    }
    RunKeepsInv(es);
    var s := Run(es);
    assert Remembered(es, s, Key(pane, shape));
    var q := s.requests[s.inFlight[Key(pane, shape)]];
    KeyInjective(pane, shape, q.pane, q.shape);
    assert (es + [e])[|es|] == e;
    if !e.Read? && !e.ReadSettles? { KeysApart(pane, shape, e.pane); }
  }

  lemma RealFront(es: seq<Event>, more: seq<Event>)
    requires RealPanes(es + more)
    ensures RealPanes(es)
  {
    assert forall i :: 0 <= i < |es| ==> (es + more)[i] == es[i];
  }

  lemma {:induction false} StaysRemembered(es: seq<Event>, more: seq<Event>, pane: PaneId, shape: string, r: nat)
    requires RealPanes(es + more) && NulFree(pane)
    requires Key(pane, shape) in Run(es).inFlight && Run(es).inFlight[Key(pane, shape)] == r
    requires ReadSettles(r) !in more && forall k :: 0 <= k < |more| ==> !IsWrite(more[k], pane)
    ensures Key(pane, shape) in Run(es + more).inFlight && Run(es + more).inFlight[Key(pane, shape)] == r
  {
    if more == [] {
      assert es + more == es;
    } else {
      var front, last := more[..|more| - 1], more[|more| - 1];
      assert es + more == es + front + [last];
      RealFront(es + front, [last]);
      StaysRemembered(es, front, pane, shape, r);
      assert last in more;
      OnlyOwnEventsForget(es + front, last, pane, shape);
    }
  }

  /**
   * Reads are shared: until the request settles or the pane is written to, everybody who asks for the same
   * read is answered by the same request, and nothing more is sent.
   */
  lemma ReadsAreShared(es: seq<Event>, pane: PaneId, shape: string, more: seq<Event>)
    requires RealPanes(es + [Read(pane, shape)] + more) && NulFree(pane)
    requires ReadSettles(Answer(Run(es), pane, shape)) !in more
    requires forall k :: 0 <= k < |more| ==> !IsWrite(more[k], pane)
    ensures
      var all := es + [Read(pane, shape)] + more;
      && Answer(Run(all), pane, shape) == Answer(Run(es), pane, shape)
      && Run(all + [Read(pane, shape)]).requests == Run(all).requests
  {
    var all := es + [Read(pane, shape)] + more;
    assert (es + [Read(pane, shape)])[..|es|] == es && (all + [Read(pane, shape)])[..|all|] == all;
    StaysRemembered(es + [Read(pane, shape)], more, pane, shape, Answer(Run(es), pane, shape));
  }

  /** What the record of a request says happened: the read that sent it, and whether it has settled since. */
  ghost predicate RequestIs(es: seq<Event>, q: Request, r: nat) {
    && q.sentAt < |es| && es[q.sentAt] == Read(q.pane, q.shape)
    && (q.settled <==> exists j :: q.sentAt < j < |es| && es[j] == ReadSettles(r))
  }

  lemma RequestStep(es: seq<Event>, e: Event, q: Request, r: nat)
    requires RequestIs(es, q, r)
    ensures RequestIs(es + [e], q.(settled := q.settled || e == ReadSettles(r)), r)
  {
    var all := es + [e];
    assert forall j :: 0 <= j < |es| ==> all[j] == es[j];
    if e == ReadSettles(r) { assert all[|es|] == ReadSettles(r); }
  }

  /** Every request was sent by the read of its pane and shape, and is settled exactly once its answer came. */
  lemma {:induction false} RequestsAreReads(es: seq<Event>)
    ensures forall r :: 0 <= r < |Run(es).requests| ==> RequestIs(es, Run(es).requests[r], r)
    ensures Run(es).now == |es|
  {
    if es != [] {
      var n := |es| - 1;
      var s, t := Run(es[..n]), Run(es);
      RequestsAreReads(es[..n]);
      assert es == es[..n] + [es[n]];
      forall r | 0 <= r < |t.requests|
        ensures RequestIs(es, t.requests[r], r)
      {
        if r < |s.requests| { RequestStep(es[..n], es[n], s.requests[r], r); }
      }
    }
  }

  /** The client's map of reads in flight; `promises` counts the promises made, which tell requests apart. */
  class HerdrClient {
    var inFlight: map<string, nat>
    var promises: nat
    ghost var requests: seq<Request>
    ghost var history: seq<Event>

    ghost function Contents(): State
      reads this
    {
      State(inFlight, requests, |history|)
    }

    ghost predicate Valid()
      reads this
    {
      RealPanes(history) && Contents() == Run(history) && promises == |requests|
    }

    constructor ()
      ensures Valid() && history == []
    {
      inFlight, promises := map[], 0;
      requests, history := [], [];
    }

    /** The answer comes from a request for this pane and shape, sent after every write that began or settled. */
    method ReadPane(pane: PaneId, shape: string) returns (r: nat)
      requires Valid() && NulFree(pane)
      modifies this
      ensures Valid() && history == old(history) + [Read(pane, shape)]
      ensures r == Answer(old(Contents()), pane, shape) < |requests|
      ensures requests[r].pane == pane && requests[r].shape == shape && !requests[r].settled
      ensures forall j :: 0 <= j < |old(history)| && IsWrite(old(history)[j], pane) ==> j < requests[r].sentAt
      ensures requests == old(requests) || (r == |old(requests)| && |requests| == r + 1)
    {
      ReadIsAnswered(history, pane, shape);
      history := history + [Read(pane, shape)];
      var key := Key(pane, shape);
      if key in inFlight {
        return inFlight[key];
      }
      r := promises;
      promises := promises + 1;
      requests := requests + [Request(pane, shape, |history| - 1, false)];
      inFlight := inFlight[key := r];
    }

    /** A read's `finally`: forget it, unless a newer read has taken its place. */
    method ReadDone(r: nat, key: string)
      requires Valid() && r < |requests| && !requests[r].settled && key == Key(requests[r].pane, requests[r].shape)
      modifies this
      ensures Valid() && history == old(history) + [ReadSettles(r)]
    {
      history := history + [ReadSettles(r)];
      if key in inFlight && inFlight[key] == r {
        inFlight := inFlight - {key};
      }
      requests := requests[r := requests[r].(settled := true)];
    }

    method Forget(pane: PaneId)
      modifies this`inFlight
      ensures inFlight == ForgetReads(old(inFlight), pane)
    {
      var left := inFlight.Keys;
      while left != {}
        invariant left <= old(inFlight).Keys
        invariant inFlight == map k | k in old(inFlight) &&
                  (k in left || !StartsWith(k, pane + [NUL])) :: old(inFlight)[k]
        decreases left
      {
        var key :| key in left;
        if StartsWith(key, pane + [NUL]) {
          inFlight := inFlight - {key};
        }
        left := left - {key};
      }
    }

    method BeginWrite(pane: PaneId)
      requires Valid() && NulFree(pane)
      modifies this
      ensures Valid() && history == old(history) + [WriteBegins(pane)]
    {
      Forget(pane);
      history := history + [WriteBegins(pane)];
    }

    method EndWrite(pane: PaneId)
      requires Valid() && NulFree(pane)
      modifies this
      ensures Valid() && history == old(history) + [WriteSettles(pane)]
    {
      Forget(pane);
      history := history + [WriteSettles(pane)];
    }
  }

  // ---- Line framing of the event stream ----

  /** The complete lines of a text, without their newlines. */
  function CompleteLines(text: string): seq<string>
    decreases |text|
  {
    var i := NewlineFrom(text, 0);
    if i == |text| then [] else [text[..i]] + CompleteLines(text[i + 1..])
  }

  /** What is left after the last newline. */
  function Rest(text: string): string
    decreases |text|
  {
    var i := NewlineFrom(text, 0);
    if i == |text| then text else Rest(text[i + 1..])
  }

  /** The lines that get handled: up to and with the first one that ends the stream. */
  function UntilFatal(lines: seq<string>, fatal: string -> bool): seq<string> {
    if lines == [] then [] else if fatal(lines[0]) then [lines[0]]
    else [lines[0]] + UntilFatal(lines[1..], fatal)
  }

  predicate HasFatal(lines: seq<string>, fatal: string -> bool) {
    lines != [] && (fatal(lines[0]) || HasFatal(lines[1..], fatal))
  }

  /** The lines and what is left, put together again. */
  function Unlines(lines: seq<string>, rest: string): string {
    if lines == [] then rest else lines[0] + "\n" + Unlines(lines[1..], rest)
  }

  /** Lines and rest are the text, and no newline is left in any of them. */
  lemma {:induction false} LinesAreTheText(text: string)
    ensures Unlines(CompleteLines(text), Rest(text)) == text && '\n' !in Rest(text)
    ensures forall k :: 0 <= k < |CompleteLines(text)| ==> '\n' !in CompleteLines(text)[k]
    decreases |text|
  {
    var i := NewlineFrom(text, 0);
    if i < |text| {
      LinesAreTheText(text[i + 1..]);
      assert text == text[..i] + "\n" + text[i + 1..];
    }
  }

  /** The first newline stays the first when text is added behind it. */
  lemma {:induction false} FirstNewline(text: string, more: string, at: nat)
    requires at <= |text| && NewlineFrom(text, at) < |text|
    ensures NewlineFrom(text + more, at) == NewlineFrom(text, at)
    decreases |text| - at
  {
    if text[at] != '\n' { FirstNewline(text, more, at + 1); }
  }

  /** More text adds lines: those of the unfinished rest with the new text behind it. */
  lemma {:induction false} LinesOfMore(text: string, more: string)
    ensures CompleteLines(text + more) == CompleteLines(text) + CompleteLines(Rest(text) + more)
    ensures Rest(text + more) == Rest(Rest(text) + more)
    decreases |text|
  {
    var i := NewlineFrom(text, 0);
    if i < |text| {
      SameFirstLine(text, more, i);
      var tail := text[i + 1..];
      LinesOfMore(tail, more);
      FirstLine(text, i);
      FirstLine(text + more, i);
      LinesRegroup(text[..i], CompleteLines(tail), CompleteLines(Rest(tail) + more));
    } else {
      assert CompleteLines(text) == [];
    }
  }

  lemma LinesRegroup(a: string, b: seq<string>, c: seq<string>)
    ensures [a] + (b + c) == [a] + b + c
  {}

  lemma SameFirstLine(text: string, more: string, i: nat)
    requires i == NewlineFrom(text, 0) < |text|
    ensures NewlineFrom(text + more, 0) == i
    ensures (text + more)[..i] == text[..i] && (text + more)[i + 1..] == text[i + 1..] + more
  {
    FirstNewline(text, more, 0);
  }

  lemma {:induction false} UntilFatalAppend(a: seq<string>, b: seq<string>, fatal: string -> bool)
    ensures UntilFatal(a + b, fatal) ==
            if HasFatal(a, fatal) then UntilFatal(a, fatal) else a + UntilFatal(b, fatal)
    ensures HasFatal(a + b, fatal) <==> HasFatal(a, fatal) || HasFatal(b, fatal)
  {
    if a == [] {
      assert a + b == b;
    } else {
      assert (a + b)[1..] == a[1..] + b;
      UntilFatalAppend(a[1..], b, fatal);
      assert a + UntilFatal(b, fatal) == [a[0]] + (a[1..] + UntilFatal(b, fatal));
    }
  }

  lemma FirstLine(buf: string, nl: nat)
    requires nl == NewlineFrom(buf, 0) < |buf|
    ensures CompleteLines(buf) == [buf[..nl]] + CompleteLines(buf[nl + 1..])
    ensures Rest(buf) == Rest(buf[nl + 1..])
  {
    FirstLineRest(buf, nl);
  }

  lemma FirstLineRest(buf: string, nl: nat)
    requires nl == NewlineFrom(buf, 0) < |buf|
    ensures Rest(buf) == Rest(buf[nl + 1..])
  {}

  /** Part-way through handling `lines`: `done` is handled, `todo` is still to come. */
  ghost predicate Draining(lines: seq<string>, done: seq<string>, todo: seq<string>, down: bool,
                           fatal: string -> bool) {
    if down then done == UntilFatal(lines, fatal) && HasFatal(lines, fatal)
    else lines == done + todo && !HasFatal(done, fatal)
  }

  lemma DrainStep(lines: seq<string>, done: seq<string>, line: string, rest: seq<string>, fatal: string -> bool)
    requires Draining(lines, done, [line] + rest, false, fatal)
    ensures Draining(lines, done + [line], rest, fatal(line), fatal)
  {
    assert done + ([line] + rest) == done + [line] + rest;
    UntilFatalAppend(done, [line], fatal);
    UntilFatalAppend(done + [line], rest, fatal);
  }

  lemma DrainEnd(lines: seq<string>, done: seq<string>, fatal: string -> bool)
    requires Draining(lines, done, [], false, fatal)
    ensures done == lines == UntilFatal(lines, fatal) && !HasFatal(lines, fatal)
  {
    UntilFatalAppend(done, [], fatal);
    assert done + [] == done;
  }

  /** The stream's `buf` and `down`, with what has arrived and been handled so far. */
  class LineReader {
    const fatal: string -> bool
    var buf: string
    var down: bool
    ghost var arrived: string
    ghost var handled: seq<string>

    /** What is handled depends on the text that arrived, never on how it was cut into chunks. */
    ghost predicate Valid()
      reads this
    {
      && handled == UntilFatal(CompleteLines(arrived), fatal)
      && (down <==> HasFatal(CompleteLines(arrived), fatal))
      && (!down ==> buf == Rest(arrived) && handled == CompleteLines(arrived))
    }

    constructor (fatal: string -> bool)
      ensures Valid() && arrived == "" && this.fatal == fatal
    {
      this.fatal := fatal;
      buf, down, arrived, handled := "", false, "", [];
    }

    method Data(chunk: string)
      requires Valid()
      modifies this
      ensures Valid() && arrived == old(arrived) + chunk
      ensures old(handled) <= handled
    {
      LinesOfMore(arrived, chunk);
      UntilFatalAppend(CompleteLines(arrived), CompleteLines(Rest(arrived) + chunk), fatal);
      arrived := arrived + chunk;
      buf := buf + chunk;
      if !down {
        Drain();
      }
    }

    /** Handle every complete line in `buf`, stopping when one ends the stream. */
    method Drain()
      requires !down
      modifies this`buf, this`down, this`handled
      ensures handled == old(handled) + UntilFatal(CompleteLines(old(buf)), fatal)
      ensures down <==> HasFatal(CompleteLines(old(buf)), fatal)
      ensures !down ==> buf == Rest(old(buf)) && handled == old(handled) + CompleteLines(old(buf))
    {
      ghost var text, done := buf, [];
      var nl := NewlineFrom(buf, 0);
      while nl < |buf| && !down
        invariant !down ==> nl == NewlineFrom(buf, 0)
        invariant handled == old(handled) + done && (!down ==> Rest(buf) == Rest(text))
        invariant Draining(CompleteLines(text), done, CompleteLines(buf), down, fatal)
        decreases !down, |buf|
      {
        var line := buf[..nl];
        FirstLine(buf, nl);
        DrainStep(CompleteLines(text), done, line, CompleteLines(buf[nl + 1..]), fatal);
        done := done + [line];
        buf := buf[nl + 1..];
        handled := handled + [line];
        down := fatal(line);
        nl := NewlineFrom(buf, 0);
      }
      if !down { DrainEnd(CompleteLines(text), done, fatal); }
    }
  }
}
