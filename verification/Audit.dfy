/**
 * The audit trail: which parts of an entry's detail are kept, and a size-capped log with one rotated
 * generation, written line after line whatever the file operations do.
 */
module Audit {
  import opened Options

  // ---- What is kept of a detail ----

  const MAX_STR: nat := 120
  const REDACTED: string := "\U{27e8}redacted\U{27e9}"
  const ELLIPSIS: string := "\U{2026}"

  const METADATA_KEYS: set<string> := {
    "checked", "id", "keys", "passed", "reason", "saved", "sent", "size", "submit", "submitted", "tabId",
    "textDelivered", "threadId", "type", "workspaceId"
  }

  datatype Content = Preview | Nothing

  /** What a caller may hand over: JSON, missing values and functions. */
  datatype Detail = Text(s: string) | Number(n: int) | Flag(b: bool) | Null | Missing | Function(id: nat)
                  | List(items: Details) | Object(fields: Fields)
  datatype Details = NoItems | Item(first: Detail, rest: Details)
  datatype Fields = NoFields | Field(key: string, value: Detail, others: Fields)

  predicate LineBreak(c: char) { c == '\r' || c == '\n' }

  /** Each run of line breaks becomes one space; `within` a run nothing more is written. */
  function OneLine(s: string, within: bool): (r: string)
    ensures |r| <= |s|
  {
    if s == "" then ""
    else if LineBreak(s[0]) then (if within then "" else " ") + OneLine(s[1..], true)
    else [s[0]] + OneLine(s[1..], false)
  }

  function PreviewOf(s: string): string {
    var line := OneLine(s, false);
    if |line| > MAX_STR then line[..MAX_STR] + ELLIPSIS else line
  }

  function Sanitize(v: Detail, content: Content, allowed: bool): Detail {
    match v
    case Function(_) => Null
    case Text(s) => if content == Nothing && !allowed then Text(REDACTED) else Text(PreviewOf(s))
    case List(items) => List(SanitizeItems(items, content, allowed))
    case Object(fields) => Object(SanitizeFields(fields, content))
    case _ => v
  }

  function SanitizeItems(items: Details, content: Content, allowed: bool): Details {
    if items.NoItems? then NoItems else
    var first := Sanitize(items.first, content, allowed);
    Item(if first.Missing? then Null else first, SanitizeItems(items.rest, content, allowed))
  }

  function SanitizeFields(fields: Fields, content: Content): Fields {
    match fields
    case NoFields => NoFields
    case Field(_, Function(_), others) => SanitizeFields(others, content)
    case Field(key, value, others) =>
      Field(key, Sanitize(value, content, key in METADATA_KEYS), SanitizeFields(others, content))
  }

  /** Equal but for functions and for strings under keys that are not metadata. */
  predicate SameButSecrets(v: Detail, w: Detail, allowed: bool) {
    match (v, w)
    case (Text(s), Text(t)) => allowed ==> s == t
    case (Function(_), Function(_)) => true
    case (List(a), List(b)) => SameItems(a, b, allowed)
    case (Object(f), Object(g)) => SameFields(f, g)
    case _ => v == w
  }

  predicate SameItems(a: Details, b: Details, allowed: bool) {
    match (a, b)
    case (Item(x, xs), Item(y, ys)) => SameButSecrets(x, y, allowed) && SameItems(xs, ys, allowed)
    case _ => a == b
  }

  predicate SameFields(f: Fields, g: Fields) {
    match (f, g)
    case (Field(k, v, fs), Field(l, w, gs)) => k == l && SameButSecrets(v, w, k in METADATA_KEYS) && SameFields(fs, gs)
    case _ => f == g
  }

  /** With content off, nothing of a string under an unlisted key shows in the result, at any depth. */
  lemma {:induction false} SecretsStayOut(v: Detail, w: Detail, allowed: bool)
    requires SameButSecrets(v, w, allowed)
    ensures Sanitize(v, Nothing, allowed) == Sanitize(w, Nothing, allowed)
  {
    match (v, w)
    case (List(a), List(b)) => SecretsStayOutOfItems(a, b, allowed);
    case (Object(f), Object(g)) => SecretsStayOutOfFields(f, g);
    case _ =>
  }

  lemma {:induction false} SecretsStayOutOfItems(a: Details, b: Details, allowed: bool)
    requires SameItems(a, b, allowed)
    ensures SanitizeItems(a, Nothing, allowed) == SanitizeItems(b, Nothing, allowed)
  {
    match (a, b)
    case (Item(x, xs), Item(y, ys)) =>
      SecretsStayOut(x, y, allowed);
      SecretsStayOutOfItems(xs, ys, allowed);
    case _ =>
  }

  lemma {:induction false} SecretsStayOutOfFields(f: Fields, g: Fields)
    requires SameFields(f, g)
    ensures SanitizeFields(f, Nothing) == SanitizeFields(g, Nothing)
  {
    match (f, g)
    case (Field(k, v, fs), Field(_, w, gs)) =>
      SecretsStayOut(v, w, k in METADATA_KEYS);
      SecretsStayOutOfFields(fs, gs);
    case _ =>
  }

  predicate Tame(s: string) { |s| <= MAX_STR + 1 && forall i :: 0 <= i < |s| ==> !LineBreak(s[i]) }

  /** No function anywhere, and every string short and on one line. */
  predicate AllTame(v: Detail) {
    match v
    case Text(s) => Tame(s)
    case Function(_) => false
    case List(items) => ItemsTame(items)
    case Object(fields) => FieldsTame(fields)
    case _ => true
  }

  predicate ItemsTame(items: Details) {
    items.NoItems? || (AllTame(items.first) && !items.first.Missing? && ItemsTame(items.rest))
  }

  predicate FieldsTame(fields: Fields) { fields.NoFields? || (AllTame(fields.value) && FieldsTame(fields.others)) }

  lemma {:induction false} OneLineHasNoBreaks(s: string, within: bool, i: nat)
    requires i < |OneLine(s, within)|
    ensures !LineBreak(OneLine(s, within)[i])
  {
    if LineBreak(s[0]) {
      var k := if within then 0 else 1;
      if i >= k { OneLineHasNoBreaks(s[1..], true, i - k); }
    } else if i > 0 {
      OneLineHasNoBreaks(s[1..], false, i - 1);
    }
  }

  lemma PreviewIsTame(s: string)
    ensures Tame(PreviewOf(s)) && Tame(REDACTED)
  {
    forall i | 0 <= i < |OneLine(s, false)|
      ensures !LineBreak(OneLine(s, false)[i])
    {
      OneLineHasNoBreaks(s, false, i);
    }
  }

  lemma {:induction false} SanitizedIsTame(v: Detail, content: Content, allowed: bool)
    ensures AllTame(Sanitize(v, content, allowed))
  {
    match v
    case Text(s) => PreviewIsTame(s);
    case List(items) => SanitizedItemsAreTame(items, content, allowed);
    case Object(fields) => SanitizedFieldsAreTame(fields, content);
    case _ =>
  }

  lemma {:induction false} SanitizedItemsAreTame(items: Details, content: Content, allowed: bool)
    ensures ItemsTame(SanitizeItems(items, content, allowed))
  {
    if items.Item? {
      SanitizedIsTame(items.first, content, allowed);
      SanitizedItemsAreTame(items.rest, content, allowed);
    }
  }

  lemma {:induction false} SanitizedFieldsAreTame(fields: Fields, content: Content)
    ensures FieldsTame(SanitizeFields(fields, content))
  {
    if fields.Field? {
      SanitizedFieldsAreTame(fields.others, content);
      if !fields.value.Function? { SanitizedIsTame(fields.value, content, fields.key in METADATA_KEYS); }
    }
  }

  // ---- What is kept, leaf by leaf ----

  datatype Place = At(i: nat) | Under(key: string)

  function ItemAt(items: Details, i: nat): Option<Detail> {
    if items.NoItems? then None else if i == 0 then Some(items.first) else ItemAt(items.rest, i - 1)
  }

  function FieldAt(fields: Fields, key: string): Option<Detail> {
    if fields.NoFields? then None else if fields.key == key then Some(fields.value) else FieldAt(fields.others, key)
  }

  /** What stands at the end of a path into a detail. */
  function Leaf(v: Detail, path: seq<Place>): Option<Detail>
    decreases path
  {
    if path == [] then Some(v) else
    match (v, path[0])
    case (List(items), At(i)) =>
      (match ItemAt(items, i) case None => None case Some(w) => Leaf(w, path[1..]))
    case (Object(fields), Under(key)) =>
      (match FieldAt(fields, key) case None => None case Some(w) => Leaf(w, path[1..]))
    case _ => None
  }

  /** Whether the innermost key on the path names metadata. */
  function Listed(path: seq<Place>, allowed: bool): bool {
    if path == [] then allowed
    else Listed(path[1..], match path[0] case Under(key) => key in METADATA_KEYS case At(_) => allowed)
  }

  /** No key stands twice in an object. */
  predicate Proper(v: Detail) {
    match v
    case List(items) => ItemsProper(items)
    case Object(fields) => FieldsProper(fields)
    case _ => true
  }

  predicate ItemsProper(items: Details) { items.NoItems? || (Proper(items.first) && ItemsProper(items.rest)) }

  predicate FieldsProper(fields: Fields) {
    fields.NoFields? ||
    (FieldAt(fields.others, fields.key).None? && Proper(fields.value) && FieldsProper(fields.others))
  }

  /** What is recorded at a place, for what the caller handed over there. */
  ghost predicate AsRecorded(got: Option<Detail>, was: Option<Detail>, path: seq<Place>, listed: bool,
                             content: Content)
  {
    match was
    case None => got == None
    case Some(Function(_)) => got == if path != [] && path[|path| - 1].Under? then None else Some(Null)
    case Some(Missing) => got == Some(if path != [] && path[|path| - 1].At? then Null else Missing)
    case Some(Text(s)) =>
      got == Some(Text(if content == Nothing && !listed then "\U{27e8}redacted\U{27e9}" else PreviewOf(s)))
    case Some(List(_)) => got.Some? && got.value.List?
    case Some(Object(_)) => got.Some? && got.value.Object?
    case Some(w) => got == Some(w)
  }

  lemma {:induction false} ItemsKept(items: Details, content: Content, allowed: bool, i: nat)
    requires ItemsProper(items)
    ensures
      match ItemAt(items, i)
      case None => ItemAt(SanitizeItems(items, content, allowed), i) == None
      case Some(w) =>
        Proper(w) && ItemAt(SanitizeItems(items, content, allowed), i) ==
                     Some(if w.Missing? then Null else Sanitize(w, content, allowed))
  {
    if items.Item? && i > 0 { ItemsKept(items.rest, content, allowed, i - 1); }
  }

  lemma {:induction false} FieldsKept(fields: Fields, content: Content, key: string)
    requires FieldsProper(fields)
    ensures
      match FieldAt(fields, key)
      case None => FieldAt(SanitizeFields(fields, content), key) == None
      case Some(w) =>
        Proper(w) && FieldAt(SanitizeFields(fields, content), key) ==
                     if w.Function? then None else Some(Sanitize(w, content, key in METADATA_KEYS))
  {
    if fields.Field? { FieldsKept(fields.others, content, key); }
  }

  /**
   * Place by place: functions are gone, strings are previewed or, under a key that is not listed with
   * content off, replaced, and everything else, lists and objects included, stands where it stood.
   */
  lemma {:induction false} RecordedLeafByLeaf(v: Detail, content: Content, allowed: bool, path: seq<Place>)
    requires Proper(v)
    ensures AsRecorded(Leaf(Sanitize(v, content, allowed), path), Leaf(v, path), path, Listed(path, allowed), content)
    decreases path
  {
    if path != [] {
      match (v, path[0])
      case (List(items), At(i)) =>
        ItemsKept(items, content, allowed, i);
        if ItemAt(items, i).Some? { RecordedLeafByLeaf(ItemAt(items, i).value, content, allowed, path[1..]); }
      case (Object(fields), Under(key)) =>
        FieldsKept(fields, content, key);
        if FieldAt(fields, key).Some? {
          RecordedLeafByLeaf(FieldAt(fields, key).value, content, key in METADATA_KEYS, path[1..]);
        }
      case _ =>
    }
  }

  predicate NoBreaks(s: string) { forall i :: 0 <= i < |s| ==> s[i] != '\r' && s[i] != '\n' }

  predicate OnlyBreaks(s: string) { forall i :: 0 <= i < |s| ==> s[i] == '\r' || s[i] == '\n' }

  lemma {:induction false} WithinBreaks(breaks: string, rest: string)
    requires OnlyBreaks(breaks)
    ensures OneLine(breaks + rest, true) == OneLine(rest, true)
  {
    if breaks == "" {
      assert breaks + rest == rest;
    } else {
      assert (breaks + rest)[1..] == breaks[1..] + rest;
      WithinBreaks(breaks[1..], rest);
    }
  }

  lemma {:induction false} PlainStays(front: string, rest: string)
    requires NoBreaks(front)
    ensures OneLine(front + rest, false) == front + OneLine(rest, false)
  {
    if front == "" {
      assert front + rest == rest;
    } else {
      assert (front + rest)[1..] == front[1..] + rest;
      PlainStays(front[1..], rest);
    }
  }

  lemma BreaksFirst(breaks: string, rest: string)
    requires OnlyBreaks(breaks) && breaks != ""
    requires rest == "" || (rest[0] != '\r' && rest[0] != '\n')
    ensures OneLine(breaks + rest, false) == " " + OneLine(rest, false)
  {
    assert (breaks + rest)[1..] == breaks[1..] + rest;
    WithinBreaks(breaks[1..], rest);
  }

  lemma PlainIsItself(front: string)
    requires NoBreaks(front)
    ensures OneLine(front, false) == front
  {
    PlainStays(front, "");
    assert front + "" == front;
  }

  /** Text up to a run of line breaks stays, the run becomes one space, and so on behind it. */
  lemma RunsBecomeSpaces(front: string, breaks: string, rest: string, tail: string)
    requires NoBreaks(front) && OnlyBreaks(breaks) && breaks != ""
    requires rest == "" || (rest[0] != '\r' && rest[0] != '\n')
    requires tail == OneLine(rest, false)
    ensures OneLine(front + (breaks + rest), false) == front + (" " + tail)
  {
    PlainStays(front, breaks + rest);
    BreaksFirst(breaks, rest);
  }

  /** A preview is the text on one line, cut behind 120 characters. */
  lemma PreviewMeans(s: string)
    requires NoBreaks(s)
    ensures PreviewOf(s) == if |s| <= 120 then s else s[..120] + "\U{2026}"
    ensures forall text :: OneLine(text, false) == s ==> PreviewOf(text) == PreviewOf(s)
  {
    PlainIsItself(s);
  }

  // ---- The appender ----

  datatype Line = Line(text: string, bytes: nat)

  /** The file operation that the write in hand is waiting for. */
  datatype Phase = Idle | Sizing | Rotating | Appending

  /**
   * `rotated` and `live` are the two files, `bytes` the tracked size of the live one, `queue` the lines
   * asked for and not answered, `answered` the lines answered with their outcome, in order.
   */
  datatype State = State(
    rotated: seq<Line>,
    live: seq<Line>,
    bytes: Option<nat>,
    phase: Phase,
    queue: seq<Line>,
    answered: seq<(Line, bool)>)

  /** A line asked for, the next write taken up, and a file operation that ends well or badly. */
  datatype Event = Ask(line: Line) | Take | Sized(ok: bool) | Rotated(ok: bool) | Appended(ok: bool)

  function Size(lines: seq<Line>): nat {
    if lines == [] then 0 else Size(lines[..|lines| - 1]) + lines[|lines| - 1].bytes
  }

  function AfterSize(bytes: nat, max: nat): Phase { if bytes >= max then Rotating else Appending }

  predicate Enabled(s: State, e: Event) {
    match e
    case Ask(_) => true
    case Take => s.phase == Idle && s.queue != []
    case Sized(_) => s.phase == Sizing
    case Rotated(_) => s.phase == Rotating
    case Appended(_) => s.phase == Appending && s.queue != []
  }

  function Step(s: State, e: Event, max: nat): State {
    if !Enabled(s, e) then s else
    match e
    case Ask(line) => s.(queue := s.queue + [line])
    case Take => s.(phase := if s.bytes.None? then Sizing else AfterSize(s.bytes.value, max))
    case Sized(ok) =>
      var n := if ok then Size(s.live) else 0;
      s.(bytes := Some(n), phase := AfterSize(n, max))
    case Rotated(ok) =>
      if ok then s.(rotated := s.live, live := [], bytes := Some(0), phase := Appending)
      else s.(bytes := None, phase := Appending)
    case Appended(ok) =>
      var line := s.queue[0];
      var done := s.(queue := s.queue[1..], answered := s.answered + [(line, ok)], phase := Idle);
      if !ok then done
      else done.(live := s.live + [line], bytes := if s.bytes.None? then None else Some(s.bytes.value + line.bytes))
  }

  function Start(rotated: seq<Line>, live: seq<Line>): State { State(rotated, live, None, Idle, [], []) }

  function Run(s: State, es: seq<Event>, max: nat): State {
    if es == [] then s else Step(Run(s, es[..|es| - 1], max), es[|es| - 1], max)
  }

  /** The lines answered as written, in order. */
  function Written(answered: seq<(Line, bool)>): seq<Line> {
    if answered == [] then [] else
    var last := answered[|answered| - 1];
    Written(answered[..|answered| - 1]) + if last.1 then [last.0] else []
  }

  function Asked(es: seq<Event>): seq<Line> {
    if es == [] then [] else
    Asked(es[..|es| - 1]) + if es[|es| - 1].Ask? then [es[|es| - 1].line] else []
  }

  function Lines(answered: seq<(Line, bool)>): (r: seq<Line>)
    ensures |r| == |answered|
  {
    seq(|answered|, i requires 0 <= i < |answered| => answered[i].0)
  }

  /** How many lines successful rotations have thrown away, along a run. */
  function Lost(s: State, es: seq<Event>, max: nat): nat {
    if es == [] then 0 else
    var before, e := Run(s, es[..|es| - 1], max), es[|es| - 1];
    Lost(s, es[..|es| - 1], max) + if Enabled(before, e) && e == Rotated(true) then |before.rotated| else 0
  }

  /** The files hold everything in `all` from `k` on. */
  ghost predicate Holds(s: State, all: seq<Line>, k: nat) { k <= |all| && s.rotated + s.live == all[k..] }

  lemma AppendHolds(s: State, first: seq<Line>, k: nat, ok: bool, max: nat)
    requires Holds(s, first + Written(s.answered), k) && Enabled(s, Appended(ok))
    ensures
      var after := Step(s, Appended(ok), max);
      Holds(after, first + Written(after.answered), k)
  {
    var line, all := s.queue[0], first + Written(s.answered);
    if ok {
      assert first + (Written(s.answered) + [line]) == all + [line];
      assert s.rotated + (s.live + [line]) == s.rotated + s.live + [line];
    } else {
      assert Written(s.answered) + [] == Written(s.answered);
    }
  }

  /**
   * The rotated file followed by the live one is what was there at first followed by all lines
   * successfully written, in order, without the front that successful rotations threw away; nothing
   * else is ever lost, whichever operations fail.
   */
  lemma {:induction false} FilesAreASuffix(rotated: seq<Line>, live: seq<Line>, es: seq<Event>, max: nat)
    ensures
      var start := Start(rotated, live);
      var s := Run(start, es, max);
      Holds(s, rotated + live + Written(s.answered), Lost(start, es, max))
  {
    var start := Start(rotated, live);
    if es == [] {
      assert rotated + live + [] == rotated + live;
    } else {
      var n := |es| - 1;
      FilesAreASuffix(rotated, live, es[..n], max);
      var s, e, k := Run(start, es[..n], max), es[n], Lost(start, es[..n], max);
      if Enabled(s, e) && e == Rotated(true) {
      } else if Enabled(s, e) && e.Appended? {
        AppendHolds(s, rotated + live, k, e.ok, max);
      }
    }
  }

  /** Lines are answered in the order in which they were asked for, each once. */
  lemma {:induction false} AnsweredInOrder(rotated: seq<Line>, live: seq<Line>, es: seq<Event>, max: nat)
    ensures
      var s := Run(Start(rotated, live), es, max);
      Asked(es) == Lines(s.answered) + s.queue
  {
    if es != [] {
      var n := |es| - 1;
      AnsweredInOrder(rotated, live, es[..n], max);
      var s, e := Run(Start(rotated, live), es[..n], max), es[n];
      if Enabled(s, e) && e.Appended? {
        assert Lines(s.answered + [(s.queue[0], e.ok)]) == Lines(s.answered) + [s.queue[0]];
        assert s.queue == [s.queue[0]] + s.queue[1..];
      }
    }
  }

  ghost predicate Underway(s: State, max: nat) {
    && (s.phase != Idle ==> s.queue != [])
    && (s.phase == Rotating ==> s.bytes.Some? && s.bytes.value >= max)
    && (s.phase == Sizing ==> s.bytes.None?)
    && (s.bytes.Some? ==> s.bytes.value <= Size(s.live))
  }

  /**
   * The tracked size never exceeds the real one, so a rotation is only ever tried on a live file that
   * has reached the cap, and every write under way has a line to write.
   */
  lemma {:induction false} NeverRotatedEarly(rotated: seq<Line>, live: seq<Line>, es: seq<Event>, max: nat)
    ensures
      var s := Run(Start(rotated, live), es, max);
      Underway(s, max) && (s.phase == Rotating ==> Size(s.live) >= max)
  {
    if es != [] {
      var n := |es| - 1;
      NeverRotatedEarly(rotated, live, es[..n], max);
      var s, e := Run(Start(rotated, live), es[..n], max), es[n];
    }
  }

  /** A write under way can always be taken further: the chain never stops on a failure. */
  lemma SomethingIsEnabled(rotated: seq<Line>, live: seq<Line>, es: seq<Event>, max: nat) returns (e: Event)
    requires Run(Start(rotated, live), es, max).queue != []
    ensures !e.Ask? && Enabled(Run(Start(rotated, live), es, max), e)
  {
    var s := Run(Start(rotated, live), es, max);
    NeverRotatedEarly(rotated, live, es, max);
    e := match s.phase
      case Idle => Take
      case Sizing => Sized(true)
      case Rotating => Rotated(true)
      case Appending => Appended(true);
  }

  /** What is still to be done for the lines asked for. */
  function Left(s: State): nat {
    4 * |s.queue| + match s.phase case Idle => 4 case Sizing => 3 case Rotating => 2 case Appending => 1
  }

  lemma {:induction false} AnswerAll(rotated: seq<Line>, live: seq<Line>, es: seq<Event>, max: nat)
    returns (more: seq<Event>)
    ensures forall k :: 0 <= k < |more| ==> !more[k].Ask?
    ensures Run(Start(rotated, live), es + more, max).queue == []
    decreases Left(Run(Start(rotated, live), es, max))
  {
    var start := Start(rotated, live);
    var s := Run(start, es, max);
    if s.queue == [] {
      more := [];
      assert es + more == es;
    } else {
      var e := SomethingIsEnabled(rotated, live, es, max);
      assert (es + [e])[..|es|] == es;
      NeverRotatedEarly(rotated, live, es, max);
      var rest := AnswerAll(rotated, live, es + [e], max);
      more := [e] + rest;
      assert es + more == es + [e] + rest;
    }
  }

  /** Whatever failed so far, every line asked for can still be answered, in the order asked for. */
  lemma EveryLineIsAnswered(rotated: seq<Line>, live: seq<Line>, es: seq<Event>, max: nat) returns (more: seq<Event>)
    ensures forall k :: 0 <= k < |more| ==> !more[k].Ask?
    ensures Lines(Run(Start(rotated, live), es + more, max).answered) == Asked(es)
  {
    more := AnswerAll(rotated, live, es, max);
    AnsweredInOrder(rotated, live, es + more, max);
    NothingMoreAsked(es, more);
  }

  lemma {:induction false} NothingMoreAsked(es: seq<Event>, more: seq<Event>)
    requires forall k :: 0 <= k < |more| ==> !more[k].Ask?
    ensures Asked(es + more) == Asked(es)
  {
    if more == [] {
      assert es + more == es;
    } else {
      assert (es + more)[..|es + more| - 1] == es + more[..|more| - 1];
      NothingMoreAsked(es, more[..|more| - 1]);
    }
  }

  /** The size of a file is that of its lines together. */
  lemma {:induction false} SizeAdds(a: seq<Line>, b: seq<Line>, line: Line)
    ensures Size(a + b) == Size(a) + Size(b) && Size([line]) == line.bytes
  {
    assert [line][..0] == [];
    if b == [] {
      assert a + b == a;
    } else {
      assert (a + b)[..|a + b| - 1] == a + b[..|b| - 1];
      SizeAdds(a, b[..|b| - 1], line);
    }
  }

  predicate NoFailures(es: seq<Event>) {
    forall i :: 0 <= i < |es| ==> es[i] != Sized(false) && es[i] != Rotated(false)
  }

  ghost predicate WithinCap(s: State, max: nat) {
    && (s.bytes.Some? ==> s.bytes.value == Size(s.live))
    && (s.phase == Appending ==> Size(s.live) < max && s.bytes.Some?)
    && (Written(s.answered) != [] ==> s.live == [] || Size(s.live[..|s.live| - 1]) < max)
  }

  /**
   * With size reads and rotations that work and a cap above zero, once a line has been written the live
   * file without its last line is below the cap.
   */
  lemma {:induction false} LiveStaysBelowCapPlusLine(rotated: seq<Line>, live: seq<Line>, es: seq<Event>, max: nat)
    requires max > 0 && NoFailures(es)
    ensures WithinCap(Run(Start(rotated, live), es, max), max)
  {
    if es != [] {
      var n := |es| - 1;
      LiveStaysBelowCapPlusLine(rotated, live, es[..n], max);
      NeverRotatedEarly(rotated, live, es[..n], max);
    }
  }

  // ---- The object ----

  /** The appender with its two files; each method is what runs when the event of that name happens. */
  class FileAuditAppender {
    const max: nat
    var rotated: seq<Line>
    var live: seq<Line>
    var bytes: Option<nat>
    var phase: Phase
    var queue: seq<Line>
    var answered: seq<(Line, bool)>
    /** The files at the start, and everything that happened since. */
    ghost const rotatedAtFirst: seq<Line>
    ghost const liveAtFirst: seq<Line>
    ghost var history: seq<Event>

    ghost function Contents(): State
      reads this
    {
      State(rotated, live, bytes, phase, queue, answered)
    }

    /** The appender and its files are what the history makes of the files at the start. */
    ghost predicate Valid()
      reads this
    {
      Contents() == Run(Start(rotatedAtFirst, liveAtFirst), history, max)
    }

    constructor (rotated: seq<Line>, live: seq<Line>, max: nat)
      ensures Valid() && history == [] && Contents() == Start(rotated, live) && this.max == max
      ensures rotatedAtFirst == rotated && liveAtFirst == live
    {
      this.rotated, this.live, this.max := rotated, live, max;
      bytes, phase, queue, answered := None, Idle, [], [];
      rotatedAtFirst, liveAtFirst, history := rotated, live, [];
    }

    ghost method Record(was: State, e: Event)
      requires was == Run(Start(rotatedAtFirst, liveAtFirst), history, max) && Contents() == Step(was, e, max)
      modifies this`history
      ensures Valid() && history == old(history) + [e]
    {
      assert (history + [e])[..|history|] == history;
      history := history + [e];
    }

    /**
     * At any time the two files hold what was there at the start and every line answered as written, in
     * order, but for what successful rotations threw away, and every line asked for is answered or queued.
     */
    lemma NothingElseIsLost()
      requires Valid()
      ensures Holds(Contents(), rotatedAtFirst + liveAtFirst + Written(answered),
                    Lost(Start(rotatedAtFirst, liveAtFirst), history, max))
      ensures Asked(history) == Lines(answered) + queue
    {
      FilesAreASuffix(rotatedAtFirst, liveAtFirst, history, max);
      AnsweredInOrder(rotatedAtFirst, liveAtFirst, history, max);
    }

    method Append(line: Line)
      requires Valid()
      modifies this
      ensures Valid() && history == old(history) + [Ask(line)]
      ensures queue == old(queue) + [line]
      ensures rotated == old(rotated) && live == old(live) && answered == old(answered)
    {
      ghost var was := Contents();
      queue := queue + [line];
      Record(was, Ask(line));
    }

    /** The next write starts, with a measure of the file if its size is in doubt. */
    method BeginWrite()
      requires Valid() && phase == Idle && queue != []
      modifies this
      ensures Valid() && history == old(history) + [Take]
      ensures rotated == old(rotated) && live == old(live) && queue == old(queue) && answered == old(answered)
      ensures phase == Sizing <==> bytes.None?
      ensures phase == Rotating ==> Size(live) >= max
    {
      ghost var was := Contents();
      NeverRotatedEarly(rotatedAtFirst, liveAtFirst, history, max);
      if bytes.None? {
        phase := Sizing;
      } else if bytes.value >= max {
        phase := Rotating;
      } else {
        phase := Appending;
      }
      Record(was, Take);
    }

    /** `size` is what the file system answers when the read works; without an answer the line is written. */
    method SizeRead(ok: bool, size: nat)
      requires Valid() && phase == Sizing && size == Size(live)
      modifies this
      ensures Valid() && history == old(history) + [Sized(ok)]
      ensures rotated == old(rotated) && live == old(live) && queue == old(queue) && answered == old(answered)
      ensures bytes == Some(if ok then Size(live) else 0)
      ensures ok ==> (phase == Rotating <==> Size(live) >= max)
      ensures !ok && max > 0 ==> phase == Appending
    {
      ghost var was := Contents();
      var n := if ok then size else 0;
      bytes := Some(n);
      phase := if n >= max then Rotating else Appending;
      Record(was, Sized(ok));
    }

    /**
     * A rotation, only ever of a live file that has reached the cap. Done, the old rotated generation and
     * nothing else is gone; failed, both files are as they were and the size is measured again before the
     * next line. Either way the line is still to be written.
     */
    method RotateDone(ok: bool)
      requires Valid() && phase == Rotating
      modifies this
      ensures Valid() && history == old(history) + [Rotated(ok)]
      ensures Size(old(live)) >= max
      ensures ok ==> old(rotated) + (rotated + live) == old(rotated + live) && live == [] && bytes == Some(0)
      ensures !ok ==> rotated == old(rotated) && live == old(live) && bytes == None
      ensures phase == Appending && queue == old(queue) && queue != [] && answered == old(answered)
    {
      ghost var was := Contents();
      NeverRotatedEarly(rotatedAtFirst, liveAtFirst, history, max);
      if ok {
        assert live + [] == live;
        rotated, live, bytes := live, [], Some(0);
      } else {
        bytes := None;
      }
      phase := Appending;
      Record(was, Rotated(ok));
    }

    /**
     * A write that ends: the oldest line asked for is answered, and it is the last line of the files when
     * it was written; nothing else in them changes. As long as size reads and rotations work, the live
     * file without it is below the cap.
     */
    method AppendDone(ok: bool)
      requires Valid() && phase == Appending
      modifies this
      ensures Valid() && history == old(history) + [Appended(ok)]
      ensures old(queue) != [] && queue == old(queue)[1..] && answered == old(answered) + [(old(queue)[0], ok)]
      ensures rotated + live == old(rotated + live) + if ok then [old(queue)[0]] else []
      ensures ok ==> live != [] && live[|live| - 1] == old(queue)[0]
      ensures bytes == if ok && old(bytes).Some? then Some(old(bytes.value) + old(queue)[0].bytes) else old(bytes)
      ensures ok && max > 0 && NoFailures(history) ==> Size(live[..|live| - 1]) < max
      ensures phase == Idle
    {
      ghost var was := Contents();
      NeverRotatedEarly(rotatedAtFirst, liveAtFirst, history, max);
      if max > 0 && NoFailures(history) { LiveStaysBelowCapPlusLine(rotatedAtFirst, liveAtFirst, history, max); }
      var line := queue[0];
      if ok {
        live := live + [line];
        if bytes.Some? { bytes := Some(bytes.value + line.bytes); }
        assert live[..|live| - 1] == was.live;
      }
      queue, answered, phase := queue[1..], answered + [(line, ok)], Idle;
      Record(was, Appended(ok));
    }
  }
}
