/**
 * The layout of WebAuthn authenticator data with its COSE key (WebAuthn section 6.1), and the store of
 * single-use challenges.
 */
module WebAuthn {
  import opened ByteStrings
  import opened Cbor
  import opened Options
  import opened OrderedMap

  // ---- Authenticator data ----

  /** `key` is the uncompressed point: 4, x, y. */
  datatype Credential = Credential(id: Bytes, key: Bytes)
  datatype AuthData = AuthData(rpIdHash: Bytes, flags: Byte, up: bool, uv: bool, at: bool, counter: nat,
                               credential: Option<Credential>)
  datatype AuthError =
    | ShortAuthData | ShortAttestedData | ShortCredential | BadCbor(error: Error) | BadCose | UnsupportedCose | BadPoint
  datatype Parsed<T> = Good(value: T) | Bad(error: AuthError)

  predicate UserPresent(flags: Byte) { flags % 2 == 1 }
  predicate UserVerified(flags: Byte) { flags / 4 % 2 == 1 }
  predicate Attested(flags: Byte) { flags / 64 % 2 == 1 }

  function NumberAt(entries: seq<Entry<Key, Value>>, n: int): Option<Value> { Get(entries, NumberKey(n)) }

  /** Only ES256 keys on P-256 are taken (WebAuthn section 6.5.6). */
  predicate IsEs256(entries: seq<Entry<Key, Value>>) {
    && NumberAt(entries, 1) == Some(Number(2)) && NumberAt(entries, 3) == Some(Number(-7))
    && NumberAt(entries, -1) == Some(Number(1))
  }

  predicate IsCoordinate(v: Option<Value>) { v.Some? && v.value.Binary? && |v.value.b| == 32 }

  function CoseToPoint(data: Bytes, offset: nat, decode: Bytes -> string): Parsed<Bytes> {
    match Read(data, offset, decode)
    case Err(e) => Bad(BadCbor(e))
    case Ok(cose, _) =>
      if !cose.Dict? then Bad(BadCose)
      else if !IsEs256(cose.entries) then Bad(UnsupportedCose)
      else
        var x, y := NumberAt(cose.entries, -2), NumberAt(cose.entries, -3);
        if !IsCoordinate(x) || !IsCoordinate(y) then Bad(BadPoint) else Good([4] + x.value.b + y.value.b)
  }

  function ParseAuthData(data: Bytes, decode: Bytes -> string): Parsed<AuthData> {
    if |data| < 37 then Bad(ShortAuthData) else
    var flags, counter := data[32], BigEndian(data, 33, 4);
    var base := AuthData(data[..32], flags, UserPresent(flags), UserVerified(flags), Attested(flags), counter, None);
    if !base.at then Good(base)
    else if |data| < 55 then Bad(ShortAttestedData)
    else
      var n := BigEndian(data, 53, 2);
      if 55 + n > |data| then Bad(ShortCredential) else
      match CoseToPoint(data, 55 + n, decode)
      case Bad(e) => Bad(e)
      case Good(key) => Good(base.(credential := Some(Credential(data[55..55 + n], key))))
  }

  /** The flags byte (section 6.1): bit 0 for presence, 2 for verification, 6 for attested data, and `others`. */
  function FlagByte(up: bool, uv: bool, at: bool, others: Byte): Byte
    requires Plain(others)
  {
    others + (if up then 1 else 0) + (if uv then 4 else 0) + (if at then 64 else 0)
  }

  predicate Plain(others: Byte) { !UserPresent(others) && !UserVerified(others) && !Attested(others) }

  lemma FlagsReadBack(up: bool, uv: bool, at: bool, others: Byte)
    requires Plain(others)
    ensures
      var flags := FlagByte(up, uv, at, others);
      UserPresent(flags) == up && UserVerified(flags) == uv && Attested(flags) == at
  {}

  lemma FlagsWereSet(flags: Byte) returns (others: Byte)
    ensures Plain(others) && flags == FlagByte(UserPresent(flags), UserVerified(flags), Attested(flags), others)
  {
    var second, middle, top: nat := flags / 2 % 2, flags / 8 % 8, flags / 128;
    InBits(flags);
    OtherBits(second, middle, top);
    others := 2 * second + 8 * middle + 128 * top;
  }

  lemma InBits(n: nat)
    ensures n == n % 2 + 2 * (n / 2 % 2) + 4 * (n / 4 % 2) + 8 * (n / 8 % 8) + 64 * (n / 64 % 2) + 128 * (n / 128)
  {
    assert n / 4 == n / 2 / 2 && n / 8 == n / 4 / 2 && n / 64 == n / 8 / 8 && n / 128 == n / 64 / 2;
  }

  lemma OtherBits(second: nat, middle: nat, top: nat)
    requires second < 2 && middle < 8
    ensures
      var n := 2 * second + 8 * middle + 128 * top;
      n % 2 == 0 && n / 4 % 2 == 0 && n / 64 % 2 == 0
  {
    var n := 2 * second + 8 * middle + 128 * top;
    assert n / 4 == 2 * middle + 32 * top && n / 64 == 2 * top;
  }

  /** The format laid out: hash, flags, counter, and when attested the AAGUID, credential id and key. */
  function Fixed(rpIdHash: Bytes, flags: Byte, counter: nat): Bytes { rpIdHash + ([flags] + Digits(counter, 4)) }

  function AttestedPart(aaguid: Bytes, id: Bytes, cose: Item): Bytes
    requires Valid(cose)
  {
    aaguid + (Digits(|id|, 2) + (id + Encode(cose)))
  }

  /** The item is a key for ES256 on P-256 (type 2, algorithm -7, curve 1) with these coordinates. */
  predicate IsKey(cose: Item, x: Bytes, y: Bytes, decode: Bytes -> string) {
    && Valid(cose) && |x| == 32 && |y| == 32
    && match Denote(cose, decode)
       case Some(Dict(es)) =>
         && Get(es, NumberKey(1)) == Some(Number(2)) && Get(es, NumberKey(3)) == Some(Number(-7))
         && Get(es, NumberKey(-1)) == Some(Number(1))
         && Get(es, NumberKey(-2)) == Some(Binary(x)) && Get(es, NumberKey(-3)) == Some(Binary(y))
       case _ => false
  }

  lemma FixedIsRead(data: Bytes, rpIdHash: Bytes, flags: Byte, counter: nat)
    requires |rpIdHash| == 32 && counter < 0x1_0000_0000 && At(data, 0, Fixed(rpIdHash, flags, counter))
    ensures |data| >= 37 && data[..32] == rpIdHash && data[32] == flags && BigEndian(data, 33, 4) == counter
  {
    AtSplit(data, 0, rpIdHash, [flags] + Digits(counter, 4));
    AtSplit(data, 32, [flags], Digits(counter, 4));
    assert data[32] == data[32..33][0];
    Limits();
    DigitsAreRead(data, 33, counter, 4);
  }

  lemma AttestedParts(data: Bytes, aaguid: Bytes, id: Bytes, cose: Bytes)
    requires |aaguid| == 16 && At(data, 37, aaguid + (Digits(|id|, 2) + (id + cose)))
    ensures At(data, 53, Digits(|id|, 2)) && At(data, 55, id) && At(data, 55 + |id|, cose)
  {
    AtSplit(data, 37, aaguid, Digits(|id|, 2) + (id + cose));
    AtSplit(data, 53, Digits(|id|, 2), id + cose);
    AtSplit(data, 55, id, cose);
  }

  lemma KeyIsRead(data: Bytes, offset: nat, cose: Item, x: Bytes, y: Bytes, decode: Bytes -> string)
    requires IsKey(cose, x, y, decode) && At(data, offset, Encode(cose))
    ensures CoseToPoint(data, offset, decode) == Good([4] + x + y)
  {
    EncodedIsRead(data, offset, cose, decode);
  }

  lemma AttestedIsRead(data: Bytes, aaguid: Bytes, id: Bytes, cose: Item, x: Bytes, y: Bytes, decode: Bytes -> string)
    requires |aaguid| == 16 && |id| < 0x1_0000 && IsKey(cose, x, y, decode)
    requires At(data, 37, AttestedPart(aaguid, id, cose))
    ensures 55 + |id| <= |data| && BigEndian(data, 53, 2) == |id| && data[55..55 + |id|] == id
    ensures CoseToPoint(data, 55 + |id|, decode) == Good([4] + x + y)
  {
    AttestedParts(data, aaguid, id, Encode(cose));
    Limits();
    DigitsAreRead(data, 53, |id|, 2);
    KeyIsRead(data, 55 + |id|, cose, x, y, decode);
  }

  lemma PlainIsParsed(data: Bytes, rpIdHash: Bytes, flags: Byte, counter: nat, decode: Bytes -> string)
    requires |rpIdHash| == 32 && counter < 0x1_0000_0000 && !Attested(flags) &&
             At(data, 0, Fixed(rpIdHash, flags, counter))
    ensures ParseAuthData(data, decode) ==
            Good(AuthData(rpIdHash, flags, UserPresent(flags), UserVerified(flags), false, counter, None))
  {
    FixedIsRead(data, rpIdHash, flags, counter);
  }

  lemma AttestedIsParsed(data: Bytes, rpIdHash: Bytes, flags: Byte, counter: nat, aaguid: Bytes, id: Bytes,
                         cose: Item, x: Bytes, y: Bytes, decode: Bytes -> string)
    requires |rpIdHash| == 32 && counter < 0x1_0000_0000 && Attested(flags) &&
             At(data, 0, Fixed(rpIdHash, flags, counter))
    requires |aaguid| == 16 && |id| < 0x1_0000 && IsKey(cose, x, y, decode) &&
             At(data, 37, AttestedPart(aaguid, id, cose))
    ensures ParseAuthData(data, decode) ==
            Good(AuthData(rpIdHash, flags, UserPresent(flags), UserVerified(flags), true, counter,
                          Some(Credential(id, [4] + x + y))))
  {
    FixedIsRead(data, rpIdHash, flags, counter);
    AttestedIsRead(data, aaguid, id, cose, x, y, decode);
  }

  /** Authenticator data laid out by the standard, with anything behind it, reads as what was laid out. */
  lemma LaidOutIsParsed(rpIdHash: Bytes, up: bool, uv: bool, at: bool, others: Byte, counter: nat, aaguid: Bytes,
                        id: Bytes, cose: Item, x: Bytes, y: Bytes, rest: Bytes, decode: Bytes -> string)
    requires |rpIdHash| == 32 && Plain(others) && counter < 0x1_0000_0000
    requires |aaguid| == 16 && |id| < 0x1_0000 && IsKey(cose, x, y, decode)
    ensures
      var flags := FlagByte(up, uv, at, others);
      var part := if at then AttestedPart(aaguid, id, cose) else [];
      var credential := if at then Some(Credential(id, [4] + x + y)) else None;
      ParseAuthData(Fixed(rpIdHash, flags, counter) + part + rest, decode) ==
      Good(AuthData(rpIdHash, flags, up, uv, at, counter, credential))
  {
    var flags := FlagByte(up, uv, at, others);
    var fixed, part := Fixed(rpIdHash, flags, counter), if at then AttestedPart(aaguid, id, cose) else [];
    FlagsReadBack(up, uv, at, others);
    AtFront(fixed, part, 0, fixed);
    AtFront(fixed + part, rest, 0, fixed);
    if at {
      AtBack(fixed, part);
      AtFront(fixed + part, rest, 37, part);
      AttestedIsParsed(fixed + part + rest, rpIdHash, flags, counter, aaguid, id, cose, x, y, decode);
    } else {
      PlainIsParsed(fixed + part + rest, rpIdHash, flags, counter, decode);
    }
  }

  lemma FixedParts(data: Bytes)
    requires |data| >= 37
    ensures data == data[..32] + ([data[32]] + data[33..37]) + data[37..]
  {}

  lemma FixedWasLaidOut(data: Bytes)
    requires |data| >= 37
    ensures BigEndian(data, 33, 4) < 0x1_0000_0000
    ensures data == Fixed(data[..32], data[32], BigEndian(data, 33, 4)) + data[37..]
  {
    Limits();
    DigitsWereEncoded(data, 33, 4);
    FixedParts(data);
  }

  /** Data that parses with a credential was laid out by the standard, with that id and that key. */
  lemma ParsedWasLaidOut(data: Bytes, decode: Bytes -> string)
    returns (others: Byte, aaguid: Bytes, cose: Item, x: Bytes, y: Bytes, rest: Bytes)
    requires ParseAuthData(data, decode).Good? && ParseAuthData(data, decode).value.credential.Some?
    ensures
      var p := ParseAuthData(data, decode).value;
      var c := p.credential.value;
      && |p.rpIdHash| == 32 && |aaguid| == 16 && |c.id| < 0x1_0000 && p.counter < 0x1_0000_0000
      && Plain(others) && p.at && p.flags == FlagByte(p.up, p.uv, p.at, others)
      && IsKey(cose, x, y, decode) && c.key == [4] + x + y
      && data == Fixed(p.rpIdHash, p.flags, p.counter) + AttestedPart(aaguid, c.id, cose) + rest
  {
    FixedWasLaidOut(data);
    others := FlagsWereSet(data[32]);
    var n := BigEndian(data, 53, 2);
    var next := Read(data, 55 + n, decode).next;
    cose := ReadWasEncoded(data, 55 + n, decode);
    var es := Read(data, 55 + n, decode).value.entries;
    x, y := NumberAt(es, -2).value.b, NumberAt(es, -3).value.b;
    aaguid, rest := data[37..53], data[next..];
    Limits();
    DigitsWereEncoded(data, 53, 2);
    AttestedJoined(data, n, next, cose);
  }

  lemma AttestedJoined(data: Bytes, n: nat, next: nat, cose: Item)
    requires 55 + n <= next <= |data| && Valid(cose) && data[55 + n..next] == Encode(cose)
    requires Digits(n, 2) == data[53..55]
    ensures data[37..] == AttestedPart(data[37..53], data[55..55 + n], cose) + data[next..]
  {
    Joined(data, 55, 55 + n, next);
    Joined(data, 53, 55, next);
    Joined(data, 37, 53, next);
    Joined(data, 37, next, |data|);
  }

  /**
   * How parsing ends, by the length and the flags of the data: too short for one of its parts, in the order
   * in which they come; without a credential; or with whatever the key that follows reads as.
   */
  lemma ParseEnds(data: Bytes, decode: Bytes -> string)
    ensures
      var r := ParseAuthData(data, decode);
      && (r == Bad(ShortAuthData) <==> |data| < 37)
      && (r.Good? && r.value.credential.None? <==> |data| >= 37 && data[32] / 64 % 2 == 0)
      && (r == Bad(ShortAttestedData) <==> 37 <= |data| < 55 && data[32] / 64 % 2 == 1)
      && (r == Bad(ShortCredential) <==> |data| >= 55 && data[32] / 64 % 2 == 1 && 55 + Word(data, 53) > |data|)
      && (|data| >= 55 && data[32] / 64 % 2 == 1 && 55 + Word(data, 53) <= |data| ==>
            var key := CoseToPoint(data, 55 + Word(data, 53), decode);
            if key.Bad? then r == Bad(key.error) else r.Good? && r.value.credential.Some?)
  {
    if |data| >= 55 { TwoBytes(data, 53); }
    if |data| >= 55 && 55 + Word(data, 53) <= |data| { KeyErrors(data, 55 + Word(data, 53), decode); }
  }

  /** Two bytes as a number, the higher one first. */
  function Word(data: Bytes, p: nat): nat
    requires p + 2 <= |data|
  {
    var high: nat, low: nat := data[p], data[p + 1];
    256 * high + low
  }

  lemma TwoBytes(data: Bytes, p: nat)
    requires p + 2 <= |data|
    ensures BigEndian(data, p, 2) == Word(data, p)
  {
    var high: nat := data[p];
    assert BigEndian(data, p, 1) == BigEndian(data, p, 0) * 0x100 + high;
  }

  /** What the key reader finds wrong: no CBOR, no map, not ES256 on P-256, or coordinates that are not 32 bytes. */
  lemma KeyErrors(data: Bytes, offset: nat, decode: Bytes -> string)
    requires offset <= |data|
    ensures
      var r, read := CoseToPoint(data, offset, decode), Read(data, offset, decode);
      match read
      case Err(e) => r == Bad(BadCbor(e))
      case Ok(Dict(es), _) =>
        var named := Get(es, NumberKey(1)) == Some(Number(2)) && Get(es, NumberKey(3)) == Some(Number(-7)) &&
                     Get(es, NumberKey(-1)) == Some(Number(1));
        var x, y := Get(es, NumberKey(-2)), Get(es, NumberKey(-3));
        && (r == Bad(UnsupportedCose) <==> !named)
        && (r == Bad(BadPoint) <==> named && !(IsCoordinate(x) && IsCoordinate(y)))
      case Ok(_, _) => r == Bad(BadCose)
  {}

  // ---- Challenges ----

  const LIFETIME: nat := 60000
  const MOST: nat := 64

  /** Challenges are random strings that are only ever compared. */
  type Token = nat

  datatype Purpose = Register | Assert
  datatype Ticket = Ticket(challenge: Token, purpose: Purpose, expires: int)

  /** `pruned` and `issued` are the two readings of the clock that issuing takes. */
  datatype Event = Issue(challenge: Token, purpose: Purpose, pruned: int, issued: int)
                 | Consume(challenge: Token, purpose: Purpose, time: int)

  function Unexpired(ts: seq<Ticket>, time: int): seq<Ticket> {
    if ts == [] then [] else
    Unexpired(ts[..|ts| - 1], time) + if time > ts[|ts| - 1].expires then [] else [ts[|ts| - 1]]
  }

  function Newest(ts: seq<Ticket>): seq<Ticket> { if |ts| >= MOST then ts[|ts| - (MOST - 1)..] else ts }

  /** Where a challenge stands, or the length when it is not there. */
  function Find(ts: seq<Ticket>, challenge: Token): (i: nat)
    ensures i <= |ts| && (i < |ts| ==> ts[i].challenge == challenge)
  {
    if ts == [] then 0 else if ts[0].challenge == challenge then 0 else 1 + Find(ts[1..], challenge)
  }

  function Store(ts: seq<Ticket>, t: Ticket): seq<Ticket> {
    var i := Find(ts, t.challenge);
    if i < |ts| then ts[i := t] else ts + [t]
  }

  function Remove(ts: seq<Ticket>, challenge: Token): seq<Ticket> {
    var i := Find(ts, challenge);
    if i < |ts| then ts[..i] + ts[i + 1..] else ts
  }

  function Step(ts: seq<Ticket>, e: Event): seq<Ticket> {
    match e
    case Issue(challenge, purpose, pruned, issued) =>
      Store(Newest(Unexpired(ts, pruned)), Ticket(challenge, purpose, issued + LIFETIME))
    case Consume(challenge, _, _) => Remove(ts, challenge)
  }

  function Run(es: seq<Event>): seq<Ticket> {
    if es == [] then [] else Step(Run(es[..|es| - 1]), es[|es| - 1])
  }

  predicate Accepts(ts: seq<Ticket>, challenge: Token, purpose: Purpose, time: int) {
    var i := Find(ts, challenge);
    i < |ts| && ts[i].purpose == purpose && time <= ts[i].expires
  }

  // ---- What the store promises over whole runs ----

  ghost predicate Unique(ts: seq<Ticket>) { forall i, j :: 0 <= i < j < |ts| ==> ts[i].challenge != ts[j].challenge }

  lemma {:induction false} FindIs(ts: seq<Ticket>, challenge: Token, i: nat)
    requires Unique(ts) && i < |ts| && ts[i].challenge == challenge
    ensures Find(ts, challenge) == i
  {
    if i > 0 {
      FindIs(ts[1..], challenge, i - 1);
      assert ts[0].challenge != challenge;
    }
  }

  lemma {:induction false} FindMisses(ts: seq<Ticket>, challenge: Token)
    ensures Find(ts, challenge) == |ts| <==> forall i :: 0 <= i < |ts| ==> ts[i].challenge != challenge
  {
    if ts != [] && ts[0].challenge != challenge {
      FindMisses(ts[1..], challenge);
      assert ts[1..] == ts[1..|ts|];
      if i :| 0 <= i < |ts| && ts[i].challenge == challenge { assert ts[1..][i - 1] == ts[i]; }
    }
  }

  /** Pruning expired tickets keeps an unexpired one, and puts no more tickets behind it. */
  lemma {:induction false} UnexpiredKeeps(ts: seq<Ticket>, time: int)
    requires Unique(ts)
    ensures Unique(Unexpired(ts, time)) && |Unexpired(ts, time)| <= |ts|
    ensures forall t :: t in Unexpired(ts, time) <==> t in ts && time <= t.expires
  {
    if ts != [] {
      UnexpiredKeeps(ts[..|ts| - 1], time);
      assert ts == ts[..|ts| - 1] + [ts[|ts| - 1]];
    }
  }

  /** What the last event about a challenge says: its purpose and when it was issued, or nothing. */
  function LastIssue(es: seq<Event>, challenge: Token): Option<(Purpose, int)> {
    if es == [] then None else
    var e := es[|es| - 1];
    if e.challenge != challenge then LastIssue(es[..|es| - 1], challenge)
    else if e.Issue? then Some((e.purpose, e.issued)) else None
  }

  /** It was issued for that purpose, not consumed since, and has not expired. */
  predicate InDate(es: seq<Event>, challenge: Token, purpose: Purpose, time: int) {
    var issue := LastIssue(es, challenge);
    issue.Some? && issue.value.0 == purpose && time <= issue.value.1 + 60000
  }

  /** How many challenges were issued since the last issue of this one. */
  function IssuesSince(es: seq<Event>, challenge: Token): nat {
    if es == [] then 0 else
    var e := es[|es| - 1];
    if e.Issue? && e.challenge == challenge then 0
    else IssuesSince(es[..|es| - 1], challenge) + if e.Issue? then 1 else 0
  }

  /** `other` was issued after the last issue of this challenge, and not consumed since. */
  predicate StandsBehind(es: seq<Event>, challenge: Token, other: Token) {
    if es == [] then false else
    var e := es[|es| - 1];
    if e.Issue? && e.challenge == challenge then false
    else if e.challenge == other then e.Issue?
    else StandsBehind(es[..|es| - 1], challenge, other)
  }

  /** How many challenges stand behind this one. */
  function Behind(es: seq<Event>, challenge: Token): int {
    if es == [] then 0 else
    var before, e := es[..|es| - 1], es[|es| - 1];
    if e.Issue? then (if e.challenge == challenge then 0 else Behind(before, challenge) + 1)
    else Behind(before, challenge) - if StandsBehind(before, challenge, e.challenge) then 1 else 0
  }

  /** At some time since its last issue, 64 challenges stood behind this one. */
  predicate Crowded(es: seq<Event>, challenge: Token) {
    if es == [] then false else
    var before, e := es[..|es| - 1], es[|es| - 1];
    !(e.Issue? && e.challenge == challenge) && (Crowded(before, challenge) || Behind(es, challenge) >= 64)
  }

  function Now(es: seq<Event>, start: int): int {
    if es == [] then start else if es[|es| - 1].Issue? then es[|es| - 1].issued else es[|es| - 1].time
  }

  /** The clock does not run backwards and no challenge is drawn twice. */
  predicate Orderly(es: seq<Event>, start: int) {
    es == [] ||
    (var before, e := es[..|es| - 1], es[|es| - 1];
     && Orderly(before, start)
     && match e
        case Issue(c, _, pruned, issued) =>
          Now(before, start) <= pruned <= issued && forall k :: 0 <= k < |before| ==> before[k].challenge != c
        case Consume(_, _, time) => Now(before, start) <= time)
  }

  ghost predicate Remembers(ts: seq<Ticket>, es: seq<Event>) {
    && Unique(ts) && |ts| <= MOST
    && forall t :: t in ts ==> LastIssue(es, t.challenge) == Some((t.purpose, t.expires - LIFETIME))
  }

  lemma StoreKeeps(ts: seq<Ticket>, t: Ticket)
    requires Unique(ts)
    ensures Unique(Store(ts, t)) && |Store(ts, t)| <= |ts| + 1
    ensures forall o :: o in Store(ts, t) ==> o == t || (o in ts && o.challenge != t.challenge)
  {
    FindMisses(ts, t.challenge);
    var i := Find(ts, t.challenge);
    forall o | o in Store(ts, t)
      ensures o == t || (o in ts && o.challenge != t.challenge)
    {
      var k :| 0 <= k < |Store(ts, t)| && Store(ts, t)[k] == o;
      if i < |ts| && k != i { assert ts[k].challenge != ts[i].challenge; }
    }
  }

  lemma RemoveKeeps(ts: seq<Ticket>, challenge: Token)
    requires Unique(ts)
    ensures Unique(Remove(ts, challenge)) && |Remove(ts, challenge)| <= |ts|
    ensures forall o :: o in Remove(ts, challenge) ==> o in ts && o.challenge != challenge
  {
    FindMisses(ts, challenge);
    var i := Find(ts, challenge);
    if i < |ts| {
      forall k | 0 <= k < |ts| && k != i
        ensures ts[k].challenge != challenge
      {}
    }
  }

  /** What is held after issuing: the new ticket, and others that were held and do not have its challenge. */
  lemma IssueKeeps(ts: seq<Ticket>, e: Event)
    requires Unique(ts) && |ts| <= MOST && e.Issue?
    ensures Unique(Step(ts, e)) && |Step(ts, e)| <= MOST
    ensures forall t :: t in Step(ts, e) ==>
              t == Ticket(e.challenge, e.purpose, e.issued + LIFETIME) || (t in ts && t.challenge != e.challenge)
  {
    PruneKeeps(ts, e.pruned);
    StoreKeeps(Newest(Unexpired(ts, e.pruned)), Ticket(e.challenge, e.purpose, e.issued + LIFETIME));
  }

  lemma PruneKeeps(ts: seq<Ticket>, time: int)
    requires Unique(ts)
    ensures Unique(Newest(Unexpired(ts, time))) && |Newest(Unexpired(ts, time))| < MOST
    ensures forall t :: t in Newest(Unexpired(ts, time)) ==> t in ts
  {
    UnexpiredKeeps(ts, time);
    LastKeep(Unexpired(ts, time), if |Unexpired(ts, time)| >= MOST then |Unexpired(ts, time)| - (MOST - 1) else 0);
    assert Unexpired(ts, time)[0..] == Unexpired(ts, time);
  }

  lemma LastKeep(ts: seq<Ticket>, q: nat)
    requires Unique(ts) && q <= |ts|
    ensures Unique(ts[q..]) && forall t :: t in ts[q..] ==> t in ts
  {}

  lemma IssueRemembers(ts: seq<Ticket>, es: seq<Event>, e: Event)
    requires Remembers(ts, es) && e.Issue?
    ensures Remembers(Step(ts, e), es + [e])
  {
    IssueKeeps(ts, e);
    forall t | t in Step(ts, e)
      ensures LastIssue(es + [e], t.challenge) == Some((t.purpose, t.expires - LIFETIME))
    {
      LastAfter(es, e, t.challenge);
    }
  }

  lemma ConsumeRemembers(ts: seq<Ticket>, es: seq<Event>, e: Event)
    requires Remembers(ts, es) && e.Consume?
    ensures Remembers(Step(ts, e), es + [e])
  {
    RemoveKeeps(ts, e.challenge);
    forall t | t in Step(ts, e)
      ensures LastIssue(es + [e], t.challenge) == Some((t.purpose, t.expires - LIFETIME))
    {
      LastAfter(es, e, t.challenge);
    }
  }

  lemma LastAfter(es: seq<Event>, e: Event, challenge: Token)
    ensures LastIssue(es + [e], challenge) ==
            if e.challenge != challenge then LastIssue(es, challenge)
            else if e.Issue? then Some((e.purpose, e.issued)) else None
  {
    assert (es + [e])[..|es|] == es;
  }

  /** At most 64 tickets are held, each as its last event says. */
  lemma {:induction false} RunRemembers(es: seq<Event>)
    ensures Remembers(Run(es), es)
  {
    if es != [] {
      var before, e := es[..|es| - 1], es[|es| - 1];
      RunRemembers(before);
      assert es == before + [e];
      if e.Issue? { IssueRemembers(Run(before), before, e); } else { ConsumeRemembers(Run(before), before, e); }
    }
  }

  /** Accepted means: issued for that purpose, at most 60 s old, and not consumed since. */
  lemma AcceptedOnceAndInTime(es: seq<Event>, challenge: Token, purpose: Purpose, time: int)
    requires Accepts(Run(es), challenge, purpose, time)
    ensures InDate(es, challenge, purpose, time)
  {
    RunRemembers(es);
    var t := Run(es)[Find(Run(es), challenge)];
    assert t in Run(es);
  }

  /** A challenge consumed, whatever the answer was, is refused until it is issued again. */
  lemma ConsumedIsGone(es: seq<Event>, challenge: Token, p: Purpose, time: int, purpose: Purpose, later: int)
    ensures !Accepts(Run(es + [Consume(challenge, p, time)]), challenge, purpose, later)
  {
    var all := es + [Consume(challenge, p, time)];
    assert LastIssue(all, challenge) == None;
    if Accepts(Run(all), challenge, purpose, later) { AcceptedOnceAndInTime(all, challenge, purpose, later); }
  }

  lemma {:induction false} NeverNamed(es: seq<Event>, challenge: Token)
    requires forall k :: 0 <= k < |es| ==> es[k].challenge != challenge
    ensures LastIssue(es, challenge) == None
  {
    if es != [] { NeverNamed(es[..|es| - 1], challenge); }
  }

  lemma IssueIsNew(ts: seq<Ticket>, es: seq<Event>, e: Event)
    requires Remembers(ts, es) && e.Issue? && LastIssue(es, e.challenge) == None
    ensures Step(ts, e) == Newest(Unexpired(ts, e.pruned)) + [Ticket(e.challenge, e.purpose, e.issued + LIFETIME)]
  {
    UnexpiredKeeps(ts, e.pruned);
    var live := Unexpired(ts, e.pruned);
    var kept := Newest(live);
    FindMisses(kept, e.challenge);
    forall k | 0 <= k < |kept|
      ensures kept[k].challenge != e.challenge
    {
      assert kept[k] in live;
    }
  }

  lemma ConsumeHolds(ts: seq<Ticket>, challenge: Token, i: nat) returns (k: nat)
    requires i < |ts| && ts[i].challenge != challenge
    ensures k < |Remove(ts, challenge)| && Remove(ts, challenge)[k] == ts[i] &&
            |Remove(ts, challenge)| - 1 - k <= |ts| - 1 - i
  {
    k := if Find(ts, challenge) < i then i - 1 else i;
  }

  // ---- Which challenges are pushed out ----

  /** The oldest ticket first; none expires later than one issued now would. */
  ghost predicate Aged(ts: seq<Ticket>, now: int) {
    && (forall i, j :: 0 <= i < j < |ts| ==> ts[i].expires <= ts[j].expires)
    && (forall i :: 0 <= i < |ts| ==> ts[i].expires <= now + LIFETIME)
  }

  lemma AgedFront(ts: seq<Ticket>, n: nat, now: int)
    requires Aged(ts, now) && n <= |ts|
    ensures Aged(ts[..n], now)
  {}

  lemma SuffixGrows(ts: seq<Ticket>, m: nat)
    requires ts != [] && m <= |ts| - 1
    ensures ts[..|ts| - 1][m..] + [ts[|ts| - 1]] == ts[m..]
  {}

  /** Pruning takes tickets off the front. */
  lemma {:induction false} UnexpiredIsSuffix(ts: seq<Ticket>, time: int, now: int) returns (m: nat)
    requires Aged(ts, now)
    ensures m <= |ts| && Unexpired(ts, time) == ts[m..]
    ensures forall k :: 0 <= k < |ts| ==> (k >= m <==> time <= ts[k].expires)
  {
    m := 0;
    if ts != [] {
      var n := |ts| - 1;
      AgedFront(ts, n, now);
      m := UnexpiredIsSuffix(ts[..n], time, now);
      assert forall k :: 0 <= k < n ==> ts[..n][k] == ts[k];
      if time > ts[n].expires {
        assert m == n && ts[..n][m..] + [] == ts[|ts|..];
        m := |ts|;
      } else {
        SuffixGrows(ts, m);
      }
    }
  }

  /** What issuing keeps are the last tickets; `q` says from which on. */
  lemma KeptIsSuffix(ts: seq<Ticket>, time: int, now: int) returns (q: nat)
    requires Aged(ts, now)
    ensures q <= |ts| && Newest(Unexpired(ts, time)) == ts[q..]
    ensures forall k :: 0 <= k < |ts| && time <= ts[k].expires ==> (k >= q <==> |ts| - 1 - k < MOST - 1)
  {
    var m := UnexpiredIsSuffix(ts, time, now);
    q := if |ts| - m >= MOST then |ts| - (MOST - 1) else m;
  }

  lemma IssueAges(ts: seq<Ticket>, q: nat, t: Ticket, now: int, later: int)
    requires Aged(ts, now) && q <= |ts| && now <= later && t.expires == later + LIFETIME
    ensures Aged(ts[q..] + [t], later)
  {
    var after := ts[q..] + [t];
    forall k | 0 <= k < |after|
      ensures after[k] == if k < |ts| - q then ts[k + q] else t
    {}
  }

  lemma ConsumeAges(ts: seq<Ticket>, challenge: Token, now: int, later: int)
    requires Aged(ts, now) && now <= later
    ensures Aged(Remove(ts, challenge), later)
  {
    var f, after := Find(ts, challenge), Remove(ts, challenge);
    forall k | 0 <= k < |after|
      ensures after[k] == ts[if k < f then k else k + 1]
    {}
  }

  lemma {:induction false} RunIsAged(es: seq<Event>, start: int)
    requires Orderly(es, start)
    ensures Aged(Run(es), Now(es, start))
  {
    if es != [] {
      var before, e := es[..|es| - 1], es[|es| - 1];
      RunIsAged(before, start);
      if e.Issue? {
        RunRemembers(before);
        NeverNamed(before, e.challenge);
        IssueIsNew(Run(before), before, e);
        var q := KeptIsSuffix(Run(before), e.pruned, Now(before, start));
        IssueAges(Run(before), q, Ticket(e.challenge, e.purpose, e.issued + LIFETIME), Now(before, start), e.issued);
      } else {
        ConsumeAges(Run(before), e.challenge, Now(before, start), e.time);
      }
    }
  }

  /** The challenge's ticket, with exactly those behind it that stand behind it. */
  ghost predicate HeldAt(ts: seq<Ticket>, es: seq<Event>, challenge: Token, i: nat) {
    && LastIssue(es, challenge).Some?
    && i < |ts| && |ts| - 1 - i == Behind(es, challenge)
    && ts[i] == Ticket(challenge, LastIssue(es, challenge).value.0, LastIssue(es, challenge).value.1 + LIFETIME)
    && forall x :: x != challenge ==> (HasBehind(ts, i, x) <==> StandsBehind(es, challenge, x))
  }

  ghost predicate HasBehind(ts: seq<Ticket>, i: nat, x: Token) { exists k :: i < k < |ts| && ts[k].challenge == x }

  ghost predicate Absent(ts: seq<Ticket>, challenge: Token) {
    forall k :: 0 <= k < |ts| ==> ts[k].challenge != challenge
  }

  lemma IssueMoves(ts: seq<Ticket>, q: nat, t: Ticket, i: nat, x: Token)
    requires q <= i < |ts|
    ensures HasBehind(ts[q..] + [t], i - q, x) <==> HasBehind(ts, i, x) || x == t.challenge
  {
    var after := ts[q..] + [t];
    if HasBehind(ts, i, x) {
      var k :| i < k < |ts| && ts[k].challenge == x;
      assert after[k - q].challenge == x;
    }
    if x == t.challenge { assert after[|after| - 1].challenge == x; }
    if HasBehind(after, i - q, x) && x != t.challenge {
      var k :| i - q < k < |after| && after[k].challenge == x;
      assert ts[k + q].challenge == x;
    }
  }

  /** Another challenge is issued: the ticket stays exactly when fewer than 63 stand behind it. */
  lemma IssueHolds(ts: seq<Ticket>, es: seq<Event>, e: Event, now: int, challenge: Token, i: nat) returns (k: nat)
    requires Remembers(ts, es) && Aged(ts, now) && HeldAt(ts, es, challenge, i)
    requires e.Issue? && e.challenge != challenge && LastIssue(es, e.challenge) == None && e.pruned <= ts[i].expires
    ensures Behind(es + [e], challenge) == Behind(es, challenge) + 1
    ensures if Behind(es + [e], challenge) < MOST then HeldAt(Step(ts, e), es + [e], challenge, k)
            else Absent(Step(ts, e), challenge)
  {
    var t := Ticket(e.challenge, e.purpose, e.issued + LIFETIME);
    assert (es + [e])[..|es|] == es;
    IssueIsNew(ts, es, e);
    var q := KeptIsSuffix(ts, e.pruned, now);
    if i >= q {
      k := i - q;
      forall x | x != challenge
        ensures HasBehind(Step(ts, e), k, x) <==> StandsBehind(es + [e], challenge, x)
      {
        IssueMoves(ts, q, t, i, x);
      }
    } else {
      k := 0;
      PushedOut(ts, q, t, i);
    }
  }

  lemma PushedOut(ts: seq<Ticket>, q: nat, t: Ticket, i: nat)
    requires Unique(ts) && i < q <= |ts| && t.challenge != ts[i].challenge
    ensures Absent(ts[q..] + [t], ts[i].challenge)
  {
    var after := ts[q..] + [t];
    forall k | 0 <= k < |after|
      ensures after[k].challenge != ts[i].challenge
    {
      if k < |ts| - q { assert after[k] == ts[k + q]; }
    }
  }

  lemma BehindIsFound(ts: seq<Ticket>, c: Token, i: nat)
    requires Unique(ts) && i < |ts| && ts[i].challenge != c
    ensures HasBehind(ts, i, c) <==> i < Find(ts, c) < |ts|
  {
    if HasBehind(ts, i, c) {
      var j :| i < j < |ts| && ts[j].challenge == c;
      FindIs(ts, c, j);
    }
  }

  lemma RemovedTo(ts: seq<Ticket>, c: Token, j: nat) returns (k: nat)
    requires j < |ts| && ts[j].challenge != c
    ensures k == (if Find(ts, c) < j then j - 1 else j) < |Remove(ts, c)| && Remove(ts, c)[k] == ts[j]
  {
    k := if Find(ts, c) < j then j - 1 else j;
  }

  lemma RemovedFrom(ts: seq<Ticket>, c: Token, k: nat) returns (j: nat)
    requires k < |Remove(ts, c)|
    ensures j == (if k < Find(ts, c) then k else k + 1) < |ts| && Remove(ts, c)[k] == ts[j]
  {
    j := if k < Find(ts, c) then k else k + 1;
  }

  lemma BehindBy(ts: seq<Ticket>, i: nat, k: nat, x: Token)
    requires i < k < |ts| && ts[k].challenge == x
    ensures HasBehind(ts, i, x)
  {}

  lemma OthersStayBehind(ts: seq<Ticket>, c: Token, i: nat, x: Token, k: nat)
    requires i < |ts| && ts[i].challenge != c && x != c && HasBehind(ts, i, x)
    requires k == if Find(ts, c) < i then i - 1 else i
    ensures HasBehind(Remove(ts, c), k, x)
  {
    var j :| i < j < |ts| && ts[j].challenge == x;
    var to := RemovedTo(ts, c, j);
    BehindBy(Remove(ts, c), k, to, x);
  }

  lemma NoneComesBehind(ts: seq<Ticket>, c: Token, i: nat, x: Token, k: nat)
    requires Unique(ts) && i < |ts| && ts[i].challenge != c
    requires k == (if Find(ts, c) < i then i - 1 else i) && HasBehind(Remove(ts, c), k, x)
    ensures HasBehind(ts, i, x) && x != c
  {
    var after := Remove(ts, c);
    var j :| k < j < |after| && after[j].challenge == x;
    var from := RemovedFrom(ts, c, j);
    BehindBy(ts, i, from, x);
    RemoveKeeps(ts, c);
    assert after[j] in after;
  }

  lemma ConsumeStays(ts: seq<Ticket>, es: seq<Event>, e: Event, challenge: Token, i: nat) returns (k: nat)
    requires Unique(ts) && HeldAt(ts, es, challenge, i) && e.Consume? && e.challenge != challenge
    ensures HeldAt(Step(ts, e), es + [e], challenge, k) && Behind(es + [e], challenge) <= Behind(es, challenge)
  {
    assert (es + [e])[..|es|] == es;
    k := if Find(ts, e.challenge) < i then i - 1 else i;
    BehindIsFound(ts, e.challenge, i);
    var to := RemovedTo(ts, e.challenge, i);
    forall x | x != challenge
      ensures HasBehind(Step(ts, e), k, x) <==> StandsBehind(es + [e], challenge, x)
    {
      if HasBehind(ts, i, x) && x != e.challenge { OthersStayBehind(ts, e.challenge, i, x, k); }
      if HasBehind(Step(ts, e), k, x) { NoneComesBehind(ts, e.challenge, i, x, k); }
    }
  }

  lemma AbsentBehind(ts: seq<Ticket>, q: nat, t: Ticket, challenge: Token)
    requires Absent(ts, challenge) && q <= |ts| && t.challenge != challenge
    ensures Absent(ts[q..] + [t], challenge)
  {
    forall k | 0 <= k < |ts[q..] + [t]|
      ensures (ts[q..] + [t])[k].challenge != challenge
    {
      if k < |ts| - q { assert ts[q..][k] == ts[q + k]; }
    }
  }

  lemma AbsentWithout(ts: seq<Ticket>, c: Token, challenge: Token)
    requires Absent(ts, challenge)
    ensures Absent(Remove(ts, c), challenge)
  {
    forall k | 0 <= k < |Remove(ts, c)|
      ensures Remove(ts, c)[k].challenge != challenge
    {
      var j := RemovedFrom(ts, c, k);
    }
  }

  lemma StaysAbsent(ts: seq<Ticket>, es: seq<Event>, e: Event, now: int, challenge: Token)
    requires Remembers(ts, es) && Aged(ts, now) && Absent(ts, challenge) && e.challenge != challenge
    requires e.Issue? ==> LastIssue(es, e.challenge) == None
    ensures Absent(Step(ts, e), challenge)
  {
    if e.Issue? {
      IssueIsNew(ts, es, e);
      var q := KeptIsSuffix(ts, e.pruned, now);
      AbsentBehind(ts, q, Ticket(e.challenge, e.purpose, e.issued + LIFETIME), challenge);
    } else {
      AbsentWithout(ts, e.challenge, challenge);
    }
  }

  /** A challenge in date is held exactly unless 64 others stood behind it at some time. */
  lemma {:induction false} HeldExactly(es: seq<Event>, start: int, challenge: Token) returns (i: nat)
    requires Orderly(es, start) && LastIssue(es, challenge).Some?
    requires Now(es, start) <= LastIssue(es, challenge).value.1 + LIFETIME
    ensures if Crowded(es, challenge) then Absent(Run(es), challenge)
            else HeldAt(Run(es), es, challenge, i) && Behind(es, challenge) < MOST
  {
    var before, e := es[..|es| - 1], es[|es| - 1];
    var ts := Run(before);
    assert es == before + [e];
    RunRemembers(before);
    RunIsAged(before, start);
    if e.Issue? { NeverNamed(before, e.challenge); }
    if e.challenge == challenge {
      IssueIsNew(ts, before, e);
      i := |Run(es)| - 1;
    } else {
      i := HeldExactly(before, start, challenge);
      if Crowded(before, challenge) {
        StaysAbsent(ts, before, e, Now(before, start), challenge);
      } else if e.Issue? {
        i := IssueHolds(ts, before, e, Now(before, start), challenge, i);
      } else {
        i := ConsumeStays(ts, before, e, challenge, i);
      }
    }
  }

  /**
   * A challenge is accepted exactly when it is in date for the purpose and never had 64 others, issued
   * after it and not consumed, behind it.
   */
  lemma AcceptsExactly(es: seq<Event>, start: int, challenge: Token, purpose: Purpose, time: int)
    requires Orderly(es, start) && Now(es, start) <= time
    ensures Accepts(Run(es), challenge, purpose, time) <==>
            InDate(es, challenge, purpose, time) && !Crowded(es, challenge)
  {
    if Accepts(Run(es), challenge, purpose, time) { AcceptedOnceAndInTime(es, challenge, purpose, time); }
    if InDate(es, challenge, purpose, time) {
      var i := HeldExactly(es, start, challenge);
      RunRemembers(es);
      FindMisses(Run(es), challenge);
      if !Crowded(es, challenge) { FindIs(Run(es), challenge, i); }
    }
  }

  /** While fewer than 64 were issued since, a challenge is not crowded out. */
  lemma {:induction false} FewNeverCrowd(es: seq<Event>, challenge: Token)
    ensures Behind(es, challenge) <= IssuesSince(es, challenge)
    ensures IssuesSince(es, challenge) < 64 ==> !Crowded(es, challenge)
  {
    if es != [] { FewNeverCrowd(es[..|es| - 1], challenge); }
  }

  // ---- The store ----

  lemma TicketAnswers(ts: seq<Ticket>, t: Ticket)
    requires Unique(ts) && t in ts
    ensures forall p, time :: Accepts(ts, t.challenge, p, time) <==> p == t.purpose && time <= t.expires
  {
    var i :| 0 <= i < |ts| && ts[i] == t;
    FindIs(ts, t.challenge, i);
  }

  lemma SameAnswers(a: seq<Ticket>, b: seq<Ticket>, challenge: Token)
    requires Unique(a) && Unique(b)
    requires forall t :: t in a && t.challenge == challenge ==> t in b
    ensures forall p, time :: Accepts(a, challenge, p, time) ==> Accepts(b, challenge, p, time)
  {
    var i := Find(a, challenge);
    if i < |a| {
      assert a[i] in a;
      TicketAnswers(a, a[i]);
      TicketAnswers(b, a[i]);
    }
  }

  lemma RemoveLeavesOthers(ts: seq<Ticket>, challenge: Token, t: Ticket)
    requires t in ts && t.challenge != challenge
    ensures t in Remove(ts, challenge)
  {
    var i :| 0 <= i < |ts| && ts[i] == t;
    var k := ConsumeHolds(ts, challenge, i);
  }

  /** The challenge is accepted for this purpose and up to this time, and in no other way. */
  ghost predicate AcceptedUntil(ts: seq<Ticket>, challenge: Token, purpose: Purpose, expires: int) {
    forall p, time :: Accepts(ts, challenge, p, time) <==> p == purpose && time <= expires
  }

  /** No other challenge is accepted that was not before. */
  ghost predicate NothingElseNew(before: seq<Ticket>, after: seq<Ticket>, challenge: Token) {
    forall c, p, time :: c != challenge && Accepts(after, c, p, time) ==> Accepts(before, c, p, time)
  }

  lemma IssueAnswers(ts: seq<Ticket>, es: seq<Event>, e: Event)
    requires Remembers(ts, es) && e.Issue?
    ensures AcceptedUntil(Step(ts, e), e.challenge, e.purpose, e.issued + LIFETIME)
    ensures NothingElseNew(ts, Step(ts, e), e.challenge)
  {
    var t := Ticket(e.challenge, e.purpose, e.issued + LIFETIME);
    IssueKeeps(ts, e);
    StoreHolds(Newest(Unexpired(ts, e.pruned)), t);
    TicketAnswers(Step(ts, e), t);
    forall c, p, time | c != e.challenge && Accepts(Step(ts, e), c, p, time)
      ensures Accepts(ts, c, p, time)
    {
      SameAnswers(Step(ts, e), ts, c);
    }
  }

  lemma StoreHolds(ts: seq<Ticket>, t: Ticket)
    ensures t in Store(ts, t)
  {
    var i := Find(ts, t.challenge);
    assert Store(ts, t)[i] == t;
  }

  lemma ConsumeAnswers(ts: seq<Ticket>, es: seq<Event>, e: Event)
    requires Remembers(ts, es) && e.Consume?
    ensures forall p, time :: !Accepts(Step(ts, e), e.challenge, p, time)
    ensures forall c, p, time :: c != e.challenge ==> (Accepts(Step(ts, e), c, p, time) <==> Accepts(ts, c, p, time))
  {
    var after := Step(ts, e);
    RemoveKeeps(ts, e.challenge);
    forall c, p, time | c != e.challenge
      ensures Accepts(after, c, p, time) <==> Accepts(ts, c, p, time)
    {
      forall t | t in ts && t.challenge == c
        ensures t in after
      {
        RemoveLeavesOthers(ts, e.challenge, t);
      }
      SameAnswers(after, ts, c);
      SameAnswers(ts, after, c);
    }
  }

  lemma IssueIsStep(ts: seq<Ticket>, es: seq<Event>, e: Event, after: seq<Ticket>)
    requires ts == Run(es) && e.Issue?
    requires after == Store(Newest(Unexpired(ts, e.pruned)), Ticket(e.challenge, e.purpose, e.issued + LIFETIME))
    ensures after == Step(ts, e)
    ensures AcceptedUntil(after, e.challenge, e.purpose, e.issued + LIFETIME) && NothingElseNew(ts, after, e.challenge)
  {
    RunRemembers(es);
    IssueAnswers(ts, es, e);
  }

  class Challenges {
    var tickets: seq<Ticket>
    /** Everything issued and consumed so far. */
    ghost var history: seq<Event>

    /** The store is what the history makes of an empty one. */
    ghost predicate Valid()
      reads this
    {
      tickets == Run(history)
    }

    constructor ()
      ensures Valid() && history == []
    {
      tickets, history := [], [];
    }

    ghost method Record(e: Event)
      requires tickets == Step(Run(history), e)
      modifies this`history
      ensures Valid() && history == old(history) + [e]
    {
      assert (history + [e])[..|history|] == history;
      history := history + [e];
    }

    method Size() returns (n: nat)
      requires Valid()
      ensures n == |tickets| <= 64
    {
      RunRemembers(history);
      n := |tickets|;
    }

    /** From now on the new challenge is accepted for its purpose until it expires, and nothing else anew. */
    method IssueChallenge(challenge: Token, purpose: Purpose, pruned: int, issued: int)
      requires Valid()
      modifies this
      ensures Valid() && history == old(history) + [Issue(challenge, purpose, pruned, issued)]
      ensures AcceptedUntil(tickets, challenge, purpose, issued + 60000)
      ensures NothingElseNew(old(tickets), tickets, challenge)
    {
      var kept := Prune(pruned);
      tickets := Put(kept, Ticket(challenge, purpose, issued + LIFETIME));
      IssueIsStep(old(tickets), history, Issue(challenge, purpose, pruned, issued), tickets);
      Record(Issue(challenge, purpose, pruned, issued));
    }

    /** The map keeps the place of a key it has and puts a new one last. */
    static method Put(kept: seq<Ticket>, t: Ticket) returns (r: seq<Ticket>)
      ensures r == Store(kept, t)
    {
      var at := Find(kept, t.challenge);
      r := if at < |kept| then kept[at := t] else kept + [t];
    }

    /** The two loops in front of issuing: what has expired goes, then the oldest down to 63. */
    method Prune(now: int) returns (kept: seq<Ticket>)
      ensures kept == Newest(Unexpired(tickets, now))
    {
      kept := [];
      for i := 0 to |tickets|
        invariant kept == Unexpired(tickets[..i], now)
      {
        assert tickets[..i + 1][..i] == tickets[..i];
        if now <= tickets[i].expires { kept := kept + [tickets[i]]; }
      }
      assert tickets[..|tickets|] == tickets;
      ghost var all := kept;
      while |kept| >= MOST
        invariant |kept| < MOST - 1 ==> kept == all
        invariant |kept| <= |all| && kept == all[|all| - |kept|..]
        invariant |kept| < MOST ==> kept == Newest(all)
      {
        kept := kept[1..];
      }
    }

    /**
     * A challenge is good for one answer: what is accepted was issued for that purpose at most 60 s ago and
     * not consumed since; while the clock ran forward and no challenge was drawn twice it is exactly that,
     * but for what 64 later ones pushed out; and whatever the answer, this challenge alone is spent.
     */
    method ConsumeChallenge(challenge: Token, purpose: Purpose, time: int) returns (ok: bool)
      requires Valid()
      modifies this
      ensures Valid() && history == old(history) + [Consume(challenge, purpose, time)]
      ensures ok ==> InDate(old(history), challenge, purpose, time)
      ensures forall start :: Orderly(old(history), start) && Now(old(history), start) <= time ==>
                (ok <==> InDate(old(history), challenge, purpose, time) && !Crowded(old(history), challenge))
      ensures forall p, t :: !Accepts(tickets, challenge, p, t)
      ensures forall c, p, t :: c != challenge ==> (Accepts(tickets, c, p, t) <==> Accepts(old(tickets), c, p, t))
    {
      RunRemembers(history);
      ConsumeAnswers(tickets, history, Consume(challenge, purpose, time));
      var at := Find(tickets, challenge);
      ok := at < |tickets| && tickets[at].purpose == purpose && time <= tickets[at].expires;
      if ok { AcceptedOnceAndInTime(history, challenge, purpose, time); }
      forall start | Orderly(history, start) && Now(history, start) <= time
        ensures ok <==> InDate(history, challenge, purpose, time) && !Crowded(history, challenge)
      {
        AcceptsExactly(history, start, challenge, purpose, time);
      }
      if at < |tickets| { tickets := tickets[..at] + tickets[at + 1..]; }
      Record(Consume(challenge, purpose, time));
    }
  }
}
