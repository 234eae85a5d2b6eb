/**
 * The CBOR reader used on WebAuthn data: definite-length integers, strings, arrays and maps with
 * arguments of at most four bytes (RFC 8949 section 3), against an independent encoder.
 */
module Cbor {
  import opened ByteStrings
  import opened Options
  import opened OrderedMap

  // ---- Values ----

  datatype Key = NumberKey(n: int) | TextKey(s: string)
  datatype Value =
    | Number(n: int) | Binary(b: Bytes) | Text(s: string)
    | List(items: seq<Value>) | Dict(entries: seq<Entry<Key, Value>>)

  function KeyOf(v: Value): Option<Key> {
    match v
    case Number(n) => Some(NumberKey(n))
    case Text(s) => Some(TextKey(s))
    case _ => None
  }

  // ---- Reader ----

  datatype Error = Truncated | Unsupported | UnsupportedInteger | BadKey
  datatype Result<T> = Ok(value: T, next: nat) | Err(error: Error)
  datatype Head = Head(major: nat, argument: nat)

  function BigEndian(b: Bytes, p: nat, count: nat): nat
    requires p + count <= |b|
  {
    if count == 0 then 0 else BigEndian(b, p, count - 1) * 0x100 + b[p + count - 1]
  }

  /** How many bytes behind the first one hold the argument. */
  function ArgumentBytes(info: nat): nat {
    if info == 24 then 1 else if info == 25 then 2 else if info == 26 then 4 else 0
  }

  function ReadHead(buf: Bytes, offset: nat): (r: Result<Head>)
    ensures r.Ok? ==> offset < r.next <= |buf|
  {
    if offset >= |buf| then Err(Truncated) else
    var major, info, at := buf[offset] / 32, buf[offset] % 32, offset + 1;
    if info == 31 || major > 5 then Err(Unsupported)
    else if info > 26 then Err(UnsupportedInteger)
    else if at + ArgumentBytes(info) > |buf| then Err(Truncated)
    else Ok(Head(major, if info < 24 then info else BigEndian(buf, at, ArgumentBytes(info))), at + ArgumentBytes(info))
  }

  /** `decode` stands for the text decoder. */
  function Read(buf: Bytes, offset: nat, decode: Bytes -> string): (r: Result<Value>)
    ensures r.Ok? ==> offset < r.next <= |buf|
    decreases |buf| - offset, 0, 0
  {
    match ReadHead(buf, offset)
    case Err(e) => Err(e)
    case Ok(head, at) =>
      var n := head.argument;
      if head.major == 0 then Ok(Number(n), at)
      else if head.major == 1 then Ok(Number(-1 - n), at)
      else if head.major == 2 || head.major == 3 then
        if at + n > |buf| then Err(Truncated)
        else Ok(if head.major == 2 then Binary(buf[at..at + n]) else Text(decode(buf[at..at + n])), at + n)
      else if head.major == 4 then
        match ReadItems(buf, at, n, decode)
        case Err(e) => Err(e)
        case Ok(items, next) => Ok(List(items), next)
      else
        match ReadEntries(buf, at, n, [], decode)
        case Err(e) => Err(e)
        case Ok(entries, next) => Ok(Dict(entries), next)
  }

  /** `n` values one behind the other. */
  function ReadItems(buf: Bytes, offset: nat, n: nat, decode: Bytes -> string): (r: Result<seq<Value>>)
    requires offset <= |buf|
    ensures r.Ok? ==> offset <= r.next <= |buf|
    decreases |buf| - offset, 1, n
  {
    if n == 0 then Ok([], offset) else
    match Read(buf, offset, decode)
    case Err(e) => Err(e)
    case Ok(first, next) =>
      match ReadItems(buf, next, n - 1, decode)
      case Err(e) => Err(e)
      case Ok(rest, end) => Ok([first] + rest, end)
  }

  /** `n` pairs one behind the other, set in `entries` in turn. */
  function ReadEntries(buf: Bytes, offset: nat, n: nat, entries: seq<Entry<Key, Value>>, decode: Bytes -> string)
    : (r: Result<seq<Entry<Key, Value>>>)
    requires offset <= |buf|
    ensures r.Ok? ==> offset <= r.next <= |buf|
    decreases |buf| - offset, 1, n
  {
    if n == 0 then Ok(entries, offset) else
    match Read(buf, offset, decode)
    case Err(e) => Err(e)
    case Ok(key, afterKey) =>
      match Read(buf, afterKey, decode)
      case Err(e) => Err(e)
      case Ok(value, next) =>
        if KeyOf(key).None? then Err(BadKey)
        else ReadEntries(buf, next, n - 1, Put(entries, KeyOf(key).value, value), decode)
  }

  method ReadCbor(buf: Bytes, start: nat, decode: Bytes -> string) returns (r: Result<Value>)
    ensures r == Read(buf, start, decode)
    decreases |buf| - start, 0
  {
    var offset := start;
    if offset >= |buf| { return Err(Truncated); }
    var first: int := buf[offset];
    offset := offset + 1;
    var major, info := first / 32, first % 32;
    if info == 31 || major > 5 { return Err(Unsupported); }
    var number: nat := 0;
    if info < 24 {
      number := info;
    } else if info == 24 {
      if offset >= |buf| { return Err(Truncated); }
      number, offset := buf[offset], offset + 1;
    } else if info == 25 {
      if offset + 2 > |buf| { return Err(Truncated); }
      number, offset := buf[offset] as int * 0x100 + buf[offset + 1], offset + 2;
    } else if info == 26 {
      if offset + 4 > |buf| { return Err(Truncated); }
      number := buf[offset] as int * 0x100_0000 + buf[offset + 1] as int * 0x1_0000 +
                buf[offset + 2] as int * 0x100 + buf[offset + 3];
      offset := offset + 4;
    } else {
      return Err(UnsupportedInteger);
    }
    SmallArguments(buf, start + 1);
    assert ReadHead(buf, start) == Ok(Head(major, number), offset);
    if major == 0 { return Ok(Number(number), offset); }
    if major == 1 { return Ok(Number(-1 - number), offset); }
    if major == 2 || major == 3 {
      var end := offset + number;
      if end > |buf| { return Err(Truncated); }
      return Ok(if major == 2 then Binary(buf[offset..end]) else Text(decode(buf[offset..end])), end);
    }
    if major == 4 {
      r := ReadList(buf, offset, number, decode);
    } else {
      r := ReadMap(buf, offset, number, decode);
    }
  }

  lemma SmallArguments(b: Bytes, p: nat)
    ensures p + 1 <= |b| ==> BigEndian(b, p, 1) == b[p]
    ensures p + 2 <= |b| ==> BigEndian(b, p, 2) == b[p] as int * 0x100 + b[p + 1]
    ensures p + 4 <= |b| ==> (BigEndian(b, p, 4) ==
                              b[p] as int * 0x100_0000 + b[p + 1] as int * 0x1_0000 +
                              b[p + 2] as int * 0x100 + b[p + 3])
  {
    if p + 1 <= |b| { assert BigEndian(b, p, 0) == 0; }
    if p + 4 <= |b| { assert BigEndian(b, p, 3) == BigEndian(b, p, 2) * 0x100 + b[p + 2]; }
  }

  /** The loop over an array's values. */
  method ReadList(buf: Bytes, start: nat, number: nat, decode: Bytes -> string) returns (r: Result<Value>)
    requires start <= |buf|
    ensures
      match ReadItems(buf, start, number, decode)
      case Err(e) => r == Err(e)
      case Ok(items, next) => r == Ok(List(items), next)
    decreases |buf| - start, 1
  {
    var offset, values: seq<Value> := start, [];
    BehindNone(ReadItems(buf, start, number, decode));
    for index := 0 to number
      invariant start <= offset <= |buf|
      invariant ReadItems(buf, start, number, decode) == Behind(values, ReadItems(buf, offset, number - index, decode))
    {
      var result := ReadCbor(buf, offset, decode);
      if result.Err? { return Err(result.error); }
      BehindOne(values, result.value, ReadItems(buf, result.next, number - index - 1, decode));
      values, offset := values + [result.value], result.next;
    }
    assert values + [] == values;
    r := Ok(List(values), offset);
  }

  function Behind(before: seq<Value>, r: Result<seq<Value>>): Result<seq<Value>> {
    match r
    case Err(e) => Err(e)
    case Ok(items, next) => Ok(before + items, next)
  }

  lemma BehindNone(r: Result<seq<Value>>)
    ensures Behind([], r) == r
  {
    if r.Ok? { assert [] + r.value == r.value; }
  }

  lemma BehindOne(before: seq<Value>, one: Value, r: Result<seq<Value>>)
    ensures Behind(before + [one], r) == Behind(before, Behind([one], r))
  {
    if r.Ok? { assert before + [one] + r.value == before + ([one] + r.value); }
  }

  /** The loop over a map's pairs. */
  method ReadMap(buf: Bytes, start: nat, number: nat, decode: Bytes -> string) returns (r: Result<Value>)
    requires start <= |buf|
    ensures
      match ReadEntries(buf, start, number, [], decode)
      case Err(e) => r == Err(e)
      case Ok(entries, next) => r == Ok(Dict(entries), next)
    decreases |buf| - start, 1
  {
    var offset, entries := start, [];
    for index := 0 to number
      invariant start <= offset <= |buf|
      invariant ReadEntries(buf, start, number, [], decode) == ReadEntries(buf, offset, number - index, entries, decode)
    {
      var key := ReadCbor(buf, offset, decode);
      if key.Err? { return Err(key.error); }
      var value := ReadCbor(buf, key.next, decode);
      if value.Err? { return Err(value.error); }
      if KeyOf(key.value).None? { return Err(BadKey); }
      entries, offset := Put(entries, KeyOf(key.value).value, value.value), value.next;
    }
    r := Ok(Dict(entries), offset);
  }

  // ---- What is refused ----

  /** A first byte that begins nothing the reader takes, and the end of the data. */
  lemma HeadErrors(buf: Bytes, offset: nat, decode: Bytes -> string)
    ensures offset >= |buf| ==> Read(buf, offset, decode) == Err(Truncated)
    ensures offset < |buf| && (buf[offset] >= 0xc0 || buf[offset] % 32 == 31) ==>
              Read(buf, offset, decode) == Err(Unsupported)
    ensures offset < |buf| && buf[offset] < 0xc0 && 27 <= buf[offset] % 32 <= 30 ==>
              Read(buf, offset, decode) == Err(UnsupportedInteger)
    ensures offset < |buf| && Read(buf, offset, decode) == Err(UnsupportedInteger) && buf[offset] < 0x80 ==>
              27 <= buf[offset] % 32 <= 30
  {
    if offset < |buf| { assert buf[offset] / 32 > 5 <==> buf[offset] >= 0xc0; }
  }

  /** A pair whose key is neither a number nor a text is refused, once both its halves have been read. */
  lemma KeyErrors(buf: Bytes, offset: nat, n: nat, entries: seq<Entry<Key, Value>>, decode: Bytes -> string)
    requires offset <= |buf| && n > 0 && Read(buf, offset, decode).Ok?
    requires Read(buf, Read(buf, offset, decode).next, decode).Ok?
    ensures
      var key, r := Read(buf, offset, decode), ReadEntries(buf, offset, n, entries, decode);
      var value := Read(buf, key.next, decode);
      match key.value
      case Number(k) => r == ReadEntries(buf, value.next, n - 1, Put(entries, NumberKey(k), value.value), decode)
      case Text(k) => r == ReadEntries(buf, value.next, n - 1, Put(entries, TextKey(k), value.value), decode)
      case _ => r == Err(BadKey)
  {}

  // ---- An independent encoder ----

  /** Where the argument stands: in the first byte, or in the 1, 2 or 4 bytes behind it. */
  datatype Width = Inline | One | Two | Four

  /** A data item as it stands on the wire, with the width chosen for each argument. */
  datatype Item =
    | Whole(width: Width, n: nat)
    | Minus(width: Width, n: nat)
    | Blob(width: Width, b: Bytes)
    | Utf8(width: Width, b: Bytes)
    | Array(width: Width, items: Items)
    | Table(width: Width, pairs: Pairs)
  datatype Items = NoItems | More(first: Item, rest: Items)
  datatype Pairs = NoPairs | Pair(key: Item, value: Item, others: Pairs)

  predicate Holds(w: Width, n: nat) {
    match w
    case Inline => n < 24
    case One => n < 0x100
    case Two => n < 0x1_0000
    case Four => n < 0x1_0000_0000
  }

  function Info(w: Width, n: nat): nat { match w case Inline => n case One => 24 case Two => 25 case Four => 26 }

  function Digits(n: nat, count: nat): (b: Bytes)
    ensures |b| == count
  {
    if count == 0 then [] else Digits(n / 0x100, count - 1) + [n % 0x100]
  }

  function EncodeHead(major: nat, w: Width, n: nat): (b: Bytes)
    requires major <= 5 && Holds(w, n)
    ensures |b| == 1 + ArgumentBytes(Info(w, n))
  {
    [major * 32 + Info(w, n)] + Digits(n, ArgumentBytes(Info(w, n)))
  }

  function Length(items: Items): nat { if items.NoItems? then 0 else 1 + Length(items.rest) }

  function PairCount(pairs: Pairs): nat { if pairs.NoPairs? then 0 else 1 + PairCount(pairs.others) }

  /** Every argument fits the width chosen for it. */
  predicate Valid(item: Item) {
    match item
    case Whole(w, n) => Holds(w, n)
    case Minus(w, n) => Holds(w, n)
    case Blob(w, b) => Holds(w, |b|)
    case Utf8(w, b) => Holds(w, |b|)
    case Array(w, items) => Holds(w, Length(items)) && ValidItems(items)
    case Table(w, pairs) => Holds(w, PairCount(pairs)) && ValidPairs(pairs)
  }

  predicate ValidItems(items: Items) { items.NoItems? || (Valid(items.first) && ValidItems(items.rest)) }

  predicate ValidPairs(pairs: Pairs) {
    pairs.NoPairs? || (Valid(pairs.key) && Valid(pairs.value) && ValidPairs(pairs.others))
  }

  function Encode(item: Item): Bytes
    requires Valid(item)
  {
    match item
    case Whole(w, n) => EncodeHead(0, w, n)
    case Minus(w, n) => EncodeHead(1, w, n)
    case Blob(w, b) => EncodeHead(2, w, |b|) + b
    case Utf8(w, b) => EncodeHead(3, w, |b|) + b
    case Array(w, items) => EncodeHead(4, w, Length(items)) + EncodeItems(items)
    case Table(w, pairs) => EncodeHead(5, w, PairCount(pairs)) + EncodePairs(pairs)
  }

  function EncodeItems(items: Items): Bytes
    requires ValidItems(items)
  {
    if items.NoItems? then [] else Encode(items.first) + EncodeItems(items.rest)
  }

  function EncodePairs(pairs: Pairs): Bytes
    requires ValidPairs(pairs)
  {
    if pairs.NoPairs? then [] else Encode(pairs.key) + (Encode(pairs.value) + EncodePairs(pairs.others))
  }

  /** The value an item stands for; none when a map in it has a key that is not a number or text. */
  function Denote(item: Item, decode: Bytes -> string): Option<Value> {
    match item
    case Whole(_, n) => Some(Number(n))
    case Minus(_, n) => Some(Number(-1 - n))
    case Blob(_, b) => Some(Binary(b))
    case Utf8(_, b) => Some(Text(decode(b)))
    case Array(_, items) =>
      var vs := DenoteItems(items, decode);
      if vs.None? then None else Some(List(vs.value))
    case Table(_, pairs) =>
      var es := DenotePairs(pairs, [], decode);
      if es.None? then None else Some(Dict(es.value))
  }

  function DenoteItems(items: Items, decode: Bytes -> string): Option<seq<Value>> {
    if items.NoItems? then Some([]) else
    var v, vs := Denote(items.first, decode), DenoteItems(items.rest, decode);
    if v.None? || vs.None? then None else Some([v.value] + vs.value)
  }

  function DenotePairs(pairs: Pairs, entries: seq<Entry<Key, Value>>, decode: Bytes -> string)
    : Option<seq<Entry<Key, Value>>> {
    if pairs.NoPairs? then Some(entries) else
    var k, v := Denote(pairs.key, decode), Denote(pairs.value, decode);
    if k.None? || v.None? || KeyOf(k.value).None? then None
    else DenotePairs(pairs.others, Put(entries, KeyOf(k.value).value, v.value), decode)
  }

  // ---- Reading what was encoded ----

  function Limit(count: nat): nat { if count == 0 then 1 else Limit(count - 1) * 0x100 }

  lemma Limits()
    ensures Limit(1) == 0x100 && Limit(2) == 0x1_0000 && Limit(4) == 0x1_0000_0000
  {
    assert Limit(3) == Limit(2) * 0x100 && Limit(0) == 1;
  }

  lemma {:induction false} DigitsAreRead(b: Bytes, p: nat, n: nat, count: nat)
    requires At(b, p, Digits(n, count)) && n < Limit(count)
    ensures BigEndian(b, p, count) == n
  {
    if count > 0 {
      AtSplit(b, p, Digits(n / 0x100, count - 1), [n % 0x100]);
      DigitsAreRead(b, p, n / 0x100, count - 1);
      assert b[p + count - 1] == b[p + count - 1..p + count][0];
    }
  }

  lemma HeadIsRead(buf: Bytes, offset: nat, major: nat, w: Width, n: nat)
    requires major <= 5 && Holds(w, n) && At(buf, offset, EncodeHead(major, w, n))
    ensures ReadHead(buf, offset) == Ok(Head(major, n), offset + |EncodeHead(major, w, n)|)
  {
    var first: Byte := major * 32 + Info(w, n);
    AtSplit(buf, offset, [first], Digits(n, ArgumentBytes(Info(w, n))));
    assert buf[offset] == buf[offset..offset + 1][0] == first;
    if w != Inline {
      Limits();
      DigitsAreRead(buf, offset + 1, n, ArgumentBytes(Info(w, n)));
    }
  }

  lemma StringIsRead(buf: Bytes, offset: nat, major: nat, w: Width, b: Bytes, decode: Bytes -> string)
    requires major == 2 || major == 3
    requires Holds(w, |b|) && At(buf, offset, EncodeHead(major, w, |b|) + b)
    ensures Read(buf, offset, decode) ==
            Ok(if major == 2 then Binary(b) else Text(decode(b)), offset + |EncodeHead(major, w, |b|)| + |b|)
  {
    AtSplit(buf, offset, EncodeHead(major, w, |b|), b);
    HeadIsRead(buf, offset, major, w, |b|);
  }

  /** An item's encoding anywhere in a buffer reads as the item's value, up to where the encoding ends. */
  lemma {:induction false} EncodedIsRead(buf: Bytes, offset: nat, item: Item, decode: Bytes -> string)
    requires Valid(item) && Denote(item, decode).Some? && At(buf, offset, Encode(item))
    ensures Read(buf, offset, decode) == Ok(Denote(item, decode).value, offset + |Encode(item)|)
    decreases item, 1
  {
    match item
    case Whole(w, n) => HeadIsRead(buf, offset, 0, w, n);
    case Minus(w, n) => HeadIsRead(buf, offset, 1, w, n);
    case Blob(w, b) => StringIsRead(buf, offset, 2, w, b, decode);
    case Utf8(w, b) => StringIsRead(buf, offset, 3, w, b, decode);
    case Array(w, items) => ArrayIsRead(buf, offset, w, items, decode);
    case Table(w, pairs) => TableIsRead(buf, offset, w, pairs, decode);
  }

  lemma {:induction false} ArrayIsRead(buf: Bytes, offset: nat, w: Width, items: Items, decode: Bytes -> string)
    requires Holds(w, Length(items)) && ValidItems(items) && DenoteItems(items, decode).Some?
    requires At(buf, offset, EncodeHead(4, w, Length(items)) + EncodeItems(items))
    ensures Read(buf, offset, decode) ==
            Ok(List(DenoteItems(items, decode).value),
               offset + |EncodeHead(4, w, Length(items))| + |EncodeItems(items)|)
    decreases items, 2
  {
    AtSplit(buf, offset, EncodeHead(4, w, Length(items)), EncodeItems(items));
    HeadIsRead(buf, offset, 4, w, Length(items));
    ItemsAreRead(buf, offset + |EncodeHead(4, w, Length(items))|, items, decode);
  }

  lemma {:induction false} TableIsRead(buf: Bytes, offset: nat, w: Width, pairs: Pairs, decode: Bytes -> string)
    requires Holds(w, PairCount(pairs)) && ValidPairs(pairs) && DenotePairs(pairs, [], decode).Some?
    requires At(buf, offset, EncodeHead(5, w, PairCount(pairs)) + EncodePairs(pairs))
    ensures Read(buf, offset, decode) ==
            Ok(Dict(DenotePairs(pairs, [], decode).value),
               offset + |EncodeHead(5, w, PairCount(pairs))| + |EncodePairs(pairs)|)
    decreases pairs, 3
  {
    AtSplit(buf, offset, EncodeHead(5, w, PairCount(pairs)), EncodePairs(pairs));
    HeadIsRead(buf, offset, 5, w, PairCount(pairs));
    PairsAreRead(buf, offset + |EncodeHead(5, w, PairCount(pairs))|, pairs, [], decode);
  }

  lemma {:induction false} ItemsAreRead(buf: Bytes, offset: nat, items: Items, decode: Bytes -> string)
    requires ValidItems(items) && DenoteItems(items, decode).Some? && At(buf, offset, EncodeItems(items))
    ensures ReadItems(buf, offset, Length(items), decode) ==
            Ok(DenoteItems(items, decode).value, offset + |EncodeItems(items)|)
    decreases items, 1
  {
    if items.More? {
      var first, next := FirstItemIsRead(buf, offset, items, decode);
      ItemsAreRead(buf, next, items.rest, decode);
      ItemIsRead(buf, offset, Length(items.rest), first, next, ReadItems(buf, next, Length(items.rest), decode),
                 decode);
    }
  }

  lemma {:induction false} FirstItemIsRead(buf: Bytes, offset: nat, items: Items, decode: Bytes -> string)
    returns (first: Value, next: nat)
    requires items.More? && ValidItems(items) && Denote(items.first, decode).Some? &&
             At(buf, offset, EncodeItems(items))
    ensures Denote(items.first, decode) == Some(first) && Read(buf, offset, decode) == Ok(first, next)
    ensures At(buf, next, EncodeItems(items.rest)) && offset + |EncodeItems(items)| == next + |EncodeItems(items.rest)|
    decreases items, 0
  {
    AtSplit(buf, offset, Encode(items.first), EncodeItems(items.rest));
    EncodedIsRead(buf, offset, items.first, decode);
    first, next := Denote(items.first, decode).value, offset + |Encode(items.first)|;
  }

  lemma ItemIsRead(buf: Bytes, offset: nat, n: nat, first: Value, next: nat, rest: Result<seq<Value>>,
                   decode: Bytes -> string)
    requires Read(buf, offset, decode) == Ok(first, next) && rest == ReadItems(buf, next, n, decode)
    ensures ReadItems(buf, offset, n + 1, decode) == Behind([first], rest)
  {}

  lemma ThreeStand(buf: Bytes, offset: nat, k: Bytes, v: Bytes, rest: Bytes)
    requires At(buf, offset, k + (v + rest))
    ensures At(buf, offset, k) && At(buf, offset + |k|, v) && At(buf, offset + |k| + |v|, rest)
  {
    AtSplit(buf, offset, k, v + rest);
    AtSplit(buf, offset + |k|, v, rest);
  }

  lemma EntryIsRead(buf: Bytes, offset: nat, n: nat, entries: seq<Entry<Key, Value>>, key: Value, middle: nat,
                    value: Value, next: nat, rest: Result<seq<Entry<Key, Value>>>, decode: Bytes -> string)
    requires Read(buf, offset, decode) == Ok(key, middle) && Read(buf, middle, decode) == Ok(value, next)
    requires KeyOf(key).Some? && rest == ReadEntries(buf, next, n, Put(entries, KeyOf(key).value, value), decode)
    ensures ReadEntries(buf, offset, n + 1, entries, decode) == rest
  {}

  /** The first of some pairs is an item each for a key and a value, and the others carry on. */
  predicate Splits(pairs: Pairs, entries: seq<Entry<Key, Value>>, key: Value, value: Value, decode: Bytes -> string) {
    && pairs.Pair? && Valid(pairs.key) && Valid(pairs.value) && ValidPairs(pairs.others)
    && Denote(pairs.key, decode) == Some(key) && Denote(pairs.value, decode) == Some(value) && KeyOf(key).Some?
    && DenotePairs(pairs.others, Put(entries, KeyOf(key).value, value), decode).Some?
  }

  lemma PairsSplit(pairs: Pairs, entries: seq<Entry<Key, Value>>, decode: Bytes -> string)
    returns (key: Value, value: Value)
    requires pairs.Pair? && ValidPairs(pairs) && DenotePairs(pairs, entries, decode).Some?
    ensures Splits(pairs, entries, key, value, decode)
    ensures DenotePairs(pairs, entries, decode) ==
            DenotePairs(pairs.others, Put(entries, KeyOf(key).value, value), decode)
  {
    key, value := Denote(pairs.key, decode).value, Denote(pairs.value, decode).value;
  }

  lemma {:induction false} KeyAndValueAreRead(buf: Bytes, offset: nat, pairs: Pairs, key: Value, value: Value,
                                              k: Bytes, v: Bytes, decode: Bytes -> string)
    requires pairs.Pair? && Valid(pairs.key) && Valid(pairs.value) && k == Encode(pairs.key) && v == Encode(pairs.value)
    requires Denote(pairs.key, decode) == Some(key) && Denote(pairs.value, decode) == Some(value)
    requires At(buf, offset, k) && At(buf, offset + |k|, v)
    ensures Read(buf, offset, decode) == Ok(key, offset + |k|)
    ensures Read(buf, offset + |k|, decode) == Ok(value, offset + |k| + |v|)
    decreases pairs, 0
  {
    EncodedIsRead(buf, offset, pairs.key, decode);
    EncodedIsRead(buf, offset + |k|, pairs.value, decode);
  }

  lemma PairStands(buf: Bytes, offset: nat, pairs: Pairs) returns (k: Bytes, v: Bytes)
    requires pairs.Pair? && ValidPairs(pairs) && At(buf, offset, EncodePairs(pairs))
    ensures k == Encode(pairs.key) && v == Encode(pairs.value) && At(buf, offset, k) && At(buf, offset + |k|, v)
    ensures At(buf, offset + |k| + |v|, EncodePairs(pairs.others))
    ensures |EncodePairs(pairs)| == |k| + |v| + |EncodePairs(pairs.others)|
  {
    k, v := Encode(pairs.key), Encode(pairs.value);
    ThreeStand(buf, offset, k, v, EncodePairs(pairs.others));
  }

  lemma {:induction false} FirstPairIsRead(buf: Bytes, offset: nat, pairs: Pairs, key: Value, value: Value,
                                           decode: Bytes -> string)
    returns (middle: nat, next: nat)
    requires pairs.Pair? && ValidPairs(pairs) && At(buf, offset, EncodePairs(pairs))
    requires Denote(pairs.key, decode) == Some(key) && Denote(pairs.value, decode) == Some(value)
    ensures Read(buf, offset, decode) == Ok(key, middle) && Read(buf, middle, decode) == Ok(value, next)
    ensures At(buf, next, EncodePairs(pairs.others)) &&
            offset + |EncodePairs(pairs)| == next + |EncodePairs(pairs.others)|
    decreases pairs, 1
  {
    var k, v := PairStands(buf, offset, pairs);
    KeyAndValueAreRead(buf, offset, pairs, key, value, k, v, decode);
    middle, next := offset + |k|, offset + |k| + |v|;
  }

  lemma {:induction false} PairsAreRead(buf: Bytes, offset: nat, pairs: Pairs, entries: seq<Entry<Key, Value>>,
                                        decode: Bytes -> string)
    requires ValidPairs(pairs) && DenotePairs(pairs, entries, decode).Some? && At(buf, offset, EncodePairs(pairs))
    ensures ReadEntries(buf, offset, PairCount(pairs), entries, decode) ==
            Ok(DenotePairs(pairs, entries, decode).value, offset + |EncodePairs(pairs)|)
    decreases pairs, 2
  {
    if pairs.Pair? {
      var key, value := PairsSplit(pairs, entries, decode);
      var middle, next := FirstPairIsRead(buf, offset, pairs, key, value, decode);
      var after := Put(entries, KeyOf(key).value, value);
      PairsAreRead(buf, next, pairs.others, after, decode);
      EntryIsRead(buf, offset, PairCount(pairs.others), entries, key, middle, value, next,
                  ReadEntries(buf, next, PairCount(pairs.others), after, decode), decode);
    }
  }

  // ---- Whatever is read was encoded ----

  /** The width that the first byte of a head announces. */
  function WidthAt(first: Byte): Width {
    if first % 32 == 24 then One else if first % 32 == 25 then Two else if first % 32 == 26 then Four else Inline
  }

  lemma {:induction false} DigitsWereEncoded(b: Bytes, p: nat, count: nat)
    requires p + count <= |b|
    ensures BigEndian(b, p, count) < Limit(count)
    ensures Digits(BigEndian(b, p, count), count) == b[p..p + count]
  {
    if count > 0 {
      DigitsWereEncoded(b, p, count - 1);
      assert b[p..p + count] == b[p..p + (count - 1)] + [b[p + count - 1]];
    }
  }

  lemma HeadWasEncoded(buf: Bytes, offset: nat) returns (w: Width)
    requires ReadHead(buf, offset).Ok?
    ensures
      var head, next := ReadHead(buf, offset).value, ReadHead(buf, offset).next;
      head.major <= 5 && Holds(w, head.argument) && buf[offset..next] == EncodeHead(head.major, w, head.argument)
  {
    w := WidthAt(buf[offset]);
    var head, next := ReadHead(buf, offset).value, ReadHead(buf, offset).next;
    var first: Byte := buf[offset];
    assert first == first / 32 * 32 + first % 32;
    Limits();
    DigitsWereEncoded(buf, offset + 1, next - offset - 1);
    assert buf[offset..offset + 1] == [first];
  }

  /** A successful read used up exactly the encoding of an item that stands for the value. */
  lemma {:induction false} ReadWasEncoded(buf: Bytes, offset: nat, decode: Bytes -> string) returns (item: Item)
    requires Read(buf, offset, decode).Ok?
    ensures
      var r := Read(buf, offset, decode);
      Valid(item) && Denote(item, decode) == Some(r.value) && buf[offset..r.next] == Encode(item)
    decreases |buf| - offset, 0, 1
  {
    var major := ReadHead(buf, offset).value.major;
    var w := HeadWasEncoded(buf, offset);
    if major < 4 {
      item := ScalarWasEncoded(buf, offset, w, decode);
    } else if major == 4 {
      item := ArrayWasEncoded(buf, offset, w, decode);
    } else {
      item := TableWasEncoded(buf, offset, w, decode);
    }
  }

  lemma ScalarWasEncoded(buf: Bytes, offset: nat, w: Width, decode: Bytes -> string) returns (item: Item)
    requires ReadHead(buf, offset).Ok? && ReadHead(buf, offset).value.major < 4 && Read(buf, offset, decode).Ok?
    requires var head, at := ReadHead(buf, offset).value, ReadHead(buf, offset).next;
             Holds(w, head.argument) && buf[offset..at] == EncodeHead(head.major, w, head.argument)
    ensures
      var r := Read(buf, offset, decode);
      Valid(item) && Denote(item, decode) == Some(r.value) && buf[offset..r.next] == Encode(item)
  {
    var head, at, next := ReadHead(buf, offset).value, ReadHead(buf, offset).next, Read(buf, offset, decode).next;
    if head.major < 2 {
      item := if head.major == 0 then Whole(w, head.argument) else Minus(w, head.argument);
    } else {
      item := StringItem(head.major, w, buf[at..next]);
      Joined(buf, offset, at, next);
      StringEncodes(head.major, w, buf[at..next], decode);
    }
  }

  function StringItem(major: nat, w: Width, b: Bytes): Item { if major == 2 then Blob(w, b) else Utf8(w, b) }

  lemma StringEncodes(major: nat, w: Width, b: Bytes, decode: Bytes -> string)
    requires (major == 2 || major == 3) && Holds(w, |b|)
    ensures
      var item := StringItem(major, w, b);
      && Valid(item) && Encode(item) == EncodeHead(major, w, |b|) + b
      && Denote(item, decode) == Some(if major == 2 then Binary(b) else Text(decode(b)))
  {}

  lemma {:induction false} ArrayWasEncoded(buf: Bytes, offset: nat, w: Width, decode: Bytes -> string)
    returns (item: Item)
    requires ReadHead(buf, offset).Ok? && ReadHead(buf, offset).value.major == 4 && Read(buf, offset, decode).Ok?
    requires var head, at := ReadHead(buf, offset).value, ReadHead(buf, offset).next;
             Holds(w, head.argument) && buf[offset..at] == EncodeHead(4, w, head.argument)
    ensures
      var r := Read(buf, offset, decode);
      Valid(item) && Denote(item, decode) == Some(r.value) && buf[offset..r.next] == Encode(item)
    decreases |buf| - offset, 0, 0
  {
    var at := ReadHead(buf, offset).next;
    var items := ItemsWereEncoded(buf, at, ReadHead(buf, offset).value.argument, decode);
    item := Array(w, items);
    Joined(buf, offset, at, Read(buf, offset, decode).next);
  }

  lemma {:induction false} TableWasEncoded(buf: Bytes, offset: nat, w: Width, decode: Bytes -> string)
    returns (item: Item)
    requires ReadHead(buf, offset).Ok? && ReadHead(buf, offset).value.major == 5 && Read(buf, offset, decode).Ok?
    requires var head, at := ReadHead(buf, offset).value, ReadHead(buf, offset).next;
             Holds(w, head.argument) && buf[offset..at] == EncodeHead(5, w, head.argument)
    ensures
      var r := Read(buf, offset, decode);
      Valid(item) && Denote(item, decode) == Some(r.value) && buf[offset..r.next] == Encode(item)
    decreases |buf| - offset, 0, 0
  {
    var at := ReadHead(buf, offset).next;
    var pairs := PairsWereEncoded(buf, at, ReadHead(buf, offset).value.argument, [], decode);
    item := Table(w, pairs);
    Joined(buf, offset, at, Read(buf, offset, decode).next);
  }

  lemma {:induction false} ItemsWereEncoded(buf: Bytes, offset: nat, n: nat, decode: Bytes -> string)
    returns (items: Items)
    requires offset <= |buf| && ReadItems(buf, offset, n, decode).Ok?
    ensures
      var r := ReadItems(buf, offset, n, decode);
      && ValidItems(items) && Length(items) == n && DenoteItems(items, decode) == Some(r.value)
      && buf[offset..r.next] == EncodeItems(items)
    decreases |buf| - offset, 1, n
  {
    if n == 0 {
      items := NoItems;
    } else {
      var middle := Read(buf, offset, decode).next;
      var first := ReadWasEncoded(buf, offset, decode);
      var rest := ItemsWereEncoded(buf, middle, n - 1, decode);
      items := More(first, rest);
    }
  }

  lemma {:induction false} PairsWereEncoded(buf: Bytes, offset: nat, n: nat, entries: seq<Entry<Key, Value>>,
                                            decode: Bytes -> string)
    returns (pairs: Pairs)
    requires offset <= |buf| && ReadEntries(buf, offset, n, entries, decode).Ok?
    ensures
      var r := ReadEntries(buf, offset, n, entries, decode);
      && ValidPairs(pairs) && PairCount(pairs) == n && DenotePairs(pairs, entries, decode) == Some(r.value)
      && buf[offset..r.next] == EncodePairs(pairs)
    decreases |buf| - offset, 2, n
  {
    if n == 0 {
      pairs := NoPairs;
    } else {
      var k, v, key, value := EntryWasEncoded(buf, offset, n, entries, decode);
      var others := PairsWereEncoded(buf, v.next, n - 1, Put(entries, KeyOf(k.value).value, v.value), decode);
      pairs := PairAssembled(buf, offset, k.next, v.next, n, entries, key, k.value, value, v.value, others, decode);
    }
  }

  lemma {:induction false} EntryWasEncoded(buf: Bytes, offset: nat, n: nat, entries: seq<Entry<Key, Value>>,
                                           decode: Bytes -> string)
    returns (k: Result<Value>, v: Result<Value>, key: Item, value: Item)
    requires n > 0 && offset <= |buf| && ReadEntries(buf, offset, n, entries, decode).Ok?
    ensures k.Ok? && v.Ok? && KeyOf(k.value).Some? && offset < k.next < v.next <= |buf|
    ensures Valid(key) && Denote(key, decode) == Some(k.value) && buf[offset..k.next] == Encode(key)
    ensures Valid(value) && Denote(value, decode) == Some(v.value) && buf[k.next..v.next] == Encode(value)
    ensures ReadEntries(buf, offset, n, entries, decode) ==
            ReadEntries(buf, v.next, n - 1, Put(entries, KeyOf(k.value).value, v.value), decode)
    decreases |buf| - offset, 1
  {
    k, v := EntryWasRead(buf, offset, n, entries, decode);
    key := ReadWasEncoded(buf, offset, decode);
    value := ReadWasEncoded(buf, k.next, decode);
  }

  lemma EntryWasRead(buf: Bytes, offset: nat, n: nat, entries: seq<Entry<Key, Value>>, decode: Bytes -> string)
    returns (k: Result<Value>, v: Result<Value>)
    requires n > 0 && offset <= |buf| && ReadEntries(buf, offset, n, entries, decode).Ok?
    ensures k == Read(buf, offset, decode) && k.Ok? && v == Read(buf, k.next, decode) && v.Ok? && KeyOf(k.value).Some?
    ensures offset < k.next < v.next <= |buf|
    ensures ReadEntries(buf, offset, n, entries, decode) ==
            ReadEntries(buf, v.next, n - 1, Put(entries, KeyOf(k.value).value, v.value), decode)
  {
    k := Read(buf, offset, decode);
    v := Read(buf, k.next, decode);
  }

  lemma PairAssembled(buf: Bytes, a: nat, b: nat, c: nat, n: nat, entries: seq<Entry<Key, Value>>, key: Item, k: Value,
                      value: Item, v: Value, others: Pairs, decode: Bytes -> string) returns (pairs: Pairs)
    requires a <= b <= c <= |buf| && n > 0 && KeyOf(k).Some?
    requires Valid(key) && Denote(key, decode) == Some(k) && buf[a..b] == Encode(key)
    requires Valid(value) && Denote(value, decode) == Some(v) && buf[b..c] == Encode(value)
    requires var r := ReadEntries(buf, c, n - 1, Put(entries, KeyOf(k).value, v), decode);
             && r.Ok? && ReadEntries(buf, a, n, entries, decode) == r
             && ValidPairs(others) && PairCount(others) == n - 1
             && DenotePairs(others, Put(entries, KeyOf(k).value, v), decode) == Some(r.value)
             && buf[c..r.next] == EncodePairs(others)
    ensures
      var r := ReadEntries(buf, a, n, entries, decode);
      && ValidPairs(pairs) && PairCount(pairs) == n && DenotePairs(pairs, entries, decode) == Some(r.value)
      && buf[a..r.next] == EncodePairs(pairs)
  {
    pairs := Pair(key, value, others);
    Joined(buf, b, c, ReadEntries(buf, a, n, entries, decode).next);
    Joined(buf, a, b, ReadEntries(buf, a, n, entries, decode).next);
  }

  /** Reading succeeds exactly on encodings, so what it gives depends only on the bytes it used. */
  lemma ReadIffEncoded(buf: Bytes, offset: nat, decode: Bytes -> string, value: Value, next: nat)
    ensures Read(buf, offset, decode) == Ok(value, next) <==>
            exists item :: Valid(item) && Denote(item, decode) == Some(value) && At(buf, offset, Encode(item))
                           && next == offset + |Encode(item)|
  {
    if Read(buf, offset, decode) == Ok(value, next) {
      var item := ReadWasEncoded(buf, offset, decode);
      assert |buf[offset..next]| == next - offset;
    }
    forall item | Valid(item) && Denote(item, decode) == Some(value) && At(buf, offset, Encode(item))
                  && next == offset + |Encode(item)|
      ensures Read(buf, offset, decode) == Ok(value, next)
    {
      EncodedIsRead(buf, offset, item, decode);
    }
  }

  lemma ReadDependsOnItsBytes(buf: Bytes, offset: nat, other: Bytes, at: nat, decode: Bytes -> string)
    requires Read(buf, offset, decode).Ok? && At(other, at, buf[offset..Read(buf, offset, decode).next])
    ensures
      var r := Read(buf, offset, decode);
      Read(other, at, decode) == Ok(r.value, at + (r.next - offset))
  {
    var item := ReadWasEncoded(buf, offset, decode);
    EncodedIsRead(other, at, item, decode);
  }

  /** Encoding, with anything in front and behind, and reading gives the value back. */
  lemma RoundTrip(front: Bytes, item: Item, back: Bytes, decode: Bytes -> string)
    requires Valid(item) && Denote(item, decode).Some?
    ensures Read(front + Encode(item) + back, |front|, decode) ==
            Ok(Denote(item, decode).value, |front| + |Encode(item)|)
  {
    AtBack(front, Encode(item));
    AtFront(front + Encode(item), back, |front|, Encode(item));
    EncodedIsRead(front + Encode(item) + back, |front|, item, decode);
  }

  // ---- Values, encoded ----

  const BOUND: int := 0x1_0000_0000

  /**
   * What the format's subset can say: numbers and lengths within 32 bits, maps with distinct keys, and
   * texts whose bytes (`utf8` of them) decode to the text again.
   */
  predicate Supported(v: Value, utf8: string -> Bytes, decode: Bytes -> string)
    decreases v
  {
    match v
    case Number(n) => -BOUND <= n < BOUND
    case Binary(b) => |b| < BOUND
    case Text(s) => TextSupported(s, utf8, decode)
    case List(items) => |items| < BOUND && forall i :: 0 <= i < |items| ==> Supported(items[i], utf8, decode)
    case Dict(entries) =>
      |entries| < BOUND && Distinct(entries) &&
      forall i :: 0 <= i < |entries| ==>
        KeySupported(entries[i].key, utf8, decode) && Supported(entries[i].value, utf8, decode)
  }

  predicate TextSupported(s: string, utf8: string -> Bytes, decode: Bytes -> string) {
    |utf8(s)| < BOUND && decode(utf8(s)) == s
  }

  predicate KeySupported(k: Key, utf8: string -> Bytes, decode: Bytes -> string) {
    match k
    case NumberKey(n) => -BOUND <= n < BOUND
    case TextKey(s) => TextSupported(s, utf8, decode)
  }

  /** The shortest width that holds the argument. */
  function Shortest(n: nat): Width {
    if n < 24 then Inline else if n < 0x100 then One else if n < 0x1_0000 then Two else Four
  }

  function NumberItem(n: int): Item { if n >= 0 then Whole(Shortest(n), n) else Minus(Shortest(-1 - n), -1 - n) }

  function TextItem(s: string, utf8: string -> Bytes): Item { Utf8(Shortest(|utf8(s)|), utf8(s)) }

  function KeyItem(k: Key, utf8: string -> Bytes): Item {
    match k
    case NumberKey(n) => NumberItem(n)
    case TextKey(s) => TextItem(s, utf8)
  }

  function ItemOf(v: Value, utf8: string -> Bytes): Item
    decreases v
  {
    match v
    case Number(n) => NumberItem(n)
    case Binary(b) => Blob(Shortest(|b|), b)
    case Text(s) => TextItem(s, utf8)
    case List(items) => Array(Shortest(|items|), ItemsOf(items, utf8))
    case Dict(entries) => Table(Shortest(|entries|), PairsOf(entries, utf8))
  }

  function ItemsOf(items: seq<Value>, utf8: string -> Bytes): Items
    decreases items
  {
    if items == [] then NoItems else More(ItemOf(items[0], utf8), ItemsOf(items[1..], utf8))
  }

  function PairsOf(entries: seq<Entry<Key, Value>>, utf8: string -> Bytes): Pairs
    decreases entries
  {
    if entries == [] then NoPairs
    else Pair(KeyItem(entries[0].key, utf8), ValueItem(entries[0], utf8), PairsOf(entries[1..], utf8))
  }

  function ValueItem(e: Entry<Key, Value>, utf8: string -> Bytes): Item
    decreases e
  {
    ItemOf(e.value, utf8)
  }

  lemma KeyItemDenotes(k: Key, utf8: string -> Bytes, decode: Bytes -> string)
    requires KeySupported(k, utf8, decode)
    ensures Valid(KeyItem(k, utf8)) && Denote(KeyItem(k, utf8), decode).Some?
    ensures KeyOf(Denote(KeyItem(k, utf8), decode).value) == Some(k)
  {}

  lemma {:induction false} ItemDenotes(v: Value, utf8: string -> Bytes, decode: Bytes -> string)
    requires Supported(v, utf8, decode)
    ensures Valid(ItemOf(v, utf8)) && Denote(ItemOf(v, utf8), decode) == Some(v)
    decreases v
  {
    match v
    case List(items) => ItemsDenote(items, utf8, decode);
    case Dict(entries) =>
      assert [] + entries == entries;
      PairsDenote([], entries, utf8, decode);
    case _ =>
  }

  lemma {:induction false} ItemsDenote(items: seq<Value>, utf8: string -> Bytes, decode: Bytes -> string)
    requires forall i :: 0 <= i < |items| ==> Supported(items[i], utf8, decode)
    ensures ValidItems(ItemsOf(items, utf8)) && Length(ItemsOf(items, utf8)) == |items|
    ensures DenoteItems(ItemsOf(items, utf8), decode) == Some(items)
    decreases items
  {
    if items != [] {
      ItemDenotes(items[0], utf8, decode);
      ItemsDenote(items[1..], utf8, decode);
      assert items == [items[0]] + items[1..];
    }
  }

  lemma {:induction false} ValueDenotes(e: Entry<Key, Value>, utf8: string -> Bytes, decode: Bytes -> string)
    requires Supported(e.value, utf8, decode)
    ensures Valid(ValueItem(e, utf8)) && Denote(ValueItem(e, utf8), decode) == Some(e.value)
    decreases e
  {
    ItemDenotes(e.value, utf8, decode);
  }

  lemma {:induction false} PutNew(before: seq<Entry<Key, Value>>, e: Entry<Key, Value>, rest: seq<Entry<Key, Value>>)
    requires Distinct(before + [e] + rest)
    ensures Put(before, e.key, e.value) == before + [e]
  {
    if before != [] {
      assert (before + [e] + rest)[1..] == before[1..] + [e] + rest;
      PutNew(before[1..], e, rest);
      GetAmong(before[1..], e, rest);
    }
  }

  lemma {:induction false} GetAmong(before: seq<Entry<Key, Value>>, e: Entry<Key, Value>, rest: seq<Entry<Key, Value>>)
    ensures Get(before + [e] + rest, e.key).Some?
  {
    if before != [] {
      assert (before + [e] + rest)[1..] == before[1..] + [e] + rest;
      GetAmong(before[1..], e, rest);
    }
  }

  lemma {:induction false} PairsDenote(before: seq<Entry<Key, Value>>, entries: seq<Entry<Key, Value>>,
                                       utf8: string -> Bytes, decode: Bytes -> string)
    requires forall i :: 0 <= i < |entries| ==>
             KeySupported(entries[i].key, utf8, decode) && Supported(entries[i].value, utf8, decode)
    requires Distinct(before + entries)
    ensures ValidPairs(PairsOf(entries, utf8)) && PairCount(PairsOf(entries, utf8)) == |entries|
    ensures DenotePairs(PairsOf(entries, utf8), before, decode) == Some(before + entries)
    decreases entries
  {
    if entries != [] {
      var e, rest := entries[0], entries[1..];
      KeyItemDenotes(e.key, utf8, decode);
      ValueDenotes(e, utf8, decode);
      assert before + entries == before + [e] + rest;
      PutNew(before, e, rest);
      PairsDenote(before + [e], rest, utf8, decode);
    } else {
      assert before + entries == before;
    }
  }

  /** Every value of the subset, encoded and with anything in front and behind, reads back as itself. */
  lemma ValueRoundTrip(front: Bytes, v: Value, back: Bytes, utf8: string -> Bytes, decode: Bytes -> string)
    requires Supported(v, utf8, decode)
    ensures Valid(ItemOf(v, utf8))
    ensures Read(front + Encode(ItemOf(v, utf8)) + back, |front|, decode) == Ok(v, |front| + |Encode(ItemOf(v, utf8))|)
  {
    ItemDenotes(v, utf8, decode);
    RoundTrip(front, ItemOf(v, utf8), back, decode);
  }

  // ---- Cut off ----

  /** The buffer ends inside `whole`, which begins at `p`. */
  predicate Cut(b: Bytes, p: nat, whole: Bytes) { p <= |b| < p + |whole| && b[p..] == whole[..|b| - p] }

  lemma CutSplit(b: Bytes, p: nat, x: Bytes, y: Bytes)
    requires Cut(b, p, x + y)
    ensures Cut(b, p, x) || (At(b, p, x) && Cut(b, p + |x|, y))
  {
    var n := |b| - p;
    if n < |x| {
      assert (x + y)[..n] == x[..n];
    } else {
      assert b[p..p + |x|] == b[p..][..|x|] == (x + y)[..n][..|x|] == x;
      assert b[p + |x|..] == b[p..][|x|..] == (x + y)[..n][|x|..] == y[..n - |x|];
    }
  }

  lemma HeadIsCut(buf: Bytes, offset: nat, major: nat, w: Width, n: nat)
    requires major <= 5 && Holds(w, n) && Cut(buf, offset, EncodeHead(major, w, n))
    ensures ReadHead(buf, offset) == Err(Truncated)
  {
    if offset < |buf| {
      assert buf[offset] == buf[offset..][0] == EncodeHead(major, w, n)[0];
    }
  }

  /** The start of an item that stands for a value, cut off anywhere, is reported as truncated. */
  lemma {:induction false} CutIsTruncated(buf: Bytes, offset: nat, item: Item, decode: Bytes -> string)
    requires Valid(item) && Denote(item, decode).Some? && Cut(buf, offset, Encode(item))
    ensures Read(buf, offset, decode) == Err(Truncated)
    decreases item, 1
  {
    match item
    case Whole(w, n) => HeadIsCut(buf, offset, 0, w, n);
    case Minus(w, n) => HeadIsCut(buf, offset, 1, w, n);
    case Blob(w, b) => StringIsCut(buf, offset, 2, w, b, decode);
    case Utf8(w, b) => StringIsCut(buf, offset, 3, w, b, decode);
    case Array(w, items) => ArrayIsCut(buf, offset, w, items, decode);
    case Table(w, pairs) => TableIsCut(buf, offset, w, pairs, decode);
  }

  lemma StringIsCut(buf: Bytes, offset: nat, major: nat, w: Width, b: Bytes, decode: Bytes -> string)
    requires major == 2 || major == 3
    requires Holds(w, |b|) && Cut(buf, offset, EncodeHead(major, w, |b|) + b)
    ensures Read(buf, offset, decode) == Err(Truncated)
  {
    var h := EncodeHead(major, w, |b|);
    CutSplit(buf, offset, h, b);
    if Cut(buf, offset, h) { HeadIsCut(buf, offset, major, w, |b|); } else { HeadIsRead(buf, offset, major, w, |b|); }
  }

  lemma {:induction false} ArrayIsCut(buf: Bytes, offset: nat, w: Width, items: Items, decode: Bytes -> string)
    requires Holds(w, Length(items)) && ValidItems(items) && DenoteItems(items, decode).Some?
    requires Cut(buf, offset, EncodeHead(4, w, Length(items)) + EncodeItems(items))
    ensures Read(buf, offset, decode) == Err(Truncated)
    decreases items, 2
  {
    var h := EncodeHead(4, w, Length(items));
    CutSplit(buf, offset, h, EncodeItems(items));
    if Cut(buf, offset, h) {
      HeadIsCut(buf, offset, 4, w, Length(items));
    } else {
      HeadIsRead(buf, offset, 4, w, Length(items));
      ItemsAreCut(buf, offset + |h|, items, decode);
    }
  }

  lemma {:induction false} ItemsAreCut(buf: Bytes, offset: nat, items: Items, decode: Bytes -> string)
    requires ValidItems(items) && DenoteItems(items, decode).Some? && Cut(buf, offset, EncodeItems(items))
    ensures ReadItems(buf, offset, Length(items), decode) == Err(Truncated)
    decreases items, 1
  {
    FirstItemIsCut(buf, offset, items, Encode(items.first), Denote(items.first, decode).value, decode);
  }

  lemma {:induction false} FirstItemIsCut(buf: Bytes, offset: nat, items: Items, first: Bytes, value: Value,
                                          decode: Bytes -> string)
    requires items.More? && Valid(items.first) && first == Encode(items.first) &&
             Denote(items.first, decode) == Some(value)
    requires ValidItems(items.rest) && DenoteItems(items.rest, decode).Some? &&
             Cut(buf, offset, first + EncodeItems(items.rest))
    ensures ReadItems(buf, offset, Length(items.rest) + 1, decode) == Err(Truncated)
    decreases items, 0
  {
    CutSplit(buf, offset, first, EncodeItems(items.rest));
    if Cut(buf, offset, first) {
      CutIsTruncated(buf, offset, items.first, decode);
    } else {
      EncodedIsRead(buf, offset, items.first, decode);
      ItemsAreCut(buf, offset + |first|, items.rest, decode);
      ItemIsRead(buf, offset, Length(items.rest), value, offset + |first|, Err(Truncated), decode);
    }
  }

  lemma {:induction false} TableIsCut(buf: Bytes, offset: nat, w: Width, pairs: Pairs, decode: Bytes -> string)
    requires Holds(w, PairCount(pairs)) && ValidPairs(pairs) && DenotePairs(pairs, [], decode).Some?
    requires Cut(buf, offset, EncodeHead(5, w, PairCount(pairs)) + EncodePairs(pairs))
    ensures Read(buf, offset, decode) == Err(Truncated)
    decreases pairs, 4
  {
    var h := EncodeHead(5, w, PairCount(pairs));
    CutSplit(buf, offset, h, EncodePairs(pairs));
    if Cut(buf, offset, h) {
      HeadIsCut(buf, offset, 5, w, PairCount(pairs));
    } else {
      HeadIsRead(buf, offset, 5, w, PairCount(pairs));
      PairsAreCut(buf, offset + |h|, pairs, [], decode);
    }
  }

  lemma {:induction false} PairsAreCut(buf: Bytes, offset: nat, pairs: Pairs, entries: seq<Entry<Key, Value>>,
                                       decode: Bytes -> string)
    requires ValidPairs(pairs) && DenotePairs(pairs, entries, decode).Some? && Cut(buf, offset, EncodePairs(pairs))
    ensures ReadEntries(buf, offset, PairCount(pairs), entries, decode) == Err(Truncated)
    decreases pairs, 3
  {
    var key, value := PairsSplit(pairs, entries, decode);
    CutInThree(buf, offset, Encode(pairs.key), Encode(pairs.value), EncodePairs(pairs.others));
    PairIsCut(buf, offset, pairs, entries, key, value, Encode(pairs.key), Encode(pairs.value), decode);
  }

  lemma {:induction false} PairIsCut(buf: Bytes, offset: nat, pairs: Pairs, entries: seq<Entry<Key, Value>>,
                                     key: Value, value: Value, k: Bytes, v: Bytes, decode: Bytes -> string)
    requires Splits(pairs, entries, key, value, decode) && k == Encode(pairs.key) && v == Encode(pairs.value)
    requires Cut(buf, offset, k) || (At(buf, offset, k) && Cut(buf, offset + |k|, v)) ||
             (At(buf, offset, k) && At(buf, offset + |k|, v) && Cut(buf, offset + |k| + |v|, EncodePairs(pairs.others)))
    ensures ReadEntries(buf, offset, 1 + PairCount(pairs.others), entries, decode) == Err(Truncated)
    decreases pairs, 2
  {
    if Cut(buf, offset, k) {
      KeyIsCut(buf, offset, pairs, entries, decode);
    } else if Cut(buf, offset + |k|, v) {
      EncodedIsRead(buf, offset, pairs.key, decode);
      ValueIsCut(buf, offset, pairs, entries, key, offset + |k|, decode);
    } else {
      KeyAndValueAreRead(buf, offset, pairs, key, value, k, v, decode);
      OthersAreCut(buf, offset, pairs, entries, key, offset + |k|, value, offset + |k| + |v|, decode);
    }
  }

  lemma {:induction false} OthersAreCut(buf: Bytes, offset: nat, pairs: Pairs, entries: seq<Entry<Key, Value>>,
                                        key: Value, middle: nat, value: Value, next: nat, decode: Bytes -> string)
    requires pairs.Pair? && ValidPairs(pairs.others) && KeyOf(key).Some?
    requires DenotePairs(pairs.others, Put(entries, KeyOf(key).value, value), decode).Some?
    requires Read(buf, offset, decode) == Ok(key, middle) && Read(buf, middle, decode) == Ok(value, next)
    requires Cut(buf, next, EncodePairs(pairs.others))
    ensures ReadEntries(buf, offset, PairCount(pairs.others) + 1, entries, decode) == Err(Truncated)
    decreases pairs, 1
  {
    PairsAreCut(buf, next, pairs.others, Put(entries, KeyOf(key).value, value), decode);
    EntryIsRead(buf, offset, PairCount(pairs.others), entries, key, middle, value, next, Err(Truncated), decode);
  }

  lemma {:induction false} KeyIsCut(buf: Bytes, offset: nat, pairs: Pairs, entries: seq<Entry<Key, Value>>,
                                    decode: Bytes -> string)
    requires pairs.Pair? && Valid(pairs.key) && Denote(pairs.key, decode).Some? && Cut(buf, offset, Encode(pairs.key))
    ensures ReadEntries(buf, offset, 1 + PairCount(pairs.others), entries, decode) == Err(Truncated)
    decreases pairs, 0
  {
    CutIsTruncated(buf, offset, pairs.key, decode);
  }

  lemma CutInThree(b: Bytes, p: nat, x: Bytes, y: Bytes, z: Bytes)
    requires Cut(b, p, x + (y + z))
    ensures Cut(b, p, x) || (At(b, p, x) && Cut(b, p + |x|, y)) ||
            (At(b, p, x) && At(b, p + |x|, y) && Cut(b, p + |x| + |y|, z))
  {
    CutSplit(b, p, x, y + z);
    if !Cut(b, p, x) { CutSplit(b, p + |x|, y, z); }
  }

  lemma {:induction false} ValueIsCut(buf: Bytes, offset: nat, pairs: Pairs, entries: seq<Entry<Key, Value>>,
                                      key: Value, middle: nat, decode: Bytes -> string)
    requires pairs.Pair? && Valid(pairs.value) && Denote(pairs.value, decode).Some?
    requires Read(buf, offset, decode) == Ok(key, middle) && Cut(buf, middle, Encode(pairs.value))
    ensures ReadEntries(buf, offset, PairCount(pairs.others) + 1, entries, decode) == Err(Truncated)
    decreases pairs, 0
  {
    CutIsTruncated(buf, middle, pairs.value, decode);
    ValueIsMissing(buf, offset, PairCount(pairs.others), entries, key, middle, decode);
  }

  lemma ValueIsMissing(buf: Bytes, offset: nat, n: nat, entries: seq<Entry<Key, Value>>, key: Value, middle: nat,
                       decode: Bytes -> string)
    requires Read(buf, offset, decode) == Ok(key, middle) && Read(buf, middle, decode) == Err(Truncated)
    ensures ReadEntries(buf, offset, n + 1, entries, decode) == Err(Truncated)
  {}

  // ---- Maps ----

  /** The last pair with a key decides what a map read from the wire says for it. */
  lemma {:induction false} LastPairWins(pairs: Pairs, entries: seq<Entry<Key, Value>>, decode: Bytes -> string,
                                        asked: Key)
    requires Distinct(entries) && DenotePairs(pairs, entries, decode).Some?
    ensures Distinct(DenotePairs(pairs, entries, decode).value)
    ensures Get(DenotePairs(pairs, entries, decode).value, asked) ==
            (var last := LastValue(pairs, decode, asked);
             if last.Some? then last else Get(entries, asked))
  {
    if pairs.Pair? {
      var key, value := KeyOf(Denote(pairs.key, decode).value).value, Denote(pairs.value, decode).value;
      PutSets(entries, key, value, asked);
      LastPairWins(pairs.others, Put(entries, key, value), decode, asked);
    }
  }

  function LastValue(pairs: Pairs, decode: Bytes -> string, asked: Key): Option<Value> {
    if pairs.NoPairs? then None else
    var later := LastValue(pairs.others, decode, asked);
    if later.Some? then later else
    var k := Denote(pairs.key, decode);
    if k.Some? && KeyOf(k.value) == Some(asked) then Denote(pairs.value, decode) else None
  }
}
