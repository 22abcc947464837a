/**
 Presence entries as they travel: postcard's varints, tagged unions, sequences
 and maps, decoded under a bound on nesting.
 */
module PresenceWire {
  import opened Wrappers
  import opened Utf8

  const MAX_DEPTH: nat := 64
  const U64_END: nat := 0x1_0000_0000_0000_0000

  // ---- varints ----

  function PutVarint(n: nat): seq<byte> {
    if n < 0x80 then [n] else [n % 0x80 + 0x80] + PutVarint(n / 0x80)
  }

  /** Read at most `room` bytes; the last of them may be at most `last`. */
  function TakeVarint(b: seq<byte>, room: nat, last: nat): (r: Option<(nat, seq<byte>)>)
    ensures r.Some? ==> |r.value.1| < |b|
  {
    if room == 0 || b == [] then None
    else if b[0] < 0x80 then
      if room == 1 && b[0] > last then None else Some((b[0], b[1..]))
    else
      match TakeVarint(b[1..], room - 1, last)
      case None => None
      case Some((high, rest)) => Some((b[0] - 0x80 + 0x80 * high, rest))
  }

  /** The least number that does not fit. */
  function VarintEnd(room: nat, last: nat): nat {
    if room == 0 then 0 else if room == 1 then last + 1 else 0x80 * VarintEnd(room - 1, last)
  }

  function TakeU64(b: seq<byte>): (r: Option<(nat, seq<byte>)>)
    ensures r.Some? ==> |r.value.1| < |b|
  {
    TakeVarint(b, 10, 1)
  }

  function TakeU32(b: seq<byte>): (r: Option<(nat, seq<byte>)>)
    ensures r.Some? ==> |r.value.1| < |b|
  {
    TakeVarint(b, 5, 15)
  }

  lemma {:induction false} VarintRoundTrip(n: nat, rest: seq<byte>, room: nat, last: nat)
    requires n < VarintEnd(room, last) && last < 0x80
    ensures TakeVarint(PutVarint(n) + rest, room, last) == Some((n, rest))
    decreases n
  {
    if n < 0x80 {
      assert ([n] + rest)[1..] == rest;
    } else {
      var low: byte := n % 0x80 + 0x80;
      assert (PutVarint(n) + rest)[1..] == PutVarint(n / 0x80) + rest;
      assert (PutVarint(n) + rest)[0] == low;
      VarintRoundTrip(n / 0x80, rest, room - 1, last);
    }
  }

  /** Seven bits a byte, the lowest first. */
  function Base128(b: seq<byte>): nat {
    if b == [] then 0 else b[0] % 0x80 + 0x80 * Base128(b[1..])
  }

  /** A varint is its number in base 128, lowest digit first and no longer than need be; all but the last are marked. */
  lemma {:induction false} VarintForm(n: nat)
    ensures var b := PutVarint(n);
      && b != [] && Base128(b) == n
      && (forall k | 0 <= k < |b| :: b[k] >= 0x80 <==> k < |b| - 1)
      && (|b| > 1 ==> b[|b| - 1] != 0)
  {
    if n >= 0x80 {
      VarintForm(n / 0x80);
      assert PutVarint(n)[1..] == PutVarint(n / 0x80);
    }
  }

  lemma {:induction false} VarintInRange(b: seq<byte>, room: nat, last: nat)
    requires TakeVarint(b, room, last).Some? && last < 0x80
    ensures TakeVarint(b, room, last).value.0 < VarintEnd(room, last)
    decreases room
  {
    if b[0] >= 0x80 {
      VarintInRange(b[1..], room - 1, last);
    } else if room > 1 {
      VarintEndAtLeast(room - 1, last);
    }
  }

  lemma {:induction false} VarintEndAtLeast(room: nat, last: nat)
    requires room >= 1
    ensures VarintEnd(room, last) >= 1
  {
    if room > 1 {
      VarintEndAtLeast(room - 1, last);
    }
  }

  lemma VarintEnds()
    ensures VarintEnd(10, 1) == U64_END && VarintEnd(5, 15) == U32_END
  {
    assert VarintEnd(5, 1) == 0x2000_0000 && VarintEnd(5, 15) == U32_END;
    assert VarintEnd(8, 1) == 0x80 * 0x80 * 0x80 * VarintEnd(5, 1);
  }

  // ---- zigzag ----

  predicate IsI64(n: int) {
    -0x8000_0000_0000_0000 <= n < 0x8000_0000_0000_0000
  }

  function ZigZag(n: int): nat {
    if n >= 0 then 2 * n else -2 * n - 1
  }

  function UnZigZag(z: nat): int {
    if z % 2 == 0 then z / 2 else -(z / 2) - 1
  }

  function PutI64(n: int): seq<byte> {
    PutVarint(ZigZag(n))
  }

  function TakeI64(b: seq<byte>): (r: Option<(int, seq<byte>)>)
    ensures r.Some? ==> |r.value.1| < |b|
  {
    match TakeU64(b) case None => None case Some((z, rest)) => Some((UnZigZag(z), rest))
  }

  lemma I64RoundTrip(n: int, rest: seq<byte>)
    requires IsI64(n)
    ensures TakeI64(PutI64(n) + rest) == Some((n, rest))
  {
    VarintEnds();
    VarintRoundTrip(ZigZag(n), rest, 10, 1);
  }

  /** Signed numbers are numbered 0, -1, 1, -2, 2 and so on before they become varints. */
  lemma ZigZagForm(n: int)
    requires n >= 0
    ensures PutI64(n) == PutVarint(2 * n) && PutI64(-n - 1) == PutVarint(2 * n + 1)
  {
  }

  lemma I64InRange(b: seq<byte>)
    requires TakeI64(b).Some?
    ensures IsI64(TakeI64(b).value.0)
  {
    VarintEnds();
    VarintInRange(b, 10, 1);
  }

  // ---- byte strings and texts ----

  function PutBytes(b: seq<byte>): seq<byte> {
    PutVarint(|b|) + b
  }

  function TakeBytes(b: seq<byte>): (r: Option<(seq<byte>, seq<byte>)>)
    ensures r.Some? ==> |r.value.1| < |b|
  {
    match TakeU64(b)
    case None => None
    case Some((n, rest)) => if n > |rest| then None else Some((rest[..n], rest[n..]))
  }

  lemma BytesRoundTrip(b: seq<byte>, rest: seq<byte>)
    requires |b| < U64_END
    ensures TakeBytes(PutBytes(b) + rest) == Some((b, rest))
  {
    VarintEnds();
    VarintRoundTrip(|b|, b + rest, 10, 1);
    assert PutBytes(b) + rest == PutVarint(|b|) + (b + rest);
    assert (b + rest)[..|b|] == b && (b + rest)[|b|..] == rest;
  }

  lemma BytesInRange(b: seq<byte>)
    requires TakeBytes(b).Some?
    ensures |TakeBytes(b).value.0| < U64_END
  {
    VarintEnds();
    VarintInRange(b, 10, 1);
  }

  function TakeText(b: seq<byte>): (r: Option<(string, seq<byte>)>)
    ensures r.Some? ==> |r.value.1| < |b|
  {
    match TakeBytes(b)
    case None => None
    case Some((raw, rest)) =>
      match Decode(raw) case None => None case Some(s) => Some((s, rest))
  }

  lemma TextRoundTrip(s: string, rest: seq<byte>)
    requires TextFits(s)
    ensures TakeText(PutBytes(Encode(s)) + rest) == Some((s, rest))
  {
    BytesRoundTrip(Encode(s), rest);
    Utf8Codec(s, Encode(s));
  }

  lemma TextInRange(b: seq<byte>)
    requires TakeText(b).Some?
    ensures TextFits(TakeText(b).value.0)
  {
    BytesInRange(b);
    Utf8Codec(TakeText(b).value.0, TakeBytes(b).value.0);
  }

  // ---- values ----

  datatype Field = Field(key: string, value: Value)

  /** A double travels as its eight bytes; a map keeps the order it came in. */
  datatype Value =
    | Null
    | Bool(b: bool)
    | Double(bits: seq<byte>)
    | I64(n: int)
    | Text(s: string)
    | List(items: seq<Value>)
    | Map(fields: seq<Field>)
    | Binary(raw: seq<byte>)

  /** What the value types of the implementation can hold. */
  ghost predicate Fits(v: Value)
    decreases v
  {
    match v
    case List(items) => |items| < U64_END && ItemsFit(items)
    case Map(fields) => |fields| < U64_END && FieldsFit(fields)
    case _ => ScalarFits(v)
  }

  ghost predicate ScalarFits(v: Value) {
    match v
    case Double(bits) => |bits| == 8
    case I64(n) => IsI64(n)
    case Text(s) => TextFits(s)
    case Binary(raw) => |raw| < U64_END
    case _ => true
  }

  ghost predicate TextFits(s: string) {
    |Encode(s)| < U64_END
  }

  ghost predicate ItemsFit(items: seq<Value>)
    decreases items
  {
    items == [] || (Fits(items[0]) && ItemsFit(items[1..]))
  }

  ghost predicate FieldsFit(fields: seq<Field>)
    decreases fields
  {
    fields == [] || (TextFits(fields[0].key) && Fits(fields[0].value) && FieldsFit(fields[1..]))
  }

  function Max(a: nat, b: nat): nat {
    if a < b then b else a
  }

  /** A scalar has height 1; a list or map is one above its tallest member. */
  function Height(v: Value): nat
    decreases v
  {
    match v
    case List(items) => 1 + ItemsHeight(items)
    case Map(fields) => 1 + FieldsHeight(fields)
    case _ => 1
  }

  function ItemsHeight(items: seq<Value>): nat
    decreases items
  {
    if items == [] then 0 else Max(Height(items[0]), ItemsHeight(items[1..]))
  }

  function FieldsHeight(fields: seq<Field>): nat
    decreases fields
  {
    if fields == [] then 0 else Max(Height(fields[0].value), FieldsHeight(fields[1..]))
  }

  function Put(v: Value): seq<byte>
    decreases v
  {
    match v
    case Null => [0]
    case Bool(b) => [1, if b then 1 else 0]
    case Double(bits) => [2] + bits
    case I64(n) => [3] + PutI64(n)
    case Text(s) => [4] + PutBytes(Encode(s))
    case List(items) => [5] + (PutVarint(|items|) + PutItems(items))
    case Map(fields) => [6] + (PutVarint(|fields|) + PutFields(fields))
    case Binary(raw) => [8] + PutBytes(raw)
  }

  /** The first byte of a value says what it is. */
  lemma ValueTag(v: Value)
    ensures Put(v) != []
    ensures Put(v)[0] == match v
      case Null => 0 case Bool(_) => 1 case Double(_) => 2 case I64(_) => 3
      case Text(_) => 4 case List(_) => 5 case Map(_) => 6 case Binary(_) => 8
    ensures v.Bool? ==> Put(v) == [1, if v.b then 1 else 0]
  {
  }

  function PutItems(items: seq<Value>): seq<byte>
    decreases items
  {
    if items == [] then [] else Put(items[0]) + PutItems(items[1..])
  }

  function PutFields(fields: seq<Field>): seq<byte>
    decreases fields
  {
    if fields == [] then []
    else PutBytes(Encode(fields[0].key)) + Put(fields[0].value) + PutFields(fields[1..])
  }

  type Taken<T> = Option<(T, seq<byte>)>

  function TakeBool(b: seq<byte>): Taken<Value> {
    if b != [] && b[0] <= 1 then Some((Bool(b[0] == 1), b[1..])) else None
  }

  function TakeDouble(b: seq<byte>): Taken<Value> {
    if |b| >= 8 then Some((Double(b[..8]), b[8..])) else None
  }

  /** The body of a value that is neither list nor map; other tags are refused. */
  function TakeScalar(tag: nat, b: seq<byte>): Taken<Value> {
    match tag
    case 0 => Some((Null, b))
    case 1 => TakeBool(b)
    case 2 => TakeDouble(b)
    case 3 => (match TakeI64(b) case None => None case Some((n, rest)) => Some((I64(n), rest)))
    case 4 => (match TakeText(b) case None => None case Some((s, rest)) => Some((Text(s), rest)))
    case 8 => (match TakeBytes(b) case None => None case Some((raw, rest)) => Some((Binary(raw), rest)))
    case _ => None
  }

  /** Tag 7 and those above 8 name no value, and only 0 and 1 are booleans. */
  lemma Refused(b: seq<byte>, depth: nat)
    requires b != [] && b[0] < 0x80
    requires b[0] == 7 || b[0] > 8 || (b[0] == 1 && (|b| == 1 || b[1] > 1))
    ensures Take(b, depth) == None
  {
  }

  function AsList(t: Taken<seq<Value>>): Taken<Value> {
    match t case None => None case Some((items, rest)) => Some((List(items), rest))
  }

  function AsMap(t: Taken<seq<Field>>): Taken<Value> {
    match t case None => None case Some((fields, rest)) => Some((Map(fields), rest))
  }

  /** A value nested at most `depth` deep. */
  function Take(b: seq<byte>, depth: nat): Taken<Value>
    decreases depth, 0
  {
    if depth == 0 then None
    else match TakeU32(b)
         case None => None
         case Some((tag, rest)) =>
           if tag == 5 || tag == 6 then
             match TakeU64(rest)
             case None => None
             case Some((n, rest)) =>
               if tag == 5 then AsList(TakeItems(rest, n, depth - 1)) else AsMap(TakeFields(rest, n, depth - 1))
           else TakeScalar(tag, rest)
  }

  function TakeItems(b: seq<byte>, n: nat, depth: nat): Taken<seq<Value>>
    decreases depth, n
  {
    if n == 0 then Some(([], b))
    else match Take(b, depth)
         case None => None
         case Some((v, rest)) =>
           match TakeItems(rest, n - 1, depth)
           case None => None
           case Some((vs, rest)) => Some(([v] + vs, rest))
  }

  function TakeFields(b: seq<byte>, n: nat, depth: nat): Taken<seq<Field>>
    decreases depth, n
  {
    if n == 0 then Some(([], b))
    else match TakeText(b)
         case None => None
         case Some((k, rest)) =>
           match Take(rest, depth)
           case None => None
           case Some((v, rest)) =>
             match TakeFields(rest, n - 1, depth)
             case None => None
             case Some((fs, rest)) => Some(([Field(k, v)] + fs, rest))
  }

  lemma TagRoundTrip(tag: byte, rest: seq<byte>)
    requires tag < 0x80
    ensures TakeU32([tag] + rest) == Some((tag, rest))
  {
    VarintEnds();
    VarintRoundTrip(tag, rest, 5, 15);
  }

  lemma CountRoundTrip(n: nat, rest: seq<byte>)
    requires n < U64_END
    ensures TakeU64(PutVarint(n) + rest) == Some((n, rest))
  {
    VarintEnds();
    VarintRoundTrip(n, rest, 10, 1);
  }

  /** The tag byte is read first, and a bound of zero refuses everything. */
  lemma {:induction false} TaggedRoundTrip(v: Value, rest: seq<byte>)
    ensures var body := Put(v)[1..];
      Put(v) + rest == [Put(v)[0]] + (body + rest) && TakeU32(Put(v) + rest) == Some((Put(v)[0], body + rest))
  {
    TagRoundTrip(Put(v)[0], Put(v)[1..] + rest);
    assert Put(v) + rest == [Put(v)[0]] + (Put(v)[1..] + rest);
  }

  lemma ScalarBody(v: Value, rest: seq<byte>)
    requires !v.List? && !v.Map? && ScalarFits(v)
    ensures TakeScalar(Put(v)[0], Put(v)[1..] + rest) == Some((v, rest))
  {
    var body := Put(v)[1..];
    match v {
      case Null => assert body + rest == rest;
      case Bool(b) => assert (body + rest)[1..] == rest;
      case Double(bits) => assert body == bits && (bits + rest)[..8] == bits && (bits + rest)[8..] == rest;
      case I64(n) => assert body == PutI64(n); I64RoundTrip(n, rest);
      case Text(s) => assert body == PutBytes(Encode(s)); TextRoundTrip(s, rest);
      case Binary(raw) => assert body == PutBytes(raw); BytesRoundTrip(raw, rest);
    }
  }

  lemma ScalarRoundTrip(v: Value, rest: seq<byte>, depth: nat)
    requires !v.List? && !v.Map? && ScalarFits(v) && depth > 0
    ensures Take(Put(v) + rest, depth) == Some((v, rest))
  {
    TaggedRoundTrip(v, rest);
    ScalarBody(v, rest);
  }

  /** A list or map decodes as its members do, one level further down. */
  lemma ListTakes(items: seq<Value>, rest: seq<byte>, depth: nat)
    requires |items| < U64_END && depth > 0
    ensures Take(Put(List(items)) + rest, depth) == AsList(TakeItems(PutItems(items) + rest, |items|, depth - 1))
  {
    var v := List(items);
    TaggedRoundTrip(v, rest);
    assert Put(v)[1..] + rest == PutVarint(|items|) + (PutItems(items) + rest);
    CountRoundTrip(|items|, PutItems(items) + rest);
  }

  lemma MapTakes(fields: seq<Field>, rest: seq<byte>, depth: nat)
    requires |fields| < U64_END && depth > 0
    ensures Take(Put(Map(fields)) + rest, depth) == AsMap(TakeFields(PutFields(fields) + rest, |fields|, depth - 1))
  {
    var v := Map(fields);
    TaggedRoundTrip(v, rest);
    assert Put(v)[1..] + rest == PutVarint(|fields|) + (PutFields(fields) + rest);
    CountRoundTrip(|fields|, PutFields(fields) + rest);
  }

  lemma {:induction false} TooDeep(b: seq<byte>)
    ensures Take(b, 0) == None
  {
  }

  /** What decoding `v` at `depth` must give. */
  function Expected(v: Value, rest: seq<byte>, depth: nat): Taken<Value> {
    if Height(v) <= depth then Some((v, rest)) else None
  }

  lemma {:induction false} ListRoundTrip(items: seq<Value>, rest: seq<byte>, depth: nat)
    requires |items| < U64_END && ItemsFit(items) && depth > 0
    ensures Take(Put(List(items)) + rest, depth) == Expected(List(items), rest, depth)
    decreases items, 2, 0
  {
    hide Put, Take, TakeItems, PutItems;
    ListTakes(items, rest, depth);
    ItemsRoundTrip(items, rest, depth - 1);
  }

  lemma {:induction false} MapRoundTrip(fields: seq<Field>, rest: seq<byte>, depth: nat)
    requires |fields| < U64_END && FieldsFit(fields) && depth > 0
    ensures Take(Put(Map(fields)) + rest, depth) == Expected(Map(fields), rest, depth)
    decreases fields, 2, 0
  {
    hide Put, Take, TakeFields, PutFields;
    MapTakes(fields, rest, depth);
    FieldsRoundTrip(fields, rest, depth - 1);
  }

  /** Decoding what was encoded gives it back exactly when it is not too deep. */
  lemma {:induction false} ValueRoundTrip(v: Value, rest: seq<byte>, depth: nat)
    requires Fits(v)
    ensures Take(Put(v) + rest, depth) == Expected(v, rest, depth)
    decreases v, 3, 0
  {
    if depth == 0 {
      TooDeep(Put(v) + rest);
    } else if v.List? {
      ListRoundTrip(v.items, rest, depth);
    } else if v.Map? {
      MapRoundTrip(v.fields, rest, depth);
    } else {
      ScalarRoundTrip(v, rest, depth);
    }
  }

  lemma {:induction false} ItemsRoundTrip(items: seq<Value>, rest: seq<byte>, depth: nat)
    requires ItemsFit(items)
    ensures TakeItems(PutItems(items) + rest, |items|, depth)
            == if ItemsHeight(items) <= depth then Some((items, rest)) else None
    decreases items, 1, |items|
  {
    hide Put, Take;
    if items == [] {
      assert PutItems(items) + rest == rest;
    } else {
      assert PutItems(items) + rest == Put(items[0]) + (PutItems(items[1..]) + rest);
      ValueRoundTrip(items[0], PutItems(items[1..]) + rest, depth);
      ItemsRoundTrip(items[1..], rest, depth);
      assert items == [items[0]] + items[1..];
    }
  }

  lemma {:induction false} FieldsRoundTrip(fields: seq<Field>, rest: seq<byte>, depth: nat)
    requires FieldsFit(fields)
    ensures TakeFields(PutFields(fields) + rest, |fields|, depth)
            == if FieldsHeight(fields) <= depth then Some((fields, rest)) else None
    decreases fields, 1, |fields|
  {
    hide Put, Take, TakeText, TextFits, PutBytes;
    if fields == [] {
      assert PutFields(fields) + rest == rest;
    } else {
      var f, more := fields[0], PutFields(fields[1..]) + rest;
      assert PutFields(fields) + rest == PutBytes(Encode(f.key)) + (Put(f.value) + more);
      TextRoundTrip(f.key, Put(f.value) + more);
      ValueRoundTrip(f.value, more, depth);
      FieldsRoundTrip(fields[1..], rest, depth);
      assert fields == [f] + fields[1..];
    }
  }

  lemma TakenScalarFits(tag: nat, b: seq<byte>)
    requires TakeScalar(tag, b).Some?
    ensures var v := TakeScalar(tag, b).value.0; !v.List? && !v.Map? && ScalarFits(v)
  {
    match tag {
      case 3 => I64InRange(b);
      case 4 => TextInRange(b);
      case 8 => BytesInRange(b);
      case _ =>
    }
  }

  /** Whatever decodes is representable and no taller than the bound. */
  lemma {:induction false} TakenFits(b: seq<byte>, depth: nat)
    requires Take(b, depth).Some?
    ensures Fits(Take(b, depth).value.0) && Height(Take(b, depth).value.0) <= depth
    decreases depth, 0
  {
    var (tag, rest) := TakeU32(b).value;
    if tag == 5 || tag == 6 {
      var (n, more) := TakeU64(rest).value;
      VarintEnds();
      VarintInRange(rest, 10, 1);
      if tag == 5 {
        TakenItemsFit(more, n, depth - 1);
      } else {
        TakenFieldsFit(more, n, depth - 1);
      }
    } else {
      TakenScalarFits(tag, rest);
    }
  }

  lemma {:induction false} TakenItemsFit(b: seq<byte>, n: nat, depth: nat)
    requires TakeItems(b, n, depth).Some?
    ensures var items := TakeItems(b, n, depth).value.0;
      |items| == n && ItemsFit(items) && ItemsHeight(items) <= depth
    decreases depth, n
  {
    hide Take;
    if n > 0 {
      TakenFits(b, depth);
      TakenItemsFit(Take(b, depth).value.1, n - 1, depth);
      var items := TakeItems(b, n, depth).value.0;
      assert items[1..] == TakeItems(Take(b, depth).value.1, n - 1, depth).value.0;
    }
  }

  lemma {:induction false} TakenFieldsFit(b: seq<byte>, n: nat, depth: nat)
    requires TakeFields(b, n, depth).Some?
    ensures var fields := TakeFields(b, n, depth).value.0;
      |fields| == n && FieldsFit(fields) && FieldsHeight(fields) <= depth
    decreases depth, n
  {
    hide Take, TakeText, TextFits;
    if n > 0 {
      var rest := TakeText(b).value.1;
      TextInRange(b);
      TakenFits(rest, depth);
      TakenFieldsFit(Take(rest, depth).value.1, n - 1, depth);
      var fields := TakeFields(b, n, depth).value.0;
      assert fields[1..] == TakeFields(Take(rest, depth).value.1, n - 1, depth).value.0;
    }
  }

  // ---- entries ----

  /** One store entry; a missing value is a deletion. */
  datatype Entry = Entry(key: string, value: Option<Value>, timestamp: int)

  ghost predicate EntryFits(e: Entry) {
    TextFits(e.key) && (e.value.Some? ==> Fits(e.value.value)) && IsI64(e.timestamp)
  }

  ghost predicate EntriesFit(es: seq<Entry>) {
    |es| < U64_END && forall e | e in es :: EntryFits(e)
  }

  /** Nested no deeper than the decoder allows. */
  predicate Shallow(e: Entry) {
    e.value.Some? ==> Height(e.value.value) <= MAX_DEPTH
  }

  predicate AllShallow(es: seq<Entry>) {
    forall e | e in es :: Shallow(e)
  }

  function PutOption(v: Option<Value>): seq<byte> {
    if v.None? then [0] else [1] + Put(v.value)
  }

  function TakeOption(b: seq<byte>): Taken<Option<Value>> {
    if b == [] || b[0] > 1 then None
    else if b[0] == 0 then Some((None, b[1..]))
    else AsSome(Take(b[1..], MAX_DEPTH))
  }

  function AsSome(t: Taken<Value>): Taken<Option<Value>> {
    match t case None => None case Some((v, rest)) => Some((Some(v), rest))
  }

  function PutEntry(e: Entry): seq<byte> {
    PutBytes(Encode(e.key)) + (PutOption(e.value) + PutI64(e.timestamp))
  }

  function TakeEntry(b: seq<byte>): Taken<Entry> {
    match TakeText(b)
    case None => None
    case Some((key, rest)) =>
      match TakeOption(rest)
      case None => None
      case Some((value, rest)) =>
        match TakeI64(rest)
        case None => None
        case Some((timestamp, rest)) => Some((Entry(key, value, timestamp), rest))
  }

  function PutEntries(es: seq<Entry>): seq<byte> {
    if es == [] then [] else PutEntry(es[0]) + PutEntries(es[1..])
  }

  function TakeEntries(b: seq<byte>, n: nat): Taken<seq<Entry>>
    decreases n
  {
    if n == 0 then Some(([], b))
    else match TakeEntry(b)
         case None => None
         case Some((e, rest)) =>
           match TakeEntries(rest, n - 1)
           case None => None
           case Some((es, rest)) => Some(([e] + es, rest))
  }

  function ToBytes(es: seq<Entry>): seq<byte> {
    PutVarint(|es|) + PutEntries(es)
  }

  /** Bytes after the last entry are ignored. */
  function FromBytes(b: seq<byte>): Option<seq<Entry>> {
    match TakeU64(b)
    case None => None
    case Some((n, rest)) =>
      match TakeEntries(rest, n) case None => None case Some((es, _)) => Some(es)
  }

  lemma OptionRoundTrip(v: Option<Value>, rest: seq<byte>)
    requires v.Some? ==> Fits(v.value)
    ensures TakeOption(PutOption(v) + rest)
            == if v.None? || Height(v.value) <= MAX_DEPTH then Some((v, rest)) else None
  {
    hide Take, Put, Height;
    var b := PutOption(v) + rest;
    if v.None? {
      assert b[0] == 0 && b[1..] == rest;
    } else {
      assert b[0] == 1 && b[1..] == Put(v.value) + rest;
      ValueRoundTrip(v.value, rest, MAX_DEPTH);
      assert TakeOption(b) == AsSome(Expected(v.value, rest, MAX_DEPTH));
    }
  }

  lemma EntryRoundTrip(e: Entry, rest: seq<byte>)
    requires EntryFits(e)
    ensures TakeEntry(PutEntry(e) + rest) == if Shallow(e) then Some((e, rest)) else None
  {
    var tail := PutI64(e.timestamp) + rest;
    assert PutEntry(e) + rest == PutBytes(Encode(e.key)) + (PutOption(e.value) + tail);
    TextRoundTrip(e.key, PutOption(e.value) + tail);
    OptionRoundTrip(e.value, tail);
    I64RoundTrip(e.timestamp, rest);
  }

  lemma {:induction false} EntriesRoundTrip(es: seq<Entry>, rest: seq<byte>)
    requires forall e | e in es :: EntryFits(e)
    ensures TakeEntries(PutEntries(es) + rest, |es|)
            == if AllShallow(es) then Some((es, rest)) else None
  {
    hide TakeEntry, PutEntry, Shallow, EntryFits;
    if es == [] {
      assert PutEntries(es) + rest == rest;
    } else {
      var e, more := es[0], es[1..];
      assert es == [e] + more;
      assert AllShallow(es) <==> Shallow(e) && AllShallow(more);
      assert PutEntries(es) + rest == PutEntry(e) + (PutEntries(more) + rest);
      EntryRoundTrip(e, PutEntries(more) + rest);
      EntriesRoundTrip(more, rest);
    }
  }

  /**
   An encoded entry list, whatever follows it, decodes to itself if every value
   has height at most 64, and is refused otherwise.
   */
  lemma {:induction false} PresenceRoundTrip(es: seq<Entry>, junk: seq<byte>)
    requires EntriesFit(es)
    ensures FromBytes(ToBytes(es) + junk) == if AllShallow(es) then Some(es) else None
  {
    assert ToBytes(es) + junk == PutVarint(|es|) + (PutEntries(es) + junk);
    CountRoundTrip(|es|, PutEntries(es) + junk);
    EntriesRoundTrip(es, junk);
  }

  lemma TakenEntryFits(b: seq<byte>)
    requires TakeEntry(b).Some?
    ensures EntryFits(TakeEntry(b).value.0) && Shallow(TakeEntry(b).value.0)
  {
    TextInRange(b);
    var rest := TakeText(b).value.1;
    if rest[0] == 1 {
      TakenFits(rest[1..], MAX_DEPTH);
    }
    I64InRange(TakeOption(rest).value.1);
  }

  lemma {:induction false} TakenEntriesFit(b: seq<byte>, n: nat)
    requires TakeEntries(b, n).Some?
    ensures var es := TakeEntries(b, n).value.0;
      |es| == n && forall e | e in es :: EntryFits(e) && Shallow(e)
    decreases n
  {
    hide TakeEntry, Shallow, EntryFits;
    if n > 0 {
      TakenEntryFits(b);
      TakenEntriesFit(TakeEntry(b).value.1, n - 1);
      var es, more := TakeEntries(b, n).value.0, TakeEntries(TakeEntry(b).value.1, n - 1).value.0;
      assert es == [TakeEntry(b).value.0] + more;
    }
  }

  /** Whatever a peer sends, what decodes can be sent on. */
  lemma DecodedEntriesFit(b: seq<byte>)
    requires FromBytes(b).Some?
    ensures EntriesFit(FromBytes(b).value) && AllShallow(FromBytes(b).value)
  {
    VarintEnds();
    VarintInRange(b, 10, 1);
    TakenEntriesFit(TakeU64(b).value.1, TakeU64(b).value.0);
  }

  // ---- the visitors and the map serializer, as loops ----

  function Before<T>(out: seq<T>, t: Taken<seq<T>>): Taken<seq<T>> {
    match t case None => None case Some((more, rest)) => Some((out + more, rest))
  }

  lemma BeforeAny<T>(t: Taken<seq<T>>)
    ensures Before([], t) == t
  {
    if t.Some? {
      assert [] + t.value.0 == t.value.0;
    }
  }

  lemma BeforeMore<T>(out: seq<T>, x: T, t: Taken<seq<T>>)
    ensures Before(out, Before([x], t)) == Before(out + [x], t)
  {
    if t.Some? {
      assert out + ([x] + t.value.0) == out + [x] + t.value.0;
    }
  }

  method VisitEnum(b: seq<byte>, depth: nat) returns (r: Taken<Value>)
    ensures r == Take(b, depth)
    decreases depth, 0
  {
    if depth == 0 {
      return None;
    }
    var tagged := TakeU32(b);
    if tagged.None? {
      return None;
    }
    var (tag, rest) := tagged.value;
    if tag != 5 && tag != 6 {
      return TakeScalar(tag, rest);
    }
    var counted := TakeU64(rest);
    if counted.None? {
      return None;
    }
    var (n, body) := counted.value;
    if tag == 5 {
      var items := VisitSeq(body, n, depth - 1);
      r := AsList(items);
    } else {
      var fields := VisitMap(body, n, depth - 1);
      r := AsMap(fields);
    }
  }

  method VisitSeq(b: seq<byte>, n: nat, depth: nat) returns (r: Taken<seq<Value>>)
    ensures r == TakeItems(b, n, depth)
    decreases depth, 1
  {
    hide Take;
    var out: seq<Value>, rest, i := [], b, 0;
    BeforeAny(TakeItems(b, n, depth));
    while i < n
      invariant i <= n && TakeItems(b, n, depth) == Before(out, TakeItems(rest, n - i, depth))
    {
      var next := VisitEnum(rest, depth);
      if next.None? {
        return None;
      }
      BeforeMore(out, next.value.0, TakeItems(next.value.1, n - i - 1, depth));
      out, rest, i := out + [next.value.0], next.value.1, i + 1;
    }
    assert out + [] == out;
    r := Some((out, rest));
  }

  method VisitMap(b: seq<byte>, n: nat, depth: nat) returns (r: Taken<seq<Field>>)
    ensures r == TakeFields(b, n, depth)
    decreases depth, 1
  {
    hide Take, TakeText;
    var out: seq<Field>, rest, i := [], b, 0;
    BeforeAny(TakeFields(b, n, depth));
    while i < n
      invariant i <= n && TakeFields(b, n, depth) == Before(out, TakeFields(rest, n - i, depth))
    {
      var key := TakeText(rest);
      if key.None? {
        return None;
      }
      var next := VisitEnum(key.value.1, depth);
      if next.None? {
        return None;
      }
      var f := Field(key.value.0, next.value.0);
      BeforeMore(out, f, TakeFields(next.value.1, n - i - 1, depth));
      out, rest, i := out + [f], next.value.1, i + 1;
    }
    assert out + [] == out;
    r := Some((out, rest));
  }

  method Serialize(v: Value) returns (out: seq<byte>)
    ensures out == Put(v)
    decreases v, 0
  {
    match v {
      case List(items) =>
        out := PutVarint(|items|);
        for i := 0 to |items|
          invariant out + PutItems(items[i..]) == PutVarint(|items|) + PutItems(items)
        {
          var item := Serialize(items[i]);
          assert items[i..][1..] == items[i + 1..];
          assert out + (item + PutItems(items[i + 1..])) == out + item + PutItems(items[i + 1..]);
          out := out + item;
        }
        assert out + [] == out;
        out := [5] + out;
      case Map(fields) =>
        var body := SerializeMap(fields);
        out := [6] + body;
      case _ => out := Put(v);
    }
  }

  method SerializeMap(fields: seq<Field>) returns (out: seq<byte>)
    ensures out == PutVarint(|fields|) + PutFields(fields)
    decreases fields, 1
  {
    out := PutVarint(|fields|);
    for i := 0 to |fields|
      invariant out + PutFields(fields[i..]) == PutVarint(|fields|) + PutFields(fields)
    {
      var value := Serialize(fields[i].value);
      var entry := PutBytes(Encode(fields[i].key)) + value;
      assert fields[i..][1..] == fields[i + 1..];
      assert out + (entry + PutFields(fields[i + 1..])) == out + entry + PutFields(fields[i + 1..]);
      out := out + entry;
    }
    assert out + [] == out;
  }
}
