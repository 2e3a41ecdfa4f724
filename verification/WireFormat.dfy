/** The protobuf wire decoder ("Base 128 Varints" and "Message Structure" of the Protocol
    Buffers encoding), against an encoder for the same format. */
module WireFormat {
  import opened Common

  type Byte = b: int | 0 <= b < 256

  const TWO_63 := 0x8000_0000_0000_0000
  const TWO_64 := 0x1_0000_0000_0000_0000
  const MAX_FIELD := 536_870_911

  // ---------------------------------------------------------------------
  // Varints
  // ---------------------------------------------------------------------

  datatype Read = Value(value: int, next: nat) | Bad

  /** The varint at offset when k of its bytes were read already. */
  function VarintAt(bytes: seq<Byte>, offset: nat, k: nat): Read
    requires k <= 10
    decreases |bytes| - offset
  {
    if offset >= |bytes| || k == 10 || (k == 9 && bytes[offset] % 128 > 1) then Bad
    else if bytes[offset] < 128 then Value(bytes[offset], offset + 1)
    else match VarintAt(bytes, offset + 1, k + 1)
      case Bad => Bad
      case Value(rest, next) => Value(bytes[offset] % 128 + 128 * rest, next)
  }

  /** A varint whose first bits are known: the rest counts power times as much. */
  function Continued(r: Read, value: int, power: int): Read {
    match r
    case Bad => Bad
    case Value(rest, next) => Value(value + power * rest, next)
  }

  lemma ContinuedShift(r: Read, value: int, power: int, low: int)
    ensures Continued(Continued(r, low, 128), value, power) == Continued(r, value + low * power, 128 * power)
  {
    if r.Value? {
      assert power * (low + 128 * r.value) == power * low + power * (128 * r.value);
      assert power * (128 * r.value) == (128 * power) * r.value;
    }
  }

  /** readVarint: the bits read so far are below the shift, so or-ing the next seven in
      is adding them. */
  method ReadVarint(bytes: seq<Byte>, offset: nat) returns (r: Read)
    ensures r == VarintAt(bytes, offset, 0)
  {
    var value: int, at: nat, k: nat, power: int := 0, offset, 0, 1;
    assert Continued(VarintAt(bytes, offset, 0), 0, 1) == VarintAt(bytes, offset, 0);
    while at < |bytes| && k <= 9
      invariant k <= 10
      invariant Continued(VarintAt(bytes, at, k), value, power) == VarintAt(bytes, offset, 0)
      decreases 10 - k
    {
      var next := bytes[at];
      if k == 9 && next % 128 > 1 {
        return Bad;
      }
      if next < 128 {
        return Value(value + power * next, at + 1);
      }
      assert VarintAt(bytes, at, k) == Continued(VarintAt(bytes, at + 1, k + 1), next % 128, 128);
      ContinuedShift(VarintAt(bytes, at + 1, k + 1), value, power, next % 128);
      value := value + (next % 128) * power;
      at, k, power := at + 1, k + 1, 128 * power;
    }
    r := Bad;
  }

  function EncodeVarint(v: nat): (bytes: seq<Byte>)
    ensures bytes != []
  {
    if v < 128 then [v] else [v % 128 + 128] + EncodeVarint(v / 128)
  }

  predicate StandsAt(bytes: seq<Byte>, offset: nat, part: seq<Byte>) {
    offset + |part| <= |bytes| && bytes[offset..offset + |part|] == part
  }

  /** 2^64 over the first k groups of seven bits. */
  function Room(k: nat): nat
    requires k <= 10
  {
    if k == 0 then TWO_64 else if k == 10 then 0 else Room(k - 1) / 128
  }

  /** Each group of seven bits leaves room for the rest, and the tenth for one bit. */
  lemma RoomSplits(k: nat)
    requires k <= 9
    ensures k < 9 ==> Room(k) == 128 * Room(k + 1) && Room(k) >= 256
    ensures k == 9 ==> Room(k) == 2
  {
    assert Room(1) == 0x200_0000_0000_0000;
    assert Room(2) == 0x4_0000_0000_0000;
    assert Room(3) == 0x800_0000_0000;
    assert Room(4) == 0x10_0000_0000;
    assert Room(5) == 0x2000_0000;
    assert Room(6) == 0x40_0000;
    assert Room(7) == 0x8000;
    assert Room(8) == 0x100;
  }

  lemma {:induction false} EncodedReadsBack(bytes: seq<Byte>, offset: nat, v: nat, k: nat)
    requires k <= 9 && v < Room(k) && StandsAt(bytes, offset, EncodeVarint(v))
    ensures VarintAt(bytes, offset, k) == Value(v, offset + |EncodeVarint(v)|)
    decreases v
  {
    RoomSplits(k);
    if v < 128 {
      assert bytes[offset..offset + 1][0] == v;
    } else {
      StandsInside(bytes, offset, [v % 128 + 128], EncodeVarint(v / 128));
      assert bytes[offset..offset + 1][0] == v % 128 + 128;
      EncodedReadsBack(bytes, offset + 1, v / 128, k + 1);
    }
  }

  /** readVarint inverts the base-128 encoding of every 64-bit value, wherever it stands. */
  lemma VarintRoundTrip(bytes: seq<Byte>, offset: nat, v: nat)
    requires v < TWO_64 && StandsAt(bytes, offset, EncodeVarint(v))
    ensures VarintAt(bytes, offset, 0) == Value(v, offset + |EncodeVarint(v)|)
  {
    EncodedReadsBack(bytes, offset, v, 0);
  }

  /** n bytes from offset form a varint: all but the last continue, and a tenth byte
      carries at most the one bit that is left. */
  predicate IsVarint(bytes: seq<Byte>, offset: nat, n: nat, k: nat) {
    && 0 < n && k + n <= 10 && offset + n <= |bytes|
    && (forall i | offset <= i < offset + n - 1 :: bytes[i] >= 128)
    && bytes[offset + n - 1] < 128
    && (k + n == 10 ==> bytes[offset + n - 1] <= 1)
  }

  lemma {:induction false} ReadsVarintOf(bytes: seq<Byte>, offset: nat, k: nat, n: nat)
    requires k <= 9 && IsVarint(bytes, offset, n, k)
    ensures VarintAt(bytes, offset, k).Value? && VarintAt(bytes, offset, k).next == offset + n
    ensures 0 <= VarintAt(bytes, offset, k).value < Room(k)
    decreases n
  {
    RoomSplits(k);
    if n > 1 {
      assert IsVarint(bytes, offset + 1, n - 1, k + 1);
      ReadsVarintOf(bytes, offset + 1, k + 1, n - 1);
    }
  }

  lemma {:induction false} ReadIsVarint(bytes: seq<Byte>, offset: nat, k: nat) returns (n: nat)
    requires k <= 9 && VarintAt(bytes, offset, k).Value?
    ensures IsVarint(bytes, offset, n, k) && VarintAt(bytes, offset, k).next == offset + n
    decreases 10 - k
  {
    if bytes[offset] < 128 {
      n := 1;
    } else {
      var m := ReadIsVarint(bytes, offset + 1, k + 1);
      n := m + 1;
    }
  }

  /** Exactly the well-formed varints of at most 64 bits are read: a truncated one and
      one with more than 64 bits are rejected, and every value fits 64 bits. */
  lemma VarintAcceptedExactly(bytes: seq<Byte>, offset: nat)
    ensures VarintAt(bytes, offset, 0).Value? <==> exists n :: IsVarint(bytes, offset, n, 0)
    ensures VarintAt(bytes, offset, 0).Value? ==> 0 <= VarintAt(bytes, offset, 0).value < TWO_64
    ensures VarintAt(bytes, offset, 0).Value? ==> offset < VarintAt(bytes, offset, 0).next <= |bytes|
  {
    if VarintAt(bytes, offset, 0).Value? {
      var n := ReadIsVarint(bytes, offset, 0);
      ReadsVarintOf(bytes, offset, 0, n);
    }
    if n :| IsVarint(bytes, offset, n, 0) {
      ReadsVarintOf(bytes, offset, 0, n);
    }
  }

  // ---------------------------------------------------------------------
  // Fields
  // ---------------------------------------------------------------------

  /** A decoded field. Fixed-width payloads are not kept. */
  datatype Field = Number(number: nat, value: nat) | Fixed64(number: nat) | Content(number: nat, bytes: seq<Byte>) | Fixed32(number: nat)

  /** A field and the span of its payload. */
  datatype Parsed = Parsed(field: Field, start: nat, end: nat)

  /** The field whose tag was read up to at, or None where the blob is not a message. */
  function FieldWith(bytes: seq<Byte>, number: nat, wireType: nat, at: nat): (p: Option<Parsed>)
    ensures p.Some? ==> at <= p.value.start <= p.value.end <= |bytes|
  {
    VarintAcceptedExactly(bytes, at);
    match wireType
    case 0 =>
      (match VarintAt(bytes, at, 0)
       case Bad => None
       case Value(value, next) => Some(Parsed(Number(number, value), at, next)))
    case 1 => if at + 8 > |bytes| then None else Some(Parsed(Fixed64(number), at, at + 8))
    case 2 =>
      (match VarintAt(bytes, at, 0)
       case Bad => None
       case Value(length, next) =>
         if length > |bytes| - next then None else Some(Parsed(Content(number, bytes[next..next + length]), next, next + length)))
    case 5 => if at + 4 > |bytes| then None else Some(Parsed(Fixed32(number), at, at + 4))
    case _ => None
  }

  function FieldAt(bytes: seq<Byte>, offset: nat): (p: Option<Parsed>)
    ensures p.Some? ==> offset < p.value.start <= p.value.end <= |bytes|
  {
    VarintAcceptedExactly(bytes, offset);
    match VarintAt(bytes, offset, 0)
    case Bad => None
    case Value(tag, at) => if tag / 8 < 1 || tag / 8 > MAX_FIELD then None else FieldWith(bytes, tag / 8, tag % 8, at)
  }

  function FieldsFrom(bytes: seq<Byte>, offset: nat): Option<seq<Parsed>>
    decreases |bytes| - offset
  {
    if offset >= |bytes| then Some([])
    else match FieldAt(bytes, offset)
      case None => None
      case Some(first) =>
        match FieldsFrom(bytes, first.end)
        case None => None
        case Some(rest) => Some([first] + rest)
  }

  /** parseFields: an unparsable blob yields no fields. */
  function Fields(bytes: seq<Byte>): seq<Parsed> {
    if FieldsFrom(bytes, 0).Some? then FieldsFrom(bytes, 0).value else []
  }

  method ParseFields(bytes: seq<Byte>) returns (result: seq<Parsed>)
    ensures result == Fields(bytes)
  {
    result := [];
    var offset := 0;
    assert FieldsFrom(bytes, 0).Some? ==> [] + FieldsFrom(bytes, 0).value == FieldsFrom(bytes, 0).value;
    while offset < |bytes|
      invariant 0 <= offset <= |bytes|
      invariant Appended(result, FieldsFrom(bytes, offset)) == FieldsFrom(bytes, 0)
      decreases |bytes| - offset
    {
      var field := ParseField(bytes, offset);
      if field.None? {
        return [];
      }
      ghost var rest := FieldsFrom(bytes, field.value.end);
      if rest.Some? {
        assert result + ([field.value] + rest.value) == (result + [field.value]) + rest.value;
      }
      result := result + [field.value];
      offset := field.value.end;
    }
    assert result + [] == result;
  }

  function Appended(done: seq<Parsed>, rest: Option<seq<Parsed>>): Option<seq<Parsed>> {
    if rest.None? then None else Some(done + rest.value)
  }

  /** One iteration of the loop: the tag, then the payload its wire type announces. */
  method ParseField(bytes: seq<Byte>, offset: nat) returns (p: Option<Parsed>)
    ensures p == FieldAt(bytes, offset)
  {
    VarintAcceptedExactly(bytes, offset);
    var tag := ReadVarint(bytes, offset);
    if tag.Bad? {
      return None;
    }
    var number, at := tag.value / 8, tag.next;
    if number < 1 || number > MAX_FIELD {
      return None;
    }
    match tag.value % 8 {
      case 0 =>
        VarintAcceptedExactly(bytes, at);
        var value := ReadVarint(bytes, at);
        p := if value.Bad? then None else Some(Parsed(Number(number, value.value), at, value.next));
      case 1 =>
        p := if at + 8 > |bytes| then None else Some(Parsed(Fixed64(number), at, at + 8));
      case 2 =>
        VarintAcceptedExactly(bytes, at);
        var length := ReadVarint(bytes, at);
        if length.Bad? || length.value > |bytes| - length.next {
          return None;
        }
        p := Some(Parsed(Content(number, bytes[length.next..length.next + length.value]), length.next, length.next + length.value));
      case 5 =>
        p := if at + 4 > |bytes| then None else Some(Parsed(Fixed32(number), at, at + 4));
      case _ =>
        p := None;
    }
  }

  // ---------------------------------------------------------------------
  // Spans
  // ---------------------------------------------------------------------

  /** Payload spans are in bounds, in order and disjoint, and a content field is exactly
      its span. */
  lemma {:induction false} SpansAreOrdered(bytes: seq<Byte>, offset: nat, i: nat, j: nat)
    requires FieldsFrom(bytes, offset).Some? && i <= j < |FieldsFrom(bytes, offset).value|
    ensures var fields := FieldsFrom(bytes, offset).value;
            && offset < fields[i].start <= fields[i].end <= |bytes|
            && (i < j ==> fields[i].end < fields[j].start)
            && (fields[i].field.Content? ==> fields[i].field.bytes == bytes[fields[i].start..fields[i].end])
    decreases |bytes| - offset
  {
    if offset < |bytes| {
      var first := FieldAt(bytes, offset).value;
      if i > 0 {
        SpansAreOrdered(bytes, first.end, i - 1, j - 1);
      } else if j > 0 {
        SpansAreOrdered(bytes, first.end, j - 1, j - 1);
      }
    }
  }

  /** A nested payload is at least two bytes shorter than the blob it is found in. */
  lemma {:induction false} NestedIsShorter(bytes: seq<Byte>, i: nat)
    requires i < |Fields(bytes)| && Fields(bytes)[i].field.Content?
    ensures |Fields(bytes)[i].field.bytes| + 2 <= |bytes|
  {
    NestedFromIsShorter(bytes, 0, i);
  }

  lemma {:induction false} NestedFromIsShorter(bytes: seq<Byte>, offset: nat, i: nat)
    requires FieldsFrom(bytes, offset).Some? && i < |FieldsFrom(bytes, offset).value|
    requires FieldsFrom(bytes, offset).value[i].field.Content?
    ensures |FieldsFrom(bytes, offset).value[i].field.bytes| + 2 <= |bytes| - offset
    decreases |bytes| - offset
  {
    var first := FieldAt(bytes, offset).value;
    if i > 0 {
      NestedFromIsShorter(bytes, first.end, i - 1);
    } else {
      VarintAcceptedExactly(bytes, offset);
      VarintAcceptedExactly(bytes, VarintAt(bytes, offset, 0).next);
    }
  }

  // ---------------------------------------------------------------------
  // The encoder and the round trip
  // ---------------------------------------------------------------------

  /** A field to send, with its fixed-width payload. */
  datatype Wire =
    | SendNumber(number: nat, value: nat)
    | SendFixed64(number: nat, payload: seq<Byte>)
    | SendContent(number: nat, content: seq<Byte>)
    | SendFixed32(number: nat, payload: seq<Byte>)

  predicate Legal(w: Wire) {
    && 1 <= w.number <= MAX_FIELD
    && match w
       case SendNumber(_, value) => value < TWO_64
       case SendFixed64(_, payload) => |payload| == 8
       case SendContent(_, content) => |content| < TWO_63
       case SendFixed32(_, payload) => |payload| == 4
  }

  function WireType(w: Wire): nat {
    match w
    case SendNumber(_, _) => 0
    case SendFixed64(_, _) => 1
    case SendContent(_, _) => 2
    case SendFixed32(_, _) => 5
  }

  function Payload(w: Wire): seq<Byte> {
    match w
    case SendNumber(_, value) => EncodeVarint(value)
    case SendFixed64(_, payload) => payload
    case SendContent(_, content) => EncodeVarint(|content|) + content
    case SendFixed32(_, payload) => payload
  }

  function EncodeField(w: Wire): (bytes: seq<Byte>)
    ensures bytes != []
  {
    EncodeVarint(w.number * 8 + WireType(w)) + Payload(w)
  }

  function Encode(ws: seq<Wire>): seq<Byte> {
    if ws == [] then [] else EncodeField(ws[0]) + Encode(ws[1..])
  }

  /** What the decoder keeps of a field. */
  function Erased(w: Wire): Field {
    match w
    case SendNumber(number, value) => Number(number, value)
    case SendFixed64(number, _) => Fixed64(number)
    case SendContent(number, content) => Content(number, content)
    case SendFixed32(number, _) => Fixed32(number)
  }

  lemma StandsInside(bytes: seq<Byte>, offset: nat, first: seq<Byte>, rest: seq<Byte>)
    requires StandsAt(bytes, offset, first + rest)
    ensures StandsAt(bytes, offset, first) && StandsAt(bytes, offset + |first|, rest)
  {
    var whole := bytes[offset..offset + |first + rest|];
    assert whole[..|first|] == first && whole[|first|..] == rest;
    assert bytes[offset..offset + |first|] == whole[..|first|];
    assert bytes[offset + |first|..offset + |first| + |rest|] == whole[|first|..];
  }

  /** The payload a tag announces, read at its place. */
  lemma PayloadReadsBack(bytes: seq<Byte>, at: nat, w: Wire)
    requires Legal(w) && StandsAt(bytes, at, Payload(w))
    ensures FieldWith(bytes, w.number, WireType(w), at).Some?
    ensures FieldWith(bytes, w.number, WireType(w), at).value.field == Erased(w)
    ensures FieldWith(bytes, w.number, WireType(w), at).value.end == at + |Payload(w)|
  {
    match w {
      case SendNumber(_, value) =>
        VarintRoundTrip(bytes, at, value);
      case SendContent(_, content) =>
        StandsInside(bytes, at, EncodeVarint(|content|), content);
        VarintRoundTrip(bytes, at, |content|);
      case SendFixed64(_, _) =>
      case SendFixed32(_, _) =>
    }
  }

  lemma FieldReadsBack(bytes: seq<Byte>, offset: nat, w: Wire)
    requires Legal(w) && StandsAt(bytes, offset, EncodeField(w))
    ensures FieldAt(bytes, offset).Some? && FieldAt(bytes, offset).value.field == Erased(w)
    ensures FieldAt(bytes, offset).value.end == offset + |EncodeField(w)|
  {
    var at := TagReadsBack(bytes, offset, w);
    TagDecides(bytes, offset, w.number, WireType(w), at);
    PayloadReadsBack(bytes, at, w);
  }

  lemma TagReadsBack(bytes: seq<Byte>, offset: nat, w: Wire) returns (at: nat)
    requires Legal(w) && StandsAt(bytes, offset, EncodeField(w))
    ensures VarintAt(bytes, offset, 0) == Value(w.number * 8 + WireType(w), at)
    ensures StandsAt(bytes, at, Payload(w)) && at + |Payload(w)| == offset + |EncodeField(w)|
  {
    var head := EncodeVarint(w.number * 8 + WireType(w));
    StandsInside(bytes, offset, head, Payload(w));
    VarintRoundTrip(bytes, offset, w.number * 8 + WireType(w));
    at := offset + |head|;
  }

  lemma TagDecides(bytes: seq<Byte>, offset: nat, number: nat, wireType: nat, at: nat)
    requires 1 <= number <= MAX_FIELD && wireType < 8
    requires VarintAt(bytes, offset, 0) == Value(number * 8 + wireType, at)
    ensures FieldAt(bytes, offset) == FieldWith(bytes, number, wireType, at)
  {
    assert (number * 8 + wireType) / 8 == number && (number * 8 + wireType) % 8 == wireType;
  }

  function FieldsOf(parsed: seq<Parsed>): seq<Field> {
    if parsed == [] then [] else [parsed[0].field] + FieldsOf(parsed[1..])
  }

  function AllErased(ws: seq<Wire>): seq<Field> {
    if ws == [] then [] else [Erased(ws[0])] + AllErased(ws[1..])
  }

  predicate AllLegal(ws: seq<Wire>) {
    forall k | 0 <= k < |ws| :: Legal(ws[k])
  }

  lemma {:induction false} MessageReadsBack(bytes: seq<Byte>, offset: nat, ws: seq<Wire>)
    requires AllLegal(ws)
    requires offset + |Encode(ws)| == |bytes| && StandsAt(bytes, offset, Encode(ws))
    ensures FieldsFrom(bytes, offset).Some? && FieldsOf(FieldsFrom(bytes, offset).value) == AllErased(ws)
    decreases |ws|
  {
    if ws != [] {
      StandsInside(bytes, offset, EncodeField(ws[0]), Encode(ws[1..]));
      FieldReadsBack(bytes, offset, ws[0]);
      MessageReadsBack(bytes, offset + |EncodeField(ws[0])|, ws[1..]);
      FirstField(bytes, offset);
    }
  }

  lemma FirstField(bytes: seq<Byte>, offset: nat)
    requires offset < |bytes| && FieldAt(bytes, offset).Some? && FieldsFrom(bytes, FieldAt(bytes, offset).value.end).Some?
    ensures FieldsFrom(bytes, offset).Some?
    ensures FieldsOf(FieldsFrom(bytes, offset).value)
         == [FieldAt(bytes, offset).value.field] + FieldsOf(FieldsFrom(bytes, FieldAt(bytes, offset).value.end).value)
  {
    var first, rest := FieldAt(bytes, offset).value, FieldsFrom(bytes, FieldAt(bytes, offset).value.end).value;
    assert ([first] + rest)[1..] == rest;
  }

  /** parseFields inverts the encoder on every list of legal fields. */
  lemma MessageRoundTrip(ws: seq<Wire>)
    requires AllLegal(ws)
    ensures FieldsOf(Fields(Encode(ws))) == AllErased(ws)
  {
    assert Encode(ws)[0..0 + |Encode(ws)|] == Encode(ws);
    MessageReadsBack(Encode(ws), 0, ws);
  }
}
