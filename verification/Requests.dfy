/** Requests on the wire: protobuf text fields, and UnmarshalRequest with its JSON attempt and protobuf fallback. */
module Requests {
  import opened Basics
  import JsonScanner
  import BadgerStore
  import Fsm

  /** A signing request; a reshare request is one without a message. */
  datatype Request = Request(hash: Text, pubkey: Text, message: Text)

  const EMPTY := Request([], [], [])

  // ----- protobuf: varints and length-delimited text fields -----

  function EncodeVarint(n: nat): Text
  {
    if n < 128 then [n] else [n % 128 + 128] + EncodeVarint(n / 128)
  }

  /** At most `left` more bytes; the tenth byte of a 64-bit varint may only be 0 or 1. */
  function DecodeVarint(s: Text, left: nat): Option<(nat, Text)>
    decreases left
  {
    if s == [] || left == 0 || (left == 1 && s[0] > 1) then None
    else if s[0] < 128 then Some((s[0], s[1..]))
    else
      match DecodeVarint(s[1..], left - 1)
      case None => None
      case Some((n, rest)) => Some((s[0] - 128 + 128 * n, rest))
  }

  const VARINT := 10

  function EncodeField(number: nat, s: Text): Text
    requires 1 <= number <= 15
  {
    if s == [] then [] else [8 * number + 2] + EncodeVarint(|s|) + s
  }

  /** proto.Marshal; text that is not UTF-8 is an error, whatever that means here. */
  function Marshal(utf8: Text -> bool, r: Request): Result<Text>
  {
    if utf8(r.hash) && utf8(r.pubkey) && utf8(r.message) then Ok(Wire(r)) else Err(InvalidMessage)
  }

  function Wire(r: Request): Text
  {
    EncodeField(1, r.hash) + EncodeField(2, r.pubkey) + EncodeField(3, r.message)
  }

  function Set(r: Request, number: nat, s: Text): Request
  {
    match number
    case 1 => r.(hash := s)
    case 2 => r.(pubkey := s)
    case 3 => r.(message := s)
    case _ => r
  }

  lemma {:induction false} DecodeVarintShortens(s: Text, left: nat)
    ensures DecodeVarint(s, left).Some? ==> |DecodeVarint(s, left).value.1| < |s|
    decreases left
  {
    if s != [] && left > 0 {
      DecodeVarintShortens(s[1..], left - 1);
    }
  }

  /** One field of a message; only a length-delimited one has text. */
  datatype Field = Field(number: nat, text: Option<Text>)

  const DEPTH := 10000

  /** The value of a field of wire type `kind` and what follows it; at most `depth` groups may nest in it. */
  function Payload(number: nat, kind: nat, s: Text, depth: int): (p: Option<(Option<Text>, Text)>)
    ensures p.Some? ==> |p.value.1| <= |s|
    decreases |s|, 1
  {
    DecodeVarintShortens(s, VARINT);
    match kind
    case 0 =>
      (match DecodeVarint(s, VARINT)
       case None => None
       case Some((_, rest)) => Some((None, rest)))
    case 1 => if |s| < 8 then None else Some((None, s[8..]))
    case 2 =>
      (match DecodeVarint(s, VARINT)
       case None => None
       case Some((length, rest)) =>
         if |rest| < length then None else Some((Some(rest[..length]), rest[length..])))
    case 3 =>
      if depth < 0 then None
      else
        (match AfterGroup(number, s, depth)
         case None => None
         case Some(rest) => Some((None, rest)))
    case 5 => if |s| < 4 then None else Some((None, s[4..]))
    case _ => None
  }

  const MAX_NUMBER := 0x7FFF_FFFF

  /** What follows the end of group `number`: its fields are skipped until the end tag with the same number. */
  function AfterGroup(number: nat, s: Text, depth: int): (rest: Option<Text>)
    ensures rest.Some? ==> |rest.value| <= |s|
    decreases |s|, 0
  {
    DecodeVarintShortens(s, VARINT);
    match DecodeVarint(s, VARINT)
    case None => None
    case Some((tag, rest)) =>
      if tag / 8 == 0 || tag / 8 > MAX_NUMBER then None
      else if tag % 8 == 4 then (if tag / 8 == number then Some(rest) else None)
      else
        match Payload(tag / 8, tag % 8, rest, depth - 1)
        case None => None
        case Some((_, after)) => AfterGroup(number, after, depth)
  }

  const MAX_FIELD := 0x1FFF_FFFF

  function NextField(s: Text): (f: Option<(Field, Text)>)
    ensures f.Some? ==> |f.value.1| < |s|
  {
    DecodeVarintShortens(s, VARINT);
    match DecodeVarint(s, VARINT)
    case None => None
    case Some((tag, rest)) =>
      if tag / 8 == 0 || tag / 8 > MAX_FIELD then None
      else
        match Payload(tag / 8, tag % 8, rest, DEPTH)
        case None => None
        case Some((text, after)) => Some((Field(tag / 8, text), after))
  }

  /** proto.Unmarshal after its reset: later fields win, unknown fields are skipped, fields 1 to 3 must be UTF-8. */
  function Fields(utf8: Text -> bool, s: Text, r: Request): Option<Request>
    decreases |s|
  {
    if s == [] then Some(r)
    else
      match NextField(s)
      case None => None
      case Some((field, rest)) =>
        match field.text
        case None => Fields(utf8, rest, r)
        case Some(text) =>
          if field.number <= 3 && !utf8(text) then None else Fields(utf8, rest, Set(r, field.number, text))
  }

  function Pow128(k: nat): nat
  {
    if k == 0 then 1 else 128 * Pow128(k - 1)
  }

  lemma {:induction false} VarintRoundTrip(n: nat, rest: Text, k: nat, left: nat)
    requires n < Pow128(k) && k < left
    ensures DecodeVarint(EncodeVarint(n) + rest, left) == Some((n, rest))
    decreases k
  {
    var s := EncodeVarint(n) + rest;
    if n < 128 {
      assert s[1..] == rest;
    } else {
      assert s[1..] == EncodeVarint(n / 128) + rest;
      VarintRoundTrip(n / 128, rest, k - 1, left - 1);
    }
  }

  /** A length of a Go string fits in 63 bits. */
  predicate IsLength(n: nat)
  {
    n < Pow128(9)
  }

  /** One length-delimited text field is read back whole. */
  lemma NextFieldRoundTrip(number: nat, s: Text, rest: Text)
    requires 1 <= number <= 3 && s != [] && IsLength(|s|)
    ensures NextField(EncodeField(number, s) + rest) == Some((Field(number, Some(s)), rest))
  {
    var all := EncodeField(number, s) + rest;
    var tail := EncodeVarint(|s|) + (s + rest);
    assert all == [8 * number + 2] + tail;
    assert all[1..] == tail;
    VarintRoundTrip(|s|, s + rest, 9, VARINT);
    assert (s + rest)[..|s|] == s && (s + rest)[|s|..] == rest;
    assert Payload(number, 2, tail, DEPTH) == Some((Some(s), rest));
    assert (8 * number + 2) / 8 == number && (8 * number + 2) % 8 == 2;
  }

  lemma FieldRoundTrip(utf8: Text -> bool, number: nat, s: Text, rest: Text, r: Request)
    requires 1 <= number <= 3 && s != [] && utf8(s) && IsLength(|s|)
    ensures Fields(utf8, EncodeField(number, s) + rest, r) == Fields(utf8, rest, Set(r, number, s))
  {
    NextFieldRoundTrip(number, s, rest);
  }

  predicate ShortFields(r: Request)
  {
    IsLength(|r.hash|) && IsLength(|r.pubkey|) && IsLength(|r.message|)
  }

  lemma FieldOrNothing(utf8: Text -> bool, number: nat, s: Text, rest: Text, r: Request)
    requires 1 <= number <= 3 && utf8(s) && IsLength(|s|)
    requires Set(r, number, []) == r
    ensures Fields(utf8, EncodeField(number, s) + rest, r) == Fields(utf8, rest, Set(r, number, s))
  {
    if s == [] {
      assert EncodeField(number, s) + rest == rest;
    } else {
      FieldRoundTrip(utf8, number, s, rest, r);
    }
  }

  /** The wire form of every request is read back exactly. */
  lemma WireRoundTrip(utf8: Text -> bool, r: Request)
    requires Marshal(utf8, r).Ok? && ShortFields(r)
    ensures Fields(utf8, Marshal(utf8, r).value, EMPTY) == Some(r)
  {
    var w2, w3 := EncodeField(2, r.pubkey), EncodeField(3, r.message);
    assert Wire(r) == EncodeField(1, r.hash) + (w2 + w3);
    FieldOrNothing(utf8, 1, r.hash, w2 + w3, EMPTY);
    FieldOrNothing(utf8, 2, r.pubkey, w3, Request(r.hash, [], []));
    assert w3 == w3 + [];
    FieldOrNothing(utf8, 3, r.message, [], Request(r.hash, r.pubkey, []));
  }

  // ----- what else a message may hold -----

  lemma WireVectors()
    ensures EncodeVarint(300) == [0xAC, 0x02]
    ensures Wire(Request(Ascii("a"), Ascii("b"), Ascii("c")))
         == [0x0A, 1, 'a' as int, 0x12, 1, 'b' as int, 0x1A, 1, 'c' as int]
  {
  }

  /** The first byte of a field of one of the numbers that fit in it. */
  function Tag(number: nat, kind: nat): byte
    requires 1 <= number <= 15 && kind < 8
  {
    8 * number + kind
  }

  lemma DecodeTag(number: nat, kind: nat, rest: Text)
    requires 1 <= number <= 15 && kind < 8
    ensures DecodeVarint([Tag(number, kind)] + rest, VARINT) == Some((Tag(number, kind), rest))
    ensures Tag(number, kind) / 8 == number && Tag(number, kind) % 8 == kind
  {
    assert ([Tag(number, kind)] + rest)[1..] == rest;
  }

  /** A tag and what its value says. */
  lemma FieldByTag(number: nat, kind: nat, s: Text)
    requires 1 <= number <= 15 && kind < 8
    ensures NextField([Tag(number, kind)] + s)
         == match Payload(number, kind, s, DEPTH)
            case None => None
            case Some((text, after)) => Some((Field(number, text), after))
  {
    DecodeTag(number, kind, s);
  }

  /** The bytes `value` are a whole value of this kind, whatever comes after them. */
  ghost predicate IsValue(number: nat, kind: nat, value: Text, depth: int)
  {
    forall rest: Text :: var p := Payload(number, kind, value + rest, depth); p.Some? && p.value.1 == rest
  }

  lemma VarintValue(number: nat, v: nat, depth: int)
    requires IsLength(v)
    ensures IsValue(number, 0, EncodeVarint(v), depth)
  {
    forall rest: Text
      ensures Payload(number, 0, EncodeVarint(v) + rest, depth) == Some((None, rest))
    {
      VarintRoundTrip(v, rest, 9, VARINT);
    }
  }

  lemma FixedValue(number: nat, kind: nat, value: Text, depth: int)
    requires (kind == 1 && |value| == 8) || (kind == 5 && |value| == 4)
    ensures IsValue(number, kind, value, depth)
  {
    forall rest: Text
      ensures Payload(number, kind, value + rest, depth) == Some((None, rest))
    {
      assert (value + rest)[|value|..] == rest;
    }
  }

  lemma Associates(a: Text, b: Text, c: Text)
    ensures a + b + c == a + (b + c)
  {
  }

  lemma TextPayload(number: nat, text: Text, rest: Text, s: Text, depth: int)
    requires IsLength(|text|) && s == EncodeVarint(|text|) + text + rest
    ensures Payload(number, 2, s, depth) == Some((Some(text), rest))
  {
    Associates(EncodeVarint(|text|), text, rest);
    VarintRoundTrip(|text|, text + rest, 9, VARINT);
    assert (text + rest)[..|text|] == text && (text + rest)[|text|..] == rest;
  }

  lemma TextValue(number: nat, text: Text, depth: int)
    requires IsLength(|text|)
    ensures IsValue(number, 2, EncodeVarint(|text|) + text, depth)
  {
    forall rest: Text
      ensures Payload(number, 2, EncodeVarint(|text|) + text + rest, depth) == Some((Some(text), rest))
    {
      TextPayload(number, text, rest, EncodeVarint(|text|) + text + rest, depth);
    }
  }

  /** The fields of a group and its end tag; groups nest, each one level deeper. */
  ghost predicate IsGroup(number: nat, value: Text, depth: int)
  {
    forall rest: Text :: AfterGroup(number, value + rest, depth) == Some(rest)
  }

  lemma GroupEnds(number: nat, depth: int)
    requires 1 <= number <= 15
    ensures IsGroup(number, [Tag(number, 4)], depth)
  {
    forall rest: Text
      ensures AfterGroup(number, [Tag(number, 4)] + rest, depth) == Some(rest)
    {
      DecodeTag(number, 4, rest);
    }
  }

  lemma GroupStep(number: nat, field: nat, kind: nat, s: Text, after: Text, depth: int)
    requires 1 <= field <= 15 && kind < 8 && kind != 4
    requires Payload(field, kind, s, depth - 1).Some? && Payload(field, kind, s, depth - 1).value.1 == after
    ensures AfterGroup(number, [Tag(field, kind)] + s, depth) == AfterGroup(number, after, depth)
  {
    DecodeTag(field, kind, s);
  }

  lemma GroupGoesOn(number: nat, field: nat, kind: nat, value: Text, more: Text, depth: int)
    requires 1 <= field <= 15 && kind < 8 && kind != 4
    requires IsValue(field, kind, value, depth - 1) && IsGroup(number, more, depth)
    ensures IsGroup(number, [Tag(field, kind)] + value + more, depth)
  {
    var tag := [Tag(field, kind)];
    forall rest: Text
      ensures AfterGroup(number, tag + value + more + rest, depth) == Some(rest)
    {
      var p := Payload(field, kind, value + (more + rest), depth - 1);
      assert p.Some? && p.value.1 == more + rest;
      GroupStep(number, field, kind, value + (more + rest), more + rest, depth);
      Associates(tag + value, more, rest);
      Associates(tag, value, more + rest);
      assert AfterGroup(number, more + rest, depth) == Some(rest);
    }
  }

  lemma GroupValue(number: nat, value: Text, depth: int)
    requires depth >= 0 && IsGroup(number, value, depth)
    ensures IsValue(number, 3, value, depth)
  {
    forall rest: Text
      ensures Payload(number, 3, value + rest, depth) == Some((None, rest))
    {
      assert AfterGroup(number, value + rest, depth) == Some(rest);
    }
  }

  /** A field that is no text, or has a number the request does not use, changes nothing wherever it stands. */
  lemma OtherFieldSkipped(utf8: Text -> bool, number: nat, kind: nat, value: Text, rest: Text, r: Request)
    requires 1 <= number <= 15 && kind < 8 && (kind != 2 || number > 3)
    requires IsValue(number, kind, value, DEPTH)
    ensures Fields(utf8, [Tag(number, kind)] + value + rest, r) == Fields(utf8, rest, r)
  {
    FieldByTag(number, kind, value + rest);
    assert [Tag(number, kind)] + value + rest == [Tag(number, kind)] + (value + rest);
    assert Payload(number, kind, value + rest, DEPTH).Some?;
  }

  /** An end tag without its group, a kind that does not exist, or a value cut short makes the message invalid. */
  lemma BadFieldRefused(utf8: Text -> bool, number: nat, kind: nat, s: Text, r: Request)
    requires 1 <= number <= 15 && kind < 8
    requires kind == 4 || kind >= 6 || s == [] || (kind == 1 && |s| < 8) || (kind == 5 && |s| < 4)
    ensures Fields(utf8, [Tag(number, kind)] + s, r) == None
  {
    FieldByTag(number, kind, s);
  }

  /** So does a text that is shorter than its length says. */
  lemma ShortTextRefused(utf8: Text -> bool, number: nat, length: nat, text: Text, r: Request)
    requires 1 <= number <= 15 && IsLength(length) && |text| < length
    ensures Fields(utf8, [Tag(number, 2)] + (EncodeVarint(length) + text), r) == None
  {
    FieldByTag(number, 2, EncodeVarint(length) + text);
    VarintRoundTrip(length, text, 9, VARINT);
  }

  /** A text of the request that is not UTF-8. */
  lemma BadTextRefused(utf8: Text -> bool, number: nat, text: Text, rest: Text, r: Request)
    requires 1 <= number <= 3 && IsLength(|text|) && !utf8(text)
    ensures Fields(utf8, [Tag(number, 2)] + (EncodeVarint(|text|) + text + rest), r) == None
  {
    FieldByTag(number, 2, EncodeVarint(|text|) + text + rest);
    TextPayload(number, text, rest, EncodeVarint(|text|) + text + rest, DEPTH);
  }

  /** A field number out of range. */
  lemma FieldNumberRefused(utf8: Text -> bool, number: nat, kind: nat, s: Text, r: Request)
    requires number == 0 || number > 0x1FFF_FFFF
    requires kind < 8 && IsLength(8 * number + kind)
    ensures Fields(utf8, EncodeVarint(8 * number + kind) + s, r) == None
  {
    VarintRoundTrip(8 * number + kind, s, 9, VARINT);
    assert (8 * number + kind) / 8 == number;
  }

  /** A group that ends under another number, or one nested too deep. */
  lemma BadGroupRefused(number: nat, other: nat, s: Text, depth: int)
    requires 1 <= other <= 15 && other != number
    ensures AfterGroup(number, [Tag(other, 4)] + s, depth) == None
    ensures depth < 0 ==> Payload(number, 3, s, depth) == None
  {
    DecodeTag(other, 4, s);
  }

  /** And a number of ten bytes or more that does not fit in 64 bits. */
  lemma {:induction false} LongVarintRefused(s: Text, left: nat)
    requires |s| >= left > 0 && (forall k :: 0 <= k < left - 1 ==> s[k] >= 128) && s[left - 1] > 1
    ensures DecodeVarint(s, left) == None
    decreases left
  {
    if left > 1 {
      LongVarintRefused(s[1..], left - 1);
    }
  }

  // ----- UnmarshalRequest -----

  /** How a valid JSON text fills a request: a failure, or the request with the members found; otherwise arbitrary. */
  type Decoder = (Text, Request) -> Option<Request>

  /** json.Unmarshal scans the whole text before it decodes anything. */
  function FromJson(decode: Decoder, data: Text, r: Request): Option<Request>
  {
    if JsonScanner.Valid(data) then decode(data, r) else None
  }

  function Unmarshalled(decode: Decoder, utf8: Text -> bool, data: Text, r: Request): Result<Request>
  {
    match FromJson(decode, data, r)
    case Some(req) => Ok(req)
    case None =>
      match Fields(utf8, data, EMPTY)
      case Some(req) => Ok(req)
      case None => Err(InvalidMessage)
  }

  /** What is no JSON is read as protobuf over a cleared request: nothing that was in it before is left. */
  lemma FallbackIsFresh(decode: Decoder, utf8: Text -> bool, data: Text, before: Request, r: Request)
    requires !JsonScanner.Valid(data) && Fields(utf8, data, Request([], [], [])) == Some(r)
    ensures Unmarshalled(decode, utf8, data, before) == Ok(r)
  {
  }

  lemma NeitherIsRefused(decode: Decoder, utf8: Text -> bool, data: Text, before: Request)
    requires !JsonScanner.Valid(data) && Fields(utf8, data, Request([], [], [])) == None
    ensures Unmarshalled(decode, utf8, data, before) == Err(InvalidMessage)
  {
  }

  class RequestBox {
    var request: Request

    constructor ()
      ensures request == EMPTY
    {
      request := EMPTY;
    }
  }

  method UnmarshalRequest(decode: Decoder, utf8: Text -> bool, data: Text, box: RequestBox) returns (r: Result<()>)
    modifies box
    ensures r.Ok? <==> Unmarshalled(decode, utf8, data, old(box.request)).Ok?
    ensures r.Ok? ==> box.request == Unmarshalled(decode, utf8, data, old(box.request)).value
    ensures r.Err? ==> r.error == InvalidMessage
  {
    var json := FromJson(decode, data, box.request);
    if json.Some? {
      box.request := json.value;
      return Ok(());
    }
    var proto := Fields(utf8, data, EMPTY);
    if proto == None {
      return Err(InvalidMessage);
    }
    box.request := proto.value;
    return Ok(());
  }

  // ----- agreement of coordinator and peers -----

  lemma FieldTagAt(prefix: Text, number: nat, s: Text, suffix: Text)
    requires 1 <= number <= 15 && s != []
    ensures var data := prefix + EncodeField(number, s) + suffix;
            |prefix| < |data| && data[|prefix|] == 8 * number + 2
  {
  }

  /**
    A wire form with a key or a message in it is never JSON: the tags of fields 2 and 3 are the control bytes 0x12 and
    0x1A.  Neither is one whose hash has 66 bytes: a line feed, then 0x42.
   */
  lemma WireIsNotJson(r: Request)
    requires r.pubkey != [] || r.message != [] || |r.hash| == 66
    ensures !JsonScanner.Valid(Wire(r))
  {
    if r.pubkey != [] {
      var p := EncodeField(1, r.hash);
      FieldTagAt(p, 2, r.pubkey, EncodeField(3, r.message));
      JsonScanner.ControlBytesInvalid(Wire(r), |p|);
    } else if r.message != [] {
      var p := EncodeField(1, r.hash) + EncodeField(2, r.pubkey);
      FieldTagAt(p, 3, r.message, []);
      assert Wire(r) == p + EncodeField(3, r.message) + [];
      JsonScanner.ControlBytesInvalid(Wire(r), |p|);
    } else {
      assert Wire(r) == [0x0A, 66] + r.hash;
      JsonScanner.NoValueStart(0x0A, 66, r.hash);
    }
  }

  /**
    What the coordinator sends with a request: over gRPC its wire form, over HTTP the JSON text it has itself read the
    request from.
   */
  predicate Sends(decode: Decoder, utf8: Text -> bool, r: Request, data: Text)
  {
    || (Marshal(utf8, r) == Ok(data) && ShortFields(r))
    || FromJson(decode, data, EMPTY) == Some(r)
  }

  /**
    Every peer decodes exactly the coordinator's request, on both transports and whatever the JSON decoder does.  The
    coordinator calls peers only after its own store has served the request, which it never does without a key.
   */
  lemma RequestAgreement(
      suite: BadgerStore.Suite, secret: Fsm.Secret, db: Fsm.Db, decode: Decoder, utf8: Text -> bool, r: Request,
      data: Text)
    requires Sends(decode, utf8, r, data)
    requires BadgerStore.Config(suite, secret, db, r.hash, r.pubkey).Ok?
    ensures Unmarshalled(decode, utf8, data, EMPTY) == Ok(r)
  {
    BadgerStore.ServedKeyLength(suite, secret, db, r.hash, r.pubkey);
    if FromJson(decode, data, EMPTY) != Some(r) {
      WireRoundTrip(utf8, r);
      WireIsNotJson(r);
    }
  }
}
