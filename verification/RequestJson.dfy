/** Requests as JSON texts: an object of string members, in any order and spelling, with white space anywhere. */
module RequestJson {
  import opened Basics
  import opened Numbers
  import opened JsonScanner
  import opened JsonGrammar
  import opened Requests

  function EscapeValue(c: byte): byte
    requires c in ESCAPES
  {
    if c == 'b' as int then 8
    else if c == 't' as int then 9
    else if c == 'n' as int then 10
    else if c == 'f' as int then 12
    else if c == 'r' as int then 13
    else c
  }

  function CodeUnit(hex: Text): (v: nat)
    requires |hex| == 4 && forall k :: 0 <= k < 4 ==> IsHexDigit(hex[k])
    ensures v < 0x1_0000
  {
    0x1000 * HexValue(hex[0]) + 0x100 * HexValue(hex[1]) + 0x10 * HexValue(hex[2]) + HexValue(hex[3])
  }

  /** A code point outside the surrogates, in UTF-8. */
  function Utf8(v: nat): Text
    requires v < 0x1_0000
  {
    if v < 0x80 then [v]
    else if v < 0x800 then [0xC0 + v / 0x40, 0x80 + v % 0x40]
    else [0xE0 + v / 0x1000, 0x80 + v / 0x40 % 0x40, 0x80 + v % 0x40]
  }

  /** The text that the characters of a string stand for; surrogates are not read here. */
  function Meaning(body: Text): Option<Text>
    requires IsBody(body)
    decreases |body|
  {
    if body == [] then Some([])
    else if body[0] != '\\' as int then Prefixed([body[0]], Meaning(body[1..]))
    else if body[1] in ESCAPES then Prefixed([EscapeValue(body[1])], Meaning(body[2..]))
    else
      var v := CodeUnit(body[2..6]);
      if 0xD800 <= v < 0xE000 then None else Prefixed(Utf8(v), Meaning(body[6..]))
  }

  function Prefixed(a: Text, rest: Option<Text>): Option<Text>
  {
    match rest
    case None => None
    case Some(b) => Some(a + b)
  }

  /** The request after the members of an object, each a string under the name of a field; the last one wins. */
  function Filled(m: Members, r: Request): Option<Request>
    requires AreMembers(m)
  {
    match FilledBy(m.member, r)
    case None => None
    case Some(r') => if m.LastMember? then Some(r') else Filled(m.others, r')
  }

  function FilledBy(m: Member, r: Request): Option<Request>
    requires IsMember(m)
  {
    match TextOf(m.value)
    case None => None
    case Some(text) => Named(Meaning(m.key), text, r)
  }

  function TextOf(p: Padded): Option<Text>
    requires IsPadded(p)
  {
    assert IsTree(p.tree);
    if p.tree.String? then Meaning(p.tree.body) else None
  }

  function Named(name: Option<Text>, text: Text, r: Request): Option<Request>
  {
    if name == Some(Ascii("hash")) then Some(r.(hash := text))
    else if name == Some(Ascii("pubkey")) then Some(r.(pubkey := text))
    else if name == Some(Ascii("message")) then Some(r.(message := text))
    else None
  }

  /** The object says what the request is. */
  predicate Says(p: Padded, m: Members, r: Request)
  {
    && IsSpaces(p.before) && IsSpaces(p.after)
    && p.tree == Object(m) && AreMembers(m) && Filled(m, EMPTY) == Some(r)
  }

  /** A text of the request. */
  ghost predicate IsRequestText(r: Request, data: Text)
  {
    exists p: Padded, m: Members :: Says(p, m, r) && WrittenPadded(p) == data
  }

  lemma {:induction false} FilledIsFlat(m: Members, r: Request)
    requires AreMembers(m) && Filled(m, r).Some?
    ensures MembersDepth(m) == 0
  {
    if m.MoreMembers? {
      FilledIsFlat(m.others, FilledBy(m.member, r).value);
    }
  }

  /**
    Every text of every request is valid JSON, so the decoder is asked first and its answer is the answer; and a
    coordinator that has read its request from such a text sends one that its peers read the same way.
   */
  lemma RequestTextIsRead(decode: Decoder, utf8: Text -> bool, r: Request, data: Text, before: Request)
    requires IsRequestText(r, data)
    ensures Valid(data)
    ensures FromJson(decode, data, before) == decode(data, before)
    ensures decode(data, before).Some? ==> Unmarshalled(decode, utf8, data, before) == Ok(decode(data, before).value)
    ensures decode(data, EMPTY) == Some(r) ==> Sends(decode, utf8, r, data)
  {
    var p: Padded, m: Members :| Says(p, m, r) && WrittenPadded(p) == data;
    FilledIsFlat(m, EMPTY);
    WrittenIsValid(p);
  }

  // ----- every request has a text -----

  /** One way to spell a byte: control bytes as four digits, quotes and backslashes escaped. */
  function SpelledByte(c: byte): Text
  {
    if c < 0x20 then ['\\' as int, 'u' as int, '0' as int, '0' as int, HexDigit(c / 16), HexDigit(c % 16)]
    else if c == '"' as int || c == '\\' as int then ['\\' as int, c]
    else [c]
  }

  function Spelled(text: Text): Text
  {
    if text == [] then [] else SpelledByte(text[0]) + Spelled(text[1..])
  }

  lemma SpelledByteMeans(c: byte, rest: Text)
    requires IsBody(rest)
    ensures IsBody(SpelledByte(c) + rest)
    ensures Meaning(SpelledByte(c) + rest) == Prefixed([c], Meaning(rest))
  {
    var body := SpelledByte(c) + rest;
    if c < 0x20 {
      assert body[6..] == rest;
      assert CodeUnit(body[2..6]) == c;
    } else if c == '"' as int || c == '\\' as int {
      EscapeIff(c);
      assert body[2..] == rest;
    } else {
      assert body[1..] == rest;
    }
  }

  lemma {:induction false} SpelledMeans(text: Text)
    ensures IsBody(Spelled(text)) && Meaning(Spelled(text)) == Some(text)
  {
    if text != [] {
      SpelledMeans(text[1..]);
      SpelledByteMeans(text[0], Spelled(text[1..]));
      assert text == [text[0]] + text[1..];
    }
  }

  function PlainMember(name: Text, text: Text): Member
  {
    Member([], name, [], Padded([], String(Spelled(text)), []))
  }

  lemma {:induction false} PlainBody(name: Text)
    requires forall c :: c in name ==> 'a' as int <= c <= 'z' as int
    ensures IsBody(name) && Meaning(name) == Some(name)
  {
    if name != [] {
      assert name[0] in name;
      assert forall c :: c in name[1..] ==> c in name;
      PlainBody(name[1..]);
      assert name == [name[0]] + name[1..];
    }
  }

  lemma PlainMemberFills(name: Text, text: Text, r: Request)
    requires name == Ascii("hash") || name == Ascii("pubkey") || name == Ascii("message")
    ensures IsMember(PlainMember(name, text))
    ensures FilledBy(PlainMember(name, text), r) == Named(Some(name), text, r)
  {
    PlainBody(name);
    SpelledMeans(text);
    SpelledValue(text);
    assert IsMember(PlainMember(name, text));
  }

  lemma SpelledValue(text: Text)
    ensures var p := Padded([], String(Spelled(text)), []);
            IsPadded(p) && TextOf(p) == Some(text)
  {
    SpelledMeans(text);
    var p := Padded([], String(Spelled(text)), []);
    assert IsTree(p.tree);
  }

  lemma ThreeMembers(hash: Member, pubkey: Member, message: Member, r: Request, m: Members)
    requires IsMember(hash) && IsMember(pubkey) && IsMember(message)
    requires FilledBy(hash, EMPTY) == Some(Request(r.hash, [], []))
    requires FilledBy(pubkey, Request(r.hash, [], [])) == Some(Request(r.hash, r.pubkey, []))
    requires FilledBy(message, Request(r.hash, r.pubkey, [])) == Some(r)
    requires m == MoreMembers(hash, MoreMembers(pubkey, LastMember(message)))
    ensures AreMembers(m) && Filled(m, EMPTY) == Some(r)
  {
    var last := LastMember(message);
    assert AreMembers(last) && Filled(last, Request(r.hash, r.pubkey, [])) == Some(r);
    var two := MoreMembers(pubkey, last);
    assert AreMembers(two) && Filled(two, Request(r.hash, [], [])) == Some(r);
  }

  lemma EveryRequestHasText(r: Request) returns (data: Text)
    ensures IsRequestText(r, data)
  {
    var hash := PlainMember(Ascii("hash"), r.hash);
    var pubkey := PlainMember(Ascii("pubkey"), r.pubkey);
    var message := PlainMember(Ascii("message"), r.message);
    PlainMemberFills(Ascii("hash"), r.hash, EMPTY);
    PlainMemberFills(Ascii("pubkey"), r.pubkey, Request(r.hash, [], []));
    PlainMemberFills(Ascii("message"), r.message, Request(r.hash, r.pubkey, []));
    var m := MoreMembers(hash, MoreMembers(pubkey, LastMember(message)));
    ThreeMembers(hash, pubkey, message, r, m);
    var p := Padded([], Object(m), []);
    data := WrittenPadded(p);
    assert Says(p, m, r);
  }
}
