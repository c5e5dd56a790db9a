/**
  The grammar of RFC 8259 as texts are written, and the proof that the scanner accepts exactly the texts of the grammar
  that are nested no deeper than its limit.
 */
module JsonGrammar {
  import opened Basics
  import opened Numbers
  import opened JsonScanner

  // ----- how values are written (sections 2 to 7 of RFC 8259) -----

  /** A value; an empty array or object keeps the white space between its brackets. */
  datatype Tree =
    | Word(text: Text)
    | Number(minus: bool, whole: Text, fraction: Text, exponent: Text)
    | String(body: Text)
    | EmptyArray(space: Text)
    | Array(items: Items)
    | EmptyObject(space: Text)
    | Object(members: Members)

  /** A value with the white space around it. */
  datatype Padded = Padded(before: Text, tree: Tree, after: Text)

  datatype Items = LastItem(item: Padded) | MoreItems(item: Padded, others: Items)

  /** A key between quotes, a colon and a value. */
  datatype Member = Member(before: Text, key: Text, after: Text, value: Padded)

  datatype Members = LastMember(member: Member) | MoreMembers(member: Member, others: Members)

  predicate IsSpaces(s: Text)
  {
    forall c :: c in s ==> c == 0x20 || c == 0x09 || c == 0x0A || c == 0x0D
  }

  /** The characters that a backslash may stand before. */
  const ESCAPES := Ascii("\"\\/bfnrt")

  lemma EscapeIff(c: byte)
    ensures c in ESCAPES <==> IsEscape(c)
  {
    assert ESCAPES[0] == '"' as int && ESCAPES[1] == '\\' as int && ESCAPES[2] == '/' as int;
    assert ESCAPES[3] == 'b' as int && ESCAPES[4] == 'f' as int && ESCAPES[5] == 'n' as int;
    assert ESCAPES[6] == 'r' as int && ESCAPES[7] == 't' as int;
  }

  predicate AreDigits(s: Text)
  {
    s != [] && forall c :: c in s ==> IsDigit(c)
  }

  predicate IsWord(s: Text)
  {
    s == Ascii("true") || s == Ascii("false") || s == Ascii("null")
  }

  predicate IsWhole(s: Text)
  {
    s == ['0' as int] || (AreDigits(s) && s[0] != '0' as int)
  }

  predicate IsFraction(s: Text)
  {
    s == [] || (s[0] == '.' as int && AreDigits(s[1..]))
  }

  predicate IsSign(c: byte)
  {
    c == '+' as int || c == '-' as int
  }

  predicate IsExponentMark(c: byte)
  {
    c == 'e' as int || c == 'E' as int
  }

  predicate IsExponent(s: Text)
  {
    || s == []
    || (|s| >= 2 && IsExponentMark(s[0]) && AreDigits(if IsSign(s[1]) then s[2..] else s[1..]))
  }

  /** The characters of a string: no control byte and no quote; an escape of one character or of four digits. */
  predicate IsBody(b: Text)
    decreases |b|
  {
    || b == []
    || (if b[0] != '\\' as int then b[0] >= 0x20 && b[0] != '"' as int && IsBody(b[1..])
        else if |b| >= 2 && b[1] in ESCAPES then IsBody(b[2..])
        else |b| >= 6 && b[1] == 'u' as int && (forall k :: 2 <= k < 6 ==> IsHexDigit(b[k])) && IsBody(b[6..]))
  }

  predicate IsTree(t: Tree)
  {
    match t
    case Word(text) => IsWord(text)
    case Number(_, whole, fraction, exponent) => IsWhole(whole) && IsFraction(fraction) && IsExponent(exponent)
    case String(body) => IsBody(body)
    case EmptyArray(space) => IsSpaces(space)
    case Array(items) => AreItems(items)
    case EmptyObject(space) => IsSpaces(space)
    case Object(members) => AreMembers(members)
  }

  predicate IsPadded(p: Padded)
  {
    IsSpaces(p.before) && IsTree(p.tree) && IsSpaces(p.after)
  }

  predicate AreItems(i: Items)
  {
    IsPadded(i.item) && (i.MoreItems? ==> AreItems(i.others))
  }

  predicate IsMember(m: Member)
  {
    IsSpaces(m.before) && IsBody(m.key) && IsSpaces(m.after) && IsPadded(m.value)
  }

  predicate AreMembers(m: Members)
  {
    IsMember(m.member) && (m.MoreMembers? ==> AreMembers(m.others))
  }

  function Between(left: byte, text: Text, right: byte): Text
  {
    [left] + text + [right]
  }

  function Quoted(body: Text): Text
  {
    Between('"' as int, body, '"' as int)
  }

  function Written(t: Tree): Text
  {
    match t
    case Word(text) => text
    case Number(minus, whole, fraction, exponent) => (if minus then Ascii("-") else []) + whole + fraction + exponent
    case String(body) => Quoted(body)
    case EmptyArray(space) => Between('[' as int, space, ']' as int)
    case Array(items) => Between('[' as int, WrittenItems(items), ']' as int)
    case EmptyObject(space) => Between('{' as int, space, '}' as int)
    case Object(members) => Between('{' as int, WrittenMembers(members), '}' as int)
  }

  function WrittenPadded(p: Padded): Text
  {
    p.before + Written(p.tree) + p.after
  }

  function WrittenItems(i: Items): Text
  {
    match i
    case LastItem(item) => WrittenPadded(item)
    case MoreItems(item, others) => WrittenPadded(item) + Ascii(",") + WrittenItems(others)
  }

  function WrittenMember(m: Member): Text
  {
    m.before + Quoted(m.key) + m.after + Ascii(":") + WrittenPadded(m.value)
  }

  function WrittenMembers(m: Members): Text
  {
    match m
    case LastMember(member) => WrittenMember(member)
    case MoreMembers(member, others) => WrittenMember(member) + Ascii(",") + WrittenMembers(others)
  }

  function Max(a: nat, b: nat): nat
  {
    if a < b then b else a
  }

  /** How many arrays and objects are open at once. */
  function Depth(t: Tree): nat
  {
    match t
    case EmptyArray(_) => 1
    case EmptyObject(_) => 1
    case Array(items) => 1 + ItemsDepth(items)
    case Object(members) => 1 + MembersDepth(members)
    case _ => 0
  }

  function ItemsDepth(i: Items): nat
  {
    match i
    case LastItem(item) => Depth(item.tree)
    case MoreItems(item, others) => Max(Depth(item.tree), ItemsDepth(others))
  }

  function MembersDepth(m: Members): nat
  {
    match m
    case LastMember(member) => Depth(member.value.tree)
    case MoreMembers(member, others) => Max(Depth(member.value.tree), MembersDepth(others))
  }

  // ----- the scanner on what is written -----

  type Stack = seq<Context>

  lemma {:induction false} ScanConcat(s: Scanner, a: Text, b: Text)
    ensures Scan(s, a + b) == Scan(Scan(s, a), b)
    decreases |a|
  {
    if a == [] {
      assert a + b == b;
    } else {
      assert (a + b)[1..] == a[1..] + b;
      ScanConcat(Step(s, a[0]), a[1..], b);
    }
  }

  lemma ScanOne(s: Scanner, c: byte, rest: Text)
    ensures Scan(s, [c] + rest) == Scan(Step(s, c), rest)
  {
    assert ([c] + rest)[1..] == rest;
  }

  /** The states in which white space changes nothing. */
  predicate SkipsSpaces(s: Scanner)
  {
    match s.state
    case BeginValue => true
    case BeginValueOrEmpty => true
    case BeginString => true
    case BeginStringOrEmpty => true
    case EndTop => true
    case EndValue => s.stack != []
    case _ => false
  }

  lemma {:induction false} ScanSpaces(s: Scanner, space: Text)
    requires SkipsSpaces(s) && IsSpaces(space)
    ensures Scan(s, space) == s
    decreases |space|
  {
    if space != [] {
      assert space[0] in space;
      assert forall c :: c in space[1..] ==> c in space;
      assert Step(s, space[0]) == s;
      ScanSpaces(s, space[1..]);
    }
  }

  /** The scanner after a value with `st` open around it. */
  function After(st: Stack): Scanner
  {
    Scanner(if st == [] then EndTop else EndValue, st)
  }

  /** What may follow a value: white space or punctuation. */
  predicate Ends(c: byte)
  {
    IsSpace(c) || c == ',' as int || c == ':' as int || c == ']' as int || c == '}' as int
  }

  /** The value is complete, or is a number that any byte which may follow completes. */
  predicate Ended(s: Scanner, st: Stack)
  {
    && s.stack == st
    && forall c: byte :: Ends(c) ==> Step(s, c) == Step(After(st), c)
  }

  lemma AfterEnded(st: Stack)
    ensures Ended(After(st), st)
    ensures Ended(Scanner(EndValue, st), st)
  {
  }

  lemma NumberEnded(s: Scanner)
    requires s.state in {Zero, Digits, Fraction, ExpDigits}
    ensures Ended(s, s.stack)
  {
  }

  /** White space after a value, then a byte that may follow. */
  lemma ScanTail(s: Scanner, st: Stack, space: Text, c: byte)
    requires Ended(s, st) && IsSpaces(space) && Ends(c)
    ensures Scan(s, space + [c]) == Step(After(st), c)
  {
    if space == [] {
      assert space + [c] == [c] + [];
      ScanOne(s, c, []);
    } else {
      assert space[0] in space;
      assert Step(s, space[0]) == Step(After(st), space[0]) == After(st);
      assert forall e :: e in space[1..] ==> e in space;
      ScanOne(s, space[0], space[1..] + [c]);
      assert space + [c] == [space[0]] + (space[1..] + [c]);
      ScanConcat(After(st), space[1..], [c]);
      ScanSpaces(After(st), space[1..]);
      ScanOne(After(st), c, []);
      assert [c] + [] == [c];
    }
  }

  // tokens

  lemma {:induction false} ScanDigits(s: Scanner, digits: Text)
    requires s.state in {Digits, Fraction, ExpDigits} && forall c :: c in digits ==> IsDigit(c)
    ensures Scan(s, digits) == s
    decreases |digits|
  {
    if digits != [] {
      assert digits[0] in digits;
      assert forall c :: c in digits[1..] ==> c in digits;
      ScanDigits(s, digits[1..]);
    }
  }

  /** One digit makes the state, more of them keep it. */
  lemma ScanAreDigits(s: Scanner, next: State, digits: Text)
    requires AreDigits(digits) && next in {Digits, Fraction, ExpDigits}
    requires Step(s, digits[0]) == s.(state := next)
    ensures Scan(s, digits) == s.(state := next)
  {
    assert forall c :: c in digits[1..] ==> c in digits;
    ScanDigits(s.(state := next), digits[1..]);
  }

  predicate Starts(s: Scanner)
  {
    s.state in {BeginValue, BeginValueOrEmpty}
  }

  lemma ScanWhole(s: Scanner, whole: Text)
    requires (Starts(s) || s.state.Neg?) && IsWhole(whole)
    ensures Scan(s, whole) == s.(state := if whole[0] == '0' as int then Zero else Digits)
  {
    assert whole[0] in whole;
    if whole == ['0' as int] {
      assert whole == ['0' as int] + [];
      ScanOne(s, '0' as int, []);
    } else {
      ScanAreDigits(s, Digits, whole);
    }
  }

  lemma ScanFraction(s: Scanner, fraction: Text)
    requires s.state in {Zero, Digits} && IsFraction(fraction)
    ensures Scan(s, fraction) == if fraction == [] then s else s.(state := Fraction)
  {
    if fraction != [] {
      assert fraction[1] in fraction[1..];
      ScanAreDigits(s.(state := Dot), Fraction, fraction[1..]);
    }
  }

  lemma ScanExponent(s: Scanner, exponent: Text)
    requires s.state in {Zero, Digits, Fraction} && IsExponent(exponent)
    ensures Scan(s, exponent) == if exponent == [] then s else s.(state := ExpDigits)
  {
    if exponent != [] {
      var rest := exponent[1..];
      if IsSign(rest[0]) {
        assert rest[1..] == exponent[2..];
        assert exponent[2] in exponent[2..];
        ScanAreDigits(s.(state := ExpSign), ExpDigits, rest[1..]);
      } else {
        assert rest[0] in rest;
        ScanAreDigits(s.(state := Exp), ExpDigits, rest);
      }
    }
  }

  lemma ScanNumber(s: Scanner, minus: bool, whole: Text, fraction: Text, exponent: Text)
    requires Starts(s) && IsWhole(whole) && IsFraction(fraction) && IsExponent(exponent)
    ensures Ended(Scan(s, Written(Number(minus, whole, fraction, exponent))), s.stack)
  {
    var sign := if minus then Ascii("-") else [];
    var s0 := if minus then s.(state := Neg) else s;
    assert Scan(s, sign) == s0;
    var s1 := s.(state := if whole[0] == '0' as int then Zero else Digits);
    ScanWhole(s0, whole);
    ScanConcat(s, sign, whole);
    var s2 := if fraction == [] then s1 else s.(state := Fraction);
    ScanFraction(s1, fraction);
    ScanConcat(s, sign + whole, fraction);
    ScanExponent(s2, exponent);
    ScanConcat(s, sign + whole + fraction, exponent);
    NumberEnded(if exponent == [] then s2 else s.(state := ExpDigits));
  }

  lemma ScanUnicode(st: Stack, hex: Text)
    requires |hex| == 4 && forall k :: 0 <= k < 4 ==> IsHexDigit(hex[k])
    ensures Scan(Scanner(InUnicode(4), st), hex) == Scanner(InString, st)
  {
    assert hex == [hex[0]] + ([hex[1]] + ([hex[2]] + ([hex[3]] + [])));
    ScanOne(Scanner(InUnicode(4), st), hex[0], [hex[1]] + ([hex[2]] + ([hex[3]] + [])));
    ScanOne(Scanner(InUnicode(3), st), hex[1], [hex[2]] + ([hex[3]] + []));
    ScanOne(Scanner(InUnicode(2), st), hex[2], [hex[3]] + []);
    ScanOne(Scanner(InUnicode(1), st), hex[3], []);
  }

  lemma {:induction false} ScanBody(st: Stack, body: Text)
    requires IsBody(body)
    ensures Scan(Scanner(InString, st), body) == Scanner(InString, st)
    decreases |body|
  {
    var s := Scanner(InString, st);
    if body != [] {
      if body[0] != '\\' as int {
        ScanBody(st, body[1..]);
      } else {
        assert body == [body[0]] + ([body[1]] + body[2..]);
        ScanOne(s, body[0], [body[1]] + body[2..]);
        ScanOne(s.(state := InEscape), body[1], body[2..]);
        EscapeIff(body[1]);
        if IsEscape(body[1]) {
          ScanBody(st, body[2..]);
        } else {
          assert body[2..] == body[2..6] + body[6..];
          ScanConcat(Scanner(InUnicode(4), st), body[2..6], body[6..]);
          ScanUnicode(st, body[2..6]);
          ScanBody(st, body[6..]);
        }
      }
    }
  }

  lemma ScanQuoted(s: Scanner, body: Text)
    requires Starts(s) || s.state in {BeginString, BeginStringOrEmpty}
    requires IsBody(body)
    ensures Scan(s, Quoted(body)) == Scanner(EndValue, s.stack)
  {
    var q := ['"' as int];
    var inside := Scanner(InString, s.stack);
    assert Scan(s, q) == inside;
    ScanConcat(s, q, body);
    ScanBody(s.stack, body);
    ScanConcat(s, q + body, q);
    assert Scan(inside, q) == Scanner(EndValue, s.stack);
  }

  lemma {:induction false} ScanLiteral(st: Stack, text: Text)
    requires text != []
    ensures Scan(Scanner(Literal(text), st), text) == Scanner(EndValue, st)
    decreases |text|
  {
    if |text| > 1 {
      ScanLiteral(st, text[1..]);
    }
  }

  lemma ScanWord(s: Scanner, text: Text)
    requires Starts(s) && IsWord(text)
    ensures Scan(s, text) == Scanner(EndValue, s.stack)
  {
    var rest := text[1..];
    if text == Ascii("true") {
      assert rest == Ascii("rue");
    } else if text == Ascii("false") {
      assert rest == Ascii("alse");
    } else {
      assert rest == Ascii("ull");
    }
    ScanLiteral(s.stack, rest);
  }

  // values

  lemma {:induction false} ScanTree(s: Scanner, t: Tree)
    requires Starts(s) && IsTree(t) && |s.stack| + Depth(t) <= MAX_DEPTH
    ensures Ended(Scan(s, Written(t)), s.stack)
    decreases t, 0
  {
    AfterEnded(s.stack);
    match t
    case Word(text) => ScanWord(s, text);
    case Number(minus, whole, fraction, exponent) => ScanNumber(s, minus, whole, fraction, exponent);
    case String(body) => ScanQuoted(s, body);
    case EmptyArray(space) =>
      ScanEmpty(s, '[' as int, space, ']' as int);
    case EmptyObject(space) =>
      ScanEmpty(s, '{' as int, space, '}' as int);
    case Array(items) =>
      var inside := Scanner(BeginValueOrEmpty, s.stack + [ArrayValue]);
      ScanItems(inside, items);
      ScanBracketed(s, inside, '[' as int, WrittenItems(items), ']' as int);
    case Object(members) =>
      var inside := Scanner(BeginStringOrEmpty, s.stack + [ObjectKey]);
      ScanMembers(inside, members);
      ScanBracketed(s, inside, '{' as int, WrittenMembers(members), '}' as int);
  }

  lemma ScanBracketed(s: Scanner, inside: Scanner, left: byte, text: Text, right: byte)
    requires Step(s, left) == inside && Scan(inside, text + [right]) == After(s.stack)
    ensures Scan(s, Between(left, text, right)) == After(s.stack)
  {
    assert [left] + text + [right] == [left] + (text + [right]);
    ScanOne(s, left, text + [right]);
  }

  lemma ScanEmpty(s: Scanner, left: byte, space: Text, right: byte)
    requires Starts(s) && IsSpaces(space) && |s.stack| < MAX_DEPTH
    requires (left == '[' as int && right == ']' as int) || (left == '{' as int && right == '}' as int)
    ensures Scan(s, Between(left, space, right)) == After(s.stack)
  {
    var context := if left == '[' as int then ArrayValue else ObjectKey;
    var inside := Scanner(if left == '[' as int then BeginValueOrEmpty else BeginStringOrEmpty, s.stack + [context]);
    ScanConcat(inside, space, [right]);
    ScanSpaces(inside, space);
    assert inside.stack[..|inside.stack| - 1] == s.stack;
    assert Scan(inside, [right]) == Step(inside, right);
    ScanBracketed(s, inside, left, space, right);
  }

  /** A value with its white space, and the byte that follows. */
  lemma {:induction false} ScanPadded(s: Scanner, p: Padded, c: byte)
    requires Starts(s) && IsPadded(p) && |s.stack| + Depth(p.tree) <= MAX_DEPTH && Ends(c)
    ensures Scan(s, WrittenPadded(p) + [c]) == Step(After(s.stack), c)
    decreases p, 1
  {
    ScanSpaces(s, p.before);
    ScanTree(s, p.tree);
    ScanTail(Scan(s, Written(p.tree)), s.stack, p.after, c);
    ScanConcat(s, p.before, Written(p.tree));
    ScanConcat(s, p.before + Written(p.tree), p.after + [c]);
    assert WrittenPadded(p) + [c] == p.before + Written(p.tree) + (p.after + [c]);
  }

  /** An item and its comma, then the others and the closing byte. */
  lemma ScanListed(s: Scanner, first: Text, others: Text, right: byte)
    ensures Scan(s, first + Ascii(",") + others + [right]) == Scan(Scan(s, first + [',' as int]), others + [right])
  {
    ScanConcat(s, first + [',' as int], others + [right]);
    assert first + Ascii(",") + others + [right] == first + [',' as int] + (others + [right]);
  }

  lemma {:induction false} ScanItems(s: Scanner, i: Items)
    requires Starts(s) && AreItems(i) && s.stack != [] && s.stack[|s.stack| - 1] == ArrayValue
    requires |s.stack| + ItemsDepth(i) <= MAX_DEPTH
    ensures Scan(s, WrittenItems(i) + [']' as int]) == After(s.stack[..|s.stack| - 1])
    decreases i, 2
  {
    match i
    case LastItem(item) => ScanPadded(s, item, ']' as int);
    case MoreItems(item, others) =>
      ScanPadded(s, item, ',' as int);
      ScanItems(Scanner(BeginValue, s.stack), others);
      ScanListed(s, WrittenPadded(item), WrittenItems(others), ']' as int);
  }

  lemma {:induction false} ScanMember(s: Scanner, m: Member, c: byte)
    requires s.state in {BeginString, BeginStringOrEmpty} && IsMember(m) && Ends(c)
    requires s.stack != [] && s.stack[|s.stack| - 1] == ObjectKey
    requires |s.stack| + Depth(m.value.tree) <= MAX_DEPTH
    ensures Scan(s, WrittenMember(m) + [c])
         == Step(Scanner(EndValue, s.stack[..|s.stack| - 1] + [ObjectValue]), c)
    decreases m, 2
  {
    var key := m.before + Quoted(m.key) + m.after + [':' as int];
    ScanKey(s, m);
    var value := Scanner(BeginValue, s.stack[..|s.stack| - 1] + [ObjectValue]);
    ScanPadded(value, m.value, c);
    ScanConcat(s, key, WrittenPadded(m.value) + [c]);
    assert WrittenMember(m) + [c] == key + (WrittenPadded(m.value) + [c]);
  }

  lemma ScanKey(s: Scanner, m: Member)
    requires s.state in {BeginString, BeginStringOrEmpty} && IsMember(m)
    requires s.stack != [] && s.stack[|s.stack| - 1] == ObjectKey
    ensures Scan(s, m.before + Quoted(m.key) + m.after + [':' as int])
         == Scanner(BeginValue, s.stack[..|s.stack| - 1] + [ObjectValue])
  {
    ScanSpaces(s, m.before);
    ScanQuoted(s, m.key);
    ScanConcat(s, m.before, Quoted(m.key));
    AfterEnded(s.stack);
    ScanTail(Scanner(EndValue, s.stack), s.stack, m.after, ':' as int);
    ScanConcat(s, m.before + Quoted(m.key), m.after + [':' as int]);
    assert m.before + Quoted(m.key) + m.after + [':' as int] == m.before + Quoted(m.key) + (m.after + [':' as int]);
  }

  lemma {:induction false} ScanMembers(s: Scanner, m: Members)
    requires s.state in {BeginString, BeginStringOrEmpty} && AreMembers(m)
    requires s.stack != [] && s.stack[|s.stack| - 1] == ObjectKey
    requires |s.stack| + MembersDepth(m) <= MAX_DEPTH
    ensures Scan(s, WrittenMembers(m) + ['}' as int]) == After(s.stack[..|s.stack| - 1])
    decreases m, 3
  {
    var below := s.stack[..|s.stack| - 1];
    var value := below + [ObjectValue];
    assert value[..|value| - 1] == below && below + [ObjectKey] == s.stack;
    match m
    case LastMember(member) => ScanMember(s, member, '}' as int);
    case MoreMembers(member, others) =>
      ScanMember(s, member, ',' as int);
      ScanMembers(Scanner(BeginString, s.stack), others);
      ScanListed(s, WrittenMember(member), WrittenMembers(others), '}' as int);
  }

  /** Every text the grammar writes is valid, when it is nested no deeper than the limit. */
  lemma WrittenIsValid(p: Padded)
    requires IsPadded(p) && Depth(p.tree) <= MAX_DEPTH
    ensures Valid(WrittenPadded(p))
  {
    ScanPadded(START, p, 0x20);
    var s := Scan(START, WrittenPadded(p));
    ScanConcat(START, WrittenPadded(p), [0x20]);
    assert Scan(s, [0x20]) == Step(s, 0x20);
  }

  // ----- what the scanner accepts is written by the grammar -----

  predicate Accepted(s: Scanner, data: Text)
  {
    Accepts(Scan(s, data))
  }

  lemma NotFailed(s: Scanner, data: Text)
    requires Accepted(s, data)
    ensures s.state != Failed
  {
    if s.state == Failed {
      FailedStays(s, data);
    }
  }

  /** The first byte of an accepted text does not fail. */
  lemma NextAccepted(s: Scanner, data: Text)
    requires Accepted(s, data) && data != []
    ensures Accepted(Step(s, data[0]), data[1..]) && Step(s, data[0]).state != Failed
  {
    NotFailed(Step(s, data[0]), data[1..]);
  }

  lemma MoreNeeded(s: Scanner, data: Text)
    requires Accepted(s, data) && Step(s, 0x20).state != EndTop
    ensures data != []
  {
  }

  lemma {:induction false} TakeSpaces(s: Scanner, data: Text) returns (space: Text, rest: Text)
    requires SkipsSpaces(s) && Accepted(s, data)
    ensures data == space + rest && IsSpaces(space) && (rest != [] ==> !IsSpace(rest[0]))
    ensures Accepted(s, rest)
    decreases |data|
  {
    space, rest := [], data;
    if data != [] && IsSpace(data[0]) {
      assert Step(s, data[0]) == s;
      var more;
      more, rest := TakeSpaces(s, data[1..]);
      space := [data[0]] + more;
    }
  }

  lemma {:induction false} TakeDigits(s: Scanner, data: Text) returns (digits: Text, rest: Text)
    requires s.state in {Digits, Fraction, ExpDigits} && Accepted(s, data)
    ensures data == digits + rest && (forall c :: c in digits ==> IsDigit(c)) && (rest != [] ==> !IsDigit(rest[0]))
    ensures Accepted(s, rest)
    decreases |data|
  {
    digits, rest := [], data;
    if data != [] && IsDigit(data[0]) {
      assert Step(s, data[0]) == s;
      var more;
      more, rest := TakeDigits(s, data[1..]);
      digits := [data[0]] + more;
    }
  }

  /** A digit and the digits after it. */
  lemma TakeAreDigits(s: Scanner, next: State, data: Text) returns (digits: Text, rest: Text)
    requires next in {Digits, Fraction, ExpDigits} && data != [] && IsDigit(data[0])
    requires Step(s, data[0]) == s.(state := next) && Accepted(s, data)
    ensures data == digits + rest && AreDigits(digits) && digits[0] == data[0] && (rest != [] ==> !IsDigit(rest[0]))
    ensures Accepted(s.(state := next), rest)
  {
    NextAccepted(s, data);
    var more;
    more, rest := TakeDigits(s.(state := next), data[1..]);
    digits := [data[0]] + more;
  }

  lemma TakeWhole(s: Scanner, data: Text) returns (whole: Text, rest: Text, next: Scanner)
    requires (Starts(s) || s.state.Neg?) && data != [] && IsDigit(data[0]) && Accepted(s, data)
    ensures data == whole + rest && IsWhole(whole) && Accepted(next, rest)
    ensures next == s.(state := Zero) || (next == s.(state := Digits) && (rest != [] ==> !IsDigit(rest[0])))
  {
    if data[0] == '0' as int {
      NextAccepted(s, data);
      whole, rest, next := [data[0]], data[1..], s.(state := Zero);
    } else {
      next := s.(state := Digits);
      whole, rest := TakeAreDigits(s, Digits, data);
    }
  }

  lemma TakeFraction(s: Scanner, data: Text) returns (fraction: Text, rest: Text, next: Scanner)
    requires s.state in {Zero, Digits} && Accepted(s, data)
    requires s.state == Digits && data != [] ==> !IsDigit(data[0])
    ensures data == fraction + rest && IsFraction(fraction) && Accepted(next, rest)
    ensures next == s || next == s.(state := Fraction)
    ensures rest != [] ==> rest[0] != '.' as int || next.state == Fraction
    ensures next.state in {Digits, Fraction} && rest != [] ==> !IsDigit(rest[0])
  {
    fraction, rest, next := [], data, s;
    if data != [] && data[0] == '.' as int {
      NextAccepted(s, data);
      var dot := s.(state := Dot);
      MoreNeeded(dot, data[1..]);
      NextAccepted(dot, data[1..]);
      next := s.(state := Fraction);
      var digits;
      digits, rest := TakeAreDigits(dot, Fraction, data[1..]);
      fraction := [data[0]] + digits;
      assert fraction[1..] == digits;
    }
  }

  lemma TakeExponent(s: Scanner, data: Text) returns (exponent: Text, rest: Text, next: Scanner)
    requires s.state in {Zero, Digits, Fraction} && Accepted(s, data)
    ensures data == exponent + rest && IsExponent(exponent) && Accepted(next, rest)
    ensures if exponent == [] then next == s && (rest != [] ==> !IsExponentMark(rest[0]))
            else next == s.(state := ExpDigits) && (rest != [] ==> !IsDigit(rest[0]))
  {
    exponent, rest, next := [], data, s;
    if data != [] && IsExponentMark(data[0]) {
      NextAccepted(s, data);
      next := s.(state := ExpDigits);
      var digits;
      digits, rest := TakePower(s.(state := Exp), data[1..]);
      exponent := [data[0]] + digits;
      assert exponent[1..] == digits && (|digits| > 1 ==> exponent[2..] == digits[1..]);
    }
  }

  lemma TakePower(s: Scanner, data: Text) returns (power: Text, rest: Text)
    requires s.state == Exp && Accepted(s, data)
    ensures data == power + rest && power != [] && AreDigits(if IsSign(power[0]) then power[1..] else power)
    ensures Accepted(s.(state := ExpDigits), rest) && (rest != [] ==> !IsDigit(rest[0]))
  {
    MoreNeeded(s, data);
    NextAccepted(s, data);
    if IsSign(data[0]) {
      var signed := s.(state := ExpSign);
      MoreNeeded(signed, data[1..]);
      NextAccepted(signed, data[1..]);
      var digits;
      digits, rest := TakeAreDigits(signed, ExpDigits, data[1..]);
      power := [data[0]] + digits;
      assert power[1..] == digits;
    } else {
      power, rest := TakeAreDigits(s, ExpDigits, data);
    }
  }

  /** Two scanners that agree on every next byte accept the same texts. */
  lemma SameNext(s: Scanner, t: Scanner, data: Text)
    requires Step(s, if data == [] then 0x20 else data[0]) == Step(t, if data == [] then 0x20 else data[0])
    ensures Accepted(s, data) <==> Accepted(t, data)
  {
  }

  /** The byte carries a number on. */
  predicate Continues(state: State, c: byte)
  {
    match state
    case Zero => c == '.' as int || IsExponentMark(c)
    case Digits => IsDigit(c) || c == '.' as int || IsExponentMark(c)
    case Fraction => IsDigit(c) || IsExponentMark(c)
    case ExpDigits => IsDigit(c)
    case _ => false
  }

  lemma NumberComplete(s: Scanner, data: Text)
    requires s.state in {Zero, Digits, Fraction, ExpDigits, EndValue} && Accepted(s, data)
    requires data != [] ==> !Continues(s.state, data[0])
    ensures Accepted(After(s.stack), data)
  {
    SameNext(s, After(s.stack), data);
  }

  lemma TakeUnsigned(s: Scanner, data: Text) returns (whole: Text, fraction: Text, exponent: Text, rest: Text)
    requires (Starts(s) || s.state.Neg?) && data != [] && IsDigit(data[0]) && Accepted(s, data)
    ensures data == whole + (fraction + (exponent + rest))
    ensures IsWhole(whole) && IsFraction(fraction) && IsExponent(exponent)
    ensures Accepted(After(s.stack), rest)
  {
    var d1, s1, d2, s2, s3;
    whole, d1, s1 := TakeWhole(s, data);
    fraction, d2, s2 := TakeFraction(s1, d1);
    exponent, rest, s3 := TakeExponent(s2, d2);
    NumberComplete(s3, rest);
  }

  lemma Signed(minus: bool, whole: Text, fraction: Text, exponent: Text, rest: Text)
    ensures Written(Number(minus, whole, fraction, exponent)) + rest
         == (if minus then ['-' as int] else []) + (whole + (fraction + (exponent + rest)))
  {
    assert Ascii("-") == ['-' as int];
  }

  lemma TakeNumber(s: Scanner, data: Text) returns (t: Tree, rest: Text)
    requires Starts(s) && data != [] && (IsDigit(data[0]) || data[0] == '-' as int) && Accepted(s, data)
    ensures t.Number? && data == Written(t) + rest && IsTree(t) && Accepted(After(s.stack), rest)
  {
    var minus := data[0] == '-' as int;
    var whole, fraction, exponent;
    if minus {
      NextAccepted(s, data);
      var neg := s.(state := Neg);
      MoreNeeded(neg, data[1..]);
      NextAccepted(neg, data[1..]);
      whole, fraction, exponent, rest := TakeUnsigned(neg, data[1..]);
    } else {
      whole, fraction, exponent, rest := TakeUnsigned(s, data);
    }
    t := Number(minus, whole, fraction, exponent);
    Signed(minus, whole, fraction, exponent, rest);
  }

  // strings and words

  lemma TakeUnicode(st: Stack, data: Text)
    requires Accepted(Scanner(InUnicode(4), st), data)
    ensures |data| >= 4 && (forall k :: 0 <= k < 4 ==> IsHexDigit(data[k]))
    ensures Accepted(Scanner(InString, st), data[4..])
  {
    MoreNeeded(Scanner(InUnicode(4), st), data);
    NextAccepted(Scanner(InUnicode(4), st), data);
    MoreNeeded(Scanner(InUnicode(3), st), data[1..]);
    NextAccepted(Scanner(InUnicode(3), st), data[1..]);
    MoreNeeded(Scanner(InUnicode(2), st), data[2..]);
    NextAccepted(Scanner(InUnicode(2), st), data[2..]);
    MoreNeeded(Scanner(InUnicode(1), st), data[3..]);
    NextAccepted(Scanner(InUnicode(1), st), data[3..]);
    assert data[1..][1..] == data[2..] && data[2..][1..] == data[3..] && data[3..][1..] == data[4..];
  }

  lemma {:induction false} TakeBody(st: Stack, data: Text) returns (body: Text, rest: Text)
    requires Accepted(Scanner(InString, st), data)
    ensures data == body + ['"' as int] + rest && IsBody(body) && Accepted(Scanner(EndValue, st), rest)
    decreases |data|
  {
    var s := Scanner(InString, st);
    MoreNeeded(s, data);
    NextAccepted(s, data);
    if data[0] == '"' as int {
      body, rest := [], data[1..];
    } else if data[0] != '\\' as int {
      body, rest := TakeBody(st, data[1..]);
      body := [data[0]] + body;
    } else {
      var escaped := s.(state := InEscape);
      MoreNeeded(escaped, data[1..]);
      NextAccepted(escaped, data[1..]);
      assert data[1..][1..] == data[2..];
      EscapeIff(data[1]);
      if IsEscape(data[1]) {
        var more;
        more, rest := TakeBody(st, data[2..]);
        body := data[..2] + more;
        assert body[2..] == more;
      } else {
        TakeUnicode(st, data[2..]);
        assert data[2..][4..] == data[6..];
        var more;
        more, rest := TakeBody(st, data[6..]);
        body := data[..6] + more;
        assert body[6..] == more;
      }
    }
  }

  lemma {:induction false} TakeLiteral(st: Stack, text: Text, data: Text)
    requires text != [] && Accepted(Scanner(Literal(text), st), data)
    ensures text <= data && Accepted(Scanner(EndValue, st), data[|text|..])
    decreases |text|
  {
    var s := Scanner(Literal(text), st);
    MoreNeeded(s, data);
    NextAccepted(s, data);
    if |text| > 1 {
      TakeLiteral(st, text[1..], data[1..]);
      assert data == [data[0]] + data[1..] && text == [text[0]] + text[1..];
      assert data[1..][|text[1..]|..] == data[|text|..];
    }
  }

  // values

  lemma TakeQuoted(s: Scanner, data: Text) returns (body: Text, rest: Text)
    requires Starts(s) || s.state in {BeginString, BeginStringOrEmpty}
    requires data != [] && data[0] == '"' as int && Accepted(s, data)
    ensures data == Quoted(body) + rest && IsBody(body)
    ensures Accepted(Scanner(EndValue, s.stack), rest) && Accepted(After(s.stack), rest)
  {
    NextAccepted(s, data);
    body, rest := TakeBody(s.stack, data[1..]);
    assert data == [data[0]] + data[1..];
    NumberComplete(Scanner(EndValue, s.stack), rest);
  }

  lemma TakeOneWord(s: Scanner, first: byte, others: Text, text: Text, data: Text) returns (rest: Text)
    requires Starts(s) && data != [] && data[0] == first && Accepted(s, data)
    requires Step(s, first) == s.(state := Literal(others)) && others != [] && text == [first] + others
    ensures data == text + rest && Accepted(After(s.stack), rest)
  {
    NextAccepted(s, data);
    TakeLiteral(s.stack, others, data[1..]);
    rest := data[1..][|others|..];
    assert data == [data[0]] + data[1..] && data[1..] == others + rest;
    NumberComplete(Scanner(EndValue, s.stack), rest);
  }

  lemma TakeWord(s: Scanner, data: Text) returns (text: Text, rest: Text)
    requires Starts(s) && data != [] && data[0] in {'t' as int, 'f' as int, 'n' as int} && Accepted(s, data)
    ensures data == text + rest && IsWord(text) && Accepted(After(s.stack), rest)
  {
    if data[0] == 't' as int {
      text := Ascii("true");
      rest := TakeOneWord(s, 't' as int, Ascii("rue"), text, data);
    } else if data[0] == 'f' as int {
      text := Ascii("false");
      rest := TakeOneWord(s, 'f' as int, Ascii("alse"), text, data);
    } else {
      text := Ascii("null");
      rest := TakeOneWord(s, 'n' as int, Ascii("ull"), text, data);
    }
  }

  lemma {:induction false} TakeTree(s: Scanner, data: Text) returns (t: Tree, rest: Text)
    requires Starts(s) && |s.stack| <= MAX_DEPTH && data != [] && !IsSpace(data[0]) && Accepted(s, data)
    requires s.state == BeginValueOrEmpty ==> data[0] != ']' as int
    ensures data == Written(t) + rest && IsTree(t) && |s.stack| + Depth(t) <= MAX_DEPTH
    ensures Accepted(After(s.stack), rest)
    decreases |data|, 1
  {
    var c := data[0];
    NextAccepted(s, data);
    if c == '"' as int {
      var body;
      body, rest := TakeQuoted(s, data);
      t := String(body);
    } else if c == '[' as int {
      t, rest := TakeArray(s, data);
    } else if c == '{' as int {
      t, rest := TakeObject(s, data);
    } else if c == '-' as int || IsDigit(c) {
      t, rest := TakeNumber(s, data);
    } else {
      var text;
      text, rest := TakeWord(s, data);
      t := Word(text);
    }
  }

  lemma Rebuilt(left: byte, text: Text, right: byte, rest: Text, data: Text)
    requires data != [] && data[0] == left && data[1..] == text + [right] + rest
    ensures data == Between(left, text, right) + rest
  {
    assert data == [left] + data[1..];
  }

  /** An opening bracket that is accepted finds room on the stack. */
  lemma TakeOpening(s: Scanner, data: Text, state: State, context: Context) returns (inside: Scanner)
    requires Starts(s) && Accepted(s, data) && data != [] && (data[0] == '[' as int || data[0] == '{' as int)
    requires context == if data[0] == '[' as int then ArrayValue else ObjectKey
    requires state == if data[0] == '[' as int then BeginValueOrEmpty else BeginStringOrEmpty
    ensures inside == Scanner(state, s.stack + [context]) && |s.stack| < MAX_DEPTH
    ensures Accepted(inside, data[1..]) && inside.stack[..|inside.stack| - 1] == s.stack
  {
    NextAccepted(s, data);
    inside := Scanner(state, s.stack + [context]);
    assert inside.stack[..|inside.stack| - 1] == s.stack;
  }

  lemma Closed(space: Text, r: Text, data: Text)
    requires r != [] && data == space + r
    ensures data == space + [r[0]] + r[1..]
  {
  }

  lemma {:induction false} TakeArray(s: Scanner, data: Text) returns (t: Tree, rest: Text)
    requires Starts(s) && |s.stack| <= MAX_DEPTH && Accepted(s, data) && data != [] && data[0] == '[' as int
    ensures data == Written(t) + rest && IsTree(t) && |s.stack| + Depth(t) <= MAX_DEPTH
    ensures Accepted(After(s.stack), rest)
    decreases |data|, 0
  {
    var inside := TakeOpening(s, data, BeginValueOrEmpty, ArrayValue);
    var space, r := TakeSpaces(inside, data[1..]);
    MoreNeeded(inside, r);
    if r[0] == ']' as int {
      NextAccepted(inside, r);
      t, rest := EmptyArray(space), r[1..];
      Closed(space, r, data[1..]);
      Rebuilt(data[0], space, r[0], rest, data);
    } else {
      var items;
      items, rest := TakeItems(inside, space, r);
      t := Array(items);
      Rebuilt(data[0], WrittenItems(items), ']' as int, rest, data);
    }
  }

  lemma {:induction false} TakeObject(s: Scanner, data: Text) returns (t: Tree, rest: Text)
    requires Starts(s) && |s.stack| <= MAX_DEPTH && Accepted(s, data) && data != [] && data[0] == '{' as int
    ensures data == Written(t) + rest && IsTree(t) && |s.stack| + Depth(t) <= MAX_DEPTH
    ensures Accepted(After(s.stack), rest)
    decreases |data|, 0
  {
    var inside := TakeOpening(s, data, BeginStringOrEmpty, ObjectKey);
    var space, r := TakeSpaces(inside, data[1..]);
    MoreNeeded(inside, r);
    if r[0] == '}' as int {
      NextAccepted(inside, r);
      t, rest := EmptyObject(space), r[1..];
      Closed(space, r, data[1..]);
      Rebuilt(data[0], space, r[0], rest, data);
    } else {
      var members;
      members, rest := TakeMembers(inside, space, r);
      t := Object(members);
      Rebuilt(data[0], WrittenMembers(members), '}' as int, rest, data);
    }
  }

  lemma {:induction false} TakePadded(s: Scanner, space: Text, data: Text) returns (p: Padded, rest: Text)
    requires Starts(s) && |s.stack| <= MAX_DEPTH && data != [] && !IsSpace(data[0]) && Accepted(s, data)
    requires s.state == BeginValueOrEmpty ==> data[0] != ']' as int
    requires IsSpaces(space)
    ensures space + data == WrittenPadded(p) + rest && IsPadded(p) && |s.stack| + Depth(p.tree) <= MAX_DEPTH
    ensures rest != [] ==> !IsSpace(rest[0])
    ensures Accepted(After(s.stack), rest) && |rest| <= |data|
    decreases |data|, 2
  {
    var t, r := TakeTree(s, data);
    var after;
    after, rest := TakeSpaces(After(s.stack), r);
    p := Padded(space, t, after);
  }

  lemma {:induction false} TakeItems(s: Scanner, space: Text, data: Text) returns (i: Items, rest: Text)
    requires Starts(s) && 0 < |s.stack| <= MAX_DEPTH && s.stack[|s.stack| - 1] == ArrayValue
    requires data != [] && !IsSpace(data[0]) && Accepted(s, data) && IsSpaces(space)
    requires s.state == BeginValueOrEmpty ==> data[0] != ']' as int
    ensures space + data == WrittenItems(i) + [']' as int] + rest && AreItems(i)
    ensures |s.stack| + ItemsDepth(i) <= MAX_DEPTH
    ensures Accepted(After(s.stack[..|s.stack| - 1]), rest)
    decreases |data|, 3
  {
    var item, r := TakePadded(s, space, data);
    MoreNeeded(After(s.stack), r);
    NextAccepted(After(s.stack), r);
    if r[0] == ']' as int {
      i, rest := LastItem(item), r[1..];
      assert r == [r[0]] + rest;
    } else {
      var next := Scanner(BeginValue, s.stack);
      var space', data' := TakeSpaces(next, r[1..]);
      MoreNeeded(next, data');
      var others;
      others, rest := TakeItems(next, space', data');
      i := MoreItems(item, others);
      Listed(WrittenPadded(item), WrittenItems(others), ']' as int, rest, r);
    }
  }

  /** What follows an item: a comma, the others and the closing byte. */
  lemma Listed(first: Text, others: Text, right: byte, rest: Text, r: Text)
    requires r != [] && r[0] == ',' as int && r[1..] == others + [right] + rest
    ensures first + r == first + Ascii(",") + others + [right] + rest
  {
    assert r == Ascii(",") + (others + [right] + rest);
  }

  lemma TakeKey(s: Scanner, space: Text, data: Text) returns (key: Text, after: Text, space': Text, rest: Text)
    requires s.state in {BeginString, BeginStringOrEmpty} && s.stack != [] && s.stack[|s.stack| - 1] == ObjectKey
    requires data != [] && !IsSpace(data[0]) && Accepted(s, data)
    requires s.state == BeginStringOrEmpty ==> data[0] != '}' as int
    ensures space + data == space + Quoted(key) + after + Ascii(":") + (space' + rest)
    ensures IsBody(key) && IsSpaces(after) && IsSpaces(space')
    ensures rest != [] && !IsSpace(rest[0])
    ensures Accepted(Scanner(BeginValue, s.stack[..|s.stack| - 1] + [ObjectValue]), rest)
  {
    NextAccepted(s, data);
    var r, q;
    key, r := TakeQuoted(s, data);
    after, q := TakeSpaces(After(s.stack), r);
    MoreNeeded(After(s.stack), q);
    NextAccepted(After(s.stack), q);
    var value := Scanner(BeginValue, s.stack[..|s.stack| - 1] + [ObjectValue]);
    space', rest := TakeSpaces(value, q[1..]);
    MoreNeeded(value, rest);
    assert q == Ascii(":") + (space' + rest);
    assert data == Quoted(key) + (after + q);
  }

  lemma {:induction false} TakeMember(s: Scanner, space: Text, data: Text) returns (m: Member, rest: Text)
    requires s.state in {BeginString, BeginStringOrEmpty} && 0 < |s.stack| <= MAX_DEPTH
    requires s.stack[|s.stack| - 1] == ObjectKey
    requires data != [] && !IsSpace(data[0]) && Accepted(s, data) && IsSpaces(space)
    requires s.state == BeginStringOrEmpty ==> data[0] != '}' as int
    ensures space + data == WrittenMember(m) + rest && IsMember(m) && |s.stack| + Depth(m.value.tree) <= MAX_DEPTH
    ensures rest != [] && !IsSpace(rest[0])
    ensures Accepted(After(s.stack[..|s.stack| - 1] + [ObjectValue]), rest) && |rest| < |data|
    decreases |data|, 3
  {
    var key, after, space', r := TakeKey(s, space, data);
    var value := Scanner(BeginValue, s.stack[..|s.stack| - 1] + [ObjectValue]);
    assert |data| == |Quoted(key)| + |after| + 1 + |space'| + |r|;
    var v;
    v, rest := TakePadded(value, space', r);
    MoreNeeded(After(value.stack), rest);
    m := Member(space, key, after, v);
  }

  lemma {:induction false} TakeMembers(s: Scanner, space: Text, data: Text) returns (m: Members, rest: Text)
    requires s.state in {BeginString, BeginStringOrEmpty} && 0 < |s.stack| <= MAX_DEPTH
    requires s.stack[|s.stack| - 1] == ObjectKey
    requires data != [] && !IsSpace(data[0]) && Accepted(s, data) && IsSpaces(space)
    requires s.state == BeginStringOrEmpty ==> data[0] != '}' as int
    ensures space + data == WrittenMembers(m) + ['}' as int] + rest && AreMembers(m)
    ensures |s.stack| + MembersDepth(m) <= MAX_DEPTH
    ensures Accepted(After(s.stack[..|s.stack| - 1]), rest)
    decreases |data|, 4
  {
    var member, r := TakeMember(s, space, data);
    var below := s.stack[..|s.stack| - 1];
    var stack := below + [ObjectValue];
    assert stack[..|stack| - 1] == below && below + [ObjectKey] == s.stack;
    NextAccepted(After(stack), r);
    if r[0] == '}' as int {
      m, rest := LastMember(member), r[1..];
      assert r == [r[0]] + rest;
    } else {
      var next := Scanner(BeginString, s.stack);
      var space', data' := TakeSpaces(next, r[1..]);
      MoreNeeded(next, data');
      var others;
      others, rest := TakeMembers(next, space', data');
      m := MoreMembers(member, others);
      Listed(WrittenMember(member), WrittenMembers(others), '}' as int, rest, r);
    }
  }

  /** The text is one value of the grammar, nested no deeper than the limit. */
  ghost predicate IsJson(data: Text)
  {
    exists p: Padded :: IsPadded(p) && Depth(p.tree) <= MAX_DEPTH && WrittenPadded(p) == data
  }

  /** The scanner accepts exactly the texts of the grammar. */
  lemma ValidIff(data: Text)
    ensures Valid(data) <==> IsJson(data)
  {
    if Valid(data) {
      var space, r := TakeSpaces(START, data);
      MoreNeeded(START, r);
      var p, rest := TakePadded(START, space, r);
      if rest != [] {
        NextAccepted(After([]), rest);
      }
      assert WrittenPadded(p) == data;
    }
    if IsJson(data) {
      var p: Padded :| IsPadded(p) && Depth(p.tree) <= MAX_DEPTH && WrittenPadded(p) == data;
      WrittenIsValid(p);
    }
  }
}
