/**
  The validity scan json.Unmarshal makes before it decodes anything: RFC 8259 as a push-down automaton over bytes,
  with a limit of 10000 on nesting.
 */
module JsonScanner {
  import opened Basics
  import opened Numbers

  datatype State =
    | BeginValue
    | BeginValueOrEmpty
    | BeginString
    | BeginStringOrEmpty
    | EndValue
    | EndTop
    | InString
    | InEscape
    | InUnicode(left: nat)
    | Neg
    | Zero
    | Digits
    | Dot
    | Fraction
    | Exp
    | ExpSign
    | ExpDigits
    | Literal(rest: Text)
    | Failed

  datatype Context = ObjectKey | ObjectValue | ArrayValue

  datatype Scanner = Scanner(state: State, stack: seq<Context>)

  const MAX_DEPTH := 10000

  predicate IsSpace(c: byte)
  {
    c == 0x20 || c == 0x09 || c == 0x0A || c == 0x0D
  }

  function Push(s: Scanner, context: Context, next: State): Scanner
  {
    if |s.stack| < MAX_DEPTH then Scanner(next, s.stack + [context]) else Scanner(Failed, s.stack)
  }

  function Pop(s: Scanner): Scanner
    requires s.stack != []
  {
    var rest := s.stack[..|s.stack| - 1];
    Scanner(if rest == [] then EndTop else EndValue, rest)
  }

  function ValueStep(s: Scanner, c: byte): Scanner
  {
    if IsSpace(c) then s
    else if c == '{' as int then Push(s, ObjectKey, BeginStringOrEmpty)
    else if c == '[' as int then Push(s, ArrayValue, BeginValueOrEmpty)
    else
      s.(state :=
        if c == '"' as int then InString
        else if c == '-' as int then Neg
        else if c == '0' as int then Zero
        else if IsDigit(c) then Digits
        else if c == 't' as int then Literal(Ascii("rue"))
        else if c == 'f' as int then Literal(Ascii("alse"))
        else if c == 'n' as int then Literal(Ascii("ull"))
        else Failed)
  }

  function EndValueStep(s: Scanner, c: byte): Scanner
  {
    if s.stack == [] then s.(state := if IsSpace(c) then EndTop else Failed)
    else if IsSpace(c) then s.(state := EndValue)
    else
      var below := s.stack[..|s.stack| - 1];
      match s.stack[|s.stack| - 1]
      case ObjectKey =>
        if c == ':' as int then Scanner(BeginValue, below + [ObjectValue]) else s.(state := Failed)
      case ObjectValue =>
        if c == ',' as int then Scanner(BeginString, below + [ObjectKey])
        else if c == '}' as int then Pop(s)
        else s.(state := Failed)
      case ArrayValue =>
        if c == ',' as int then s.(state := BeginValue)
        else if c == ']' as int then Pop(s)
        else s.(state := Failed)
  }

  function StringStep(s: Scanner, c: byte): Scanner
  {
    s.(state :=
      if c == '"' as int then EndValue
      else if c == '\\' as int then InEscape
      else if c < 0x20 then Failed
      else InString)
  }

  predicate IsEscape(c: byte)
  {
    || c == 'b' as int || c == 'f' as int || c == 'n' as int || c == 'r' as int || c == 't' as int
    || c == '\\' as int || c == '/' as int || c == '"' as int
  }

  function Step(s: Scanner, c: byte): Scanner
  {
    match s.state
    case BeginValue => ValueStep(s, c)
    case BeginValueOrEmpty =>
      if c == ']' as int then EndValueStep(s, c) else if IsSpace(c) then s else ValueStep(s, c)
    case BeginString =>
      if IsSpace(c) then s else s.(state := if c == '"' as int then InString else Failed)
    case BeginStringOrEmpty =>
      if IsSpace(c) then s
      else if c == '}' as int && s.stack != [] then Pop(s)
      else s.(state := if c == '"' as int then InString else Failed)
    case EndValue => EndValueStep(s, c)
    case EndTop => s.(state := if IsSpace(c) then EndTop else Failed)
    case InString => StringStep(s, c)
    case InEscape =>
      s.(state := if IsEscape(c) then InString else if c == 'u' as int then InUnicode(4) else Failed)
    case InUnicode(left) =>
      s.(state := if !IsHexDigit(c) then Failed else if left <= 1 then InString else InUnicode(left - 1))
    case Neg =>
      s.(state := if c == '0' as int then Zero else if IsDigit(c) then Digits else Failed)
    case Zero => NumberStep(s, c)
    case Digits => if IsDigit(c) then s else NumberStep(s, c)
    case Dot => s.(state := if IsDigit(c) then Fraction else Failed)
    case Fraction =>
      if IsDigit(c) then s
      else if c == 'e' as int || c == 'E' as int then s.(state := Exp)
      else EndValueStep(s, c)
    case Exp =>
      s.(state := if c == '+' as int || c == '-' as int then ExpSign else if IsDigit(c) then ExpDigits else Failed)
    case ExpSign => s.(state := if IsDigit(c) then ExpDigits else Failed)
    case ExpDigits => if IsDigit(c) then s else EndValueStep(s, c)
    case Literal(rest) =>
      s.(state :=
        if rest == [] || c != rest[0] then Failed
        else if |rest| == 1 then EndValue
        else Literal(rest[1..]))
    case Failed => s
  }

  function NumberStep(s: Scanner, c: byte): Scanner
  {
    if c == '.' as int then s.(state := Dot)
    else if c == 'e' as int || c == 'E' as int then s.(state := Exp)
    else EndValueStep(s, c)
  }

  const START := Scanner(BeginValue, [])

  function Scan(s: Scanner, data: Text): Scanner
    decreases |data|
  {
    if data == [] then s else Scan(Step(s, data[0]), data[1..])
  }

  /** At the end of the input one more space must complete a top-level value. */
  predicate Accepts(s: Scanner)
  {
    Step(s, 0x20).state == EndTop
  }

  predicate Valid(data: Text)
  {
    Accepts(Scan(START, data))
  }

  /** A control byte that is not white space. */
  predicate IsControl(c: byte)
  {
    c < 0x20 && !IsSpace(c)
  }

  /** Scanners that start a value never wait for a literal with a control byte in it. */
  predicate Sane(s: Scanner)
  {
    s.state.Literal? ==> forall c :: c in s.state.rest ==> !IsControl(c)
  }

  lemma StepSane(s: Scanner, c: byte)
    requires Sane(s)
    ensures Sane(Step(s, c))
    ensures IsControl(c) ==> Step(s, c).state == Failed
  {
  }

  lemma {:induction false} FailedStays(s: Scanner, data: Text)
    requires s.state == Failed
    ensures Scan(s, data).state == Failed
    decreases |data|
  {
    if data != [] {
      FailedStays(Step(s, data[0]), data[1..]);
    }
  }

  lemma {:induction false} ControlInScan(s: Scanner, data: Text, i: nat)
    requires Sane(s) && i < |data| && IsControl(data[i])
    ensures Scan(s, data).state == Failed
    decreases i
  {
    StepSane(s, data[0]);
    if i == 0 {
      FailedStays(Step(s, data[0]), data[1..]);
    } else {
      ControlInScan(Step(s, data[0]), data[1..], i - 1);
    }
  }

  /** No text with a control byte other than tab, line feed and carriage return is valid JSON. */
  lemma ControlBytesInvalid(data: Text, i: nat)
    requires i < |data| && IsControl(data[i])
    ensures !Valid(data)
  {
    ControlInScan(START, data, i);
  }

  /** After white space, a byte that starts no value makes the text invalid whatever follows. */
  lemma NoValueStart(space: byte, c: byte, rest: Text)
    requires IsSpace(space) && ValueStep(START, c).state == Failed
    ensures !Valid([space, c] + rest)
  {
    var data := [space, c] + rest;
    assert data[1..] == [c] + rest && data[1..][1..] == rest;
    assert Step(START, space) == START;
    assert Scan(START, data) == Scan(START, [c] + rest) == Scan(Step(START, c), rest);
    FailedStays(Step(START, c), rest);
  }
}
