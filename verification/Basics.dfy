/** Shared vocabulary: bytes, Go strings, results. */
module Basics {

  type byte = b: int | 0 <= b < 256

  /** A Go string is an arbitrary sequence of bytes. */
  type Text = seq<byte>

  type uint32 = r: int | 0 <= r < 0x1_0000_0000

  datatype Option<+T> = None | Some(value: T)

  /** What an operation can report instead of a value.  `Panic` is a Go run-time panic. */
  datatype Error =
    | KeyNotFound
    | CommitFailed
    | BadRecord
    | KeySize
    | PubkeyMismatch
    | Conversion
    | NotOnCurve
    | ConfigNotFound
    | InvalidMessage
    | Panic

  datatype Result<+T> = Ok(value: T) | Err(error: Error)

  /** A string literal of the program, as the bytes Go stores for it. */
  function Ascii(s: string): (t: Text)
    requires forall c :: c in s ==> c < 128 as char
    ensures |t| == |s|
    ensures forall i :: 0 <= i < |s| ==> t[i] == s[i] as int
  {
    seq<byte>(|s|, i requires 0 <= i < |s| => assert s[i] in s; s[i] as int as byte)
  }

  predicate IsDigit(c: byte)
  {
    '0' as int <= c <= '9' as int
  }

  function Pow2(k: nat): (p: nat)
    ensures p > 0
  {
    if k == 0 then 1 else 2 * Pow2(k - 1)
  }

  /** A multiple of `unit` that lies between -unit and unit is zero. */
  lemma SmallMultiple(d: int, unit: nat)
    requires 0 < d * unit + unit && d * unit < unit
    ensures d == 0
  {
  }

  /** Quotient and remainder are the only numbers that make up `n` with a remainder below `unit`. */
  lemma QuotientAndRemainder(n: nat, unit: nat, q: nat, r: nat)
    requires r < unit && n == q * unit + r
    ensures n / unit == q && n % unit == r
  {
    var q', r' := n / unit, n % unit;
    assert n == q' * unit + r';
    assert (q - q') * unit == r' - r;
    SmallMultiple(q - q', unit);
  }

  /** Induction over runs: what holds after `start` and survives every further event holds after any more of them. */
  lemma {:induction false} Survives<T>(p: seq<T> -> bool, start: seq<T>, more: seq<T>)
    requires p(start)
    requires forall run, event :: p(run) ==> p(run + [event])
    ensures p(start + more)
    decreases |more|
  {
    if more == [] {
      assert start + more == start;
    } else {
      Survives(p, start + [more[0]], more[1..]);
      assert start + more == start + [more[0]] + more[1..];
    }
  }

  /** Induction over numbers, from one to another. */
  lemma {:induction false} Climbs(p: nat -> bool, from: nat, to: nat)
    requires from <= to && p(from)
    requires forall k: nat :: p(k) && k < to ==> p(k + 1)
    ensures p(to)
    decreases if from < to then to - from else 0
  {
    if from < to {
      Climbs(p, from + 1, to);
    }
  }

  /** How many elements of `s` satisfy `p`. */
  function Count<T>(p: T -> bool, s: seq<T>): (c: nat)
    ensures c <= |s|
  {
    if s == [] then 0 else (if p(s[0]) then 1 else 0) + Count(p, s[1..])
  }

  lemma {:induction false} CountUpdate<T>(p: T -> bool, s: seq<T>, i: nat, x: T)
    requires i < |s|
    ensures Count(p, s[i := x]) == Count(p, s) - (if p(s[i]) then 1 else 0) + (if p(x) then 1 else 0)
  {
    if i == 0 {
      assert s[i := x][1..] == s[1..];
    } else {
      assert s[i := x][1..] == s[1..][i - 1 := x];
      CountUpdate(p, s[1..], i - 1, x);
    }
  }

  /** The count is zero exactly when no element satisfies the predicate. */
  lemma {:induction false} CountZero<T>(p: T -> bool, s: seq<T>)
    ensures Count(p, s) == 0 <==> forall i :: 0 <= i < |s| ==> !p(s[i])
  {
    if s != [] {
      CountZero(p, s[1..]);
      assert forall i :: 1 <= i < |s| ==> s[i] == s[1..][i - 1];
      if forall i :: 0 <= i < |s| ==> !p(s[i]) {
        assert forall i :: 0 <= i < |s[1..]| ==> s[1..][i] == s[i + 1];
      }
    }
  }

  /** An element that fails the predicate keeps the count below the length. */
  lemma {:induction false} CountBelow<T>(p: T -> bool, s: seq<T>, i: nat)
    requires i < |s| && !p(s[i])
    ensures Count(p, s) < |s|
  {
    if i > 0 {
      CountBelow(p, s[1..], i - 1);
    }
  }
}
