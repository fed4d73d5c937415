/**
 * The part of `std::istream` that the parser relies on: `peek`, `ignore`, `ignore(n, delim)`,
 * `eof` and formatted extraction (`>>`) of integers, over an in-memory character sequence.
 *
 * Every operation is specified on the text that is still to be read (`Rest()`); the pure
 * functions below say what each operation does to that text, and the methods of
 * `InputStream` are proved to do exactly that.
 */
module Istream {
  import opened Wrappers

  /** The value a read produced and the text left after it. */
  datatype Parsed<T> = Parsed(value: T, rest: seq<char>)

  /** `r` is what remains of `s` after some characters were taken from its front. */
  predicate IsSuffix(r: seq<char>, s: seq<char>)
  {
    |r| <= |s| && r == s[|s| - |r|..]
  }

  /** `isspace` in the "C" locale: space, tab, newline, vertical tab, form feed, carriage return. */
  predicate IsSpace(c: char)
  {
    c == ' ' || c == '\t' || c == '\n' || c == 11 as char || c == 12 as char || c == '\r'
  }

  predicate IsDigit(c: char)
  {
    '0' <= c <= '9'
  }

  function DigitValue(c: char): nat
    requires IsDigit(c)
  {
    c as int - '0' as int
  }

  predicate AllSpace(cs: seq<char>)
  {
    forall i | 0 <= i < |cs| :: IsSpace(cs[i])
  }

  predicate AllDigits(ds: seq<char>)
  {
    forall i | 0 <= i < |ds| :: IsDigit(ds[i])
  }

  /** `peek()`: the next character, or end-of-file (None). Nothing is consumed. */
  function Peeked(s: seq<char>): Option<char>
  {
    if s == [] then None else Some(s[0])
  }

  /** The sentry of formatted input: leading whitespace (newlines included) is skipped. */
  function SkipSpace(s: seq<char>): seq<char>
  {
    if s != [] && IsSpace(s[0]) then SkipSpace(s[1..]) else s
  }

  /**
   * The sentry drops exactly the leading whitespace: what it consumes is whitespace only,
   * and what it leaves is empty or starts with a character that is not whitespace.
   */
  lemma {:induction false} SkipSpaceDropsLeadingSpace(s: seq<char>)
    ensures IsSuffix(SkipSpace(s), s)
    ensures forall i | 0 <= i < |s| - |SkipSpace(s)| :: IsSpace(s[i])
    ensures SkipSpace(s) == [] || !IsSpace(SkipSpace(s)[0])
  {
    if s != [] && IsSpace(s[0]) {
      var t := s[1..];
      SkipSpaceDropsLeadingSpace(t);
      forall i | 0 < i < |s| - |SkipSpace(s)| ensures IsSpace(s[i]) {
        assert s[i] == t[i - 1];
      }
    }
  }

  lemma SuffixTransitive(r: seq<char>, t: seq<char>, s: seq<char>)
    requires IsSuffix(r, t) && IsSuffix(t, s)
    ensures IsSuffix(r, s)
  {
    assert s[|s| - |t|..][|t| - |r|..] == s[|s| - |r|..];
  }

  /**
   * `ignore(numeric_limits<streamsize>::max(), delim)`: everything up to and including the
   * first `delim` is consumed; without a `delim` everything is.
   */
  function SkipPast(s: seq<char>, delim: char): (r: seq<char>)
    ensures IsSuffix(r, s)
    ensures delim !in s ==> r == []
    ensures delim in s ==> |r| < |s| && s[|s| - |r| - 1] == delim && delim !in s[..|s| - |r| - 1]
  {
    if s == [] then []
    else if s[0] == delim then s[1..]
    else
      var r := SkipPast(s[1..], delim);
      assert s == [s[0]] + s[1..];
      assert delim in s[1..] ==> s[..|s| - |r| - 1] == [s[0]] + s[1..][..|s| - 1 - |r| - 1];
      r
  }

  /**
   * The digit run at the front of `s` accumulated onto `acc`, most significant digit first
   * (each digit multiplies what was read so far by ten), and the text after the run.
   */
  function DigitRun(s: seq<char>, acc: nat): Parsed<nat>
  {
    if s != [] && IsDigit(s[0]) then DigitRun(s[1..], acc * 10 + DigitValue(s[0])) else Parsed(acc, s)
  }

  /** The digit run at the front of `s` as a number; at least one digit is needed. */
  function ScanDigits(s: seq<char>): Option<Parsed<nat>>
  {
    if s != [] && IsDigit(s[0]) then Some(DigitRun(s, 0)) else None
  }

  /** A digit run consumes digits only, at least none, and stops at the first non-digit. */
  lemma {:induction false} DigitRunIsMaximal(s: seq<char>, acc: nat)
    ensures IsSuffix(DigitRun(s, acc).rest, s)
    ensures AllDigits(s[..|s| - |DigitRun(s, acc).rest|])
    ensures DigitRun(s, acc).rest == [] || !IsDigit(DigitRun(s, acc).rest[0])
  {
    if s != [] && IsDigit(s[0]) {
      var t := s[1..];
      var next := acc * 10 + DigitValue(s[0]);
      assert DigitRun(s, acc) == DigitRun(t, next);
      DigitRunIsMaximal(t, next);
      var rest := DigitRun(t, next).rest;
      var run := t[..|t| - |rest|];
      assert IsSuffix(t, s);
      SuffixTransitive(rest, t, s);
      assert s[..|s| - |rest|] == [s[0]] + run;
      forall i | 0 <= i < |run| + 1 ensures IsDigit(([s[0]] + run)[i]) {
        if i > 0 {
          assert ([s[0]] + run)[i] == run[i - 1];
        }
      }
    }
  }

  /**
   * Digit extraction fails exactly when no digit comes first; otherwise it consumes the
   * whole digit run, at least one digit, and nothing after it.
   */
  lemma ScanDigitsIsMaximal(s: seq<char>)
    ensures ScanDigits(s).None? <==> s == [] || !IsDigit(s[0])
    ensures ScanDigits(s).Some? ==>
      var rest := ScanDigits(s).value.rest;
      && IsSuffix(rest, s) && |rest| < |s|
      && AllDigits(s[..|s| - |rest|])
      && (rest == [] || !IsDigit(rest[0]))
  {
    if s != [] && IsDigit(s[0]) {
      DigitRunIsMaximal(s, 0);
      DigitRunIsMaximal(s[1..], DigitValue(s[0]));
      SuffixTransitive(DigitRun(s[1..], DigitValue(s[0])).rest, s[1..], s);
    }
  }

  /** `input >> n` for an unsigned integer: whitespace, an optional `+`, then digits. */
  function ScanNat(s: seq<char>): Option<Parsed<nat>>
  {
    var t := SkipSpace(s);
    ScanDigits(if t != [] && t[0] == '+' then t[1..] else t)
  }

  /** `input >> n` for a signed integer: whitespace, an optional `+` or `-`, then digits. */
  function ScanInt(s: seq<char>): Option<Parsed<int>>
  {
    var t := SkipSpace(s);
    var signed := t != [] && (t[0] == '-' || t[0] == '+');
    match ScanDigits(if signed then t[1..] else t)
    case None => None
    case Some(Parsed(n, rest)) =>
      var value: int := if signed && t[0] == '-' then -(n as int) else n;
      Some(Parsed(value, rest))
  }

  /**
   * Unsigned extraction fails exactly when no digit follows the whitespace and the optional
   * `+`; otherwise it consumes the whole digit run and stops at the first non-digit.
   */
  lemma ScanNatIsMaximal(s: seq<char>)
    ensures ScanNat(s).None? <==>
      var t := SkipSpace(s);
      var u := if t != [] && t[0] == '+' then t[1..] else t;
      u == [] || !IsDigit(u[0])
    ensures ScanNat(s).Some? ==>
      var rest := ScanNat(s).value.rest;
      IsSuffix(rest, s) && |rest| < |s| && (rest == [] || !IsDigit(rest[0]))
  {
    var t := SkipSpace(s);
    var u := if t != [] && t[0] == '+' then t[1..] else t;
    SkipSpaceDropsLeadingSpace(s);
    ScanDigitsIsMaximal(u);
    assert IsSuffix(u, t);
    if ScanDigits(u).Some? {
      SuffixTransitive(ScanDigits(u).value.rest, u, t);
      SuffixTransitive(ScanDigits(u).value.rest, t, s);
    }
  }

  /**
   * Signed extraction fails exactly when no digit follows the whitespace and the optional
   * sign; otherwise it consumes the whole digit run and stops at the first non-digit.
   */
  lemma ScanIntIsMaximal(s: seq<char>)
    ensures ScanInt(s).None? <==>
      var t := SkipSpace(s);
      var u := if t != [] && (t[0] == '-' || t[0] == '+') then t[1..] else t;
      u == [] || !IsDigit(u[0])
    ensures ScanInt(s).Some? ==>
      var rest := ScanInt(s).value.rest;
      IsSuffix(rest, s) && |rest| < |s| && (rest == [] || !IsDigit(rest[0]))
  {
    var t := SkipSpace(s);
    var u := if t != [] && (t[0] == '-' || t[0] == '+') then t[1..] else t;
    SkipSpaceDropsLeadingSpace(s);
    ScanDigitsIsMaximal(u);
    assert IsSuffix(u, t);
    if ScanDigits(u).Some? {
      SuffixTransitive(ScanDigits(u).value.rest, u, t);
      SuffixTransitive(ScanDigits(u).value.rest, t, s);
    }
  }

  /**
   * A method's result `r` and the text `rest` it left unread agree with the specification
   * `expected`: both fail, or both succeed with the same value and the same remaining text.
   */
  predicate Agrees<T(==)>(r: Option<T>, expected: Option<Parsed<T>>, rest: seq<char>)
  {
    match expected
    case None => r.None?
    case Some(p) => r == Some(p.value) && rest == p.rest
  }

  /** An input stream over `data`, positioned at `pos`. */
  class InputStream {
    const data: seq<char>
    var pos: nat

    ghost predicate Valid()
      reads this
    {
      pos <= |data|
    }

    /** The characters not yet extracted. */
    ghost function Rest(): seq<char>
      reads this
      requires Valid()
    {
      data[pos..]
    }

    constructor (text: seq<char>)
      ensures Valid() && data == text && Rest() == text
    {
      data := text;
      pos := 0;
    }

    /** `eof()`: there is nothing left to read. */
    method Eof() returns (b: bool)
      requires Valid()
      ensures b <==> Rest() == []
    {
      b := pos == |data|;
    }

    /** `peek()`. */
    method Peek() returns (c: Option<char>)
      requires Valid()
      ensures c == Peeked(Rest())
    {
      c := if pos < |data| then Some(data[pos]) else None;
    }

    /** `ignore()`: one character is consumed, if there is one. */
    method Ignore()
      requires Valid()
      modifies this
      ensures Valid()
      ensures Rest() == if old(Rest()) == [] then [] else old(Rest())[1..]
    {
      if pos < |data| {
        pos := pos + 1;
      }
    }

    /** `ignore(numeric_limits<streamsize>::max(), delim)`. */
    method IgnoreThrough(delim: char)
      requires Valid()
      modifies this
      ensures Valid()
      ensures Rest() == SkipPast(old(Rest()), delim)
    {
      while pos < |data|
        invariant pos <= |data|
        invariant SkipPast(data[pos..], delim) == SkipPast(old(Rest()), delim)
      {
        ghost var before := data[pos..];
        var c := data[pos];
        pos := pos + 1;
        assert before[1..] == data[pos..];
        if c == delim {
          return;
        }
      }
    }

    /** The sentry of `>>`: skips whitespace. */
    method SkipWhitespace()
      requires Valid()
      modifies this
      ensures Valid()
      ensures Rest() == SkipSpace(old(Rest()))
    {
      while pos < |data| && IsSpace(data[pos])
        invariant pos <= |data|
        invariant SkipSpace(data[pos..]) == SkipSpace(old(Rest()))
      {
        assert data[pos..][1..] == data[pos + 1..];
        pos := pos + 1;
      }
    }

    /** Accumulates the digit run at the cursor, most significant digit first. */
    method ReadDigits() returns (r: Option<nat>)
      requires Valid()
      modifies this
      ensures Valid()
      ensures Agrees(r, ScanDigits(old(Rest())), Rest())
    {
      var start := pos;
      var value: nat := 0;
      while pos < |data| && IsDigit(data[pos])
        invariant start <= pos <= |data|
        invariant DigitRun(data[pos..], value) == DigitRun(data[start..], 0)
      {
        assert data[pos..][1..] == data[pos + 1..];
        value := value * 10 + DigitValue(data[pos]);
        pos := pos + 1;
      }
      r := if pos == start then None else Some(value);
    }

    /** `input >> n` into an unsigned integer. */
    method ReadNat() returns (r: Option<nat>)
      requires Valid()
      modifies this
      ensures Valid()
      ensures Agrees(r, ScanNat(old(Rest())), Rest())
    {
      SkipWhitespace();
      if pos < |data| && data[pos] == '+' {
        pos := pos + 1;
      }
      r := ReadDigits();
    }

    /** `input >> n` into a signed integer. */
    method ReadInt() returns (r: Option<int>)
      requires Valid()
      modifies this
      ensures Valid()
      ensures Agrees(r, ScanInt(old(Rest())), Rest())
    {
      SkipWhitespace();
      ghost var t := Rest();
      var negative := false;
      if pos < |data| && (data[pos] == '-' || data[pos] == '+') {
        negative := data[pos] == '-';
        pos := pos + 1;
      }
      ghost var signed := t != [] && (t[0] == '-' || t[0] == '+');
      assert Rest() == if signed then t[1..] else t;
      assert negative <==> signed && t[0] == '-';
      var digits := ReadDigits();
      r := match digits
        case None => None
        case Some(n) => Some(if negative then -(n as int) else n);
    }
  }
}
