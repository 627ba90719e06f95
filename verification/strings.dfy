/**
 The string operations the service uses, on `seq<char>`: ASCII lower-casing
 (`toLowerCase`), substring and prefix tests (`includes`, `startsWith`),
 `split` on one delimiter character with its inverse `join`, and the decimal
 rendering of a natural number (`Number.prototype.toString`).
 */
module Strings {

  function LowerChar(c: char): char
  {
    if 'A' <= c <= 'Z' then (c as int + 32) as char else c
  }

  /** `s.toLowerCase()` restricted to ASCII letters. */
  function ToLower(s: string): (r: string)
    ensures |r| == |s|
    ensures forall i :: 0 <= i < |s| ==> r[i] == LowerChar(s[i])
  {
    seq(|s|, i requires 0 <= i < |s| => LowerChar(s[i]))
  }

  lemma ToLowerIdempotent(s: string)
    ensures ToLower(ToLower(s)) == ToLower(s)
  {
  }

  /** `s.startsWith(p)`. */
  predicate StartsWith(s: string, p: string)
  {
    |p| <= |s| && s[..|p|] == p
  }

  /** `s.includes(sub)`: `sub` occurs at some position of `s`; the empty
      string occurs everywhere. */
  predicate Includes(s: string, sub: string)
  {
    exists i | 0 <= i <= |s| :: OccursAt(s, sub, i)
  }

  /** `sub` occurs in `s` starting at position `i`. */
  predicate OccursAt(s: string, sub: string, i: int)
  {
    0 <= i && i + |sub| <= |s| && s[i..i + |sub|] == sub
  }

  lemma IncludesEmpty(s: string)
    ensures Includes(s, "")
  {
    assert OccursAt(s, "", 0);
  }

  /** `s.split([d])`: the maximal `d`-free pieces of `s`, in order; there is
      always at least one piece. */
  function Split(s: string, d: char): (parts: seq<string>)
    ensures |parts| >= 1
    ensures forall k :: 0 <= k < |parts| ==> d !in parts[k]
    decreases |s|
  {
    if |s| == 0 then [""]
    else
      var rest := Split(s[1..], d);
      if s[0] == d then [""] + rest
      else [[s[0]] + rest[0]] + rest[1..]
  }

  /** A string without the delimiter is a single piece. */
  lemma {:induction false} SplitWithout(s: string, d: char)
    requires d !in s
    ensures Split(s, d) == [s]
    decreases |s|
  {
    if |s| > 0 {
      SplitWithout(s[1..], d);
      assert s == [s[0]] + s[1..];
    }
  }

  /** `parts.join(d)`; joining no parts gives the empty string. */
  function Join(parts: seq<string>, d: char): string
  {
    if |parts| == 0 then ""
    else if |parts| == 1 then parts[0]
    else parts[0] + [d] + Join(parts[1..], d)
  }

  /** `split` followed by `join` on the same delimiter gives back the string. */
  lemma {:induction false} JoinSplit(s: string, d: char)
    ensures Join(Split(s, d), d) == s
    decreases |s|
  {
    if |s| == 0 {
    } else {
      var rest := Split(s[1..], d);
      JoinSplit(s[1..], d);
      if s[0] == d {
        assert Split(s, d) == [""] + rest;
        assert ([""] + rest)[1..] == rest;
        assert s == [d] + s[1..];
      } else {
        var parts := [[s[0]] + rest[0]] + rest[1..];
        assert Split(s, d) == parts;
        if |rest| == 1 {
          assert s[1..] == rest[0];
          assert s == [s[0]] + s[1..];
        } else {
          assert parts[1..] == rest[1..];
          calc {
            Join(parts, d);
            parts[0] + [d] + Join(rest[1..], d);
            [s[0]] + (rest[0] + [d] + Join(rest[1..], d));
            [s[0]] + Join(rest, d);
            [s[0]] + s[1..];
            s;
          }
        }
      }
    }
  }

  /** Splitting `a + [d] + b` where `a` holds no `d` yields `a` followed by the
      pieces of `b`. */
  lemma {:induction false} SplitAfterPiece(a: string, d: char, b: string)
    requires d !in a
    ensures Split(a + [d] + b, d) == [a] + Split(b, d)
    decreases |a|
  {
    var s := a + [d] + b;
    if |a| == 0 {
      assert s[0] == d;
      assert s[1..] == b;
    } else {
      assert s[0] == a[0];
      assert s[1..] == a[1..] + [d] + b;
      SplitAfterPiece(a[1..], d, b);
      assert [a[0]] + a[1..] == a;
    }
  }

  function DigitChar(n: nat): (c: char)
    requires n < 10
    ensures '0' <= c <= '9'
  {
    ('0' as int + n) as char
  }

  /** `String(n)` for a natural number: its decimal digits, most significant
      first, with no sign and no leading zero. */
  function NatToString(n: nat): (s: string)
    ensures 1 <= |s|
    ensures forall k :: 0 <= k < |s| ==> '0' <= s[k] <= '9'
    ensures |s| > 1 ==> s[0] != '0'
  {
    if n < 10 then [DigitChar(n)] else NatToString(n / 10) + [DigitChar(n % 10)]
  }

  lemma DigitsHaveNoDash(n: nat)
    ensures '-' !in NatToString(n)
  {
  }

  // ------------------------------------------------------------------ UTF-16

  /** A UTF-16 code unit. A JavaScript string is a sequence of these, and
      its `length`, `substring` and indices count them, where a `string`
      here is a sequence of Unicode scalar values. */
  newtype CodeUnit = x: int | 0 <= x < 0x1_0000

  /** A leading (high) and a trailing (low) surrogate. */
  predicate IsHigh(u: CodeUnit) { 0xD800 <= u < 0xDC00 }
  predicate IsLow(u: CodeUnit) { 0xDC00 <= u < 0xE000 }

  /** The code units of one character: the character itself below U+10000,
      otherwise a surrogate pair. */
  function EncodeChar(c: char): (u: seq<CodeUnit>)
    ensures |u| == (if c as int < 0x1_0000 then 1 else 2)
    ensures |u| == 1 ==> !IsHigh(u[0]) && !IsLow(u[0])
    ensures |u| == 2 ==> IsHigh(u[0]) && IsLow(u[1])
  {
    if c as int < 0x1_0000 then [c as int as CodeUnit]
    else
      var v := c as int - 0x1_0000;
      [(0xD800 + v / 0x400) as CodeUnit, (0xDC00 + v % 0x400) as CodeUnit]
  }

  /** A string as JavaScript stores it: the code units of its characters,
      in order. */
  function Utf16(s: string): (u: seq<CodeUnit>)
    ensures |s| <= |u| <= 2 * |s|
  {
    if |s| == 0 then [] else Utf16(s[..|s| - 1]) + EncodeChar(s[|s| - 1])
  }

  /** A string's JavaScript `length` is its number of characters exactly
      when none of them lies above U+FFFF. */
  lemma {:induction false} Utf16LengthExact(s: string)
    ensures |Utf16(s)| == |s| <==> forall i :: 0 <= i < |s| ==> s[i] as int < 0x1_0000
  {
    if |s| > 0 {
      var init := s[..|s| - 1];
      Utf16LengthExact(init);
      assert forall i :: 0 <= i < |init| ==> init[i] == s[i];
    }
  }

  /** Every surrogate is half of a pair: a high one is followed by a low
      one, and a low one follows a high one. */
  predicate WellFormed(u: seq<CodeUnit>)
  {
    && (forall i :: 0 <= i < |u| && IsHigh(u[i]) ==> i + 1 < |u| && IsLow(u[i + 1]))
    && (forall i :: 0 <= i < |u| && IsLow(u[i]) ==> 0 < i && IsHigh(u[i - 1]))
  }

  lemma WellFormedAppend(a: seq<CodeUnit>, b: seq<CodeUnit>)
    requires WellFormed(a) && WellFormed(b)
    requires 0 < |b| ==> !IsLow(b[0])
    ensures WellFormed(a + b)
  {
    var ab := a + b;
    forall i | 0 <= i < |ab| && IsHigh(ab[i])
      ensures i + 1 < |ab| && IsLow(ab[i + 1])
    {
      if i < |a| {
        assert ab[i] == a[i];
      } else {
        assert ab[i] == b[i - |a|];
      }
    }
    forall i | 0 <= i < |ab| && IsLow(ab[i])
      ensures 0 < i && IsHigh(ab[i - 1])
    {
      if i < |a| {
        assert ab[i] == a[i];
      } else {
        assert ab[i] == b[i - |a|];
      }
    }
  }

  /** The encoding of any string is well formed. */
  lemma {:induction false} Utf16WellFormed(s: string)
    ensures WellFormed(Utf16(s))
  {
    if |s| > 0 {
      Utf16WellFormed(s[..|s| - 1]);
      WellFormedAppend(Utf16(s[..|s| - 1]), EncodeChar(s[|s| - 1]));
    }
  }
}
