/**
  The two pieces of string handling the lookup layer relies on:
  - splitting a key path on a separator character, with the behaviour of
    JavaScript's `String.prototype.split` for a one-character separator
    (the empty string gives one empty part, adjacent separators give empty
    parts), and its inverse `Join`;
  - the decimal rendering of an integer used by a template literal
    (`${level}`), with its inverse `ParseInt`.
 */
module Strings {
  import opened Optional

  /* ---------------------------------------------------------------------- */
  /* Splitting on a separator                                               */
  /* ---------------------------------------------------------------------- */

  /** The parts of `s` between occurrences of `sep`, from left to right. */
  function Split(s: string, sep: char): (parts: seq<string>)
    ensures |parts| >= 1
    ensures forall i :: 0 <= i < |parts| ==> sep !in parts[i]
    decreases |s|
  {
    if |s| == 0 then [""]
    else
      var rest := Split(s[1..], sep);
      if s[0] == sep then [""] + rest
      else [[s[0]] + rest[0]] + rest[1..]
  }

  /** The parts glued back together with `sep` between neighbours. */
  function Join(parts: seq<string>, sep: char): string
    decreases |parts|
  {
    if |parts| == 0 then ""
    else if |parts| == 1 then parts[0]
    else parts[0] + [sep] + Join(parts[1..], sep)
  }

  /** Splitting loses nothing: joining the parts gives back the input. */
  lemma {:induction false} JoinSplit(s: string, sep: char)
    ensures Join(Split(s, sep), sep) == s
    decreases |s|
  {
    if |s| > 0 {
      var rest := Split(s[1..], sep);
      JoinSplit(s[1..], sep);
      if s[0] == sep {
        assert Split(s, sep) == [""] + rest;
        assert ([""] + rest)[1..] == rest;
        assert Join(Split(s, sep), sep) == "" + [sep] + Join(rest, sep);
        assert s == [s[0]] + s[1..];
      } else {
        var parts := Split(s, sep);
        assert parts == [[s[0]] + rest[0]] + rest[1..];
        if |rest| == 1 {
          assert Join(parts, sep) == [s[0]] + rest[0];
          assert Join(rest, sep) == rest[0];
        } else {
          assert parts[1..] == rest[1..];
          assert Join(parts, sep) == [s[0]] + rest[0] + [sep] + Join(rest[1..], sep);
          assert Join(rest, sep) == rest[0] + [sep] + Join(rest[1..], sep);
        }
        assert s == [s[0]] + s[1..];
      }
    }
  }

  /** A separator after a separator-free prefix ends exactly the first part. */
  lemma {:induction false} SplitAfterWord(w: string, t: string, sep: char)
    requires sep !in w
    ensures Split(w + [sep] + t, sep) == [w] + Split(t, sep)
    decreases |w|
  {
    var s := w + [sep] + t;
    if |w| == 0 {
      assert s[0] == sep && s[1..] == t;
    } else {
      var w' := w[1..];
      assert sep !in w' by {
        forall i | 0 <= i < |w'| ensures w'[i] != sep {
          assert w'[i] == w[i + 1];
        }
      }
      SplitAfterWord(w', t, sep);
      assert s[0] == w[0] && s[1..] == w' + [sep] + t;
      var rest := Split(s[1..], sep);
      assert rest == [w'] + Split(t, sep);
      assert [w[0]] + w' == w;
    }
  }

  /** A string without the separator is a single part, and only such a string is. */
  lemma {:induction false} SplitSingle(s: string, sep: char)
    ensures Split(s, sep) == [s] <==> sep !in s
    decreases |s|
  {
    if sep !in s && |s| > 0 {
      assert sep !in s[1..] by {
        forall i | 0 <= i < |s| - 1 ensures s[1..][i] != sep {
          assert s[1..][i] == s[i + 1];
        }
      }
      SplitSingle(s[1..], sep);
      assert s[0] != sep;
      assert Split(s, sep) == [[s[0]] + s[1..]] + [s[1..]][1..];
      assert s == [s[0]] + s[1..];
    } else if Split(s, sep) == [s] {
      assert sep !in Split(s, sep)[0];
    }
  }

  /** Joining separator-free parts and splitting again gives back the parts. */
  lemma {:induction false} SplitJoin(parts: seq<string>, sep: char)
    requires |parts| >= 1
    requires forall i :: 0 <= i < |parts| ==> sep !in parts[i]
    ensures Split(Join(parts, sep), sep) == parts
    decreases |parts|
  {
    if |parts| == 1 {
      SplitSingle(parts[0], sep);
    } else {
      SplitJoin(parts[1..], sep);
      SplitAfterWord(parts[0], Join(parts[1..], sep), sep);
      assert parts == [parts[0]] + parts[1..];
    }
  }

  /* ---------------------------------------------------------------------- */
  /* Decimal rendering of integers                                          */
  /* ---------------------------------------------------------------------- */

  predicate IsDigit(c: char) {
    '0' <= c <= '9'
  }

  function DigitChar(d: nat): (c: char)
    requires d < 10
  {
    ('0' as int + d) as char
  }

  function DigitValue(c: char): nat
    requires IsDigit(c)
  {
    c as int - '0' as int
  }

  /** Decimal digits of `n`, most significant first, without leading zeros. */
  function NatToString(n: nat): (s: string)
    ensures |s| >= 1
    ensures forall i :: 0 <= i < |s| ==> IsDigit(s[i])
    ensures s[0] == '0' ==> n == 0 && s == "0"
    decreases n
  {
    if n < 10 then [DigitChar(n)]
    else NatToString(n / 10) + [DigitChar(n % 10)]
  }

  /**
    What a template literal produces for an integer below 2^53 in
    magnitude: a minus sign for a negative value, then the decimal digits,
    with no leading zero except for zero itself.
   */
  function IntToString(i: int): (s: string)
    ensures i >= 0 ==> |s| >= 1 && forall k :: 0 <= k < |s| ==> IsDigit(s[k])
    ensures i >= 0 ==> (s[0] == '0' <==> i == 0)
    ensures i == 0 ==> s == "0"
    ensures i < 0 ==> |s| >= 2 && s[0] == '-' && forall k :: 1 <= k < |s| ==> IsDigit(s[k])
    ensures i < 0 ==> s[1] != '0'
  {
    if i < 0 then "-" + NatToString(-i) else NatToString(i)
  }

  /** The value of a string of decimal digits. */
  function ParseNat(s: string): nat
    requires forall i :: 0 <= i < |s| ==> IsDigit(s[i])
    decreases |s|
  {
    if |s| == 0 then 0
    else ParseNat(s[..|s| - 1]) * 10 + DigitValue(s[|s| - 1])
  }

  /** The value of an optional minus sign followed by at least one decimal digit; None for anything else. */
  function ParseInt(s: string): Option<int> {
    if |s| >= 2 && s[0] == '-' && forall i :: 1 <= i < |s| ==> IsDigit(s[i]) then
      Some(0 - (ParseNat(s[1..]) as int))
    else if |s| >= 1 && forall i :: 0 <= i < |s| ==> IsDigit(s[i]) then
      Some(ParseNat(s))
    else
      None
  }

  lemma {:induction false} ParseNatToString(n: nat)
    ensures ParseNat(NatToString(n)) == n
    decreases n
  {
    var s := NatToString(n);
    if n >= 10 {
      ParseNatToString(n / 10);
      assert s[..|s| - 1] == NatToString(n / 10);
    }
  }

  /** Rendering an integer in decimal loses nothing: parsing gives it back. */
  lemma IntToStringRoundTrip(i: int)
    ensures ParseInt(IntToString(i)) == Some(i)
  {
    var s := IntToString(i);
    if i < 0 {
      ParseNatToString(-i);
      assert s[1..] == NatToString(-i);
      assert s[0] == '-';
    } else {
      ParseNatToString(i);
      assert !IsDigit('-');
    }
  }

  /** Distinct integers are rendered as distinct strings. */
  lemma IntToStringInjective(i: int, j: int)
    ensures IntToString(i) == IntToString(j) <==> i == j
  {
    if IntToString(i) == IntToString(j) {
      IntToStringRoundTrip(i);
      IntToStringRoundTrip(j);
    }
  }
}
