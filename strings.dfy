/** The Option datatype used for the optional timestamps and parsed numbers. */
module Wrappers {
  datatype Option<+T> = None | Some(value: T)
}

/**
 * The few pieces of Python's string library that the monitor relies on,
 * restricted to ASCII: character classes, `str.split` on one separator,
 * `int(...)` and `str(...)` on decimal digit strings, `str.strip`, and the
 * meaning of a `^...$` anchored pattern under `re.match`.
 */
module Strings {

  predicate IsDigit(c: char) { '0' <= c <= '9' }

  predicate IsLetter(c: char) { 'a' <= c <= 'z' || 'A' <= c <= 'Z' }

  predicate IsAlnum(c: char) { IsDigit(c) || IsLetter(c) }

  predicate AllDigits(s: string) { forall i :: 0 <= i < |s| ==> IsDigit(s[i]) }

  /** `s.isdigit()` on ASCII input: non-empty and made of digits only. */
  predicate IsDigitString(s: string) { |s| > 0 && AllDigits(s) }

  /** A digit string as `str(n)` writes it: no leading zero unless it is "0". */
  predicate IsCanonical(s: string) { IsDigitString(s) && (|s| > 1 ==> s[0] != '0') }

  function DigitValue(c: char): (d: nat)
    requires IsDigit(c)
    ensures d < 10
  {
    (c as int) - ('0' as int)
  }

  function DigitChar(d: nat): (c: char)
    requires d < 10
    ensures IsDigit(c) && DigitValue(c) == d
  {
    ('0' as int + d) as char
  }

  /** `int(s)` for a string of ASCII digits. */
  function Value(s: string): nat
    requires AllDigits(s)
  {
    if s == [] then 0 else Value(s[..|s| - 1]) * 10 + DigitValue(s[|s| - 1])
  }

  /** `str(n)` for a natural number. */
  function Decimal(n: nat): (r: string)
    ensures IsCanonical(r)
  {
    if n < 10 then [DigitChar(n)] else Decimal(n / 10) + [DigitChar(n % 10)]
  }

  /** `str(i)` for any integer: a minus sign in front of a negative one. */
  function IntText(i: int): string
  {
    if i < 0 then "-" + Decimal(-i) else Decimal(i)
  }

  lemma {:induction false} ValueOfDecimal(n: nat)
    ensures Value(Decimal(n)) == n
  {
    var r := Decimal(n);
    if n >= 10 {
      ValueOfDecimal(n / 10);
      assert r[..|r| - 1] == Decimal(n / 10);
    }
  }

  lemma {:induction false} CanonicalIsPositive(s: string)
    requires IsCanonical(s) && |s| > 1
    ensures Value(s) >= 10
  {
    var init := s[..|s| - 1];
    if |init| > 1 {
      assert init[0] == s[0];
      CanonicalIsPositive(init);
    } else {
      assert init[0] == s[0] != '0';
    }
  }

  /** A non-empty sequence is its prefix followed by its last element. */
  lemma ButLast<T>(s: seq<T>)
    requires s != []
    ensures s[..|s| - 1] + [s[|s| - 1]] == s
  {
  }

  /** A canonical digit string is the decimal rendering of its value. */
  lemma {:induction false} DecimalOfValue(s: string)
    requires IsCanonical(s)
    ensures Decimal(Value(s)) == s
  {
    if |s| > 1 {
      var init := s[..|s| - 1];
      assert init[0] == s[0];
      CanonicalIsPositive(s);
      DecimalOfValue(init);
      ButLast(s);
    }
  }

  /** A canonical digit string of at most three digits has value below 1000, and conversely. */
  lemma {:induction false} CanonicalShortIffSmall(s: string)
    requires IsCanonical(s)
    ensures |s| <= 3 <==> Value(s) < 1000
  {
    DecimalOfValue(s);
    var n := Value(s);
    if n >= 10 {
      assert Decimal(n) == Decimal(n / 10) + [DigitChar(n % 10)];
      if n / 10 >= 10 {
        assert Decimal(n / 10) == Decimal(n / 100) + [DigitChar(n / 10 % 10)];
        if n / 100 >= 10 {
          assert |Decimal(n / 100)| >= 2;
        }
      }
    }
  }

  /** `s.split(sep)`: the pieces between occurrences of sep, empty pieces included. */
  function Split(s: string, sep: char): (parts: seq<string>)
    ensures |parts| >= 1
    ensures forall i :: 0 <= i < |parts| ==> sep !in parts[i]
    ensures Join(parts, sep) == s
    decreases |s|
  {
    if s == [] then [[]]
    else if s[0] == sep then [[]] + Split(s[1..], sep)
    else
      var rest := Split(s[1..], sep);
      JoinCons(rest, sep);
      JoinCons([[s[0]] + rest[0]] + rest[1..], sep);
      [[s[0]] + rest[0]] + rest[1..]
  }

  /** `sep.join(parts)`. */
  function Join(parts: seq<string>, sep: char): string
    requires |parts| >= 1
  {
    if |parts| == 1 then parts[0] else parts[0] + [sep] + Join(parts[1..], sep)
  }

  lemma JoinCons(parts: seq<string>, sep: char)
    requires |parts| >= 1
    ensures Join(parts, sep) == parts[0] + (if |parts| == 1 then [] else [sep] + Join(parts[1..], sep))
  {
  }

  /** Joining pieces that contain no separator and splitting again gives the pieces back. */
  lemma {:induction false} SplitJoin(parts: seq<string>, sep: char)
    requires |parts| >= 1
    requires forall i :: 0 <= i < |parts| ==> sep !in parts[i]
    ensures Split(Join(parts, sep), sep) == parts
  {
    if |parts| == 1 {
      SplitNoSeparator(parts[0], sep);
    } else {
      SplitJoin(parts[1..], sep);
      SplitAfterPiece(parts[0], Join(parts[1..], sep), sep);
    }
  }

  lemma {:induction false} SplitNoSeparator(s: string, sep: char)
    requires sep !in s
    ensures Split(s, sep) == [s]
    decreases |s|
  {
    if s != [] {
      SplitNoSeparator(s[1..], sep);
    }
  }

  lemma {:induction false} SplitAfterPiece(piece: string, rest: string, sep: char)
    requires sep !in piece
    ensures Split(piece + [sep] + rest, sep) == [piece] + Split(rest, sep)
    decreases |piece|
  {
    var s := piece + [sep] + rest;
    if piece == [] {
      assert s[1..] == rest;
    } else {
      assert s[1..] == piece[1..] + [sep] + rest;
      SplitAfterPiece(piece[1..], rest, sep);
      assert s[0] == piece[0] != sep;
      assert [piece[0]] + piece[1..] == piece;
    }
  }

  /** Appending a character to the last piece appends it to the join. */
  lemma {:induction false} JoinAppend(parts: seq<string>, sep: char, c: char)
    requires |parts| >= 1
    ensures Join(parts[..|parts| - 1] + [parts[|parts| - 1] + [c]], sep) == Join(parts, sep) + [c]
  {
    var grown := parts[..|parts| - 1] + [parts[|parts| - 1] + [c]];
    if |parts| > 1 {
      JoinAppend(parts[1..], sep, c);
      assert grown[1..] == parts[1..][..|parts| - 2] + [parts[1..][|parts| - 2] + [c]];
    }
  }

  /** A character other than the separator, appended to a string, ends up in its last piece. */
  lemma SplitAppend(s: string, sep: char, c: char)
    requires c != sep
    ensures var parts := Split(s, sep);
      Split(s + [c], sep) == parts[..|parts| - 1] + [parts[|parts| - 1] + [c]]
  {
    var parts := Split(s, sep);
    var grown := parts[..|parts| - 1] + [parts[|parts| - 1] + [c]];
    JoinAppend(parts, sep, c);
    forall i | 0 <= i < |grown| ensures sep !in grown[i] {
      if i < |parts| - 1 {
        assert grown[i] == parts[i];
      }
    }
    SplitJoin(grown, sep);
  }

  /** If the separator and every character of every piece satisfy p, so does every character of the join. */
  lemma {:induction false} JoinAlphabet(parts: seq<string>, sep: char, p: char -> bool)
    requires |parts| >= 1 && p(sep)
    requires forall i, j :: 0 <= i < |parts| && 0 <= j < |parts[i]| ==> p(parts[i][j])
    ensures forall k :: 0 <= k < |Join(parts, sep)| ==> p(Join(parts, sep)[k])
  {
    if |parts| > 1 {
      JoinAlphabet(parts[1..], sep, p);
      assert forall i, j :: 0 <= i < |parts| - 1 && 0 <= j < |parts[1..][i]| ==> parts[1..][i][j] == parts[i + 1][j];
      var tail := Join(parts[1..], sep);
      var whole := parts[0] + [sep] + tail;
      forall k | 0 <= k < |whole| ensures p(whole[k]) {
        if k < |parts[0]| {
          assert whole[k] == parts[0][k];
        } else if k > |parts[0]| {
          assert whole[k] == tail[k - |parts[0]| - 1];
        }
      }
    }
  }

  /**
   * Whether a `^...$` anchored pattern, given as the predicate `p` on whole
   * strings, matches `s` under Python's `re.match`: `$` matches at the end of
   * the string and also just before a final newline.
   */
  predicate AnchoredMatch(p: string -> bool, s: string)
  {
    p(s) || (|s| > 0 && s[|s| - 1] == '\n' && p(s[..|s| - 1]))
  }

  /** `c.isspace()` on ASCII characters. */
  predicate IsSpace(c: char)
  {
    c == ' ' || 9 <= c as int <= 13 || 28 <= c as int <= 31
  }

  /** `s.rstrip()`. */
  function StripEnd(s: string): (r: string)
    ensures r <= s
    ensures r == [] || !IsSpace(r[|r| - 1])
    ensures forall i :: |r| <= i < |s| ==> IsSpace(s[i])
  {
    if s != [] && IsSpace(s[|s| - 1]) then StripEnd(s[..|s| - 1]) else s
  }

  /** `s.lstrip()`. */
  function StripStart(s: string): (r: string)
    ensures |r| <= |s| && r == s[|s| - |r|..]
    ensures r == [] || !IsSpace(r[0])
    ensures forall i :: 0 <= i < |s| - |r| ==> IsSpace(s[i])
  {
    if s != [] && IsSpace(s[0]) then StripStart(s[1..]) else s
  }

  /**
   * `s.strip()`: the slice of `s` left after removing a run of whitespace
   * at each end, with no whitespace at either end of what remains.
   */
  function Strip(s: string): (r: string)
    ensures r == [] || (!IsSpace(r[0]) && !IsSpace(r[|r| - 1]))
    ensures exists i, j ::
              && 0 <= i <= j <= |s| && r == s[i..j]
              && (forall k :: 0 <= k < i ==> IsSpace(s[k]))
              && (forall k :: j <= k < |s| ==> IsSpace(s[k]))
  {
    var t := StripStart(s);
    var r := StripEnd(t);
    assert r != [] ==> r[0] == t[0];
    StripBothEnds(s, t, r);
    r
  }

  /** The end stripped off a suffix of `s` is a trailing run of `s` too. */
  lemma StripBothEnds(s: string, t: string, r: string)
    requires |t| <= |s| && t == s[|s| - |t|..]
    requires forall k :: 0 <= k < |s| - |t| ==> IsSpace(s[k])
    requires r <= t && forall k :: |r| <= k < |t| ==> IsSpace(t[k])
    ensures r == s[|s| - |t|..|s| - |t| + |r|]
    ensures forall k :: |s| - |t| + |r| <= k < |s| ==> IsSpace(s[k])
  {
    var i := |s| - |t|;
    forall k | i + |r| <= k < |s| ensures IsSpace(s[k]) {
      assert s[k] == t[k - i];
    }
  }
}
