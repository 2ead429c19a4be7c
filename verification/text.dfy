/** The string primitives of the JavaScript runtime that the app relies on:
    `join`, `split` on a one-character separator, global replacement of one
    character, `trim`, integer `toString` and `parseInt(s, 10)`. Strings are
    sequences of Unicode scalar values; JavaScript's UTF-16 code units are
    spelled out only where the sort order needs them. */
module Text {
  import opened Wrappers

  /* ----------------------------- join / split ----------------------------- */

  /** `parts.join(sep)`. */
  function Join(parts: seq<string>, sep: string): string
  {
    if |parts| == 0 then ""
    else if |parts| == 1 then parts[0]
    else parts[0] + sep + Join(parts[1..], sep)
  }

  /** Number of occurrences of `c` in `s`. */
  function Count(s: string, c: char): nat
  {
    if |s| == 0 then 0 else (if s[0] == c then 1 else 0) + Count(s[1..], c)
  }

  /** `s.split(c)` for a one-character separator: the maximal pieces between
      occurrences of `c`, always at least one piece. */
  function Split(s: string, c: char): (r: seq<string>)
    ensures |r| >= 1
    decreases |s|
  {
    if |s| == 0 then [""]
    else
      var rest := Split(s[1..], c);
      if s[0] == c then [""] + rest
      else [[s[0]] + rest[0]] + rest[1..]
  }

  /** The pieces of `s.split(c)` never contain the separator, and there is one
      more piece than there are separators. */
  lemma {:induction false} SplitPieces(s: string, c: char)
    ensures forall i :: 0 <= i < |Split(s, c)| ==> c !in Split(s, c)[i]
    ensures |Split(s, c)| == Count(s, c) + 1
    decreases |s|
  {
    if |s| > 0 {
      SplitPieces(s[1..], c);
      var rest := Split(s[1..], c);
      if s[0] != c {
        assert Split(s, c) == [[s[0]] + rest[0]] + rest[1..];
        forall i | 0 <= i < |Split(s, c)|
          ensures c !in Split(s, c)[i]
        {
          if i > 0 {
            assert Split(s, c)[i] == rest[i];
          }
        }
      }
    }
  }

  /** Joining the pieces of a split with the separator gives the string back. */
  lemma {:induction false} SplitJoin(s: string, c: char)
    ensures Join(Split(s, c), [c]) == s
    decreases |s|
  {
    if |s| > 0 {
      SplitJoin(s[1..], c);
      var rest := Split(s[1..], c);
      if s[0] == c {
        assert Split(s, c) == [""] + rest;
        assert Join(Split(s, c), [c]) == "" + [c] + Join(rest, [c]);
        assert s == [s[0]] + s[1..];
      } else {
        var head := [s[0]] + rest[0];
        assert Split(s, c) == [head] + rest[1..];
        if |rest| == 1 {
          assert Join(Split(s, c), [c]) == head;
          assert Join(rest, [c]) == rest[0];
        } else {
          assert Join(Split(s, c), [c]) == head + [c] + Join(rest[1..], [c]);
          assert Join(rest, [c]) == rest[0] + [c] + Join(rest[1..], [c]);
        }
        assert s == [s[0]] + s[1..];
      }
    }
  }

  /** The last piece of `s.split(c)`, which is what `.pop()` returns. */
  function LastPiece(s: string, c: char): string
  {
    Split(s, c)[|Split(s, c)| - 1]
  }

  /** The last piece holds no separator, ends the string, and is either the
      whole string or preceded by a separator: it is the text after the last `c`. */
  lemma {:induction false} LastPieceShape(s: string, c: char)
    ensures var r := LastPiece(s, c);
      && c !in r
      && |r| <= |s| && s[|s| - |r|..] == r
      && (|r| < |s| ==> s[|s| - |r| - 1] == c)
    decreases |s|
  {
    SplitPieces(s, c);
    if |s| > 0 {
      LastPieceShape(s[1..], c);
      var rest := Split(s[1..], c);
      var r' := rest[|rest| - 1];
      assert r' == LastPiece(s[1..], c);
      if s[0] == c {
        assert Split(s, c) == [""] + rest;
        assert LastPiece(s, c) == r';
      } else if |rest| == 1 {
        SplitJoin(s[1..], c);
        assert rest[0] == s[1..];
        assert Split(s, c) == [[s[0]] + s[1..]];
        assert [s[0]] + s[1..] == s;
        assert LastPiece(s, c) == s;
      } else {
        assert Split(s, c) == [[s[0]] + rest[0]] + rest[1..];
        assert LastPiece(s, c) == r';
        SplitPieces(s[1..], c);
        CountMeansIn(s[1..], c);
        assert r' != s[1..];
        assert s[1..][|s| - 1 - |r'| - 1] == c;
      }
    }
  }

  /** A string without the separator splits into itself. */
  lemma {:induction false} SplitNoSeparator(s: string, c: char)
    requires c !in s
    ensures Split(s, c) == [s]
    decreases |s|
  {
    if |s| > 0 {
      SplitNoSeparator(s[1..], c);
      assert [s[0]] + s[1..] == s;
    }
  }

  /** A separator-free first piece comes off the front of a split. */
  lemma {:induction false} SplitAt(a: string, c: char, b: string)
    requires c !in a
    ensures Split(a + [c] + b, c) == [a] + Split(b, c)
    decreases |a|
  {
    if |a| == 0 {
      assert a + [c] + b == [c] + b;
      assert ([c] + b)[1..] == b;
    } else {
      SplitAt(a[1..], c, b);
      assert (a + [c] + b)[1..] == a[1..] + [c] + b;
      assert [a[0]] + a[1..] == a;
    }
  }

  /** Joining pieces that hold no separator and splitting again gives the
      pieces back. */
  lemma {:induction false} JoinSplit(parts: seq<string>, c: char)
    requires |parts| >= 1
    requires forall i :: 0 <= i < |parts| ==> c !in parts[i]
    ensures Split(Join(parts, [c]), c) == parts
    decreases |parts|
  {
    if |parts| == 1 {
      SplitNoSeparator(parts[0], c);
    } else {
      JoinSplit(parts[1..], c);
      SplitAt(parts[0], c, Join(parts[1..], [c]));
      assert parts == [parts[0]] + parts[1..];
    }
  }

  /** Concatenation regroups. */
  lemma Assoc(a: string, b: string, c: string)
    ensures a + b + c == a + (b + c)
  {
  }

  /** Joining two pieces puts the separator between them. */
  lemma JoinTwo(a: string, b: string, sep: string)
    ensures Join([a, b], sep) == a + sep + b
  {
    assert [a, b][1..] == [b];
  }

  /** A piece joined in front of at least one more is followed by the separator. */
  lemma JoinCons(a: string, rest: seq<string>, sep: string)
    requires |rest| >= 1
    ensures Join([a] + rest, sep) == a + sep + Join(rest, sep)
  {
    assert ([a] + rest)[1..] == rest;
  }

  /** A string with exactly one separator splits into the text on either side. */
  lemma SplitTwo(a: string, c: char, b: string)
    requires c !in a && c !in b
    ensures Split(a + [c] + b, c) == [a, b]
  {
    SplitAt(a, c, b);
    SplitNoSeparator(b, c);
  }

  /** A positive count means the character occurs. */
  lemma {:induction false} CountMeansIn(s: string, c: char)
    requires Count(s, c) > 0
    ensures c in s
    decreases |s|
  {
    if s[0] != c {
      CountMeansIn(s[1..], c);
    }
  }

  /** A string holding the separator has a positive count of it. */
  lemma {:induction false} CountPositive(s: string, c: char)
    requires c in s
    ensures Count(s, c) > 0
    decreases |s|
  {
    if s[0] != c {
      CountPositive(s[1..], c);
    }
  }

  /* ------------------------------ replacement ----------------------------- */

  /** `s.replace(/c/g, rep)`: every occurrence of the one character `c` becomes `rep`. */
  function ReplaceAll(s: string, c: char, rep: string): string
  {
    if |s| == 0 then ""
    else (if s[0] == c then rep else [s[0]]) + ReplaceAll(s[1..], c, rep)
  }

  lemma {:induction false} ReplaceAllAppend(a: string, b: string, c: char, rep: string)
    ensures ReplaceAll(a + b, c, rep) == ReplaceAll(a, c, rep) + ReplaceAll(b, c, rep)
    decreases |a|
  {
    if |a| > 0 {
      ReplaceAllAppend(a[1..], b, c, rep);
      var head := if a[0] == c then rep else [a[0]];
      assert (a + b)[0] == a[0];
      assert (a + b)[1..] == a[1..] + b;
      calc {
        ReplaceAll(a + b, c, rep);
        head + ReplaceAll(a[1..] + b, c, rep);
        head + (ReplaceAll(a[1..], c, rep) + ReplaceAll(b, c, rep));
        (head + ReplaceAll(a[1..], c, rep)) + ReplaceAll(b, c, rep);
      }
    } else {
      assert a + b == b;
    }
  }

  /** Replacing a character that does not occur changes nothing. */
  lemma {:induction false} ReplaceAllAbsent(s: string, c: char, rep: string)
    requires c !in s
    ensures ReplaceAll(s, c, rep) == s
    decreases |s|
  {
    if |s| > 0 {
      ReplaceAllAbsent(s[1..], c, rep);
      assert [s[0]] + s[1..] == s;
    }
  }

  /** Each occurrence of `c` grows the string by `|rep| - 1`. */
  lemma {:induction false} ReplaceAllLength(s: string, c: char, rep: string)
    ensures |ReplaceAll(s, c, rep)| == |s| + Count(s, c) * (|rep| - 1)
    decreases |s|
  {
    if |s| > 0 {
      ReplaceAllLength(s[1..], c, rep);
    }
  }

  /** Replacing a character by one character is a per-position map. */
  lemma {:induction false} ReplaceCharPointwise(s: string, c: char, d: char)
    ensures |ReplaceAll(s, c, [d])| == |s|
    ensures forall i :: 0 <= i < |s| ==> ReplaceAll(s, c, [d])[i] == (if s[i] == c then d else s[i])
    decreases |s|
  {
    if |s| > 0 {
      ReplaceCharPointwise(s[1..], c, d);
      var r := ReplaceAll(s, c, [d]);
      assert r == [if s[0] == c then d else s[0]] + ReplaceAll(s[1..], c, [d]);
      forall i | 0 < i < |s|
        ensures r[i] == (if s[i] == c then d else s[i])
      {
        assert r[i] == ReplaceAll(s[1..], c, [d])[i - 1];
      }
    }
  }

  /* --------------------------------- trim --------------------------------- */

  /** Line terminators of ECMAScript: LF, CR, LS, PS. */
  predicate IsLineTerminator(ch: char)
  {
    ch == '\n' || ch == '\r' || ch == '\U{2028}' || ch == '\U{2029}'
  }

  /** The characters `String.prototype.trim` removes: ECMAScript WhiteSpace
      (tab, VT, FF, space, NBSP, ZWNBSP and the Unicode space separators) and
      the line terminators. */
  predicate IsJsSpace(ch: char)
  {
    || ch == '\t' || ch == '\U{000B}' || ch == '\U{000C}' || ch == ' '
    || ch == '\U{00A0}' || ch == '\U{FEFF}' || ch == '\U{1680}'
    || ('\U{2000}' <= ch <= '\U{200A}') || ch == '\U{202F}' || ch == '\U{205F}' || ch == '\U{3000}'
    || IsLineTerminator(ch)
  }

  /** `s.trimStart()`. */
  function TrimStart(s: string): (r: string)
    ensures |r| <= |s| && s[|s| - |r|..] == r
    ensures |r| > 0 ==> !IsJsSpace(r[0])
    ensures forall i :: 0 <= i < |s| - |r| ==> IsJsSpace(s[i])
  {
    if |s| > 0 && IsJsSpace(s[0]) then TrimStart(s[1..]) else s
  }

  /** `s.trimEnd()`. */
  function TrimEnd(s: string): (r: string)
    ensures |r| <= |s| && s[..|r|] == r
    ensures |r| > 0 ==> !IsJsSpace(r[|r| - 1])
    ensures forall i :: |r| <= i < |s| ==> IsJsSpace(s[i])
  {
    if |s| > 0 && IsJsSpace(s[|s| - 1]) then TrimEnd(s[..|s| - 1]) else s
  }

  /** `s.trim()`. */
  function Trim(s: string): string
  {
    TrimEnd(TrimStart(s))
  }

  /** What `trim` keeps is a contiguous part of the input that neither starts
      nor ends with white space, and only white space was removed. */
  lemma TrimShape(s: string)
    ensures var r := Trim(s);
      && (exists a, b :: 0 <= a <= b <= |s| && s[a..b] == r
            && (forall i :: 0 <= i < a ==> IsJsSpace(s[i]))
            && (forall i :: b <= i < |s| ==> IsJsSpace(s[i])))
      && (|r| > 0 ==> !IsJsSpace(r[0]) && !IsJsSpace(r[|r| - 1]))
  {
    var t := TrimStart(s);
    var r := TrimEnd(t);
    var a := |s| - |t|;
    var b := a + |r|;
    assert t == s[a..];
    assert r == t[..|r|];
    assert s[a..b] == r;
    forall i | b <= i < |s|
      ensures IsJsSpace(s[i])
    {
      assert s[i] == t[i - a];
    }
    if |r| > 0 {
      assert r[0] == t[0];
    }
  }

  /** `trim` leaves a string without outer white space unchanged. */
  lemma TrimIdentity(s: string)
    requires |s| > 0 ==> !IsJsSpace(s[0]) && !IsJsSpace(s[|s| - 1])
    ensures Trim(s) == s
  {
  }

  /* ------------------------------- integers ------------------------------- */

  predicate IsDigit(ch: char)
  {
    '0' <= ch <= '9'
  }

  predicate AllDigits(s: string)
  {
    forall i :: 0 <= i < |s| ==> IsDigit(s[i])
  }

  function DigitChar(d: nat): (ch: char)
    requires d < 10
    ensures IsDigit(ch)
  {
    "0123456789"[d]
  }

  function DigitValue(ch: char): nat
    requires IsDigit(ch)
  {
    (ch as int - '0' as int) as nat
  }

  lemma DigitRoundTrip(d: nat)
    requires d < 10
    ensures DigitValue(DigitChar(d)) == d
  {
  }

  /** `n.toString()` for a non-negative integer: decimal, no leading zero. */
  function NatToString(n: nat): (r: string)
    ensures |r| > 0 && AllDigits(r)
    ensures |r| > 1 ==> r[0] != '0'
  {
    if n < 10 then [DigitChar(n)] else NatToString(n / 10) + [DigitChar(n % 10)]
  }

  /** `i.toString()` for an integer. */
  function IntToString(i: int): string
  {
    if i < 0 then "-" + NatToString(-i) else NatToString(i)
  }

  /** The value of a string of decimal digits. */
  function DigitsValue(s: string): nat
    requires AllDigits(s)
  {
    if |s| == 0 then 0 else DigitsValue(s[..|s| - 1]) * 10 + DigitValue(s[|s| - 1])
  }

  /** The longest prefix of decimal digits. */
  function DigitPrefix(s: string): (r: string)
    ensures r <= s && AllDigits(r)
    ensures |r| < |s| ==> !IsDigit(s[|r|])
  {
    if |s| > 0 && IsDigit(s[0]) then [s[0]] + DigitPrefix(s[1..]) else ""
  }

  /** `parseInt(s, 10)`: leading white space is skipped, one optional sign is
      read, then the longest run of decimal digits; `None` is NaN (no digits). */
  function ParseInt(s: string): Option<int>
  {
    var t := TrimStart(s);
    var negative := |t| > 0 && t[0] == '-';
    var body := if |t| > 0 && (t[0] == '-' || t[0] == '+') then t[1..] else t;
    var digits := DigitPrefix(body);
    var magnitude: int := DigitsValue(digits);
    if |digits| == 0 then None
    else if negative then Some(-magnitude)
    else Some(magnitude)
  }

  lemma {:induction false} NatToStringValue(n: nat)
    ensures DigitsValue(NatToString(n)) == n
  {
    if n >= 10 {
      NatToStringValue(n / 10);
      var r := NatToString(n);
      assert r[..|r| - 1] == NatToString(n / 10);
    }
  }

  lemma {:induction false} DigitPrefixOfDigits(s: string)
    requires AllDigits(s)
    ensures DigitPrefix(s) == s
    decreases |s|
  {
    if |s| > 0 {
      DigitPrefixOfDigits(s[1..]);
      assert [s[0]] + s[1..] == s;
    }
  }

  /** `parseInt` of a sign-free string of digits is its value. */
  lemma ParseIntOfDigits(s: string)
    requires |s| > 0 && AllDigits(s)
    ensures ParseInt(s) == Some(DigitsValue(s) as int)
  {
    assert !IsJsSpace(s[0]);
    assert TrimStart(s) == s;
    DigitPrefixOfDigits(s);
  }

  /** `parseInt` of a minus sign followed by digits is the negated value. */
  lemma ParseIntOfNegativeDigits(s: string)
    requires |s| > 0 && AllDigits(s)
    ensures ParseInt("-" + s) == Some(-(DigitsValue(s) as int))
  {
    var t := "-" + s;
    assert t[0] == '-';
    assert TrimStart(t) == t;
    assert t[1..] == s;
    DigitPrefixOfDigits(s);
  }

  /** `parseInt(String(i), 10) == i`: an integer written with `toString` is
      read back unchanged. */
  lemma ParseIntRoundTrip(i: int)
    ensures ParseInt(IntToString(i)) == Some(i)
  {
    var digits := if i < 0 then NatToString(-i) else NatToString(i);
    var magnitude := if i < 0 then -i else i;
    NatToStringValue(magnitude);
    assert DigitsValue(digits) == magnitude;
    if i < 0 {
      ParseIntOfNegativeDigits(digits);
      assert IntToString(i) == "-" + digits;
    } else {
      ParseIntOfDigits(digits);
      assert IntToString(i) == digits;
    }
  }
}
