/** `fmtUptime(sec)` of the earlier dashboard screens
    (`utils/threshholdswrokingfine.tsx`, `utils/mqttworkingfine.tsx`,
    `assets/bkp3.tsx`): a count of seconds written as days, hours, minutes and
    seconds. JavaScript's `Math.floor(x / y)` is Dafny's `/` for a positive
    divisor; its `%` truncates toward zero and is written out. */
module Uptime {
  import opened Wrappers
  import opened Text

  /** JavaScript's `a % b` for a positive divisor: the sign follows `a`. */
  function JsRem(a: int, b: int): (r: int)
    requires b > 0
    ensures a >= 0 ==> 0 <= r < b && r == a % b
    ensures a < 0 ==> -b < r <= 0
  {
    if a >= 0 then a % b else -((-a) % b)
  }

  /** The four components of `fmtUptime`. */
  datatype Parts = Parts(days: int, hours: int, minutes: int, seconds: int)

  /** The seconds the components stand for. */
  function Total(p: Parts): int
  {
    p.days * 86400 + p.hours * 3600 + p.minutes * 60 + p.seconds
  }

  /** Components in range: a day has 24 hours, an hour 60 minutes, a minute
      60 seconds. */
  predicate Normal(p: Parts)
  {
    0 <= p.hours < 24 && 0 <= p.minutes < 60 && 0 <= p.seconds < 60
  }

  /** `d = floor(sec / 86400)`, `h = floor((sec % 86400) / 3600)`,
      `m = floor((sec % 3600) / 60)`, `s = sec % 60`. For a count that is not
      negative, the components are in range and add back up to the count. */
  function UptimeParts(sec: int): (p: Parts)
    ensures sec >= 0 ==> Normal(p) && Total(p) == sec && p.days >= 0
  {
    var p := Parts(sec / 86400, JsRem(sec, 86400) / 3600, JsRem(sec, 3600) / 60, JsRem(sec, 60));
    assert sec >= 0 ==> Normal(p) && Total(p) == sec by {
      if sec >= 0 {
        Decompose(sec);
      }
    }
    p
  }

  /** The arithmetic behind the decomposition. */
  lemma Decompose(sec: nat)
    ensures (sec % 86400) / 3600 < 24
    ensures (sec / 86400) * 86400 + ((sec % 86400) / 3600) * 3600 + ((sec % 3600) / 60) * 60 + sec % 60 == sec
  {
    var d := sec / 86400;
    var r := sec % 86400;
    var h := r / 3600;
    var q := r % 3600;
    assert sec == d * 86400 + r;
    assert r == h * 3600 + q;
    assert sec == (d * 24 + h) * 3600 + q by {
      assert d * 86400 == d * 24 * 3600;
    }
    ModOfMultiple(d * 24 + h, 3600, q);
    assert sec % 3600 == q;
    var m := q / 60;
    var s := q % 60;
    assert q == m * 60 + s;
    assert sec == ((d * 24 + h) * 60 + m) * 60 + s by {
      assert (d * 24 + h) * 3600 == (d * 24 + h) * 60 * 60;
    }
    ModOfMultiple((d * 24 + h) * 60 + m, 60, s);
  }

  /** `(k * b + r) % b == r` for `0 <= r < b`. */
  lemma ModOfMultiple(k: int, b: int, r: int)
    requires b > 0 && 0 <= r < b
    ensures (k * b + r) % b == r && (k * b + r) / b == k
  {
    var a := k * b + r;
    var q := a / b;
    assert a == q * b + a % b;
    assert (k - q) * b == a % b - r;
    SmallMultiple(k - q, b);
  }

  /** A multiple of `b` strictly between `-b` and `b` is zero. */
  lemma SmallMultiple(x: int, b: int)
    requires b > 0 && -b < x * b < b
    ensures x == 0
  {
  }

  /** The components in range that add up to a count are unique: they are the
      ones `fmtUptime` prints. */
  lemma UptimeUnique(sec: int, p: Parts)
    requires Normal(p) && Total(p) == sec
    ensures sec >= 0 ==> p == UptimeParts(sec)
  {
    if sec >= 0 {
      var inner := p.hours * 3600 + p.minutes * 60 + p.seconds;
      assert 0 <= inner < 86400;
      ModOfMultiple(p.days, 86400, inner);
      var hr := p.minutes * 60 + p.seconds;
      assert 0 <= hr < 3600;
      ModOfMultiple(p.hours, 3600, hr);
      assert sec == (p.days * 24 + p.hours) * 3600 + hr by {
        assert p.days * 86400 == p.days * 24 * 3600;
      }
      ModOfMultiple(p.days * 24 + p.hours, 3600, hr);
      ModOfMultiple(p.minutes, 60, p.seconds);
      assert sec == ((p.days * 24 + p.hours) * 60 + p.minutes) * 60 + p.seconds by {
        assert (p.days * 24 + p.hours) * 3600 == (p.days * 24 + p.hours) * 60 * 60;
      }
      ModOfMultiple((p.days * 24 + p.hours) * 60 + p.minutes, 60, p.seconds);
    }
  }

  /** A negative count does not decompose: every component is -1 for -1. */
  lemma NegativeCount()
    ensures UptimeParts(-1) == Parts(-1, -1, -1, -1)
    ensures Total(UptimeParts(-1)) != -1
  {
  }

  /* ------------------------------- the text -------------------------------- */

  /** One component and its unit letter. */
  function Piece(n: int, unit: char): string
  {
    IntToString(n) + [unit]
  }

  /** `` `${d}d ${h}h ${m}m ${s}s` ``. */
  function FmtUptime(sec: int): string
  {
    var p := UptimeParts(sec);
    Piece(p.days, 'd') + " " + (Piece(p.hours, 'h') + " " + (Piece(p.minutes, 'm') + " " + Piece(p.seconds, 's')))
  }

  /** Reads one component: digits (optionally signed) followed by the unit. */
  function ReadPiece(s: string, unit: char): Option<int>
  {
    if |s| >= 2 && s[|s| - 1] == unit then ParseInt(s[..|s| - 1]) else None
  }

  /** Reads an uptime text back to the seconds it stands for. */
  function ReadUptime(t: string): Option<int>
  {
    var pieces := Split(t, ' ');
    if |pieces| != 4 then None
    else
      match (ReadPiece(pieces[0], 'd'), ReadPiece(pieces[1], 'h'), ReadPiece(pieces[2], 'm'), ReadPiece(pieces[3], 's'))
      case (Some(d), Some(h), Some(m), Some(s)) => Some(Total(Parts(d, h, m, s)))
      case _ => None
  }

  /** A component reads back. */
  lemma ReadPieceInverse(n: int, unit: char)
    ensures ReadPiece(Piece(n, unit), unit) == Some(n)
  {
    var s := Piece(n, unit);
    assert s[..|s| - 1] == IntToString(n);
    ParseIntRoundTrip(n);
  }

  /** A component holds no space. */
  lemma PieceHasNoSpace(n: int, unit: char)
    requires unit != ' '
    ensures ' ' !in Piece(n, unit)
  {
    var digits := NatToString(if n < 0 then -n else n);
    assert IntToString(n) == (if n < 0 then "-" + digits else digits);
    assert forall k :: 0 <= k < |digits| ==> IsDigit(digits[k]);
  }

  /** The printed uptime of a count that is not negative reads back as that
      count. */
  lemma FmtUptimeRoundTrip(sec: int)
    requires sec >= 0
    ensures ReadUptime(FmtUptime(sec)) == Some(sec)
  {
    var p := UptimeParts(sec);
    var a := Piece(p.days, 'd');
    var b := Piece(p.hours, 'h');
    var c := Piece(p.minutes, 'm');
    var d := Piece(p.seconds, 's');
    PieceHasNoSpace(p.days, 'd');
    PieceHasNoSpace(p.hours, 'h');
    PieceHasNoSpace(p.minutes, 'm');
    PieceHasNoSpace(p.seconds, 's');
    SplitTwo(c, ' ', d);
    SplitAt(b, ' ', c + " " + d);
    SplitAt(a, ' ', b + " " + (c + " " + d));
    assert Split(FmtUptime(sec), ' ') == [a, b, c, d];
    ReadPieceInverse(p.days, 'd');
    ReadPieceInverse(p.hours, 'h');
    ReadPieceInverse(p.minutes, 'm');
    ReadPieceInverse(p.seconds, 's');
  }
}
