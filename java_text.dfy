/**
 * The Java library behaviour BestBefore.java relies on, over strings as sequences of
 * characters: String.split with a one-character separator, Integer.parseInt, the "%0<w>d"
 * conversion of String.format, and the order of String.compareTo.
 */
module JavaText {
  const IntMin: int := -0x8000_0000
  const IntMax: int := 0x7FFF_FFFF

  /** Java's int: 32-bit two's complement. */
  newtype int32 = x: int | -0x8000_0000 <= x <= 0x7FFF_FFFF

  /** The int a Java int expression with exact value n evaluates to: n wrapped into 32 bits. */
  function Wrap(n: int): (r: int32)
    ensures IntMin <= n <= IntMax ==> r as int == n
    ensures (r as int - n) % 0x1_0000_0000 == 0
  {
    ((n - IntMin) % 0x1_0000_0000 + IntMin) as int32
  }

  /** Adding one to an int always changes it, even when it wraps. */
  lemma WrapSuccessorDiffers(h: int32)
    ensures Wrap(h as int + 1) != h
  {
  }

  /** The unchecked exceptions the date parser can raise. */
  datatype Exception = IllegalArgument | NumberFormat

  /** A value, or the exception thrown instead of returning one. */
  datatype Outcome<T> = Ok(value: T) | Thrown(exception: Exception)

  predicate IsDigit(c: char)
  {
    '0' <= c <= '9'
  }

  predicate AllDigits(s: string)
  {
    forall i :: 0 <= i < |s| ==> IsDigit(s[i])
  }

  function DigitValue(c: char): int
    requires IsDigit(c)
  {
    c as int - '0' as int
  }

  function DigitChar(d: int): char
    requires 0 <= d < 10
  {
    ('0' as int + d) as char
  }

  /** The number a string of decimal digits denotes, most significant digit first. */
  function Value(s: string): nat
    requires AllDigits(s)
  {
    if s == [] then 0 else Value(s[..|s| - 1]) * 10 + DigitValue(s[|s| - 1])
  }

  /** The decimal digits of n without leading zeros, as Integer.toString writes them. */
  function Show(n: nat): string
  {
    if n < 10 then [DigitChar(n)] else Show(n / 10) + [DigitChar(n % 10)]
  }

  function Zeros(k: nat): string
  {
    seq(k, _ => '0')
  }

  function LeftPad(s: string, w: int): string
  {
    if |s| >= w then s else Zeros(w - |s|) + s
  }

  /**
   * String.format("%0<w>d", n): the sign of a negative number, then the digits of its
   * magnitude padded on the left with zeros so that the whole is at least w characters.
   */
  function FormatZeroPadded(n: int, w: nat): string
  {
    if n < 0 then "-" + LeftPad(Show(-n), w - 1) else LeftPad(Show(n), w)
  }

  /**
   * Integer.parseInt(s) in radix 10: an optional '+' or '-' and at least one digit, with a
   * value inside the 32-bit range; anything else throws NumberFormatException.
   */
  function ParseInt(s: string): (r: Outcome<int>)
    ensures r.Ok? ==> IntMin <= r.value <= IntMax
    ensures r.Thrown? ==> r.exception == NumberFormat
  {
    if |s| == 0 then Thrown(NumberFormat)
    else if s[0] == '-' || s[0] == '+' then
      if |s| == 1 || !AllDigits(s[1..]) then Thrown(NumberFormat)
      else
        var v: int := if s[0] == '-' then 0 - Value(s[1..]) else Value(s[1..]);
        if IntMin <= v <= IntMax then Ok(v) else Thrown(NumberFormat)
    else if !AllDigits(s) then Thrown(NumberFormat)
    else if Value(s) <= IntMax then Ok(Value(s)) else Thrown(NumberFormat)
  }

  /** The pieces of s between occurrences of sep, empty pieces included. */
  function Pieces(s: string, sep: char): (r: seq<string>)
    ensures |r| >= 1
  {
    if s == [] then [""]
    else
      var rest := Pieces(s[1..], sep);
      if s[0] == sep then [""] + rest else [[s[0]] + rest[0]] + rest[1..]
  }

  function Join(ps: seq<string>, sep: char): string
    requires |ps| >= 1
  {
    if |ps| == 1 then ps[0] else ps[0] + [sep] + Join(ps[1..], sep)
  }

  function DropTrailingEmpty(ps: seq<string>): seq<string>
  {
    if ps != [] && ps[|ps| - 1] == "" then DropTrailingEmpty(ps[..|ps| - 1]) else ps
  }

  /**
   * s.split(sep) for a separator that is one ordinary character: the pieces between the
   * separators with the trailing empty pieces dropped, or s itself when sep does not occur.
   */
  function Split(s: string, sep: char): seq<string>
  {
    if sep !in s then [s] else DropTrailingEmpty(Pieces(s, sep))
  }

  /**
   * a.compareTo(b) < 0: the first differing character is smaller, or a is a proper prefix of b.
   * Characters here are code points, where Java compares UTF-16 units; the two orders differ
   * only on characters outside the Basic Multilingual Plane, and the strings compared are the
   * ASCII YYYY-MM-DD outputs.
   */
  predicate LexLess(a: string, b: string)
  {
    if a == [] then b != []
    else if b == [] then false
    else a[0] < b[0] || (a[0] == b[0] && LexLess(a[1..], b[1..]))
  }

  /** The head of a PriorityQueue<String> holding the elements of s: a least element. */
  function Least(s: seq<string>): string
    requires |s| > 0
  {
    if |s| == 1 then s[0]
    else
      var m := Least(s[1..]);
      if LexLess(s[0], m) then s[0] else m
  }

  // ---------------------------------------------------------------------------------------
  // Properties
  // ---------------------------------------------------------------------------------------

  lemma {:induction false} ShowDigits(n: nat)
    ensures AllDigits(Show(n)) && |Show(n)| >= 1
    ensures Value(Show(n)) == n
    ensures n > 0 ==> Show(n)[0] != '0'
  {
    if n >= 10 {
      ShowDigits(n / 10);
      var s := Show(n);
      assert s[..|s| - 1] == Show(n / 10);
    }
  }

  /** Show(n) has w digits or fewer exactly when n is below 10^w. */
  lemma {:induction false} ShowLength(n: nat, w: nat)
    ensures |Show(n)| <= w + 1 <==> n < Pow10(w + 1)
  {
    if n >= 10 {
      if w == 0 {
        ShowDigits(n / 10);
      } else {
        ShowLength(n / 10, w - 1);
      }
    }
  }

  function Pow10(w: nat): (r: nat)
    ensures r >= 1
  {
    if w == 0 then 1 else 10 * Pow10(w - 1)
  }

  lemma {:induction false} ValueZeros(k: nat, s: string)
    requires AllDigits(s)
    ensures AllDigits(Zeros(k) + s) && Value(Zeros(k) + s) == Value(s)
  {
    var z := Zeros(k) + s;
    if s == [] {
      assert z == Zeros(k);
      if k > 0 {
        assert z[..|z| - 1] == Zeros(k - 1) + [];
        ValueZeros(k - 1, []);
      }
    } else {
      assert z[..|z| - 1] == Zeros(k) + s[..|s| - 1];
      ValueZeros(k, s[..|s| - 1]);
    }
  }

  /** Integer.parseInt reads back every 32-bit integer String.format("%0<w>d") writes. */
  lemma ParseFormatRoundTrip(n: int, w: nat)
    requires IntMin <= n <= IntMax
    ensures ParseInt(FormatZeroPadded(n, w)) == Ok(n)
  {
    var m := if n < 0 then -n else n;
    ShowDigits(m);
    var p := LeftPad(Show(m), if n < 0 then w - 1 else w);
    if |Show(m)| < (if n < 0 then w - 1 else w) {
      ValueZeros((if n < 0 then w - 1 else w) - |Show(m)|, Show(m));
    }
    assert AllDigits(p) && Value(p) == m && |p| >= 1;
    if n < 0 {
      assert FormatZeroPadded(n, w) == "-" + p;
      assert ("-" + p)[1..] == p;
    } else {
      assert FormatZeroPadded(n, w) == p;
    }
  }

  lemma {:induction false} PiecesJoin(s: string, sep: char)
    ensures Join(Pieces(s, sep), sep) == s
  {
    if s != [] {
      var c, t := s[0], s[1..];
      PiecesJoin(t, sep);
      var rest := Pieces(t, sep);
      if c == sep {
        assert Pieces(s, sep) == [""] + rest;
        JoinCons("", rest, sep);
        assert Join(Pieces(s, sep), sep) == [c] + t;
      } else {
        assert Pieces(s, sep) == [[c] + rest[0]] + rest[1..];
        JoinExtendHead(c, rest, sep);
        assert Join(Pieces(s, sep), sep) == [c] + t;
      }
      assert [c] + t == s;
    }
  }

  /** Joining a piece in front of others puts the separator between it and the rest. */
  lemma JoinCons(p: string, ps: seq<string>, sep: char)
    requires |ps| >= 1
    ensures Join([p] + ps, sep) == p + [sep] + Join(ps, sep)
  {
    assert ([p] + ps)[1..] == ps;
  }

  /** Putting a character in front of the first piece puts it in front of the joined text. */
  lemma JoinExtendHead(c: char, ps: seq<string>, sep: char)
    requires |ps| >= 1
    ensures Join([[c] + ps[0]] + ps[1..], sep) == [c] + Join(ps, sep)
  {
    var qs := [[c] + ps[0]] + ps[1..];
    if |ps| > 1 {
      assert qs[1..] == ps[1..];
    }
  }

  lemma {:induction false} PiecesHaveNoSeparator(s: string, sep: char)
    ensures forall i :: 0 <= i < |Pieces(s, sep)| ==> sep !in Pieces(s, sep)[i]
  {
    if s != [] {
      PiecesHaveNoSeparator(s[1..], sep);
      var rest := Pieces(s[1..], sep);
      var ps := Pieces(s, sep);
      if s[0] == sep {
        assert forall i :: 1 <= i < |ps| ==> ps[i] == rest[i - 1];
      } else {
        assert forall i :: 1 <= i < |ps| ==> ps[i] == rest[i];
        assert ps[0] == [s[0]] + rest[0];
      }
    }
  }

  lemma {:induction false} DropTrailingEmptyPrefix(ps: seq<string>)
    ensures var r := DropTrailingEmpty(ps);
      r <= ps && (forall i :: |r| <= i < |ps| ==> ps[i] == "") && (r != [] ==> r[|r| - 1] != "")
  {
    if ps != [] && ps[|ps| - 1] == "" {
      DropTrailingEmptyPrefix(ps[..|ps| - 1]);
    }
  }

  /**
   * What String.split returns: the pieces between the separators, in order and with no
   * separator inside, of which only the trailing empty ones are left off.
   */
  lemma SplitPieces(s: string, sep: char)
    ensures sep !in s ==> Split(s, sep) == [s]
    ensures sep in s ==>
      var ps, r := Pieces(s, sep), Split(s, sep);
      Join(ps, sep) == s && r <= ps && (forall i :: |r| <= i < |ps| ==> ps[i] == "") &&
      (r != [] ==> r[|r| - 1] != "")
    ensures forall i :: 0 <= i < |Split(s, sep)| ==> sep !in Split(s, sep)[i]
  {
    PiecesJoin(s, sep);
    PiecesHaveNoSeparator(s, sep);
    if sep in s {
      DropTrailingEmptyPrefix(Pieces(s, sep));
      var ps, r := Pieces(s, sep), Split(s, sep);
      forall i | 0 <= i < |r|
        ensures sep !in r[i]
      {
        assert r[i] == ps[i];
      }
    }
  }

  lemma {:induction false} LexLessIrreflexive(a: string)
    ensures !LexLess(a, a)
  {
    if a != [] {
      LexLessIrreflexive(a[1..]);
    }
  }

  lemma {:induction false} LexLessTransitive(a: string, b: string, c: string)
    requires LexLess(a, b) && LexLess(b, c)
    ensures LexLess(a, c)
  {
    if a != [] && b != [] && c != [] && a[0] == b[0] && b[0] == c[0] {
      LexLessTransitive(a[1..], b[1..], c[1..]);
    }
  }

  lemma {:induction false} LexLessTotal(a: string, b: string)
    ensures a == b || LexLess(a, b) || LexLess(b, a)
  {
    if a != [] && b != [] && a[0] == b[0] {
      LexLessTotal(a[1..], b[1..]);
      if a[1..] == b[1..] {
        assert a == [a[0]] + a[1..] && b == [b[0]] + b[1..];
      }
    }
  }

  /** The head of the queue is one of its elements, and no element is smaller. */
  lemma {:induction false} LeastIsLeast(s: seq<string>)
    requires |s| > 0
    ensures Least(s) in s
    ensures forall x :: x in s ==> !LexLess(x, Least(s))
  {
    if |s| > 1 {
      LeastIsLeast(s[1..]);
      var m := Least(s[1..]);
      assert Least(s) == if LexLess(s[0], m) then s[0] else m;
      forall x | x in s
        ensures !LexLess(x, Least(s))
      {
        if x == s[0] {
          if LexLess(s[0], m) {
            LexLessIrreflexive(s[0]);
          }
        } else {
          assert x in s[1..];
          assert !LexLess(x, m);
          if LexLess(s[0], m) && LexLess(x, s[0]) {
            LexLessTransitive(x, s[0], m);
          }
        }
      }
    } else {
      LexLessIrreflexive(s[0]);
    }
  }

  /**
   * Comparing two strings that agree in length up to a point: the first parts decide, and
   * only when they are equal do the rest decide.
   */
  lemma {:induction false} LexLessAppend(a: string, b: string, c: string, d: string)
    requires |a| == |b|
    ensures LexLess(a + c, b + d) <==> LexLess(a, b) || (a == b && LexLess(c, d))
  {
    if a == [] {
      assert a + c == c && b + d == d;
    } else {
      var ac, bd := a + c, b + d;
      assert ac[0] == a[0] && bd[0] == b[0];
      assert ac[1..] == a[1..] + c && bd[1..] == b[1..] + d;
      LexLessAppend(a[1..], b[1..], c, d);
      assert LexLess(ac, bd) <==> a[0] < b[0] || (a[0] == b[0] && LexLess(ac[1..], bd[1..]));
      assert LexLess(a, b) <==> a[0] < b[0] || (a[0] == b[0] && LexLess(a[1..], b[1..]));
      assert a == [a[0]] + a[1..] && b == [b[0]] + b[1..];
      assert a == b <==> a[0] == b[0] && a[1..] == b[1..];
    }
  }

  /** The last w decimal digits of n, most significant first. */
  function Fixed(n: nat, w: nat): string
  {
    if w == 0 then [] else Fixed(n / 10, w - 1) + [DigitChar(n % 10)]
  }

  lemma {:induction false} FixedZero(k: nat)
    ensures Fixed(0, k) == Zeros(k)
  {
    if k > 0 {
      FixedZero(k - 1);
      assert Zeros(k) == Zeros(k - 1) + ['0'];
    }
  }

  /** Zero-padding a number of at most w digits to width w writes exactly its last w digits. */
  lemma {:induction false} PadIsFixed(n: nat, w: nat)
    requires 1 <= w && n < Pow10(w)
    ensures LeftPad(Show(n), w) == Fixed(n, w)
  {
    if n < 10 {
      FixedZero(w - 1);
    } else {
      ShowLength(n, w - 1);
      ShowLength(n / 10, w - 2);
      PadIsFixed(n / 10, w - 1);
      var s := Show(n / 10);
      if |s| + 1 < w {
        assert Zeros(w - |s| - 1) + (s + [DigitChar(n % 10)]) == (Zeros(w - 1 - |s|) + s) + [DigitChar(n % 10)];
      }
    }
  }

  /** For numbers of at most w digits, the order of their w-digit forms is the numeric order. */
  lemma {:induction false} FixedOrder(a: nat, b: nat, w: nat)
    requires a < Pow10(w) && b < Pow10(w)
    ensures |Fixed(a, w)| == w
    ensures LexLess(Fixed(a, w), Fixed(b, w)) <==> a < b
    ensures Fixed(a, w) == Fixed(b, w) <==> a == b
    decreases w, 0
  {
    if w > 0 {
      FixedOrder(a / 10, b / 10, w - 1);
      FixedOrderFlip(a / 10, b / 10, w - 1);
      var fa, fb := Fixed(a / 10, w - 1), Fixed(b / 10, w - 1);
      var da, db := [DigitChar(a % 10)], [DigitChar(b % 10)];
      LexLessAppend(fa, fb, da, db);
      assert LexLess(da, db) <==> a % 10 < b % 10;
      LexLessIrreflexive(fa);
      assert a == a / 10 * 10 + a % 10 && b == b / 10 * 10 + b % 10;
      if fa + da == fb + db {
        assert fa == (fa + da)[..w - 1] && fb == (fb + db)[..w - 1];
        assert (fa + da)[w - 1] == (fb + db)[w - 1];
      }
    } else {
      assert a == 0 && b == 0;
    }
  }

  lemma {:induction false} FixedOrderFlip(a: nat, b: nat, w: nat)
    requires a < Pow10(w) && b < Pow10(w)
    ensures |Fixed(b, w)| == w
    ensures LexLess(Fixed(b, w), Fixed(a, w)) <==> b < a
    decreases w, 1
  {
    FixedOrder(b, a, w);
  }
}
