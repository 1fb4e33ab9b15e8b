/**
 * The textual renderings the dumper puts into attribute values: `str(int)`,
 * `str(int(bool))`, the two-decimal `"{:.2f}".format(...)` of a coordinate and
 * `sep.join(parts)`. Coordinates are modelled as integers counting hundredths,
 * so the two-decimal rendering is exact. Each rendering is paired with a
 * parser, and the round trips show that no information is lost.
 */
module Text {
  import opened Wrappers

  predicate IsDigit(c: char) { '0' <= c <= '9' }

  predicate AllDigits(s: string) { forall i :: 0 <= i < |s| ==> IsDigit(s[i]) }

  function DigitChar(d: nat): (c: char)
    requires d < 10
    ensures IsDigit(c) && c as int - '0' as int == d
  {
    (d + '0' as int) as char
  }

  /** Decimal digits of `n`, most significant first, without leading zeros. */
  function NatText(n: nat): (r: string)
    ensures |r| >= 1 && AllDigits(r)
    decreases n
  {
    if n < 10 then [DigitChar(n)] else NatText(n / 10) + [DigitChar(n % 10)]
  }

  /** `str(i)` for an integer. */
  function IntText(i: int): (r: string)
    ensures |r| >= 1
    ensures i >= 0 <==> IsDigit(r[0])
    ensures i < 0 <==> r[0] == '-'
  {
    if i < 0 then "-" + NatText(-i) else NatText(i)
  }

  /** `str(int(b))` for a boolean flag. */
  function BoolText(b: bool): (r: string)
    ensures r == "1" || r == "0"
    ensures b <==> r == "1"
  {
    if b then "1" else "0"
  }

  function Abs(c: int): nat { if c < 0 then -c else c }

  /** The unsigned part of a two-decimal rendering of `a` hundredths: integer part, '.', two digits. */
  function UnsignedText(a: nat): (r: string)
    ensures |r| >= 4 && r[|r| - 3] == '.'
    ensures IsDigit(r[|r| - 2]) && IsDigit(r[|r| - 1])
  {
    NatText(a / 100) + "." + [DigitChar(a % 100 / 10), DigitChar(a % 10)]
  }

  /** `"{:.2f}".format(c / 100)`: optional sign, then the unsigned part. */
  function FixedText(c: int): (r: string)
    ensures |r| >= 4 && r[|r| - 3] == '.'
    ensures IsDigit(r[|r| - 2]) && IsDigit(r[|r| - 1])
  {
    (if c < 0 then "-" else "") + UnsignedText(Abs(c))
  }

  /** `sep.join(parts)`. */
  function Join(parts: seq<string>, sep: char): (r: string)
    ensures |parts| == 1 ==> r == parts[0]
    ensures |parts| >= 1 ==> |r| >= |parts[|parts| - 1]|
  {
    if |parts| == 0 then ""
    else if |parts| == 1 then parts[0]
    else Join(parts[..|parts| - 1], sep) + [sep] + parts[|parts| - 1]
  }

  // ---------------------------------------------------------------------------
  // Parsers: the inverse direction, used to state the round trips.

  function DigitsValue(s: string): nat
    requires AllDigits(s)
  {
    if s == [] then 0 else DigitsValue(s[..|s| - 1]) * 10 + (s[|s| - 1] as int - '0' as int)
  }

  function ParseNat(s: string): Option<nat>
  {
    if s != [] && AllDigits(s) then Some(DigitsValue(s)) else None
  }

  function ParseInt(s: string): Option<int>
  {
    if s != [] && s[0] == '-' then
      match ParseNat(s[1..])
      case Some(n) => Some(-(n as int))
      case None => None
    else ParseNat(s)
  }

  /** Reads back an unsigned two-decimal rendering (digits, '.', two digits) as hundredths. */
  function ParseUnsigned(body: string): Option<nat>
  {
    if |body| < 4 || body[|body| - 3] != '.' || !IsDigit(body[|body| - 2]) || !IsDigit(body[|body| - 1]) then None
    else
      match ParseNat(body[..|body| - 3])
      case None => None
      case Some(whole) => Some(whole * 100 + DigitsValue(body[|body| - 2..]))
  }

  /** Reads back a two-decimal rendering, with an optional '-', as a count of hundredths. */
  function ParseFixed(s: string): Option<int>
  {
    var neg := s != [] && s[0] == '-';
    match ParseUnsigned(if neg then s[1..] else s)
    case None => None
    case Some(m) => Some(if neg then -(m as int) else m)
  }

  /** `s.split(sep)`: the pieces between separators, "" giving [""]. */
  function Split(s: string, sep: char): (r: seq<string>)
    ensures |r| >= 1
  {
    if s == [] then [""]
    else
      var p := Split(s[..|s| - 1], sep);
      if s[|s| - 1] == sep then p + [""]
      else p[..|p| - 1] + [p[|p| - 1] + [s[|s| - 1]]]
  }

  // ---------------------------------------------------------------------------
  // Round trips

  lemma {:induction false} NatTextRoundTrip(n: nat)
    ensures DigitsValue(NatText(n)) == n
    decreases n
  {
    if n >= 10 {
      NatTextRoundTrip(n / 10);
      var s := NatText(n / 10) + [DigitChar(n % 10)];
      assert s[..|s| - 1] == NatText(n / 10);
    }
  }

  lemma IntTextRoundTrip(i: int)
    ensures ParseInt(IntText(i)) == Some(i)
  {
    if i < 0 {
      NatTextRoundTrip(-i);
      assert IntText(i)[1..] == NatText(-i);
    } else {
      NatTextRoundTrip(i);
    }
  }

  /** Distinct integers are rendered as distinct texts. */
  lemma IntTextInjective(a: int, b: int)
    ensures IntText(a) == IntText(b) ==> a == b
  {
    IntTextRoundTrip(a);
    IntTextRoundTrip(b);
  }

  lemma TwoDigitsValue(d1: nat, d2: nat)
    requires d1 < 10 && d2 < 10
    ensures AllDigits([DigitChar(d1), DigitChar(d2)])
    ensures DigitsValue([DigitChar(d1), DigitChar(d2)]) == d1 * 10 + d2
  {
    var s := [DigitChar(d1), DigitChar(d2)];
    assert s[..1] == [DigitChar(d1)];
    assert [DigitChar(d1)][..0] == [];
    assert DigitsValue([DigitChar(d1)]) == d1;
  }

  /** The unsigned part of a rendered coordinate reads back as the count it renders. */
  lemma UnsignedRoundTrip(a: nat)
    ensures UnsignedText(a)[0] != '-' && ParseUnsigned(UnsignedText(a)) == Some(a)
  {
    var q, d1, d2 := a / 100, a % 100 / 10, a % 10;
    DecimalSplit(a);
    FixedBody(q, d1, d2);
  }

  lemma FixedBody(whole: nat, d1: nat, d2: nat)
    requires d1 < 10 && d2 < 10
    ensures var body := NatText(whole) + "." + [DigitChar(d1), DigitChar(d2)];
            body[0] != '-' && ParseUnsigned(body) == Some(whole * 100 + d1 * 10 + d2)
  {
    var w := NatText(whole);
    var frac := [DigitChar(d1), DigitChar(d2)];
    var body := w + "." + frac;
    assert IsDigit(w[0]) && body[0] == w[0];
    assert body[..|body| - 3] == w;
    assert body[|body| - 2..] == frac;
    NatTextRoundTrip(whole);
    TwoDigitsValue(d1, d2);
    assert |body| >= 4 && body[|body| - 3] == '.';
    assert body[|body| - 2] == frac[0] && body[|body| - 1] == frac[1];
  }

  lemma DecimalSplit(a: nat)
    ensures a % 100 / 10 < 10 && a % 10 < 10
    ensures a / 100 * 100 + a % 100 / 10 * 10 + a % 10 == a
  {
    var q, r := a / 100, a % 100;
    var s, t := r / 10, r % 10;
    assert r == 10 * s + t && 0 <= t < 10 && s < 10;
    LastDigit(10 * q + s, t);
    assert a == 10 * (10 * q + s) + t;
  }

  lemma LastDigit(k: int, t: int)
    requires 0 <= t < 10
    ensures (10 * k + t) % 10 == t
  {
  }

  /** An unsigned rendering reads back with or without a leading '-'. */
  lemma ParseSigned(body: string, m: nat)
    requires body != [] && body[0] != '-' && ParseUnsigned(body) == Some(m)
    ensures ParseFixed(body) == Some(m)
    ensures ParseFixed("-" + body) == Some(-(m as int))
  {
    var t := "-" + body;
    assert t != [] && t[0] == '-' && t[1..] == body;
    assert !(body != [] && body[0] == '-');
  }

  lemma FixedTextRoundTrip(c: int)
    ensures ParseFixed(FixedText(c)) == Some(c)
  {
    var body := UnsignedText(Abs(c));
    UnsignedRoundTrip(Abs(c));
    ParseSigned(body, Abs(c));
    if c < 0 {
      assert FixedText(c) == "-" + body;
    } else {
      assert FixedText(c) == body;
    }
  }

  /** A rendered coordinate never contains the separators used around it. */
  lemma FixedTextHasNoSeparator(c: int, sep: char)
    requires sep == ',' || sep == ';'
    ensures sep !in FixedText(c)
  {
    var t := FixedText(c);
    forall i | 0 <= i < |t| ensures t[i] != sep {
      var sign := if c < 0 then "-" else "";
      var whole := NatText(Abs(c) / 100);
      assert t == sign + whole + "." + [DigitChar(Abs(c) % 100 / 10), DigitChar(Abs(c) % 10)] by {
        assert t == sign + UnsignedText(Abs(c));
      }
      if i < |sign| {
      } else if i < |sign| + |whole| {
        assert t[i] == whole[i - |sign|];
      }
    }
  }

  lemma SplitAfterChar(y: string, c: char, sep: char)
    requires c != sep
    ensures var p := Split(y, sep);
            Split(y + [c], sep) == p[..|p| - 1] + [p[|p| - 1] + [c]]
  {
    assert (y + [c])[..|y|] == y;
  }

  /** Appending separator-free text extends the last piece of a split. */
  lemma {:induction false} SplitExtend(x: string, b: string, sep: char)
    requires sep !in b
    ensures var p := Split(x, sep);
            Split(x + b, sep) == p[..|p| - 1] + [p[|p| - 1] + b]
    decreases |b|
  {
    var p := Split(x, sep);
    if b == [] {
      assert x + b == x;
      assert p[|p| - 1] + b == p[|p| - 1];
      assert p[..|p| - 1] + [p[|p| - 1]] == p;
    } else {
      var b', c := b[..|b| - 1], b[|b| - 1];
      assert sep !in b' && c != sep by {
        forall i | 0 <= i < |b'| ensures b'[i] != sep { assert b'[i] == b[i]; }
      }
      var init, last := p[..|p| - 1], p[|p| - 1];
      assert Split(x + b', sep) == init + [last + b'] by {
        SplitExtend(x, b', sep);
      }
      SplitExtendStep(x + b', c, sep, init, last + b');
      SnocAssoc(x, b);
      SnocAssoc(last, b);
    }
  }

  lemma SnocAssoc(x: string, b: string)
    requires b != []
    ensures x + b == (x + b[..|b| - 1]) + [b[|b| - 1]]
  {
    assert b == b[..|b| - 1] + [b[|b| - 1]];
  }

  /** One more non-separator character extends the last piece. */
  lemma SplitExtendStep(y: string, c: char, sep: char, init: seq<string>, last: string)
    requires c != sep && Split(y, sep) == init + [last]
    ensures Split(y + [c], sep) == init + [last + [c]]
  {
    SplitAfterChar(y, c, sep);
    var q := init + [last];
    assert q[..|q| - 1] == init && q[|q| - 1] == last;
  }

  lemma SplitAfterSeparator(x: string, sep: char)
    ensures Split(x + [sep], sep) == Split(x, sep) + [""]
  {
    assert (x + [sep])[..|x|] == x;
  }

  /** Splitting a join gives the parts back when no part contains the separator. */
  lemma {:induction false} SplitJoin(parts: seq<string>, sep: char)
    requires |parts| >= 1
    requires forall i :: 0 <= i < |parts| ==> sep !in parts[i]
    ensures Split(Join(parts, sep), sep) == parts
    decreases |parts|
  {
    if |parts| == 1 {
      SplitExtend([], parts[0], sep);
      assert [] + parts[0] == parts[0];
    } else {
      var init := parts[..|parts| - 1];
      var last := parts[|parts| - 1];
      var a := Join(init, sep) + [sep];
      calc {
        Split(Join(parts, sep), sep);
        { assert Join(parts, sep) == a + last; }
        Split(a + last, sep);
        { SplitExtend(a, last, sep); }
        Split(a, sep)[..|Split(a, sep)| - 1] + [Split(a, sep)[|Split(a, sep)| - 1] + last];
        { SplitJoin(init, sep);
          SplitAfterSeparator(Join(init, sep), sep);
          assert Split(a, sep) == init + [""];
          assert (init + [""])[..|init|] == init; }
        init + ["" + last];
        { assert "" + last == last; }
        init + [last];
        parts;
      }
    }
  }
}
