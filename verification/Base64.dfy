/** Base64 with the standard alphabet and padding (section 4 of RFC 4648), and lines of 76 columns. */
module Base64 {
  type Byte = x: int | 0 <= x < 256
  type Digit = x: int | 0 <= x < 64

  function DigitChar(d: Digit): char {
    if d < 26 then ('A' as int + d) as char
    else if d < 52 then ('a' as int + (d - 26)) as char
    else if d < 62 then ('0' as int + (d - 52)) as char
    else if d == 62 then '+' else '/'
  }

  predicate IsDigitChar(c: char) {
    'A' <= c <= 'Z' || 'a' <= c <= 'z' || '0' <= c <= '9' || c == '+' || c == '/'
  }

  function CharDigit(c: char): Digit
    requires IsDigitChar(c)
  {
    if 'A' <= c <= 'Z' then c as int - 'A' as int
    else if 'a' <= c <= 'z' then c as int - 'a' as int + 26
    else if '0' <= c <= '9' then c as int - '0' as int + 52
    else if c == '+' then 62 else 63
  }

  lemma CharDigitInverse(d: Digit)
    ensures IsDigitChar(DigitChar(d)) && CharDigit(DigitChar(d)) == d && DigitChar(d) != '='
  {
  }

  function Encode(b: seq<Byte>): string
    decreases |b|
  {
    if |b| == 0 then ""
    else if |b| == 1 then [DigitChar(b[0] / 4), DigitChar(b[0] % 4 * 16), '=', '=']
    else if |b| == 2 then [DigitChar(b[0] / 4), DigitChar(b[0] % 4 * 16 + b[1] / 16), DigitChar(b[1] % 16 * 4), '=']
    else Quad(b[0], b[1], b[2]) + Encode(b[3..])
  }

  /** The four characters of three bytes. */
  function Quad(x: Byte, y: Byte, z: Byte): string {
    [DigitChar(x / 4), DigitChar(x % 4 * 16 + y / 16), DigitChar(y % 16 * 4 + z / 64), DigitChar(z % 64)]
  }

  /** The leading alphabet characters; decoding stops at the first other one. */
  function Digits(s: string): seq<Digit> {
    if s == "" || !IsDigitChar(s[0]) then [] else [CharDigit(s[0])] + Digits(s[1..])
  }

  /** The three bytes four digits stand for. */
  function Group(a: Digit, b: Digit, c: Digit, d: Digit): (r: seq<Byte>)
    ensures |r| == 3
  {
    var x: Byte, y: Byte, z: Byte := a * 4 + b / 16, b % 16 * 16 + c / 4, c % 4 * 64 + d;
    [x, y, z]
  }

  /** Whole groups of four digits, then what a shorter last group still determines. */
  function DecodeDigits(d: seq<Digit>): seq<Byte> {
    if |d| < 2 then []
    else if |d| == 2 then Group(d[0], d[1], 0, 0)[..1]
    else if |d| == 3 then Group(d[0], d[1], d[2], 0)[..2]
    else Group(d[0], d[1], d[2], d[3]) + DecodeDigits(d[4..])
  }

  function Decode(s: string): seq<Byte> {
    DecodeDigits(Digits(s))
  }

  lemma DigitsCons(a: Digit, s: string)
    ensures Digits([DigitChar(a)] + s) == [a] + Digits(s)
  {
    CharDigitInverse(a);
    assert ([DigitChar(a)] + s)[1..] == s;
  }

  lemma DigitsOfFour(a: Digit, b: Digit, c: Digit, d: Digit, s: string)
    ensures Digits([DigitChar(a), DigitChar(b), DigitChar(c), DigitChar(d)] + s) == [a, b, c, d] + Digits(s)
  {
    hide *;
    DigitsCons(d, s);
    DigitsCons(c, [DigitChar(d)] + s);
    DigitsCons(b, [DigitChar(c)] + ([DigitChar(d)] + s));
    DigitsCons(a, [DigitChar(b)] + ([DigitChar(c)] + ([DigitChar(d)] + s)));
    assert [DigitChar(a), DigitChar(b), DigitChar(c), DigitChar(d)] + s
        == [DigitChar(a)] + ([DigitChar(b)] + ([DigitChar(c)] + ([DigitChar(d)] + s)));
  }

  lemma DigitsBeforePadding(a: Digit, b: Digit, c: Digit)
    ensures Digits([DigitChar(a), DigitChar(b), '=', '=']) == [a, b]
    ensures Digits([DigitChar(a), DigitChar(b), DigitChar(c), '=']) == [a, b, c]
  {
    DigitsCons(b, "==");
    DigitsCons(a, [DigitChar(b)] + "==");
    assert [DigitChar(a), DigitChar(b), '=', '='] == [DigitChar(a)] + ([DigitChar(b)] + "==");
    DigitsCons(c, "=");
    DigitsCons(b, [DigitChar(c)] + "=");
    DigitsCons(a, [DigitChar(b)] + ([DigitChar(c)] + "="));
    assert [DigitChar(a), DigitChar(b), DigitChar(c), '='] == [DigitChar(a)] + ([DigitChar(b)] + ([DigitChar(c)] + "="));
  }

  /** Three bytes are recovered from the four digits they are cut into, and fewer from fewer. */
  lemma GroupInverse(x: Byte, y: Byte, z: Byte)
    ensures Group(x / 4, x % 4 * 16 + y / 16, y % 16 * 4 + z / 64, z % 64) == [x, y, z]
    ensures Group(x / 4, x % 4 * 16 + y / 16, y % 16 * 4, 0)[..2] == [x, y]
    ensures Group(x / 4, x % 4 * 16, 0, 0)[..1] == [x]
  {
  }

  /** Three bytes are decoded from their four characters, whatever follows. */
  lemma QuadRoundTrip(x: Byte, y: Byte, z: Byte, s: string)
    ensures |Digits(Quad(x, y, z) + s)| == 4 + |Digits(s)|
    ensures DecodeDigits(Digits(Quad(x, y, z) + s)) == [x, y, z] + DecodeDigits(Digits(s))
  {
    hide Digits;
    hide DecodeDigits;
    hide DigitChar;
    var d0, d1, d2, d3 := x / 4, x % 4 * 16 + y / 16, y % 16 * 4 + z / 64, z % 64;
    GroupInverse(x, y, z);
    hide Group;
    DigitsOfFour(d0, d1, d2, d3, s);
    DecodeGroup(d0, d1, d2, d3, Digits(s));
  }

  lemma OneRoundTrip(x: Byte)
    ensures Decode(Encode([x])) == [x]
  {
    hide DigitChar;
    hide Digits;
    hide Group;
    GroupInverse(x, 0, 0);
    DigitsBeforePadding(x / 4, x % 4 * 16, 0);
  }

  lemma TwoRoundTrip(x: Byte, y: Byte)
    ensures Decode(Encode([x, y])) == [x, y]
  {
    hide DigitChar;
    hide Digits;
    hide Group;
    GroupInverse(x, y, 0);
    DigitsBeforePadding(x / 4, x % 4 * 16 + y / 16, y % 16 * 4);
  }

  lemma {:induction false} DecodeEncode(b: seq<Byte>)
    ensures Decode(Encode(b)) == b
    decreases |b|
  {
    if b == [] {
      NothingEncodes();
    } else if |b| == 1 {
      hide *;
      assert b == [b[0]];
      OneRoundTrip(b[0]);
    } else if |b| == 2 {
      hide *;
      assert b == [b[0], b[1]];
      TwoRoundTrip(b[0], b[1]);
    } else {
      EncodeQuad(b);
      hide Encode;
      hide Digits;
      hide DecodeDigits;
      hide Quad;
      DecodeEncode(b[3..]);
      QuadRoundTrip(b[0], b[1], b[2], Encode(b[3..]));
      assert b == [b[0], b[1], b[2]] + b[3..];
    }
  }

  lemma DecodeGroup(a: Digit, b: Digit, c: Digit, d: Digit, rest: seq<Digit>)
    ensures DecodeDigits([a, b, c, d] + rest) == Group(a, b, c, d) + DecodeDigits(rest)
  {
    assert ([a, b, c, d] + rest)[4..] == rest;
  }

  /** Whole groups of three bytes encode independently of what follows. */
  lemma {:induction false} EncodeAppend(a: seq<Byte>, b: seq<Byte>)
    requires |a| % 3 == 0
    ensures Encode(a + b) == Encode(a) + Encode(b)
    decreases |a|
  {
    if a == [] {
      NothingEncodes();
      assert a + b == b && "" + Encode(b) == Encode(b);
    } else {
      EncodeAppend(a[3..], b);
      EncodeAppendStep(a[0], a[1], a[2], a[3..], b);
      assert a == [a[0], a[1], a[2]] + a[3..];
      hide *;
      assert a + b == ([a[0], a[1], a[2]] + a[3..]) + b;
    }
  }

  lemma EncodeThree(x: Byte, y: Byte, z: Byte, rest: seq<Byte>)
    ensures Encode([x, y, z] + rest) == Quad(x, y, z) + Encode(rest)
  {
    assert ([x, y, z] + rest)[3..] == rest;
  }

  lemma EncodeAppendStep(x: Byte, y: Byte, z: Byte, rest: seq<Byte>, b: seq<Byte>)
    requires Encode(rest + b) == Encode(rest) + Encode(b)
    ensures Encode(([x, y, z] + rest) + b) == Encode([x, y, z] + rest) + Encode(b)
  {
    EncodeThree(x, y, z, rest);
    EncodeThree(x, y, z, rest + b);
    hide *;
    assert ([x, y, z] + rest) + b == [x, y, z] + (rest + b);
    Associates(Quad(x, y, z), Encode(rest), Encode(b));
  }

  lemma Associates(p: string, q: string, r: string)
    ensures p + (q + r) == (p + q) + r
  {
  }

  lemma EncodeQuad(b: seq<Byte>)
    requires |b| >= 3
    ensures Encode(b) == Quad(b[0], b[1], b[2]) + Encode(b[3..]) && |Encode(b)| == 4 + |Encode(b[3..])|
  {
  }

  /** Alphabet characters, then at most two padding characters. */
  predicate Base64Line(s: string) {
    var n := |Digits(s)|;
    1 <= n <= |s| <= n + 2 && forall i | n <= i < |s| :: s[i] == '='
  }

  lemma {:induction false} EncodingIsBase64Line(b: seq<Byte>)
    requires b != []
    ensures Base64Line(Encode(b)) && forall c <- Encode(b) :: IsDigitChar(c) || c == '='
    decreases |b|
  {
    if |b| == 1 {
      DigitsBeforePadding(b[0] / 4, b[0] % 4 * 16, 0);
    } else if |b| == 2 {
      DigitsBeforePadding(b[0] / 4, b[0] % 4 * 16 + b[1] / 16, b[1] % 16 * 4);
    } else {
      var rest := Encode(b[3..]);
      EncodeQuad(b);
      QuadRoundTrip(b[0], b[1], b[2], rest);
      QuadIsDigits(b[0], b[1], b[2]);
      hide Encode;
      hide Digits;
      hide DecodeDigits;
      hide Quad;
      if |b| > 3 {
        EncodingIsBase64Line(b[3..]);
        LongerLine(Quad(b[0], b[1], b[2]), rest);
      } else {
        assert b[3..] == [];
        NothingEncodes();
      }
    }
  }

  lemma NothingEncodes()
    ensures Encode([]) == "" && Digits("") == []
  {
  }

  lemma QuadIsDigits(x: Byte, y: Byte, z: Byte)
    ensures |Quad(x, y, z)| == 4 && forall c <- Quad(x, y, z) :: IsDigitChar(c)
  {
    assert IsDigitChar(DigitChar(x / 4)) && IsDigitChar(DigitChar(x % 4 * 16 + y / 16));
    assert IsDigitChar(DigitChar(y % 16 * 4 + z / 64)) && IsDigitChar(DigitChar(z % 64));
  }

  lemma LongerLine(quad: string, rest: string)
    requires |quad| == 4 && Base64Line(rest) && |Digits(quad + rest)| == 4 + |Digits(rest)|
    ensures Base64Line(quad + rest)
  {
    hide Digits;
    var n := |Digits(rest)|;
    forall i | n + 4 <= i < |quad + rest| ensures (quad + rest)[i] == '=' {
      assert (quad + rest)[i] == rest[i - 4];
    }
  }

  const COLUMNS := 76

  /** Cut a text into lines of 76 columns, the last one shorter. */
  function Wrap(s: string): seq<string>
    decreases |s|
  {
    if s == "" then []
    else if |s| <= COLUMNS then [s]
    else [s[..COLUMNS]] + Wrap(s[COLUMNS..])
  }

  function DecodeAll(lines: seq<string>): seq<Byte> {
    if lines == [] then [] else Decode(lines[0]) + DecodeAll(lines[1..])
  }

  /** Is this exactly what encoding some bytes yields? Checked, as the source does, by encoding again. */
  predicate Canonical(s: string) {
    Encode(Decode(s)) == s
  }

  /** A line the frame decoder takes for payload. */
  predicate PayloadLine(l: string) {
    Base64Line(l) && Canonical(l) && '\n' !in l && '\r' !in l && l != "" && l[0] != '!'
  }

  /** Wrapped base64 is a list of canonical lines that decode, line by line, to the bytes. */
  lemma {:induction false} WrappedLines(b: seq<Byte>)
    ensures DecodeAll(Wrap(Encode(b))) == b
    ensures forall l <- Wrap(Encode(b)) :: PayloadLine(l)
    decreases |b|
  {
    if b == [] {
    } else if |b| <= 57 {
      EncodingFits(b);
      OneLine(b);
      OneWrappedLine(b, Encode(b));
    } else {
      var head, tail := b[..57], b[57..];
      SplitEncoding(b);
      WrappedLines(tail);
      OneLine(head);
      WrapMore(Encode(head), Encode(tail));
      assert b == head + tail;
    }
  }

  lemma OneWrappedLine(b: seq<Byte>, s: string)
    requires 0 < |b| <= 57 && |s| == (|b| + 2) / 3 * 4 && Decode(s) == b
    ensures Wrap(s) == [s] && DecodeAll([s]) == b
  {
    LineLength(|b|);
    WrapShort(s);
  }

  lemma LineLength(n: nat)
    requires 0 < n <= 57
    ensures 0 < (n + 2) / 3 * 4 <= COLUMNS
  {
  }

  lemma WrapShort(s: string)
    requires 0 < |s| <= COLUMNS
    ensures Wrap(s) == [s] && DecodeAll([s]) == Decode(s)
  {
    assert DecodeAll([s]) == Decode(s) + [];
  }

  /** 57 bytes are exactly one line. */
  lemma SplitEncoding(b: seq<Byte>)
    requires |b| > 57
    ensures Encode(b) == Encode(b[..57]) + Encode(b[57..]) && |Encode(b[..57])| == COLUMNS && Encode(b[57..]) != ""
  {
    hide *;
    EncodeAppend(b[..57], b[57..]);
    assert b == b[..57] + b[57..];
    LengthsOfSplit(b);
  }

  lemma LengthsOfSplit(b: seq<Byte>)
    requires |b| > 57
    ensures |Encode(b[..57])| == COLUMNS && |Encode(b[57..])| > 0
  {
    hide Encode;
    EncodingFits(b[..57]);
    EncodingFits(b[57..]);
  }

  lemma WrapMore(head: string, tail: string)
    requires |head| == COLUMNS && tail != ""
    ensures Wrap(head + tail) == [head] + Wrap(tail)
    ensures DecodeAll(Wrap(head + tail)) == Decode(head) + DecodeAll(Wrap(tail))
  {
    assert (head + tail)[..COLUMNS] == head && (head + tail)[COLUMNS..] == tail;
  }

  lemma OneLine(b: seq<Byte>)
    requires b != []
    ensures PayloadLine(Encode(b)) && Decode(Encode(b)) == b
  {
    EncodingIsBase64Line(b);
    DecodeEncode(b);
  }

  lemma {:induction false} EncodingFits(b: seq<Byte>)
    ensures |Encode(b)| == (|b| + 2) / 3 * 4
    decreases |b|
  {
    hide DigitChar;
    if |b| >= 3 {
      EncodeQuad(b);
      hide Encode;
      EncodingFits(b[3..]);
    }
  }
}
