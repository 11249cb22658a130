/**
 The forms of RFC 8259 as byte strings, and that the reader takes each: the literals, every number,
 every string, and lists and objects of what it takes, with space where it may stand.
 */
module JsonForms {
  import opened Bytes
  import opened Lists
  import opened Json

  // --- numbers ---------------------------------------------------------------------------

  ghost predicate AllDigits(s: Bytes) {
    s != [] && forall i | 0 <= i < |s| :: 0x30 <= s[i] <= 0x39
  }

  /** A zero, or digits that do not open with one. */
  ghost predicate IsIntegerPart(s: Bytes) {
    s == [0x30] || (AllDigits(s) && s[0] != 0x30)
  }

  /** Nothing, or a point and digits. */
  ghost predicate IsFraction(s: Bytes) {
    s == [] || (s[0] == 0x2e && AllDigits(s[1..]))
  }

  /** Nothing, or an `e`, a sign or none, and digits. */
  ghost predicate IsExponent(s: Bytes) {
    || s == []
    || (s[0] in {0x65, 0x45} && (AllDigits(s[1..]) || (|s| > 1 && s[1] in {0x2b, 0x2d} && AllDigits(s[2..]))))
  }

  ghost predicate IsSign(s: Bytes) {
    s == [] || s == [0x2d]
  }

  /** What cannot go on with a number. */
  predicate PastNumber(rest: Bytes) {
    rest == [] || (!(0x30 <= rest[0] <= 0x39) && rest[0] !in {0x2e, 0x65, 0x45})
  }

  lemma {:induction false} DigitsAre(d: Bytes, rest: Bytes)
    requires d == [] || AllDigits(d)
    requires rest == [] || !(0x30 <= rest[0] <= 0x39)
    ensures Digits(d + rest) == |d|
  {
    if d == [] {
      assert d + rest == rest;
    } else {
      assert (d + rest)[1..] == d[1..] + rest;
      DigitsAre(d[1..], rest);
    }
  }

  lemma IntegerPartRead(s: Bytes, rest: Bytes)
    requires IsIntegerPart(s) && (rest == [] || !(0x30 <= rest[0] <= 0x39))
    ensures IntegerLen(s + rest) == |s|
  {
    assert (s + rest)[0] == s[0];
    if s != [0x30] {
      DigitsAre(s, rest);
    }
  }

  lemma FractionRead(s: Bytes, rest: Bytes)
    requires IsFraction(s) && (rest == [] || (!(0x30 <= rest[0] <= 0x39) && rest[0] != 0x2e))
    ensures FractionLen(s + rest) == Some(|s|)
  {
    if s == [] {
      assert s + rest == rest;
    } else {
      assert (s + rest)[1..] == s[1..] + rest;
      DigitsAre(s[1..], rest);
    }
  }

  lemma ExponentRead(s: Bytes, rest: Bytes)
    requires IsExponent(s) && PastNumber(rest)
    ensures ExponentLen(s + rest) == Some(|s|)
  {
    if s == [] {
      assert s + rest == rest;
    } else if AllDigits(s[1..]) {
      assert (s + rest)[1..] == s[1..] + rest && (s + rest)[1] == s[1];
      DigitsAre(s[1..], rest);
    } else {
      assert (s + rest)[2..] == s[2..] + rest && (s + rest)[1] == s[1];
      DigitsAre(s[2..], rest);
    }
  }

  /** A number is read whole, as it is written, wherever it cannot go on. */
  lemma NumberRead(sign: Bytes, whole: Bytes, fraction: Bytes, exponent: Bytes, rest: Bytes)
    requires IsSign(sign) && IsIntegerPart(whole) && IsFraction(fraction) && IsExponent(exponent) && PastNumber(rest)
    ensures var token := sign + (whole + (fraction + exponent));
            ParseNumber(token + rest) == Some(Parsed(Number(token), rest))
  {
    var after := exponent + rest;
    var past := fraction + after;
    var token := sign + (whole + (fraction + exponent));
    var s := token + rest;
    assert s == sign + (whole + past);
    assert after == [] || (!(0x30 <= after[0] <= 0x39) && after[0] != 0x2e);
    assert past == [] || !(0x30 <= past[0] <= 0x39);
    IntegerPartRead(whole, past);
    FractionRead(fraction, after);
    ExponentRead(exponent, rest);
    NumberFrom(s, sign, whole, past, fraction, after, exponent, rest);
    assert s[..|s| - |rest|] == token;
  }

  lemma NumberFrom(s: Bytes, sign: Bytes, whole: Bytes, past: Bytes, fraction: Bytes, after: Bytes, exponent: Bytes,
                   rest: Bytes)
    requires IsSign(sign) && s == sign + (whole + past) && whole != [] && 0x30 <= whole[0] <= 0x39
    requires past == fraction + after && after == exponent + rest
    requires IntegerLen(whole + past) == |whole| && FractionLen(past) == Some(|fraction|)
    requires ExponentLen(after) == Some(|exponent|)
    ensures ParseNumber(s) == Some(Parsed(Number(s[..|s| - |rest|]), rest))
  {
    var t := whole + past;
    assert t == AfterSign(s) by {
      assert s[0] == 0x2d <==> sign != [];
    }
    assert t[|whole|..] == past && |past| < |t|;
    assert past[|fraction|..] == after && after[|exponent|..] == rest;
    NumberFolds(s, t, past, after, rest);
  }

  lemma NumberFolds(s: Bytes, t: Bytes, u: Bytes, v: Bytes, rest: Bytes)
    requires t == AfterSign(s) && u == t[IntegerLen(t)..] && |u| < |t|
    requires FractionLen(u).Some? && v == u[FractionLen(u).value..]
    requires ExponentLen(v).Some? && rest == v[ExponentLen(v).value..]
    ensures ParseNumber(s) == Some(Parsed(Number(s[..|s| - |rest|]), rest))
  {
    assert AfterNumber(t) == Some(rest);
  }

  lemma {:induction false} DigitsStop(s: Bytes)
    ensures var n := Digits(s); n > 0 ==> AllDigits(s[..n])
  {
    var n := Digits(s);
    assert forall i | 0 <= i < n :: s[..n][i] == s[i] && IsDigit(s[i]);
  }

  lemma NumberUnfolds(s: Bytes, t: Bytes, u: Bytes)
    requires ParseNumber(s).Some? && t == AfterSign(s) && u == t[IntegerLen(t)..]
    ensures IntegerLen(t) > 0 && FractionLen(u).Some?
    ensures var v := u[FractionLen(u).value..];
            && ExponentLen(v).Some?
            && var rest := v[ExponentLen(v).value..];
            ParseNumber(s) == Some(Parsed(Number(s[..|s| - |rest|]), rest))
  {
    assert AfterNumber(t).Some?;
  }

  /** And nothing but a number is read as one. */
  lemma NumberOnly(s: Bytes) returns (sign: Bytes, whole: Bytes, fraction: Bytes, exponent: Bytes)
    requires ParseNumber(s).Some?
    ensures IsSign(sign) && IsIntegerPart(whole) && IsFraction(fraction) && IsExponent(exponent)
    ensures var token := sign + (whole + (fraction + exponent));
            ParseNumber(s).value.value == Number(token) && s == token + ParseNumber(s).value.rest
  {
    var t := AfterSign(s);
    var u := t[IntegerLen(t)..];
    NumberUnfolds(s, t, u);
    var rest;
    sign, whole, fraction, exponent, rest := Parts(s, t, u);
  }

  lemma Parts(s: Bytes, t: Bytes, u: Bytes)
    returns (sign: Bytes, whole: Bytes, fraction: Bytes, exponent: Bytes, rest: Bytes)
    requires t == AfterSign(s) && IntegerLen(t) > 0 && u == t[IntegerLen(t)..]
    requires FractionLen(u).Some? && ExponentLen(u[FractionLen(u).value..]).Some?
    ensures IsSign(sign) && IsIntegerPart(whole) && IsFraction(fraction) && IsExponent(exponent)
    ensures var v := u[FractionLen(u).value..]; rest == v[ExponentLen(v).value..]
    ensures s == sign + (whole + (fraction + exponent)) + rest
    ensures s[..|s| - |rest|] == sign + (whole + (fraction + exponent))
  {
    var v := u[FractionLen(u).value..];
    rest := v[ExponentLen(v).value..];
    sign, whole := HeadParts(s, t, u);
    fraction, exponent, v := TailParts(u, rest);
    InParts(s, sign, t, whole, u, fraction, exponent, rest);
  }

  lemma HeadParts(s: Bytes, t: Bytes, u: Bytes) returns (sign: Bytes, whole: Bytes)
    requires t == AfterSign(s) && IntegerLen(t) > 0 && u == t[IntegerLen(t)..]
    ensures IsSign(sign) && IsIntegerPart(whole) && s == sign + t && t == whole + u
  {
    sign := SignIs(s, t);
    whole := t[..IntegerLen(t)];
    WholeOnly(t);
  }

  lemma SignIs(s: Bytes, t: Bytes) returns (sign: Bytes)
    requires t == AfterSign(s)
    ensures IsSign(sign) && s == sign + t
  {
    sign := if s != [] && s[0] == 0x2d then [0x2d] else [];
  }

  lemma TailParts(u: Bytes, rest: Bytes) returns (fraction: Bytes, exponent: Bytes, v: Bytes)
    requires FractionLen(u).Some? && ExponentLen(u[FractionLen(u).value..]).Some?
    requires var v := u[FractionLen(u).value..]; rest == v[ExponentLen(v).value..]
    ensures u == fraction + (exponent + rest) && IsFraction(fraction) && IsExponent(exponent)
  {
    fraction, v := u[..FractionLen(u).value], u[FractionLen(u).value..];
    exponent := v[..ExponentLen(v).value];
    FractionOnly(u);
    ExponentOnly(v);
  }

  lemma InParts(s: Bytes, sign: Bytes, t: Bytes, whole: Bytes, u: Bytes, fraction: Bytes, exponent: Bytes, rest: Bytes)
    requires s == sign + t && t == whole + u && u == fraction + (exponent + rest)
    ensures s == sign + (whole + (fraction + exponent)) + rest
    ensures s[..|s| - |rest|] == sign + (whole + (fraction + exponent))
  {
    Regroup(fraction, exponent, rest);
    Regroup(whole, fraction + exponent, rest);
    Regroup(sign, whole + (fraction + exponent), rest);
  }

  lemma WholeOnly(t: Bytes)
    requires IntegerLen(t) > 0
    ensures IsIntegerPart(t[..IntegerLen(t)])
  {
    DigitsStop(t);
    assert t[0] == 0x30 ==> t[..1] == [0x30];
  }

  lemma FractionOnly(u: Bytes)
    requires FractionLen(u).Some?
    ensures IsFraction(u[..FractionLen(u).value])
  {
    if FractionLen(u).value > 0 {
      DigitsStop(u[1..]);
      assert u[..FractionLen(u).value][1..] == u[1..][..Digits(u[1..])];
    }
  }

  lemma ExponentOnly(v: Bytes)
    requires ExponentLen(v).Some?
    ensures IsExponent(v[..ExponentLen(v).value])
  {
    var n := ExponentLen(v).value;
    if n > 0 {
      var sign := if |v| > 1 && (v[1] == 0x2b || v[1] == 0x2d) then 2 else 1;
      DigitsStop(v[sign..]);
      assert v[..n][sign..] == v[sign..][..Digits(v[sign..])];
    }
  }

  // --- strings -----------------------------------------------------------------------------

  /**
   A piece of a string: a byte as it is, one of the short escapes, a code unit in four hexadecimal
   digits, or a pair of them for a code point past the first plane.
   */
  datatype Piece = Raw(b: Byte) | Short(letter: Byte) | Unit(hex: Bytes) | Twin(high: Bytes, low: Bytes)

  /** The short escapes, and what each stands for. */
  function Short8(letter: Byte): Option<Byte> {
    match letter
    case 0x22 => Some(0x22)
    case 0x5c => Some(0x5c)
    case 0x2f => Some(0x2f)
    case 0x62 => Some(8)
    case 0x66 => Some(12)
    case 0x6e => Some(10)
    case 0x72 => Some(13)
    case 0x74 => Some(9)
    case _ => None
  }

  predicate IsHex(b: Byte) {
    0x30 <= b <= 0x39 || 0x41 <= b <= 0x46 || 0x61 <= b <= 0x66
  }

  function Nibble(b: Byte): nat
    requires IsHex(b)
  {
    if b <= 0x39 then b - 0x30 else if b <= 0x46 then b - 55 else b - 87
  }

  predicate IsHex4(hex: Bytes) {
    |hex| == 4 && IsHex(hex[0]) && IsHex(hex[1]) && IsHex(hex[2]) && IsHex(hex[3])
  }

  function Value4(hex: Bytes): nat
    requires IsHex4(hex)
  {
    ((Nibble(hex[0]) * 16 + Nibble(hex[1])) * 16 + Nibble(hex[2])) * 16 + Nibble(hex[3])
  }

  predicate IsPiece(p: Piece) {
    match p
    case Raw(b) => b >= 0x20 && b != 0x22 && b != 0x5c
    case Short(letter) => Short8(letter).Some?
    case Unit(hex) => IsHex4(hex) && !(0xd800 <= Value4(hex) < 0xe000)
    case Twin(high, low) =>
      IsHex4(high) && IsHex4(low) && 0xd800 <= Value4(high) < 0xdc00 && 0xdc00 <= Value4(low) < 0xe000
  }

  function Written(p: Piece): Bytes {
    match p
    case Raw(b) => [b]
    case Short(letter) => [0x5c, letter]
    case Unit(hex) => [0x5c, 0x75] + hex
    case Twin(high, low) => [0x5c, 0x75] + high + ([0x5c, 0x75] + low)
  }

  function Meant(p: Piece): Bytes
    requires IsPiece(p)
  {
    match p
    case Raw(b) => [b]
    case Short(letter) => [Short8(letter).value]
    case Unit(hex) => Utf8(Value4(hex))
    case Twin(high, low) => Utf8(0x1_0000 + (Value4(high) - 0xd800) * 0x400 + (Value4(low) - 0xdc00))
  }

  function WrittenAll(ps: seq<Piece>): Bytes {
    if ps == [] then [] else Written(ps[0]) + WrittenAll(ps[1..])
  }

  ghost predicate ArePieces(ps: seq<Piece>) {
    forall i | 0 <= i < |ps| :: IsPiece(ps[i])
  }

  ghost function MeantAll(ps: seq<Piece>): Bytes
    requires ArePieces(ps)
  {
    if ps == [] then [] else Meant(ps[0]) + MeantAll(ps[1..])
  }

  /** UTF-8: the bits of a code point in one to four bytes, six to each after the first. */
  lemma Utf8Spells(c: nat)
    requires c < 0x11_0000
    ensures var u := Utf8(c);
            && (c < 0x80 ==> u == [c])
            && (0x80 <= c < 0x800 ==> |u| == 2 && 0xc0 <= u[0] < 0xe0 && (u[0] - 0xc0) as nat * 64 + (u[1] - 0x80) == c)
            && (0x800 <= c < 0x1_0000 ==>
                  |u| == 3 && 0xe0 <= u[0] < 0xf0
                  && ((u[0] - 0xe0) as nat * 64 + (u[1] - 0x80)) * 64 + (u[2] - 0x80) == c)
            && (0x1_0000 <= c ==>
                  |u| == 4 && 0xf0 <= u[0] < 0xf5
                  && (((u[0] - 0xf0) as nat * 64 + (u[1] - 0x80)) * 64 + (u[2] - 0x80)) * 64 + (u[3] - 0x80) == c)
            && forall i | 1 <= i < |u| :: 0x80 <= u[i] < 0xc0
  {
    var d := c / 64;
    var e := d / 64;
    assert c / 0x1000 == e && c / 0x4_0000 == e / 64;
    assert c == d * 64 + c % 64 && d == e * 64 + d % 64 && e == e / 64 * 64 + e % 64;
  }

  lemma CodeUnitRead(hex: Bytes, rest: Bytes)
    requires IsHex4(hex)
    ensures CodeUnit([0x5c, 0x75] + hex + rest) == Some(Value4(hex)) && Value4(hex) < 0x1_0000
    ensures ([0x5c, 0x75] + hex + rest)[6..] == rest
  {
    var s := [0x5c, 0x75] + hex + rest;
    assert s[2] == hex[0] && s[3] == hex[1] && s[4] == hex[2] && s[5] == hex[3];
  }

  lemma PieceRead(p: Piece, rest: Bytes)
    requires IsPiece(p) && !p.Raw?
    ensures var s := Written(p) + rest;
            s != [] && s[0] == 0x5c && ParseEscape(s) == Some(Parsed(Meant(p), rest))
  {
    var s := Written(p) + rest;
    match p
    case Short(letter) =>
      assert s[2..] == rest;
    case Unit(hex) =>
      CodeUnitRead(hex, rest);
    case Twin(high, low) =>
      TwinRead(high, low, rest);
  }

  lemma TwinRead(high: Bytes, low: Bytes, rest: Bytes)
    requires IsPiece(Twin(high, low))
    ensures var s := Written(Twin(high, low)) + rest;
            s != [] && s[0] == 0x5c && ParseEscape(s) == Some(Parsed(Meant(Twin(high, low)), rest))
  {
    var first, second := [0x5c, 0x75] + high, [0x5c, 0x75] + low;
    var s := first + (second + rest);
    Regroup(first, second, rest);
    CodeUnitRead(high, second + rest);
    CodeUnitRead(low, rest);
    assert s[6..] == second + rest && s[12..] == (second + rest)[6..];
  }

  /** A string of any pieces is read as what they mean, one after the other. */
  lemma {:induction false} StringRead(ps: seq<Piece>, rest: Bytes)
    requires ArePieces(ps)
    ensures ParseText(WrittenAll(ps) + ([0x22] + rest)) == Some(Parsed(MeantAll(ps), rest))
  {
    var close := [0x22] + rest;
    if ps == [] {
      assert WrittenAll(ps) + close == close;
    } else {
      var tail := WrittenAll(ps[1..]) + close;
      StringRead(ps[1..], rest);
      Regroup(Written(ps[0]), WrittenAll(ps[1..]), close);
      FirstPieceRead(ps[0], tail, MeantAll(ps[1..]), rest);
    }
  }

  lemma FirstPieceRead(p: Piece, tail: Bytes, text: Bytes, rest: Bytes)
    requires IsPiece(p) && ParseText(tail) == Some(Parsed(text, rest))
    ensures ParseText(Written(p) + tail) == Some(Parsed(Meant(p) + text, rest))
  {
    var s := Written(p) + tail;
    if p.Raw? {
      assert s[0] == p.b && s[1..] == tail;
    } else {
      PieceRead(p, tail);
      assert s[0] == 0x5c;
    }
  }

  // --- values ---------------------------------------------------------------------------------

  ghost predicate AreSpaces(s: Bytes) {
    forall i | 0 <= i < |s| :: s[i] in {0x20, 0x09, 0x0a, 0x0d}
  }

  /** What may come after a value: nothing, space, a comma, or the end of a list or an object. */
  predicate Stops(rest: Bytes) {
    rest == [] || rest[0] in {0x20, 0x09, 0x0a, 0x0d, 0x2c, 0x5d, 0x7d}
  }

  /** `s` is read as `j` wherever it may end. */
  ghost predicate Reads(s: Bytes, j: Json) {
    s != [] && forall rest | Stops(rest) :: ParseValue(s + rest) == Some(Parsed(j, rest))
  }

  lemma {:induction false} SpacesSkipped(w: Bytes, s: Bytes)
    requires AreSpaces(w)
    ensures SkipSpace(w + s) == SkipSpace(s)
  {
    if w == [] {
      assert w + s == s;
    } else {
      assert (w + s)[1..] == w[1..] + s;
      SpacesSkipped(w[1..], s);
    }
  }

  lemma {:induction false} SkipTwice(s: Bytes)
    ensures SkipSpace(SkipSpace(s)) == SkipSpace(s)
  {
    if s != [] && IsSpace(s[0]) {
      SkipTwice(s[1..]);
    }
  }

  lemma SameValue(s: Bytes, t: Bytes)
    requires SkipSpace(s) == SkipSpace(t)
    ensures ParseValue(s) == ParseValue(t) && ParseItems(s) == ParseItems(t)
    ensures ParseKey(s) == ParseKey(t) && ParseFields(s) == ParseFields(t)
  {
    ValueSkips(s);
    ValueSkips(t);
  }

  lemma ValueSkips(s: Bytes)
    ensures ParseValue(s) == ParseValue(SkipSpace(s))
  {
    SkipTwice(s);
  }

  /** Space before a value makes no difference. */
  lemma SpacedReads(w: Bytes, s: Bytes, j: Json)
    requires AreSpaces(w) && Reads(s, j)
    ensures Reads(w + s, j)
  {
    forall rest | Stops(rest) ensures ParseValue(w + s + rest) == Some(Parsed(j, rest)) {
      assert w + s + rest == w + (s + rest);
      SpacesSkipped(w, s + rest);
      SameValue(w + (s + rest), s + rest);
    }
  }

  lemma LiteralsRead()
    ensures Reads([0x74, 0x72, 0x75, 0x65], Bool(true))
    ensures Reads([0x66, 0x61, 0x6c, 0x73, 0x65], Bool(false))
    ensures Reads([0x6e, 0x75, 0x6c, 0x6c], Null)
  {
    TrueReads();
    FalseReads();
    NullReads();
  }

  lemma TrueReads()
    ensures Reads([0x74, 0x72, 0x75, 0x65], Bool(true))
  {
    var token: Bytes := [0x74, 0x72, 0x75, 0x65];
    forall rest | Stops(rest) ensures ParseValue(token + rest) == Some(Parsed(Bool(true), rest)) {
      assert SkipSpace(token + rest) == token + rest && (token + rest)[4..] == rest;
    }
  }

  lemma FalseReads()
    ensures Reads([0x66, 0x61, 0x6c, 0x73, 0x65], Bool(false))
  {
    var token: Bytes := [0x66, 0x61, 0x6c, 0x73, 0x65];
    forall rest | Stops(rest) ensures ParseValue(token + rest) == Some(Parsed(Bool(false), rest)) {
      assert SkipSpace(token + rest) == token + rest && (token + rest)[5..] == rest;
      assert (token + rest)[0] == 0x66;
    }
  }

  lemma NullReads()
    ensures Reads([0x6e, 0x75, 0x6c, 0x6c], Null)
  {
    var token: Bytes := [0x6e, 0x75, 0x6c, 0x6c];
    forall rest | Stops(rest) ensures ParseValue(token + rest) == Some(Parsed(Null, rest)) {
      assert SkipSpace(token + rest) == token + rest && (token + rest)[4..] == rest;
      assert (token + rest)[0] == 0x6e;
    }
  }

  lemma NumberReads(sign: Bytes, whole: Bytes, fraction: Bytes, exponent: Bytes)
    requires IsSign(sign) && IsIntegerPart(whole) && IsFraction(fraction) && IsExponent(exponent)
    ensures var token := sign + (whole + (fraction + exponent)); Reads(token, Number(token))
  {
    var token := sign + (whole + (fraction + exponent));
    assert token[0] == 0x2d || 0x30 <= token[0] <= 0x39;
    forall rest | Stops(rest) ensures ParseValue(token + rest) == Some(Parsed(Number(token), rest)) {
      NumberRead(sign, whole, fraction, exponent, rest);
      PlainNumber(token + rest);
    }
  }

  lemma OpensNoLiteral(s: Bytes)
    requires s != [] && (s[0] == 0x2d || 0x30 <= s[0] <= 0x39)
    ensures !(TRUE <= s) && !(FALSE <= s) && !(NULL <= s)
  {
    assert TRUE[0] == 0x74 && FALSE[0] == 0x66 && NULL[0] == 0x6e;
  }

  lemma PlainNumber(s: Bytes)
    requires s != [] && (s[0] == 0x2d || 0x30 <= s[0] <= 0x39)
    ensures ParseValue(s) == ParseNumber(s)
  {
    OpensNoLiteral(s);
    NumberByExclusion(s);
  }

  lemma NumberByExclusion(s: Bytes)
    requires s != [] && SkipSpace(s) == s && s[0] !in {0x7b, 0x5b, 0x22}
    requires !(TRUE <= s) && !(FALSE <= s) && !(NULL <= s)
    ensures ParseValue(s) == ParseNumber(s)
  {
  }

  lemma Quoted(body: Bytes, rest: Bytes)
    ensures [0x22] + body + [0x22] + rest == [0x22] + (body + ([0x22] + rest))
  {
    Regroup([0x22] + body, [0x22], rest);
    Regroup([0x22], body, [0x22] + rest);
  }

  lemma StringReadsBefore(ps: seq<Piece>, rest: Bytes)
    requires ArePieces(ps)
    ensures ParseValue([0x22] + WrittenAll(ps) + [0x22] + rest) == Some(Parsed(Text(MeantAll(ps)), rest))
  {
    StringRead(ps, rest);
    Quoted(WrittenAll(ps), rest);
    TextValueReads(WrittenAll(ps) + ([0x22] + rest), MeantAll(ps), rest);
  }

  lemma StringReads(ps: seq<Piece>)
    requires ArePieces(ps)
    ensures Reads([0x22] + WrittenAll(ps) + [0x22], Text(MeantAll(ps)))
  {
    var s := [0x22] + WrittenAll(ps) + [0x22];
    forall rest | Stops(rest) ensures ParseValue(s + rest) == Some(Parsed(Text(MeantAll(ps)), rest)) {
      StringReadsBefore(ps, rest);
    }
  }

  // --- lists ------------------------------------------------------------------------------------

  /** A value and the space after it. */
  datatype Item = Item(text: Bytes, space: Bytes, value: Json)

  ghost predicate AreItems(items: seq<Item>) {
    forall i | 0 <= i < |items| :: Reads(items[i].text, items[i].value) && AreSpaces(items[i].space)
  }

  function ItemValues(items: seq<Item>): seq<Json> {
    if items == [] then [] else [items[0].value] + ItemValues(items[1..])
  }

  /** A non-empty list past its opening bracket: its items, a comma between each and the next. */
  function ItemsText(items: seq<Item>): Bytes
    requires items != []
  {
    items[0].text + items[0].space + if |items| == 1 then [0x5d] else [0x2c] + ItemsText(items[1..])
  }

  lemma SpaceThen(space: Bytes, b: Byte, rest: Bytes)
    requires AreSpaces(space) && b !in {0x20, 0x09, 0x0a, 0x0d}
    ensures SkipSpace(space + ([b] + rest)) == [b] + rest
    ensures b in {0x2c, 0x5d, 0x7d} ==> Stops(space + ([b] + rest))
  {
    SpacesSkipped(space, [b] + rest);
  }

  lemma LastItem(s: Bytes, v: Json, r: Bytes, rest: Bytes)
    requires ParseValue(s) == Some(Parsed(v, r)) && SkipSpace(r) == [0x5d] + rest
    ensures ParseItems(s) == Some(Parsed([v], rest))
  {
    assert ([0x5d] + rest)[1..] == rest;
  }

  lemma MoreItems(s: Bytes, v: Json, r: Bytes, tail: Bytes, vs: seq<Json>, rest: Bytes)
    requires ParseValue(s) == Some(Parsed(v, r)) && SkipSpace(r) == [0x2c] + tail
    requires ParseItems(tail) == Some(Parsed(vs, rest))
    ensures ParseItems(s) == Some(Parsed([v] + vs, rest))
  {
    assert ([0x2c] + tail)[1..] == tail;
  }

  lemma Spread(text: Bytes, space: Bytes, b: Byte, tail: Bytes, rest: Bytes)
    ensures text + space + ([b] + tail) + rest == text + (space + ([b] + (tail + rest)))
  {
    Regroup(text, space, [b] + tail);
    Regroup(text, space + ([b] + tail), rest);
    Regroup(space, [b] + tail, rest);
    Regroup([b], tail, rest);
  }

  lemma {:induction false} ItemsRead(items: seq<Item>, rest: Bytes)
    requires items != [] && AreItems(items)
    ensures ParseItems(ItemsText(items) + rest) == Some(Parsed(ItemValues(items), rest))
    decreases |items|
  {
    var first, more := items[0], items[1..];
    if more == [] {
      var after := first.space + ([0x5d] + rest);
      SpaceThen(first.space, 0x5d, rest);
      Spread(first.text, first.space, 0x5d, [], rest);
      assert [0x5d] + [] == [0x5d] && [] + rest == rest;
      LastItem(first.text + after, first.value, after, rest);
      assert ItemValues(items) == [first.value];
    } else {
      var tail := ItemsText(more) + rest;
      var after := first.space + ([0x2c] + tail);
      ItemsRead(more, rest);
      SpaceThen(first.space, 0x2c, tail);
      Spread(first.text, first.space, 0x2c, ItemsText(more), rest);
      MoreItems(first.text + after, first.value, after, tail, ItemValues(more), rest);
    }
  }

  lemma OpensValue(s: Bytes)
    requires ParseValue(s).Some?
    ensures SkipSpace(s) != [] && SkipSpace(s)[0] !in {0x5d, 0x7d}
  {
  }

  lemma ListReadsBefore(items: seq<Item>, rest: Bytes)
    requires items != [] && AreItems(items)
    ensures ParseValue([0x5b] + (ItemsText(items) + rest)) == Some(Parsed(List(ItemValues(items)), rest))
  {
    var body := ItemsText(items) + rest;
    ItemsRead(items, rest);
    OpensValue(body);
    ListFrom(body, ItemValues(items), rest);
  }

  /** A list of what is read, spaced or not, is read as the list of it. */
  lemma ListReads(items: seq<Item>)
    requires items != [] && AreItems(items)
    ensures Reads([0x5b] + ItemsText(items), List(ItemValues(items)))
  {
    var s := [0x5b] + ItemsText(items);
    forall rest | Stops(rest) ensures ParseValue(s + rest) == Some(Parsed(List(ItemValues(items)), rest)) {
      ListReadsBefore(items, rest);
      Regroup([0x5b], ItemsText(items), rest);
    }
  }

  lemma ListFrom(body: Bytes, values: seq<Json>, rest: Bytes)
    requires ParseItems(body) == Some(Parsed(values, rest)) && SkipSpace(body) != [] && SkipSpace(body)[0] != 0x5d
    ensures ParseValue([0x5b] + body) == Some(Parsed(List(values), rest))
  {
    var s := [0x5b] + body;
    assert SkipSpace(s) == s && s[1..] == body;
    SkipTwice(body);
    SameValue(body, SkipSpace(body));
  }

  /** So is one of nothing but space. */
  lemma EmptyListReads(space: Bytes)
    requires AreSpaces(space)
    ensures Reads([0x5b] + space + [0x5d], List([]))
  {
    forall rest | Stops(rest) ensures ParseValue([0x5b] + space + [0x5d] + rest) == Some(Parsed(List([]), rest)) {
      var s := [0x5b] + (space + ([0x5d] + rest));
      assert [0x5b] + space + [0x5d] + rest == s;
      SpaceThen(space, 0x5d, rest);
      assert SkipSpace(s) == s && s[1..] == space + ([0x5d] + rest);
      assert ([0x5d] + rest)[1..] == rest;
    }
  }

  // --- objects ------------------------------------------------------------------------------------

  /** A key, with the space before it and before its colon, and the value with the space after it. */
  datatype Entry = Entry(before: Bytes, key: seq<Piece>, colon: Bytes, item: Item)

  ghost predicate AreEntries(entries: seq<Entry>) {
    forall i | 0 <= i < |entries| ::
      && AreSpaces(entries[i].before) && ArePieces(entries[i].key) && AreSpaces(entries[i].colon)
      && Reads(entries[i].item.text, entries[i].item.value) && AreSpaces(entries[i].item.space)
  }

  ghost function EntryFields(entries: seq<Entry>): seq<Field>
    requires AreEntries(entries)
  {
    if entries == [] then []
    else [Field(MeantAll(entries[0].key), entries[0].item.value)] + EntryFields(entries[1..])
  }

  function KeyText(e: Entry): Bytes {
    e.before + ([0x22] + (WrittenAll(e.key) + ([0x22] + (e.colon + [0x3a]))))
  }

  /** A non-empty object past its opening brace. */
  function EntriesText(entries: seq<Entry>): Bytes
    requires entries != []
  {
    KeyText(entries[0]) + (entries[0].item.text + entries[0].item.space)
    + if |entries| == 1 then [0x7d] else [0x2c] + EntriesText(entries[1..])
  }

  lemma KeyRead(e: Entry, rest: Bytes)
    requires AreSpaces(e.before) && ArePieces(e.key) && AreSpaces(e.colon)
    ensures ParseKey(KeyText(e) + rest) == Some(Parsed(MeantAll(e.key), rest))
  {
    var after := e.colon + ([0x3a] + rest);
    var text := WrittenAll(e.key) + ([0x22] + after);
    KeyTextIs(e, rest);
    StringRead(e.key, after);
    SpacesSkipped(e.before, [0x22] + text);
    SameValue(e.before + ([0x22] + text), [0x22] + text);
    SpaceThen(e.colon, 0x3a, rest);
    KeyFrom(text, MeantAll(e.key), after, rest);
  }

  lemma KeyTextIs(e: Entry, rest: Bytes)
    ensures KeyText(e) + rest == e.before + ([0x22] + (WrittenAll(e.key) + ([0x22] + (e.colon + ([0x3a] + rest)))))
  {
    Regroup(e.colon, [0x3a], rest);
    Regroup([0x22], e.colon + [0x3a], rest);
    Regroup(WrittenAll(e.key), [0x22] + (e.colon + [0x3a]), rest);
    Regroup([0x22], WrittenAll(e.key) + ([0x22] + (e.colon + [0x3a])), rest);
    Regroup(e.before, [0x22] + (WrittenAll(e.key) + ([0x22] + (e.colon + [0x3a]))), rest);
  }

  lemma KeyFrom(text: Bytes, key: Bytes, after: Bytes, rest: Bytes)
    requires ParseText(text) == Some(Parsed(key, after)) && SkipSpace(after) == [0x3a] + rest
    ensures ParseKey([0x22] + text) == Some(Parsed(key, rest))
  {
    var quoted := [0x22] + text;
    assert SkipSpace(quoted) == quoted && quoted[1..] == text;
    assert ([0x3a] + rest)[1..] == rest;
  }

  lemma LastEntry(s: Bytes, key: Bytes, after: Bytes, v: Json, r: Bytes, rest: Bytes)
    requires ParseKey(s) == Some(Parsed(key, after)) && ParseValue(after) == Some(Parsed(v, r))
    requires SkipSpace(r) == [0x7d] + rest
    ensures ParseFields(s) == Some(Parsed([Field(key, v)], rest))
  {
    assert ([0x7d] + rest)[1..] == rest;
  }

  lemma MoreEntries(s: Bytes, key: Bytes, after: Bytes, v: Json, r: Bytes, tail: Bytes, fs: seq<Field>, rest: Bytes)
    requires ParseKey(s) == Some(Parsed(key, after)) && ParseValue(after) == Some(Parsed(v, r))
    requires SkipSpace(r) == [0x2c] + tail && ParseFields(tail) == Some(Parsed(fs, rest))
    ensures ParseFields(s) == Some(Parsed([Field(key, v)] + fs, rest))
  {
    assert ([0x2c] + tail)[1..] == tail;
  }

  lemma SpreadKeyed(key: Bytes, text: Bytes, space: Bytes, b: Byte, tail: Bytes, rest: Bytes)
    ensures key + (text + space) + ([b] + tail) + rest == key + (text + (space + ([b] + (tail + rest))))
  {
    Regroup(key, text + space, [b] + tail);
    Regroup(key, text + space + ([b] + tail), rest);
    Spread(text, space, b, tail, rest);
  }

  ghost predicate IsEntry(e: Entry) {
    && AreSpaces(e.before) && ArePieces(e.key) && AreSpaces(e.colon)
    && Reads(e.item.text, e.item.value) && AreSpaces(e.item.space)
  }

  lemma OneEntryRead(e: Entry, rest: Bytes)
    requires IsEntry(e)
    ensures ParseFields(KeyText(e) + (e.item.text + e.item.space) + [0x7d] + rest)
         == Some(Parsed([Field(MeantAll(e.key), e.item.value)], rest))
  {
    var item := e.item;
    var r := item.space + ([0x7d] + rest);
    SpaceThen(item.space, 0x7d, rest);
    KeyRead(e, item.text + r);
    SpreadKeyed(KeyText(e), item.text, item.space, 0x7d, [], rest);
    assert [0x7d] + [] == [0x7d] && [] + rest == rest;
    LastEntry(KeyText(e) + (item.text + r), MeantAll(e.key), item.text + r, item.value, r, rest);
  }

  lemma NextEntryRead(e: Entry, more: Bytes, fs: seq<Field>, rest: Bytes)
    requires IsEntry(e) && ParseFields(more + rest) == Some(Parsed(fs, rest))
    ensures ParseFields(KeyText(e) + (e.item.text + e.item.space) + ([0x2c] + more) + rest)
         == Some(Parsed([Field(MeantAll(e.key), e.item.value)] + fs, rest))
  {
    var item, tail := e.item, more + rest;
    var r := item.space + ([0x2c] + tail);
    SpaceThen(item.space, 0x2c, tail);
    KeyRead(e, item.text + r);
    SpreadKeyed(KeyText(e), item.text, item.space, 0x2c, more, rest);
    MoreEntries(KeyText(e) + (item.text + r), MeantAll(e.key), item.text + r, item.value, r, tail, fs, rest);
  }

  lemma {:induction false} EntriesRead(entries: seq<Entry>, rest: Bytes)
    requires entries != [] && AreEntries(entries)
    ensures ParseFields(EntriesText(entries) + rest) == Some(Parsed(EntryFields(entries), rest))
    decreases |entries|
  {
    var first, more := entries[0], entries[1..];
    if more == [] {
      OneEntryRead(first, rest);
      assert EntryFields(entries) == [Field(MeantAll(first.key), first.item.value)];
    } else {
      EntriesRead(more, rest);
      NextEntryRead(first, EntriesText(more), EntryFields(more), rest);
    }
  }

  lemma ObjectReadsBefore(entries: seq<Entry>, rest: Bytes)
    requires entries != [] && AreEntries(entries)
    ensures ParseValue([0x7b] + (EntriesText(entries) + rest)) == Some(Parsed(Object(EntryFields(entries)), rest))
  {
    EntriesRead(entries, rest);
    ObjectFrom(EntriesText(entries) + rest, EntryFields(entries), rest);
  }

  /** An object of what is read, spaced or not, is read as its fields in order. */
  lemma ObjectReads(entries: seq<Entry>)
    requires entries != [] && AreEntries(entries)
    ensures Reads([0x7b] + EntriesText(entries), Object(EntryFields(entries)))
  {
    var s := [0x7b] + EntriesText(entries);
    forall rest | Stops(rest) ensures ParseValue(s + rest) == Some(Parsed(Object(EntryFields(entries)), rest)) {
      ObjectReadsBefore(entries, rest);
      Regroup([0x7b], EntriesText(entries), rest);
    }
  }

  lemma ObjectFrom(body: Bytes, fields: seq<Field>, rest: Bytes)
    requires ParseFields(body) == Some(Parsed(fields, rest))
    ensures ParseValue([0x7b] + body) == Some(Parsed(Object(fields), rest))
  {
    var s := [0x7b] + body;
    assert SkipSpace(s) == s && s[1..] == body;
    assert SkipSpace(body)[0] == 0x22;
    SkipTwice(body);
    SameValue(body, SkipSpace(body));
  }

  lemma EmptyObjectReads(space: Bytes)
    requires AreSpaces(space)
    ensures Reads([0x7b] + space + [0x7d], Object([]))
  {
    forall rest | Stops(rest) ensures ParseValue([0x7b] + space + [0x7d] + rest) == Some(Parsed(Object([]), rest)) {
      var s := [0x7b] + (space + ([0x7d] + rest));
      assert [0x7b] + space + [0x7d] + rest == s;
      SpaceThen(space, 0x7d, rest);
      assert SkipSpace(s) == s && s[1..] == space + ([0x7d] + rest);
      assert ([0x7d] + rest)[1..] == rest;
    }
  }

  /** A value with space around it is a JSON text. */
  lemma TextOf(before: Bytes, s: Bytes, after: Bytes, j: Json)
    requires AreSpaces(before) && AreSpaces(after) && Reads(s, j)
    ensures Parse(before + s + after) == Some(j)
  {
    SpacedReads(before, s, j);
    assert Stops(after);
    SpacesSkipped(after, []);
    assert after + [] == after;
  }
}
