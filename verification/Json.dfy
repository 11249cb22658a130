/**
 JSON text (RFC 8259) as far as a record of a JSON text sequence needs it: which byte
 strings are JSON texts, what shape each has, and how strings and lists of strings are
 written.
 */
module Json {
  import opened Bytes
  import opened Lists

  /** RFC 7464's record separator. */
  const RS: Byte := 0x1e
  const LF: Byte := 0x0a
  const QUOTE: Byte := 0x22
  const COMMA: Byte := 0x2c
  const COLON: Byte := 0x3a
  const BACKSLASH: Byte := 0x5c
  const LBRACKET: Byte := 0x5b
  const RBRACKET: Byte := 0x5d
  const LBRACE: Byte := 0x7b
  const RBRACE: Byte := 0x7d
  const LOWER_U: Byte := 0x75

  /** "true", "false" and "null". */
  const TRUE: Bytes := [0x74, 0x72, 0x75, 0x65]
  const FALSE: Bytes := [0x66, 0x61, 0x6c, 0x73, 0x65]
  const NULL: Bytes := [0x6e, 0x75, 0x6c, 0x6c]

  datatype Field = Field(key: Bytes, value: Json)

  datatype Json =
    | Null
    | Bool(value: bool)
    | Number(token: Bytes)
    | Text(text: Bytes)
    | List(items: seq<Json>)
    | Object(fields: seq<Field>)

  // --- reading ------------------------------------------------------------------

  predicate IsSpace(b: Byte) {
    b == 0x20 || b == 0x09 || b == 0x0a || b == 0x0d
  }

  function SkipSpace(s: Bytes): (r: Bytes)
    ensures |r| <= |s|
  {
    if s != [] && IsSpace(s[0]) then SkipSpace(s[1..]) else s
  }

  predicate IsDigit(b: Byte) {
    0x30 <= b <= 0x39
  }

  /** How many digits `s` opens with. */
  function Digits(s: Bytes): (n: nat)
    ensures n <= |s| && forall i | 0 <= i < n :: IsDigit(s[i])
  {
    if s != [] && IsDigit(s[0]) then 1 + Digits(s[1..]) else 0
  }

  /** The length of the integer part: a zero alone, or digits with no leading zero. */
  function IntegerLen(s: Bytes): (n: nat)
    ensures n <= |s| && forall i | 0 <= i < n :: IsDigit(s[i])
  {
    if s != [] && s[0] == 0x30 then 1 else Digits(s)
  }

  /** The length of a fraction at the front of `s`, zero for none; nothing when a point has no digits after it. */
  function FractionLen(s: Bytes): (n: Option<nat>)
    ensures n.Some? ==> n.value <= |s| && forall i | 0 <= i < n.value :: s[i] != RS
  {
    if s == [] || s[0] != 0x2e then Some(0)
    else
      var d := Digits(s[1..]);
      assert forall i | 1 <= i < 1 + d :: s[i] == s[1..][i - 1];
      if d == 0 then None else Some(1 + d)
  }

  function ExponentLen(s: Bytes): (n: Option<nat>)
    ensures n.Some? ==> n.value <= |s| && forall i | 0 <= i < n.value :: s[i] != RS
  {
    if s == [] || (s[0] != 0x65 && s[0] != 0x45) then Some(0)
    else
      var sign := if |s| > 1 && (s[1] == 0x2b || s[1] == 0x2d) then 2 else 1;
      var d := Digits(s[sign..]);
      assert forall i | sign <= i < sign + d :: s[i] == s[sign..][i - sign];
      if d == 0 then None else Some(sign + d)
  }

  function AfterSign(s: Bytes): Bytes {
    if s != [] && s[0] == 0x2d then s[1..] else s
  }

  /** What follows a number, its sign aside; nothing when there is none. */
  function AfterNumber(t: Bytes): (rest: Option<Bytes>)
    ensures rest.Some? ==> |rest.value| < |t|
  {
    var u := t[IntegerLen(t)..];
    if IntegerLen(t) == 0 then None
    else
      match FractionLen(u)
      case None => None
      case Some(f) =>
        var v := u[f..];
        match ExponentLen(v)
        case None => None
        case Some(e) => Some(v[e..])
  }

  function ParseNumber(s: Bytes): (r: Option<Parsed<Json>>)
    ensures r.Some? ==> |r.value.rest| < |s|
  {
    match AfterNumber(AfterSign(s))
    case None => None
    case Some(rest) => Some(Parsed(Number(s[..|s| - |rest|]), rest))
  }

  function HexValue(b: Byte): (r: Option<nat>)
    ensures r.Some? ==> r.value < 16 && b != RS
  {
    if 0x30 <= b <= 0x39 then Some(b - 0x30)
    else if 0x61 <= b <= 0x66 then Some(b - 0x61 + 10)
    else if 0x41 <= b <= 0x46 then Some(b - 0x41 + 10)
    else None
  }

  /** The code unit of a `\uXXXX` escape at the front of `s`. */
  function CodeUnit(s: Bytes): (r: Option<nat>)
    ensures r.Some? ==> r.value < 0x1_0000 && |s| >= 6 && forall i | 0 <= i < 6 :: s[i] != RS
  {
    if |s| < 6 || s[0] != BACKSLASH || s[1] != LOWER_U then None
    else
      match (HexValue(s[2]), HexValue(s[3]), HexValue(s[4]), HexValue(s[5]))
      case (Some(a), Some(b), Some(c), Some(d)) => Some(a * 4096 + b * 256 + c * 16 + d)
      case _ => None
  }

  /** The UTF-8 form of a code point. */
  function Utf8(c: nat): Bytes
    requires c < 0x11_0000
  {
    if c < 0x80 then [c]
    else if c < 0x800 then [0xc0 + c / 0x40, 0x80 + c % 0x40]
    else if c < 0x1_0000 then [0xe0 + c / 0x1000, 0x80 + c / 0x40 % 0x40, 0x80 + c % 0x40]
    else [0xf0 + c / 0x4_0000, 0x80 + c / 0x1000 % 0x40, 0x80 + c / 0x40 % 0x40, 0x80 + c % 0x40]
  }

  const REPLACEMENT: nat := 0xfffd

  /** One escape: the bytes it stands for and what follows it. Half a surrogate pair reads as U+FFFD. */
  function ParseEscape(s: Bytes): (r: Option<Parsed<Bytes>>)
    requires s != [] && s[0] == BACKSLASH
    ensures r.Some? ==> |r.value.rest| < |s|
  {
    if |s| < 2 then None
    else if s[1] == QUOTE || s[1] == BACKSLASH || s[1] == 0x2f then Some(Parsed([s[1]], s[2..]))
    else if s[1] == 0x62 then Some(Parsed([0x08], s[2..]))
    else if s[1] == 0x66 then Some(Parsed([0x0c], s[2..]))
    else if s[1] == 0x6e then Some(Parsed([0x0a], s[2..]))
    else if s[1] == 0x72 then Some(Parsed([0x0d], s[2..]))
    else if s[1] == 0x74 then Some(Parsed([0x09], s[2..]))
    else
      match CodeUnit(s)
      case None => None
      case Some(u) =>
        if !(0xd800 <= u < 0xe000) then Some(Parsed(Utf8(u), s[6..]))
        else
          var low := CodeUnit(s[6..]);
          if u < 0xdc00 && low.Some? && 0xdc00 <= low.value < 0xe000 then
            Some(Parsed(Utf8(0x1_0000 + (u - 0xd800) * 0x400 + (low.value - 0xdc00)), s[12..]))
          else Some(Parsed(Utf8(REPLACEMENT), s[6..]))
  }

  /** A string past its opening quote: no control character stands unescaped in it (section 7 of RFC 8259). */
  function ParseText(s: Bytes): (r: Option<Parsed<Bytes>>)
    ensures r.Some? ==> |r.value.rest| < |s|
    decreases |s|
  {
    if s == [] || s[0] < 0x20 then None
    else if s[0] == QUOTE then Some(Parsed([], s[1..]))
    else
      var first := if s[0] == BACKSLASH then ParseEscape(s) else Some(Parsed([s[0]], s[1..]));
      match first
      case None => None
      case Some(p) =>
        match ParseText(p.rest)
        case None => None
        case Some(q) => Some(Parsed(p.value + q.value, q.rest))
  }

  function ParseValue(s: Bytes): (r: Option<Parsed<Json>>)
    ensures r.Some? ==> |r.value.rest| < |s|
    decreases |s|, 0
  {
    var t := SkipSpace(s);
    if t == [] then None
    else if t[0] == LBRACE then
      var u := SkipSpace(t[1..]);
      if u != [] && u[0] == RBRACE then Some(Parsed(Object([]), u[1..]))
      else
        match ParseFields(u)
        case None => None
        case Some(p) => Some(Parsed(Object(p.value), p.rest))
    else if t[0] == LBRACKET then
      var u := SkipSpace(t[1..]);
      if u != [] && u[0] == RBRACKET then Some(Parsed(List([]), u[1..]))
      else
        match ParseItems(u)
        case None => None
        case Some(p) => Some(Parsed(List(p.value), p.rest))
    else if t[0] == QUOTE then
      match ParseText(t[1..])
      case None => None
      case Some(p) => Some(Parsed(Text(p.value), p.rest))
    else if TRUE <= t then Some(Parsed(Bool(true), t[|TRUE|..]))
    else if FALSE <= t then Some(Parsed(Bool(false), t[|FALSE|..]))
    else if NULL <= t then Some(Parsed(Null, t[|NULL|..]))
    else ParseNumber(t)
  }

  /** The items of a non-empty list, closing bracket included. */
  function ParseItems(s: Bytes): (r: Option<Parsed<seq<Json>>>)
    ensures r.Some? ==> |r.value.rest| < |s|
    decreases |s|, 1
  {
    match ParseValue(s)
    case None => None
    case Some(p) =>
      var t := SkipSpace(p.rest);
      if t == [] then None
      else if t[0] == RBRACKET then Some(Parsed([p.value], t[1..]))
      else if t[0] != COMMA then None
      else
        match ParseItems(t[1..])
        case None => None
        case Some(q) => Some(Parsed([p.value] + q.value, q.rest))
  }

  /** The key of a field and its colon. */
  function ParseKey(s: Bytes): (r: Option<Parsed<Bytes>>)
    ensures r.Some? ==> |r.value.rest| < |s|
  {
    var t := SkipSpace(s);
    if t == [] || t[0] != QUOTE then None
    else
      match ParseText(t[1..])
      case None => None
      case Some(k) =>
        var u := SkipSpace(k.rest);
        if u == [] || u[0] != COLON then None else Some(Parsed(k.value, u[1..]))
  }

  /** The fields of a non-empty object, closing brace included. */
  function ParseFields(s: Bytes): (r: Option<Parsed<seq<Field>>>)
    ensures r.Some? ==> |r.value.rest| < |s|
    decreases |s|, 1
  {
    match ParseKey(s)
    case None => None
    case Some(k) =>
      match ParseValue(k.rest)
      case None => None
      case Some(p) =>
        var t := SkipSpace(p.rest);
        if t == [] then None
        else if t[0] == RBRACE then Some(Parsed([Field(k.value, p.value)], t[1..]))
        else if t[0] != COMMA then None
        else
          match ParseFields(t[1..])
          case None => None
          case Some(q) => Some(Parsed([Field(k.value, p.value)] + q.value, q.rest))
  }

  /** A JSON text: one value with nothing but space around it. */
  function Parse(s: Bytes): Option<Json> {
    match ParseValue(s)
    case None => None
    case Some(p) => if SkipSpace(p.rest) == [] then Some(p.value) else None
  }

  function Keys(fields: seq<Field>): set<Bytes> {
    set f | f in fields :: f.key
  }

  // --- no JSON text holds a record separator ------------------------------------------

  function Separators(s: Bytes): nat {
    if s == [] then 0 else (if s[0] == RS then 1 else 0) + Separators(s[1..])
  }

  lemma {:induction false} SeparatorsDrop(s: Bytes, n: nat)
    requires n <= |s| && forall i | 0 <= i < n :: s[i] != RS
    ensures Separators(s) == Separators(s[n..])
  {
    if n > 0 {
      SeparatorsDrop(s[1..], n - 1);
      assert s[1..][n - 1..] == s[n..];
    } else {
      assert s[0..] == s;
    }
  }

  lemma {:induction false} NoSeparator(s: Bytes)
    requires Separators(s) == 0
    ensures RS !in s
  {
    if s != [] {
      NoSeparator(s[1..]);
      assert s == [s[0]] + s[1..];
    }
  }

  lemma {:induction false} SpaceKeeps(s: Bytes)
    ensures Separators(SkipSpace(s)) == Separators(s)
  {
    if s != [] && IsSpace(s[0]) {
      SpaceKeeps(s[1..]);
    }
  }

  lemma {:induction false} EscapeKeeps(s: Bytes)
    requires s != [] && s[0] == BACKSLASH && ParseEscape(s).Some?
    ensures Separators(ParseEscape(s).value.rest) == Separators(s)
  {
    var n := |s| - |ParseEscape(s).value.rest|;
    if n == 12 {
      assert forall i | 6 <= i < 12 :: s[i] == s[6..][i - 6];
    }
    SeparatorsDrop(s, n);
  }

  lemma {:induction false} TextKeeps(s: Bytes)
    requires ParseText(s).Some?
    ensures Separators(ParseText(s).value.rest) == Separators(s)
    decreases |s|
  {
    if s[0] == BACKSLASH {
      EscapeKeeps(s);
      TextKeeps(ParseEscape(s).value.rest);
    } else if s[0] != QUOTE {
      TextKeeps(s[1..]);
    }
  }

  lemma {:induction false} NumberKeeps(s: Bytes)
    requires ParseNumber(s).Some?
    ensures Separators(ParseNumber(s).value.rest) == Separators(s)
  {
    var t := AfterSign(s);
    var u := t[IntegerLen(t)..];
    var v := u[FractionLen(u).value..];
    SeparatorsDrop(t, IntegerLen(t));
    SeparatorsDrop(u, FractionLen(u).value);
    SeparatorsDrop(v, ExponentLen(v).value);
  }

  lemma {:induction false} ValueKeeps(s: Bytes)
    requires ParseValue(s).Some?
    ensures Separators(ParseValue(s).value.rest) == Separators(s)
    decreases |s|, 0
  {
    var t := SkipSpace(s);
    SpaceKeeps(s);
    if t[0] == LBRACE || t[0] == LBRACKET {
      var u := SkipSpace(t[1..]);
      SpaceKeeps(t[1..]);
      if u != [] && u[0] == (if t[0] == LBRACE then RBRACE else RBRACKET) {
      } else if t[0] == LBRACE {
        FieldsKeep(u);
      } else {
        ItemsKeep(u);
      }
    } else if t[0] == QUOTE {
      TextKeeps(t[1..]);
    } else if TRUE <= t || FALSE <= t || NULL <= t {
      SeparatorsDrop(t, if FALSE <= t then 5 else 4);
    } else {
      NumberKeeps(t);
    }
  }

  lemma {:induction false} ItemsKeep(s: Bytes)
    requires ParseItems(s).Some?
    ensures Separators(ParseItems(s).value.rest) == Separators(s)
    decreases |s|, 1
  {
    var rest := ParseValue(s).value.rest;
    ValueKeeps(s);
    SpaceKeeps(rest);
    var t := SkipSpace(rest);
    if t[0] == COMMA {
      ItemsKeep(t[1..]);
    }
  }

  lemma {:induction false} KeyKeeps(s: Bytes)
    requires ParseKey(s).Some?
    ensures Separators(ParseKey(s).value.rest) == Separators(s)
  {
    var t := SkipSpace(s);
    SpaceKeeps(s);
    TextKeeps(t[1..]);
    SpaceKeeps(ParseText(t[1..]).value.rest);
  }

  lemma {:induction false} FieldsKeep(s: Bytes)
    requires ParseFields(s).Some?
    ensures Separators(ParseFields(s).value.rest) == Separators(s)
    decreases |s|, 1
  {
    var after := ParseKey(s).value.rest;
    KeyKeeps(s);
    ValueKeeps(after);
    var rest := ParseValue(after).value.rest;
    SpaceKeeps(rest);
    var t := SkipSpace(rest);
    if t[0] == COMMA {
      FieldsKeep(t[1..]);
    }
  }

  /** What makes the framing of RFC 7464 sound: the separator occurs in no JSON text at all. */
  lemma {:induction false} JsonHoldsNoSeparator(s: Bytes)
    requires Parse(s).Some?
    ensures RS !in s
  {
    ValueKeeps(s);
    SpaceKeeps(ParseValue(s).value.rest);
    NoSeparator(s);
  }

  // --- writing strings and lists of strings ----------------------------------------------

  function HexDigit(n: nat): Byte
    requires n < 16
  {
    if n < 10 then 0x30 + n else 0x61 + (n - 10)
  }

  /** One byte of an ASCII string as Go's encoder writes it: `<`, `>` and `&` are escaped too. */
  function EscapeByte(b: Byte): Bytes {
    if b == QUOTE || b == BACKSLASH then [BACKSLASH, b]
    else if b == 0x08 then [BACKSLASH, 0x62]
    else if b == 0x0c then [BACKSLASH, 0x66]
    else if b == 0x0a then [BACKSLASH, 0x6e]
    else if b == 0x0d then [BACKSLASH, 0x72]
    else if b == 0x09 then [BACKSLASH, 0x74]
    else if b < 0x20 || b == 0x3c || b == 0x3e || b == 0x26 then
      [BACKSLASH, LOWER_U, 0x30, 0x30, HexDigit(b / 16), HexDigit(b % 16)]
    else [b]
  }

  function Escape(text: Bytes): Bytes {
    if text == [] then [] else EscapeByte(text[0]) + Escape(text[1..])
  }

  function MarshalText(text: Bytes): Bytes {
    [QUOTE] + Escape(text) + [QUOTE]
  }

  /** The items of a list past its opening bracket. */
  function ListBody(texts: seq<Bytes>): Bytes {
    if texts == [] then [RBRACKET]
    else MarshalText(texts[0]) + (if |texts| == 1 then [] else [COMMA]) + ListBody(texts[1..])
  }

  function MarshalTexts(texts: seq<Bytes>): Bytes {
    [LBRACKET] + ListBody(texts)
  }

  ghost predicate Ascii(text: Bytes) {
    forall i | 0 <= i < |text| :: text[i] < 0x80
  }

  /**
   A byte is written as it is, but for the two that end or open an escape, control characters, and
   the three of markup.
   */
  lemma EscapeByteTells(b: Byte)
    ensures EscapeByte(b) == [b] <==> b >= 0x20 && b !in {0x22, 0x5c, 0x3c, 0x3e, 0x26}
    ensures EscapeByte(b) != [b] ==> EscapeByte(b)[0] == 0x5c && |EscapeByte(b)| in {2, 6}
    ensures forall e | e in EscapeByte(b) :: e >= 0x20 && e !in {0x3c, 0x3e, 0x26}
  {
  }

  /** So a text is written with no markup and nothing unprintable below a space. */
  lemma {:induction false} EscapeIsSafe(text: Bytes)
    ensures forall e | e in Escape(text) :: e >= 0x20 && e !in {0x3c, 0x3e, 0x26}
  {
    if text != [] {
      EscapeByteTells(text[0]);
      EscapeIsSafe(text[1..]);
    }
  }

  lemma {:induction false} UnicodeEscapeReads(b: Byte, rest: Bytes)
    requires b < 0x80
    ensures var s := [BACKSLASH, LOWER_U, 0x30, 0x30, HexDigit(b / 16), HexDigit(b % 16)] + rest;
            ParseEscape(s) == Some(Parsed([b], rest))
  {
    var s := [BACKSLASH, LOWER_U, 0x30, 0x30, HexDigit(b / 16), HexDigit(b % 16)] + rest;
    assert CodeUnit(s) == Some(b);
    assert s[6..] == rest;
  }

  lemma {:induction false} EscapeByteReads(b: Byte, rest: Bytes)
    requires b < 0x80 && ParseText(rest).Some?
    ensures ParseText(EscapeByte(b) + rest)
         == Some(Parsed([b] + ParseText(rest).value.value, ParseText(rest).value.rest))
  {
    var e := EscapeByte(b);
    var s := e + rest;
    assert s[|e|..] == rest;
    if |e| == 6 {
      UnicodeEscapeReads(b, rest);
    }
    if |e| == 1 {
      assert s[0] == b != BACKSLASH && b != QUOTE;
    } else {
      assert s[0] == BACKSLASH && s[1] == e[1];
      assert ParseEscape(s) == Some(Parsed([b], rest));
    }
  }

  lemma {:induction false} EscapeReads(text: Bytes, rest: Bytes)
    requires Ascii(text)
    ensures ParseText(Escape(text) + ([QUOTE] + rest)) == Some(Parsed(text, rest))
  {
    var close: Bytes := [QUOTE] + rest;
    if text == [] {
      assert Escape(text) + close == close;
    } else {
      var e, tail := EscapeByte(text[0]), Escape(text[1..]);
      EscapeReads(text[1..], rest);
      EscapeByteReads(text[0], tail + close);
      Regroup(e, tail, close);
      assert text == [text[0]] + text[1..];
    }
  }

  lemma {:induction false} MarshalTextReads(text: Bytes, rest: Bytes)
    requires Ascii(text)
    ensures ParseValue(MarshalText(text) + rest) == Some(Parsed(Text(text), rest))
  {
    EscapeReads(text, rest);
    assert MarshalText(text) + rest == [QUOTE] + (Escape(text) + ([QUOTE] + rest));
    TextValueReads(Escape(text) + ([QUOTE] + rest), text, rest);
  }

  lemma TextValueReads(s: Bytes, text: Bytes, rest: Bytes)
    requires ParseText(s) == Some(Parsed(text, rest))
    ensures ParseValue([QUOTE] + s) == Some(Parsed(Text(text), rest))
  {
    assert ([QUOTE] + s)[1..] == s;
    assert SkipSpace([QUOTE] + s) == [QUOTE] + s;
  }

  function Texts(texts: seq<Bytes>): (r: seq<Json>)
    ensures |r| == |texts| && forall i | 0 <= i < |r| :: r[i] == Text(texts[i])
  {
    if texts == [] then [] else [Text(texts[0])] + Texts(texts[1..])
  }

  lemma {:induction false} ListBodyReads(texts: seq<Bytes>)
    requires texts != [] && forall i | 0 <= i < |texts| :: Ascii(texts[i])
    ensures ParseItems(ListBody(texts)) == Some(Parsed(Texts(texts), []))
  {
    var after: Bytes := (if |texts| == 1 then [] else [COMMA]) + ListBody(texts[1..]);
    assert ListBody(texts) == MarshalText(texts[0]) + after;
    MarshalTextReads(texts[0], after);
    assert SkipSpace(after) == after;
    if |texts| > 1 {
      ListBodyReads(texts[1..]);
      assert after[1..] == ListBody(texts[1..]);
    } else {
      assert after == [RBRACKET];
      assert Texts(texts) == [Text(texts[0])];
    }
  }

  lemma {:induction false} MarshalTextParses(text: Bytes)
    requires Ascii(text)
    ensures Parse(MarshalText(text)) == Some(Text(text))
  {
    MarshalTextReads(text, []);
    assert MarshalText(text) + [] == MarshalText(text);
  }

  lemma {:induction false} MarshalTextsParses(texts: seq<Bytes>)
    requires forall i | 0 <= i < |texts| :: Ascii(texts[i])
    ensures Parse(MarshalTexts(texts)) == Some(List(Texts(texts)))
  {
    var s := MarshalTexts(texts);
    var body := ListBody(texts);
    assert s[0] == LBRACKET && s[1..] == body;
    assert SkipSpace(s) == s;
    if texts == [] {
      assert body == [RBRACKET];
    } else {
      ListBodyReads(texts);
      assert body[0] == QUOTE;
    }
    assert SkipSpace(body) == body;
  }
}
