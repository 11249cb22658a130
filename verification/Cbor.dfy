/**
 Well-formed CBOR (section 3 of RFC 8949) and CBOR sequences (section 2 of RFC 8742).

 `Item` is the concrete syntax tree of one data item: it keeps the width of every head and
 whether a length was definite, so `Encode` reaches every well-formed item, the shortest
 form or not. `Parse` is the decoder's view: the first item of a byte string and the rest.
 The two are inverse to each other in both directions, which is what makes a sequence of
 bare items splittable.
 */
module Cbor {
  import opened Bytes
  import opened Lists

  const TEXT: nat := 3
  const ARRAY: nat := 4
  const MAP: nat := 5
  const TAG: nat := 6
  const INDEFINITE: nat := 31
  const BREAK: Byte := 0xff

  // --- concrete syntax ---------------------------------------------------------

  /** An initial byte's major type and additional information, with its argument bytes. */
  datatype Head = Head(major: nat, info: nat, arg: Bytes) {
    predicate Valid() {
      major < 8 && info < 28 && |arg| == ArgLen(info)
    }

    function Value(): nat {
      if info < 24 then info else BigEndian(arg)
    }

    function Encode(): Bytes
      requires Valid()
    {
      [major * 32 + info] + arg
    }
  }

  /** How many argument bytes follow an initial byte. */
  function ArgLen(info: nat): nat {
    if info == 24 then 1 else if info == 25 then 2 else if info == 26 then 4 else if info == 27 then 8 else 0
  }

  function BigEndian(s: Bytes): nat {
    if s == [] then 0 else BigEndian(s[..|s| - 1]) * 256 + s[|s| - 1]
  }

  /**
   One data item. `Leaf` is an integer, a simple value or a float; `Str` a definite string;
   `Group` a definite array, map (keys and values alternating) or tag; `OpenStr` and
   `OpenGroup` their indefinite-length forms.
   */
  datatype Item =
    | Leaf(h: Head)
    | Str(h: Head, data: Bytes)
    | Group(h: Head, items: seq<Item>)
    | OpenStr(major: nat, items: seq<Item>)
    | OpenGroup(major: nat, items: seq<Item>)
  {
    function Major(): nat {
      if OpenStr? || OpenGroup? then major else h.major
    }

    /** What section 3 of RFC 8949 asks of an item. */
    ghost predicate Valid() {
      match this
      case Leaf(h) => h.Valid() && LeafHead(h)
      case Str(h, data) => h.Valid() && h.major in {2, 3} && h.Value() == |data|
      case Group(h, items) =>
        h.Valid() && h.major in {4, 5, 6} && |items| == Arity(h) && (forall i | 0 <= i < |items| :: items[i].Valid())
      case OpenStr(m, items) =>
        m in {2, 3} && Chunks(m, items) && (forall i | 0 <= i < |items| :: items[i].Valid())
      case OpenGroup(m, items) =>
        m in {4, 5} && (m == 5 ==> |items| % 2 == 0) && (forall i | 0 <= i < |items| :: items[i].Valid())
    }
  }

  /** A head that is an item on its own; a one-byte simple value below 32 is reserved. */
  predicate LeafHead(h: Head)
    requires h.Valid()
  {
    h.major in {0, 1, 7} && (h.major == 7 && h.info == 24 ==> h.arg[0] >= 32)
  }

  /** How many items a definite head announces. */
  function Arity(h: Head): nat {
    if h.major == 4 then h.Value() else if h.major == 5 then 2 * h.Value() else 1
  }

  /** An indefinite string is made of definite strings of its own major type. */
  predicate Chunks(major: nat, items: seq<Item>) {
    forall i | 0 <= i < |items| :: items[i].Str? && items[i].h.major == major
  }

  function Encode(x: Item): Bytes
    requires x.Valid()
    decreases x
  {
    match x
    case Leaf(h) => h.Encode()
    case Str(h, data) => h.Encode() + data
    case Group(h, items) => h.Encode() + EncodeAll(items)
    case OpenStr(m, items) => [m * 32 + INDEFINITE] + EncodeAll(items) + [BREAK]
    case OpenGroup(m, items) => [m * 32 + INDEFINITE] + EncodeAll(items) + [BREAK]
  }

  function EncodeAll(xs: seq<Item>): Bytes
    requires forall i | 0 <= i < |xs| :: xs[i].Valid()
    decreases xs
  {
    if xs == [] then [] else Encode(xs[0]) + EncodeAll(xs[1..])
  }

  // --- the decoder -------------------------------------------------------------

  function ParseHead(s: Bytes): (r: Option<Parsed<Head>>)
    ensures r.Some? ==> r.value.value.Valid() && s == r.value.value.Encode() + r.value.rest
  {
    if s == [] then None
    else
      var major, info := s[0] / 32, s[0] % 32;
      var n := ArgLen(info);
      if info >= 28 || |s| < 1 + n then None
      else Some(Parsed(Head(major, info, s[1..1 + n]), s[1 + n..]))
  }

  /** The first item of `s` and what follows it, or nothing when `s` opens with no well-formed item. */
  function Parse(s: Bytes): (r: Option<Parsed<Item>>)
    ensures r.Some? ==> |r.value.rest| < |s|
    decreases |s|, 0
  {
    if s == [] then None
    else if s[0] % 32 == INDEFINITE then
      var m := s[0] / 32;
      if m !in {2, 3, 4, 5} then None
      else
        match ParseOpen(s[1..])
        case None => None
        case Some(p) =>
          if m in {2, 3} then
            if Chunks(m, p.value) then Some(Parsed(OpenStr(m, p.value), p.rest)) else None
          else if m == 5 && |p.value| % 2 != 0 then None
          else Some(Parsed(OpenGroup(m, p.value), p.rest))
    else
      match ParseHead(s)
      case None => None
      case Some(p) =>
        var h := p.value;
        if h.major in {2, 3} then
          if |p.rest| < h.Value() then None
          else Some(Parsed(Str(h, p.rest[..h.Value()]), p.rest[h.Value()..]))
        else if h.major in {4, 5, 6} then
          match ParseMany(p.rest, Arity(h))
          case None => None
          case Some(q) => Some(Parsed(Group(h, q.value), q.rest))
        else if LeafHead(h) then Some(Parsed(Leaf(h), p.rest))
        else None
  }

  /** Exactly `n` items. */
  function ParseMany(s: Bytes, n: nat): (r: Option<Parsed<seq<Item>>>)
    ensures r.Some? ==> |r.value.rest| <= |s|
    decreases |s|, 1, n
  {
    if n == 0 then Some(Parsed([], s))
    else
      match Parse(s)
      case None => None
      case Some(p) =>
        match ParseMany(p.rest, n - 1)
        case None => None
        case Some(q) => Some(Parsed([p.value] + q.value, q.rest))
  }

  /** Items up to the break that closes an indefinite length. */
  function ParseOpen(s: Bytes): (r: Option<Parsed<seq<Item>>>)
    ensures r.Some? ==> |r.value.rest| < |s|
    decreases |s|, 1
  {
    if s == [] then None
    else if s[0] == BREAK then Some(Parsed([], s[1..]))
    else
      match Parse(s)
      case None => None
      case Some(p) =>
        match ParseOpen(p.rest)
        case None => None
        case Some(q) => Some(Parsed([p.value] + q.value, q.rest))
  }

  // --- decoding undoes encoding, whatever follows --------------------------------

  lemma {:induction false} ParseHeadOfEncode(h: Head, rest: Bytes)
    requires h.Valid()
    ensures ParseHead(h.Encode() + rest) == Some(Parsed(h, rest))
  {
    var s := h.Encode() + rest;
    assert s[0] == h.major * 32 + h.info;
    assert s[1..1 + |h.arg|] == h.arg;
    assert s[1 + |h.arg|..] == rest;
  }

  lemma {:induction false} ParseOfLeaf(h: Head, rest: Bytes)
    requires h.Valid() && LeafHead(h)
    ensures Parse(h.Encode() + rest) == Some(Parsed(Leaf(h), rest))
  {
    ParseHeadOfEncode(h, rest);
    assert (h.Encode() + rest)[0] == h.major * 32 + h.info;
  }

  lemma {:induction false} ParseOfStr(h: Head, data: Bytes, rest: Bytes)
    requires h.Valid() && h.major in {2, 3} && h.Value() == |data|
    ensures Parse(h.Encode() + data + rest) == Some(Parsed(Str(h, data), rest))
  {
    ParseHeadOfEncode(h, data + rest);
    assert h.Encode() + data + rest == h.Encode() + (data + rest);
    assert (h.Encode() + data + rest)[0] == h.major * 32 + h.info;
    assert (data + rest)[..|data|] == data && (data + rest)[|data|..] == rest;
  }

  lemma {:induction false} ParseOfGroup(h: Head, body: Bytes, items: seq<Item>, rest: Bytes)
    requires h.Valid() && h.major in {4, 5, 6}
    requires ParseMany(body + rest, Arity(h)) == Some(Parsed(items, rest))
    ensures Parse(h.Encode() + body + rest) == Some(Parsed(Group(h, items), rest))
  {
    Regroup(h.Encode(), body, rest);
    ParseHeadOfEncode(h, body + rest);
    HeadOpens(h, body + rest);
    ParsedGroup(h.Encode() + (body + rest), h, body + rest, items, rest);
  }

  lemma HeadOpens(h: Head, rest: Bytes)
    requires h.Valid()
    ensures var s := h.Encode() + rest; s != [] && s[0] / 32 == h.major && s[0] % 32 == h.info
  {
    assert (h.Encode() + rest)[0] == h.major * 32 + h.info;
  }

  lemma {:induction false} ParseOfOpen(m: nat, body: Bytes, items: seq<Item>, rest: Bytes)
    requires m in {2, 3, 4, 5} && ParseOpen(body) == Some(Parsed(items, rest))
    requires m in {2, 3} ==> Chunks(m, items)
    requires m == 5 ==> |items| % 2 == 0
    ensures Parse([m * 32 + INDEFINITE] + body)
         == Some(Parsed(if m in {2, 3} then OpenStr(m, items) else OpenGroup(m, items), rest))
  {
    var s := [m * 32 + INDEFINITE] + body;
    assert s[0] % 32 == INDEFINITE && s[0] / 32 == m && s[1..] == body;
  }

  /** No well-formed item is a proper prefix of another: the decoder stops exactly where the item does. */
  lemma {:induction false} ParseOfEncode(x: Item, rest: Bytes)
    requires x.Valid()
    ensures Parse(Encode(x) + rest) == Some(Parsed(x, rest))
    decreases x, 1
  {
    match x
    case Leaf(h) =>
      ParseOfLeaf(h, rest);
    case Str(h, data) =>
      ParseOfStr(h, data, rest);
    case Group(h, items) =>
      ParseManyOfEncode(items, rest);
      ParseOfGroup(h, EncodeAll(items), items, rest);
    case OpenStr(m, items) =>
      ParseOfOpenEncoding(x, rest);
    case OpenGroup(m, items) =>
      ParseOfOpenEncoding(x, rest);
  }

  lemma {:induction false} ParseOfOpenEncoding(x: Item, rest: Bytes)
    requires x.Valid() && (x.OpenStr? || x.OpenGroup?)
    ensures Parse(Encode(x) + rest) == Some(Parsed(x, rest))
    decreases x, 0
  {
    var m, items := x.major, x.items;
    var body := EncodeAll(items) + [BREAK] + rest;
    ParseOpenOfEncode(items, rest);
    Regroup(EncodeAll(items), [BREAK], rest);
    ParseOfOpen(m, body, items, rest);
    OpenEncodes(m, items, body, rest);
    assert x == if m in {2, 3} then OpenStr(m, items) else OpenGroup(m, items);
  }

  lemma EncodeAllCons(xs: seq<Item>, rest: Bytes)
    requires xs != [] && forall i | 0 <= i < |xs| :: xs[i].Valid()
    ensures EncodeAll(xs) + rest == Encode(xs[0]) + (EncodeAll(xs[1..]) + rest)
  {
    Regroup(Encode(xs[0]), EncodeAll(xs[1..]), rest);
  }

  lemma ParseManyStep(s: Bytes, x: Item, tail: Bytes, xs: seq<Item>, rest: Bytes)
    requires Parse(s) == Some(Parsed(x, tail)) && ParseMany(tail, |xs|) == Some(Parsed(xs, rest))
    ensures ParseMany(s, |[x] + xs|) == Some(Parsed([x] + xs, rest))
  {
    assert |[x] + xs| - 1 == |xs|;
  }

  lemma {:induction false} ParseManyOfEncode(xs: seq<Item>, rest: Bytes)
    requires forall i | 0 <= i < |xs| :: xs[i].Valid()
    ensures ParseMany(EncodeAll(xs) + rest, |xs|) == Some(Parsed(xs, rest))
    decreases xs
  {
    if xs == [] {
      assert EncodeAll(xs) + rest == rest;
    } else {
      var x, more := xs[0], xs[1..];
      var tail := EncodeAll(more) + rest;
      EncodeAllCons(xs, rest);
      ParseOfEncode(x, tail);
      ParseManyOfEncode(more, rest);
      ParseManyStep(Encode(x) + tail, x, tail, more, rest);
      assert xs == [x] + more;
    }
  }

  lemma ParseOpenStep(s: Bytes, x: Item, tail: Bytes, xs: seq<Item>, rest: Bytes)
    requires s != [] && s[0] != BREAK && Parse(s) == Some(Parsed(x, tail)) && ParseOpen(tail) == Some(Parsed(xs, rest))
    ensures ParseOpen(s) == Some(Parsed([x] + xs, rest))
  {
  }

  lemma {:induction false} ParseOpenOfEncode(xs: seq<Item>, rest: Bytes)
    requires forall i | 0 <= i < |xs| :: xs[i].Valid()
    ensures ParseOpen(EncodeAll(xs) + ([BREAK] + rest)) == Some(Parsed(xs, rest))
    decreases xs
  {
    var close := [BREAK] + rest;
    if xs == [] {
      ParseOpenOfBreak(rest);
      assert EncodeAll(xs) + close == close;
    } else {
      var x, more := xs[0], xs[1..];
      var tail := EncodeAll(more) + close;
      EncodeAllCons(xs, close);
      assert xs == [x] + more;
      ParseOpenOfEncode(more, rest);
      ParseOfEncode(x, tail);
      ParseOpenPast(x, tail, more, rest);
    }
  }

  lemma ParseOpenOfBreak(rest: Bytes)
    ensures ParseOpen([BREAK] + rest) == Some(Parsed([], rest))
  {
  }

  lemma ParseOpenPast(x: Item, tail: Bytes, xs: seq<Item>, rest: Bytes)
    requires x.Valid() && Parse(Encode(x) + tail) == Some(Parsed(x, tail)) && ParseOpen(tail) == Some(Parsed(xs, rest))
    ensures ParseOpen(Encode(x) + tail) == Some(Parsed([x] + xs, rest))
  {
    FirstByte(x);
    assert (Encode(x) + tail)[0] == Encode(x)[0];
    ParseOpenStep(Encode(x) + tail, x, tail, xs, rest);
  }

  /** An item opens with its major type, so it never opens with a break. */
  lemma FirstByte(x: Item)
    requires x.Valid()
    ensures Encode(x) != [] && Encode(x)[0] / 32 == x.Major() && Encode(x)[0] != BREAK
  {
  }

  // --- the decoder accepts nothing else -------------------------------------------

  lemma {:induction false} EncodeOfParse(s: Bytes)
    requires Parse(s).Some?
    ensures var p := Parse(s).value; p.value.Valid() && s == Encode(p.value) + p.rest
    decreases |s|, 0
  {
    if s[0] % 32 == INDEFINITE {
      EncodeOfParseOpen(s[1..]);
      EncodeOfOpen(s);
    } else {
      var q := ParseHead(s).value;
      if q.value.major in {4, 5, 6} {
        EncodeOfParseMany(q.rest, Arity(q.value));
        EncodeOfGroup(s);
      }
    }
  }

  /** What an indefinite-length item was read from. */
  lemma {:induction false} EncodeOfOpen(s: Bytes)
    requires Parse(s).Some? && s[0] % 32 == INDEFINITE && ParseOpen(s[1..]).Some?
    requires var q := ParseOpen(s[1..]).value;
             (forall i | 0 <= i < |q.value| :: q.value[i].Valid()) && s[1..] == EncodeAll(q.value) + [BREAK] + q.rest
    ensures var p := Parse(s).value; p.value.Valid() && s == Encode(p.value) + p.rest
  {
    var m, q := s[0] / 32, ParseOpen(s[1..]).value;
    ParsedOpen(s, m, q.value, q.rest);
    OpenEncodes(m, q.value, s[1..], q.rest);
    assert s == [m * 32 + INDEFINITE] + s[1..];
  }

  lemma ParsedOpen(s: Bytes, m: nat, items: seq<Item>, rest: Bytes)
    requires Parse(s).Some? && s[0] % 32 == INDEFINITE && m == s[0] / 32
             && ParseOpen(s[1..]) == Some(Parsed(items, rest))
    ensures m in {2, 3, 4, 5} && (m in {2, 3} ==> Chunks(m, items)) && (m == 5 ==> |items| % 2 == 0)
    ensures Parse(s).value == Parsed(if m in {2, 3} then OpenStr(m, items) else OpenGroup(m, items), rest)
  {
  }

  lemma OpenEncodes(m: nat, items: seq<Item>, body: Bytes, rest: Bytes)
    requires m in {2, 3, 4, 5} && (m in {2, 3} ==> Chunks(m, items)) && (m == 5 ==> |items| % 2 == 0)
    requires (forall i | 0 <= i < |items| :: items[i].Valid()) && body == EncodeAll(items) + [BREAK] + rest
    ensures var x := if m in {2, 3} then OpenStr(m, items) else OpenGroup(m, items);
            x.Valid() && [m * 32 + INDEFINITE] + body == Encode(x) + rest
  {
    var x := if m in {2, 3} then OpenStr(m, items) else OpenGroup(m, items);
    var open: Bytes, inner := [m * 32 + INDEFINITE], EncodeAll(items) + [BREAK];
    assert x.Valid();
    assert Encode(x) == open + inner by {
      Regroup(open, EncodeAll(items), [BREAK]);
    }
    Regroup(open, inner, rest);
  }

  /** What a definite array, map or tag was read from. */
  lemma {:induction false} EncodeOfGroup(s: Bytes)
    requires Parse(s).Some? && s[0] % 32 != INDEFINITE && ParseHead(s).Some?
    requires var q := ParseHead(s).value; q.value.major in {4, 5, 6} && ParseMany(q.rest, Arity(q.value)).Some?
    requires var q := ParseHead(s).value; var r := ParseMany(q.rest, Arity(q.value)).value;
                                          |r.value| == Arity(q.value)
                                          && (forall i | 0 <= i < |r.value| :: r.value[i].Valid())
                                          && q.rest == EncodeAll(r.value) + r.rest
    ensures var p := Parse(s).value; p.value.Valid() && s == Encode(p.value) + p.rest
  {
    var q := ParseHead(s).value;
    var r := ParseMany(q.rest, Arity(q.value)).value;
    ParsedGroup(s, q.value, q.rest, r.value, r.rest);
    GroupEncodes(q.value, r.value, q.rest, r.rest);
  }

  lemma ParsedGroup(s: Bytes, h: Head, body: Bytes, items: seq<Item>, rest: Bytes)
    requires s != [] && s[0] % 32 != INDEFINITE && ParseHead(s) == Some(Parsed(h, body)) && h.major in {4, 5, 6}
    requires ParseMany(body, Arity(h)) == Some(Parsed(items, rest))
    ensures Parse(s) == Some(Parsed(Group(h, items), rest))
  {
  }

  lemma GroupEncodes(h: Head, items: seq<Item>, body: Bytes, rest: Bytes)
    requires h.Valid() && h.major in {4, 5, 6} && |items| == Arity(h)
    requires (forall i | 0 <= i < |items| :: items[i].Valid()) && body == EncodeAll(items) + rest
    ensures Group(h, items).Valid() && h.Encode() + body == Encode(Group(h, items)) + rest
  {
    Regroup(h.Encode(), EncodeAll(items), rest);
  }

  lemma {:induction false} OneMore(x: Item, xs: seq<Item>, rest: Bytes, more: Bytes)
    requires x.Valid() && (forall i | 0 <= i < |xs| :: xs[i].Valid()) && rest == EncodeAll(xs) + more
    ensures forall i | 0 <= i < |[x] + xs| :: ([x] + xs)[i].Valid()
    ensures Encode(x) + rest == EncodeAll([x] + xs) + more
  {
    assert ([x] + xs)[1..] == xs;
    assert Encode(x) + (EncodeAll(xs) + more) == Encode(x) + EncodeAll(xs) + more;
  }

  lemma {:induction false} OneMoreOpen(x: Item, xs: seq<Item>, rest: Bytes, more: Bytes)
    requires x.Valid() && (forall i | 0 <= i < |xs| :: xs[i].Valid()) && rest == EncodeAll(xs) + [BREAK] + more
    ensures forall i | 0 <= i < |[x] + xs| :: ([x] + xs)[i].Valid()
    ensures Encode(x) + rest == EncodeAll([x] + xs) + [BREAK] + more
  {
    Regroup(EncodeAll(xs), [BREAK], more);
    Regroup(EncodeAll([x] + xs), [BREAK], more);
    OneMore(x, xs, rest, [BREAK] + more);
  }

  lemma {:induction false} EncodeOfParseMany(s: Bytes, n: nat)
    requires ParseMany(s, n).Some?
    ensures var p := ParseMany(s, n).value;
            |p.value| == n && (forall i | 0 <= i < |p.value| :: p.value[i].Valid()) && s == EncodeAll(p.value) + p.rest
    decreases |s|, 1, n
  {
    if n > 0 {
      EncodeOfParse(s);
      var p := Parse(s).value;
      EncodeOfParseMany(p.rest, n - 1);
      var q := ParseMany(p.rest, n - 1).value;
      OneMore(p.value, q.value, p.rest, q.rest);
    }
  }

  lemma {:induction false} EncodeOfParseOpen(s: Bytes)
    requires ParseOpen(s).Some?
    ensures var p := ParseOpen(s).value;
            (forall i | 0 <= i < |p.value| :: p.value[i].Valid()) && s == EncodeAll(p.value) + [BREAK] + p.rest
    decreases |s|, 1
  {
    if s[0] == BREAK {
      assert s == [BREAK] + s[1..];
    } else {
      EncodeOfParse(s);
      var p := Parse(s).value;
      EncodeOfParseOpen(p.rest);
      var q := ParseOpen(p.rest).value;
      OneMoreOpen(p.value, q.value, p.rest, q.rest);
    }
  }

  // --- what follows for records ------------------------------------------------------

  /** A byte string that is one item and nothing more. */
  predicate WellFormed(s: Bytes) {
    Parse(s).Some? && Parse(s).value.rest == []
  }

  /** The grammar and the decoder describe the same byte strings. */
  lemma WellFormedIffEncoding(s: Bytes)
    ensures WellFormed(s) <==> exists x: Item :: x.Valid() && Encode(x) == s
  {
    if WellFormed(s) {
      EncodeOfParse(s);
      var x := Parse(s).value.value;
      assert Encode(x) + [] == Encode(x);
    }
    forall x: Item | x.Valid() && Encode(x) == s ensures WellFormed(s) {
      ParseOfEncode(x, []);
      assert s + [] == s;
    }
  }

  /** Section 2 of RFC 8742 rests on this: a well-formed item read off a longer string ends where it did. */
  lemma ParseOfWellFormed(s: Bytes, rest: Bytes)
    requires WellFormed(s)
    ensures Parse(s + rest) == Some(Parsed(Parse(s).value.value, rest))
  {
    EncodeOfParse(s);
    var x := Parse(s).value.value;
    assert s == Encode(x);
    ParseOfEncode(x, rest);
  }

  lemma PrefixFree(a: Bytes, b: Bytes)
    requires WellFormed(a) && WellFormed(b) && a <= b
    ensures a == b
  {
    ParseOfWellFormed(a, b[|a|..]);
    assert b == a + b[|a|..];
  }

  // --- the deterministic encoder's heads and text -------------------------------------

  const TWO64: nat := 0x1_0000_0000_0000_0000

  function ToBigEndian(width: nat, n: nat): (s: Bytes)
    ensures |s| == width
  {
    if width == 0 then [] else ToBigEndian(width - 1, n / 256) + [n % 256]
  }

  function Pow256(k: nat): nat {
    if k == 0 then 1 else 256 * Pow256(k - 1)
  }

  lemma {:induction false} BigEndianRoundTrip(width: nat, n: nat)
    requires n < Pow256(width)
    ensures BigEndian(ToBigEndian(width, n)) == n
  {
    if width > 0 {
      assert n / 256 < Pow256(width - 1);
      BigEndianRoundTrip(width - 1, n / 256);
      var s := ToBigEndian(width, n);
      assert s[..|s| - 1] == ToBigEndian(width - 1, n / 256);
    }
  }

  /** The shortest head carrying `n`, as a deterministic encoder writes it. */
  function ShortHead(major: nat, n: nat): (h: Head)
    requires major < 8
    ensures h.Valid() && h.major == major
  {
    if n < 24 then Head(major, n, [])
    else if n < 0x100 then Head(major, 24, ToBigEndian(1, n))
    else if n < 0x1_0000 then Head(major, 25, ToBigEndian(2, n))
    else if n < 0x1_0000_0000 then Head(major, 26, ToBigEndian(4, n))
    else Head(major, 27, ToBigEndian(8, n))
  }

  lemma {:induction false} ShortHeadValue(major: nat, n: nat)
    requires major < 8 && n < TWO64
    ensures ShortHead(major, n).Value() == n
  {
    assert Pow256(1) == 0x100;
    assert Pow256(2) == 0x1_0000;
    assert Pow256(4) == 0x1_0000_0000 by { assert Pow256(3) == 0x100_0000; }
    assert Pow256(8) == TWO64 by {
      assert Pow256(5) == 0x100_0000_0000;
      assert Pow256(6) == 0x1_0000_0000_0000;
      assert Pow256(7) == 0x100_0000_0000_0000;
    }
    if n >= 24 {
      BigEndianRoundTrip(if n < 0x100 then 1 else if n < 0x1_0000 then 2 else if n < 0x1_0000_0000 then 4 else 8, n);
    }
  }

  function TextItem(text: Bytes): Item {
    Str(ShortHead(TEXT, |text|), text)
  }

  function TextItems(texts: seq<Bytes>): (r: seq<Item>)
    ensures |r| == |texts| && forall i | 0 <= i < |r| :: r[i] == TextItem(texts[i])
  {
    if texts == [] then [] else [TextItem(texts[0])] + TextItems(texts[1..])
  }

  /** A text string in its shortest form. */
  function MarshalText(text: Bytes): Bytes {
    ShortHead(TEXT, |text|).Encode() + text
  }

  /** An array of text strings in its shortest form. */
  function MarshalTexts(texts: seq<Bytes>): Bytes {
    ShortHead(ARRAY, |texts|).Encode() + Concat(seq(|texts|, i requires 0 <= i < |texts| => MarshalText(texts[i])))
  }

  ghost predicate Fits(texts: seq<Bytes>) {
    |texts| < TWO64 && forall i | 0 <= i < |texts| :: |texts[i]| < TWO64
  }

  lemma {:induction false} MarshalTextIsItem(text: Bytes)
    requires |text| < TWO64
    ensures TextItem(text).Valid() && MarshalText(text) == Encode(TextItem(text))
    ensures WellFormed(MarshalText(text)) && Parse(MarshalText(text)).value.value == TextItem(text)
  {
    ShortHeadValue(TEXT, |text|);
    ParseOfEncode(TextItem(text), []);
    assert MarshalText(text) + [] == MarshalText(text);
  }

  lemma {:induction false} EncodeTextItems(texts: seq<Bytes>)
    requires forall i | 0 <= i < |texts| :: |texts[i]| < TWO64
    ensures forall i | 0 <= i < |texts| :: TextItems(texts)[i].Valid()
    ensures EncodeAll(TextItems(texts)) == Concat(seq(|texts|, i requires 0 <= i < |texts| => MarshalText(texts[i])))
  {
    forall i | 0 <= i < |texts| ensures TextItems(texts)[i].Valid() {
      MarshalTextIsItem(texts[i]);
    }
    if texts != [] {
      EncodeTextItems(texts[1..]);
      MarshalTextIsItem(texts[0]);
      var parts := seq(|texts|, i requires 0 <= i < |texts| => MarshalText(texts[i]));
      var tail := texts[1..];
      assert parts[1..] == seq(|tail|, i requires 0 <= i < |tail| => MarshalText(tail[i]));
      assert TextItems(texts)[1..] == TextItems(tail);
    }
  }

  lemma {:induction false} MarshalTextsIsItem(texts: seq<Bytes>)
    requires Fits(texts)
    ensures WellFormed(MarshalTexts(texts))
    ensures Parse(MarshalTexts(texts)).value.value == Group(ShortHead(ARRAY, |texts|), TextItems(texts))
  {
    ShortHeadValue(ARRAY, |texts|);
    EncodeTextItems(texts);
    var x := Group(ShortHead(ARRAY, |texts|), TextItems(texts));
    assert x.Valid();
    ParseOfEncode(x, []);
    assert MarshalTexts(texts) == Encode(x);
    assert Encode(x) + [] == Encode(x);
  }

  // --- sequences ---------------------------------------------------------------------

  /** The records of a CBOR sequence, or nothing when some item of it is malformed or cut short. */
  function Split(s: Bytes): (r: Option<seq<Bytes>>)
    decreases |s|
  {
    if s == [] then Some([])
    else
      match Parse(s)
      case None => None
      case Some(p) =>
        match Split(p.rest)
        case None => None
        case Some(tail) => Some([s[..|s| - |p.rest|]] + tail)
  }

  lemma {:induction false} SplitOfConcat(items: seq<Bytes>)
    requires forall i | 0 <= i < |items| :: WellFormed(items[i])
    ensures Split(Concat(items)) == Some(items)
  {
    if items != [] {
      var s := Concat(items);
      ParseOfWellFormed(items[0], Concat(items[1..]));
      SplitOfConcat(items[1..]);
      assert s[..|items[0]|] == items[0];
      assert items == [items[0]] + items[1..];
    }
  }

  /** Splitting loses nothing and invents nothing: it answers for the one list of items that was joined. */
  lemma {:induction false} ConcatOfSplit(s: Bytes)
    requires Split(s).Some?
    ensures Concat(Split(s).value) == s
    ensures forall i | 0 <= i < |Split(s).value| :: WellFormed(Split(s).value[i])
    decreases |s|
  {
    if s != [] {
      var p := Parse(s).value;
      EncodeOfParse(s);
      var first := s[..|s| - |p.rest|];
      assert first == Encode(p.value);
      ParseOfEncode(p.value, []);
      assert first + [] == first;
      ConcatOfSplit(p.rest);
      var tail := Split(p.rest).value;
      assert ([first] + tail)[1..] == tail;
    }
  }
}
