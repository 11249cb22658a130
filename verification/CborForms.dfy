/**
 The forms of section 3 of RFC 8949 as byte strings: what each is made of, the count or length
 its head announces, and that the decoder takes exactly these.
 */
module CborForms {
  import opened Bytes
  import opened Lists
  import opened Cbor

  // --- heads ------------------------------------------------------------------------

  /** The bytes of a head: a major type and a number, inline or in one, two, four or eight bytes, high byte first. */
  ghost predicate Announces(head: Bytes, major: nat, n: nat) {
    || (n < 24 && |head| == 1 && head[0] == major * 32 + n)
    || (|head| == 2 && head[0] == major * 32 + 24 && n == head[1])
    || (|head| == 3 && head[0] == major * 32 + 25 && n == head[1] as nat * 256 + head[2])
    || (|head| == 5 && head[0] == major * 32 + 26
        && n == head[1] as nat * 0x100_0000 + head[2] as nat * 0x1_0000 + head[3] as nat * 0x100 + head[4])
    || (|head| == 9 && head[0] == major * 32 + 27
        && n == head[1] as nat * 0x100_0000_0000_0000 + head[2] as nat * 0x1_0000_0000_0000
                + head[3] as nat * 0x100_0000_0000 + head[4] as nat * 0x1_0000_0000 + head[5] as nat * 0x100_0000
                + head[6] as nat * 0x1_0000 + head[7] as nat * 0x100 + head[8])
  }

  function HeadOf(head: Bytes): Head
    requires head != []
  {
    Head(head[0] / 32, head[0] % 32, head[1..])
  }

  lemma {:induction false} BigEndianLast(s: Bytes, b: Byte)
    ensures BigEndian(s + [b]) == BigEndian(s) * 256 + b
  {
    assert (s + [b])[..|s|] == s;
  }

  lemma {:induction false} BigEndianTwo(s: Bytes)
    requires |s| == 2
    ensures BigEndian(s) == s[0] as nat * 256 + s[1]
  {
    BigEndianLast([], s[0]);
    BigEndianLast([s[0]], s[1]);
    assert [] + [s[0]] == [s[0]] && s == [s[0]] + [s[1]];
  }

  lemma {:induction false} BigEndianFour(s: Bytes)
    requires |s| == 4
    ensures BigEndian(s) == s[0] as nat * 0x100_0000 + s[1] as nat * 0x1_0000 + s[2] as nat * 0x100 + s[3]
  {
    BigEndianTwo(s[..2]);
    BigEndianLast(s[..2], s[2]);
    BigEndianLast(s[..3], s[3]);
    assert s[..3] == s[..2] + [s[2]] && s == s[..3] + [s[3]];
  }

  lemma {:induction false} BigEndianEight(s: Bytes)
    requires |s| == 8
    ensures BigEndian(s)
         == s[0] as nat * 0x100_0000_0000_0000 + s[1] as nat * 0x1_0000_0000_0000 + s[2] as nat * 0x100_0000_0000
            + s[3] as nat * 0x1_0000_0000 + s[4] as nat * 0x100_0000 + s[5] as nat * 0x1_0000 + s[6] as nat * 0x100
            + s[7]
  {
    BigEndianFour(s[..4]);
    BigEndianLast(s[..4], s[4]);
    BigEndianLast(s[..5], s[5]);
    BigEndianLast(s[..6], s[6]);
    BigEndianLast(s[..7], s[7]);
    assert s[..5] == s[..4] + [s[4]] && s[..6] == s[..5] + [s[5]] && s[..7] == s[..6] + [s[6]] && s == s[..7] + [s[7]];
  }

  /** Such bytes are a head's, and no head has others. */
  lemma {:induction false} HeadAnnounces(head: Bytes, major: nat, n: nat)
    requires major < 8
    ensures Announces(head, major, n) <==>
            head != [] && HeadOf(head).Valid() && HeadOf(head).major == major && HeadOf(head).Value() == n
    ensures head != [] && HeadOf(head).Valid() ==> HeadOf(head).Encode() == head
  {
    if head != [] {
      ArgumentIs(head[1..]);
      assert head == [head[0]] + head[1..];
    }
  }

  /** The number in an argument of each width. */
  lemma ArgumentIs(s: Bytes)
    ensures |s| == 1 ==> BigEndian(s) == s[0]
    ensures |s| == 2 ==> BigEndian(s) == s[0] as nat * 256 + s[1]
    ensures |s| == 4 ==> BigEndian(s) == s[0] as nat * 0x100_0000 + s[1] as nat * 0x1_0000 + s[2] as nat * 0x100 + s[3]
    ensures |s| == 8 ==>
              BigEndian(s) == s[0] as nat * 0x100_0000_0000_0000 + s[1] as nat * 0x1_0000_0000_0000
              + s[2] as nat * 0x100_0000_0000 + s[3] as nat * 0x1_0000_0000 + s[4] as nat * 0x100_0000
              + s[5] as nat * 0x1_0000 + s[6] as nat * 0x100 + s[7]
  {
    if |s| == 1 {
      BigEndianLast([], s[0]);
      assert s == [] + [s[0]];
    } else if |s| == 2 {
      BigEndianTwo(s);
    } else if |s| == 4 {
      BigEndianFour(s);
    } else if |s| == 8 {
      BigEndianEight(s);
    }
  }

  // --- what the items inside are ---------------------------------------------------------

  ghost predicate AllWellFormed(items: seq<Bytes>) {
    forall i | 0 <= i < |items| :: WellFormed(items[i])
  }

  ghost function Tree(s: Bytes): Item
    requires WellFormed(s)
  {
    Parse(s).value.value
  }

  ghost function Trees(items: seq<Bytes>): (xs: seq<Item>)
    requires AllWellFormed(items)
    ensures |xs| == |items|
    ensures forall i | 0 <= i < |xs| :: xs[i] == Tree(items[i])
  {
    seq(|items|, i requires 0 <= i < |items| => Tree(items[i]))
  }

  lemma TreeEncodes(s: Bytes)
    requires WellFormed(s)
    ensures Tree(s).Valid() && Encode(Tree(s)) == s
  {
    EncodeOfParse(s);
  }

  lemma {:induction false} TreesEncode(items: seq<Bytes>)
    requires AllWellFormed(items)
    ensures (forall x | x in Trees(items) :: x.Valid()) && EncodeAll(Trees(items)) == Concat(items)
  {
    if items != [] {
      TreesEncode(items[1..]);
      TreeEncodes(items[0]);
      assert Trees(items)[1..] == Trees(items[1..]);
      assert Trees(items) == [Tree(items[0])] + Trees(items[1..]);
    }
  }

  lemma EncodedIsWellFormed(x: Item)
    requires x.Valid()
    ensures WellFormed(Encode(x)) && Tree(Encode(x)) == x
  {
    ParseOfEncode(x, []);
    assert Encode(x) + [] == Encode(x);
  }

  ghost function EncodeEach(xs: seq<Item>): (items: seq<Bytes>)
    requires forall i | 0 <= i < |xs| :: xs[i].Valid()
    ensures |items| == |xs|
    ensures forall i | 0 <= i < |xs| :: items[i] == Encode(xs[i])
  {
    seq(|xs|, i requires 0 <= i < |xs| => Encode(xs[i]))
  }

  lemma {:induction false} EncodeEachJoins(xs: seq<Item>)
    requires forall i | 0 <= i < |xs| :: xs[i].Valid()
    ensures AllWellFormed(EncodeEach(xs)) && Concat(EncodeEach(xs)) == EncodeAll(xs)
  {
    forall i | 0 <= i < |xs| ensures WellFormed(EncodeEach(xs)[i]) {
      EncodedIsWellFormed(xs[i]);
    }
    if xs != [] {
      EncodeEachJoins(xs[1..]);
      assert EncodeEach(xs)[1..] == EncodeEach(xs[1..]);
    }
  }

  // --- the forms -----------------------------------------------------------------------

  /** An integer is its head. */
  ghost predicate IsInteger(s: Bytes) {
    exists m, n :: m in {0, 1} && Announces(s, m, n)
  }

  /**
   A simple value below 24 is one byte, another has a byte of at least 32 after it; a float has
   two, four or eight.
   */
  predicate IsSimple(s: Bytes) {
    || (|s| == 1 && 0xe0 <= s[0] < 0xf8)
    || (|s| == 2 && s[0] == 0xf8 && s[1] >= 32)
    || (|s| == 3 && s[0] == 0xf9)
    || (|s| == 5 && s[0] == 0xfa)
    || (|s| == 9 && s[0] == 0xfb)
  }

  /** A string of a major type is a head and as many bytes as it announces. */
  ghost predicate IsString(s: Bytes, major: nat) {
    exists head, data :: Announces(head, major, |data|) && s == head + data
  }

  /** An array is a head and as many items as it announces. */
  ghost predicate IsArray(s: Bytes) {
    exists head, items :: Announces(head, 4, |items|) && AllWellFormed(items) && s == head + Concat(items)
  }

  /** A map is a head and, keys and values in turn, twice as many items as it announces. */
  ghost predicate IsMap(s: Bytes) {
    exists head, n: nat, items: seq<Bytes> ::
      |items| == 2 * n && Announces(head, 5, n) && AllWellFormed(items) && s == head + Concat(items)
  }

  /** A tag is a head and one item. */
  ghost predicate IsTag(s: Bytes) {
    exists head, n, item :: Announces(head, 6, n) && WellFormed(item) && s == head + item
  }

  /** A string of indefinite length: strings of its own major type, each of definite length, and a break. */
  ghost predicate IsOpenString(s: Bytes, major: nat) {
    exists chunks: seq<Bytes> ::
      && (forall i | 0 <= i < |chunks| :: IsString(chunks[i], major))
      && s == [major * 32 + 31] + Concat(chunks) + [0xff]
  }

  /** An array of indefinite length: any items, and a break. */
  ghost predicate IsOpenArray(s: Bytes) {
    exists items :: AllWellFormed(items) && s == [0x9f] + Concat(items) + [0xff]
  }

  /** A map of indefinite length: any keys, each with its value, and a break. */
  ghost predicate IsOpenMap(s: Bytes) {
    exists items: seq<Bytes> :: |items| % 2 == 0 && AllWellFormed(items) && s == [0xbf] + Concat(items) + [0xff]
  }

  ghost predicate IsForm(s: Bytes) {
    || IsInteger(s) || IsSimple(s) || IsString(s, 2) || IsString(s, 3) || IsArray(s) || IsMap(s) || IsTag(s)
    || IsOpenString(s, 2) || IsOpenString(s, 3) || IsOpenArray(s) || IsOpenMap(s)
  }

  // --- every form is read whole, whatever follows ------------------------------------------

  /** One item, and exactly what follows it left over. */
  ghost predicate ReadWhole(s: Bytes) {
    WellFormed(s) && forall rest :: Parse(s + rest).Some? && Parse(s + rest).value.rest == rest
  }

  lemma ValidIsReadWhole(x: Item, s: Bytes)
    requires x.Valid() && Encode(x) == s
    ensures ReadWhole(s) && Tree(s) == x
  {
    EncodedIsWellFormed(x);
    forall rest ensures Parse(s + rest).Some? && Parse(s + rest).value.rest == rest {
      ParseOfEncode(x, rest);
    }
  }

  lemma IntegerIsRead(s: Bytes, major: nat, n: nat)
    requires major in {0, 1} && Announces(s, major, n)
    ensures ReadWhole(s)
  {
    HeadAnnounces(s, major, n);
    ValidIsReadWhole(Leaf(HeadOf(s)), s);
  }

  lemma SimpleIsRead(s: Bytes)
    requires IsSimple(s)
    ensures ReadWhole(s)
  {
    assert s == [s[0]] + s[1..];
    ValidIsReadWhole(Leaf(HeadOf(s)), s);
  }

  lemma StringIsRead(head: Bytes, major: nat, data: Bytes)
    requires major in {2, 3} && Announces(head, major, |data|)
    ensures ReadWhole(head + data) && Tree(head + data) == Str(HeadOf(head), data) && HeadOf(head).major == major
  {
    HeadAnnounces(head, major, |data|);
    ValidIsReadWhole(Str(HeadOf(head), data), head + data);
  }

  lemma GroupIsRead(head: Bytes, major: nat, n: nat, items: seq<Bytes>)
    requires major in {4, 5, 6} && Announces(head, major, n) && AllWellFormed(items)
    requires |items| == if major == 4 then n else if major == 5 then 2 * n else 1
    ensures ReadWhole(head + Concat(items)) && Tree(head + Concat(items)) == Group(HeadOf(head), Trees(items))
  {
    HeadAnnounces(head, major, n);
    TreesEncode(items);
    ValidIsReadWhole(Group(HeadOf(head), Trees(items)), head + Concat(items));
  }

  /** An array of as many items as its head announces, whatever width the count has. */
  lemma ArrayIsRead(head: Bytes, items: seq<Bytes>)
    requires Announces(head, 4, |items|) && AllWellFormed(items)
    ensures ReadWhole(head + Concat(items))
  {
    GroupIsRead(head, 4, |items|, items);
  }

  /** Keys and values in turn. */
  function InTurn(keys: seq<Bytes>, values: seq<Bytes>): (items: seq<Bytes>)
    requires |keys| == |values|
    ensures |items| == 2 * |keys|
  {
    if keys == [] then [] else [keys[0], values[0]] + InTurn(keys[1..], values[1..])
  }

  lemma {:induction false} InTurnWellFormed(keys: seq<Bytes>, values: seq<Bytes>)
    requires |keys| == |values| && AllWellFormed(keys) && AllWellFormed(values)
    ensures AllWellFormed(InTurn(keys, values))
  {
    if keys != [] {
      InTurnWellFormed(keys[1..], values[1..]);
      MoreWellFormed([keys[0], values[0]], InTurn(keys[1..], values[1..]));
    }
  }

  lemma MoreWellFormed(a: seq<Bytes>, b: seq<Bytes>)
    requires AllWellFormed(a) && AllWellFormed(b)
    ensures AllWellFormed(a + b)
  {
  }

  /** A map of as many pairs as its head announces. */
  lemma MapIsRead(head: Bytes, keys: seq<Bytes>, values: seq<Bytes>)
    requires |keys| == |values| && Announces(head, 5, |keys|) && AllWellFormed(keys) && AllWellFormed(values)
    ensures ReadWhole(head + Concat(InTurn(keys, values)))
  {
    InTurnWellFormed(keys, values);
    GroupIsRead(head, 5, |keys|, InTurn(keys, values));
  }

  /** A tag and its one item. */
  lemma TagIsRead(head: Bytes, n: nat, item: Bytes)
    requires Announces(head, 6, n) && WellFormed(item)
    ensures ReadWhole(head + item)
  {
    GroupIsRead(head, 6, n, [item]);
    assert Concat([item]) == item + [] == item;
  }

  lemma ChunkIsRead(chunk: Bytes, major: nat)
    requires major in {2, 3} && IsString(chunk, major)
    ensures WellFormed(chunk) && Tree(chunk).Str? && Tree(chunk).h.major == major
  {
    var head, data :| Announces(head, major, |data|) && chunk == head + data;
    StringIsRead(head, major, data);
  }

  ghost predicate StringsOf(major: nat, chunks: seq<Bytes>) {
    forall i | 0 <= i < |chunks| :: WellFormed(chunks[i]) && Tree(chunks[i]).Str? && Tree(chunks[i]).h.major == major
  }

  lemma ChunksAreRead(major: nat, chunks: seq<Bytes>)
    requires major in {2, 3} && forall i | 0 <= i < |chunks| :: IsString(chunks[i], major)
    ensures StringsOf(major, chunks)
  {
    forall i | 0 <= i < |chunks|
      ensures WellFormed(chunks[i]) && Tree(chunks[i]).Str? && Tree(chunks[i]).h.major == major
    {
      ChunkIsRead(chunks[i], major);
    }
  }

  lemma OpenStringIsRead(major: nat, chunks: seq<Bytes>)
    requires major in {2, 3} && StringsOf(major, chunks)
    ensures var s := [major * 32 + 31] + Concat(chunks) + [0xff];
            ReadWhole(s) && Tree(s) == OpenStr(major, Trees(chunks))
  {
    var xs := Trees(chunks);
    TreesEncode(chunks);
    assert Chunks(major, xs) && OpenStr(major, xs).Valid();
    ValidIsReadWhole(OpenStr(major, xs), [major * 32 + 31] + Concat(chunks) + [0xff]);
  }

  lemma OpenGroupIsRead(major: nat, items: seq<Bytes>)
    requires major in {4, 5} && AllWellFormed(items) && (major == 5 ==> |items| % 2 == 0)
    ensures var s := [major * 32 + 31] + Concat(items) + [0xff];
            ReadWhole(s) && Tree(s) == OpenGroup(major, Trees(items))
  {
    TreesEncode(items);
    OpenTreeIsRead(major, Trees(items), Concat(items));
  }

  lemma OpenTreeIsRead(major: nat, xs: seq<Item>, body: Bytes)
    requires major in {4, 5} && (major == 5 ==> |xs| % 2 == 0) && (forall i | 0 <= i < |xs| :: xs[i].Valid())
    requires body == EncodeAll(xs)
    ensures var s := [major * 32 + 31] + body + [0xff]; ReadWhole(s) && Tree(s) == OpenGroup(major, xs)
  {
    var rest: Bytes := body + [BREAK];
    assert rest == EncodeAll(xs) + [BREAK] + [];
    OpenEncodes(major, xs, rest, []);
    Regroup([major * 32 + 31], body, [BREAK]);
    var whole := Encode(OpenGroup(major, xs));
    assert whole + [] == whole;
    ValidIsReadWhole(OpenGroup(major, xs), whole);
  }

  lemma FormIsRead(s: Bytes)
    requires IsForm(s)
    ensures ReadWhole(s)
  {
    if IsInteger(s) {
      var m, n :| m in {0, 1} && Announces(s, m, n);
      IntegerIsRead(s, m, n);
    } else if IsSimple(s) {
      SimpleIsRead(s);
    } else if IsString(s, 2) || IsString(s, 3) {
      var m := if IsString(s, 2) then 2 else 3;
      var head, data :| Announces(head, m, |data|) && s == head + data;
      StringIsRead(head, m, data);
    } else if IsArray(s) {
      var head, items :| Announces(head, 4, |items|) && AllWellFormed(items) && s == head + Concat(items);
      ArrayIsRead(head, items);
    } else if IsMap(s) {
      var head, n: nat, items: seq<Bytes> :|
        |items| == 2 * n && Announces(head, 5, n) && AllWellFormed(items) && s == head + Concat(items);
      GroupIsRead(head, 5, n, items);
    } else if IsTag(s) {
      var head, n, item :| Announces(head, 6, n) && WellFormed(item) && s == head + item;
      TagIsRead(head, n, item);
    } else {
      OpenFormIsRead(s);
    }
  }

  lemma OpenFormIsRead(s: Bytes)
    requires IsOpenString(s, 2) || IsOpenString(s, 3) || IsOpenArray(s) || IsOpenMap(s)
    ensures ReadWhole(s)
  {
    if IsOpenString(s, 2) {
      OpenStringFormIsRead(s, 2);
    } else if IsOpenString(s, 3) {
      OpenStringFormIsRead(s, 3);
    } else if IsOpenArray(s) {
      var items :| AllWellFormed(items) && s == [0x9f] + Concat(items) + [0xff];
      OpenGroupIsRead(4, items);
    } else {
      OpenMapIsRead(s);
    }
  }

  lemma OpenStringFormIsRead(s: Bytes, major: nat)
    requires major in {2, 3} && IsOpenString(s, major)
    ensures ReadWhole(s)
  {
    var chunks: seq<Bytes> :| (forall i | 0 <= i < |chunks| :: IsString(chunks[i], major))
                              && s == [major * 32 + 31] + Concat(chunks) + [0xff];
    ChunksAreRead(major, chunks);
    OpenStringIsRead(major, chunks);
  }

  lemma OpenMapIsRead(s: Bytes)
    requires IsOpenMap(s)
    ensures ReadWhole(s)
  {
    var items: seq<Bytes> :| |items| % 2 == 0 && AllWellFormed(items) && s == [0xbf] + Concat(items) + [0xff];
    OpenGroupIsRead(5, items);
  }

  // --- and nothing else is --------------------------------------------------------------------

  lemma ValidHeadAnnounces(h: Head)
    requires h.Valid()
    ensures Announces(h.Encode(), h.major, h.Value())
  {
    var head := h.Encode();
    assert head[1..] == h.arg && HeadOf(head) == h;
    HeadAnnounces(head, h.major, h.Value());
  }

  lemma LeafIsForm(h: Head)
    requires Leaf(h).Valid()
    ensures IsInteger(Encode(Leaf(h))) || IsSimple(Encode(Leaf(h)))
  {
    ValidHeadAnnounces(h);
    assert h.major in {0, 1} ==> Announces(Encode(Leaf(h)), h.major, h.Value());
  }

  lemma StrIsForm(h: Head, data: Bytes)
    requires Str(h, data).Valid()
    ensures IsString(Encode(Str(h, data)), h.major)
  {
    ValidHeadAnnounces(h);
    assert Encode(Str(h, data)) == h.Encode() + data;
  }

  lemma GroupIsForm(x: Item)
    requires x.Group? && x.Valid()
    ensures IsArray(Encode(x)) || IsMap(Encode(x)) || IsTag(Encode(x))
  {
    var head, items := x.h.Encode(), EncodeEach(x.items);
    ValidHeadAnnounces(x.h);
    EncodeEachJoins(x.items);
    GroupOfForm(Encode(x), head, x.h.major, x.h.Value(), items);
  }

  lemma GroupOfForm(s: Bytes, head: Bytes, major: nat, n: nat, items: seq<Bytes>)
    requires major in {4, 5, 6} && Announces(head, major, n) && AllWellFormed(items) && s == head + Concat(items)
    requires |items| == if major == 4 then n else if major == 5 then 2 * n else 1
    ensures IsArray(s) || IsMap(s) || IsTag(s)
  {
    if major == 5 {
      assert IsMap(s);
    } else if major == 6 {
      TagOfForm(s, head, n, items);
    } else {
      assert IsArray(s);
    }
  }

  lemma TagOfForm(s: Bytes, head: Bytes, n: nat, items: seq<Bytes>)
    requires Announces(head, 6, n) && AllWellFormed(items) && |items| == 1 && s == head + Concat(items)
    ensures IsTag(s)
  {
    assert items[1..] == [] && Concat(items) == items[0] + [] == items[0];
    assert WellFormed(items[0]);
  }

  lemma OpenIsForm(x: Item)
    requires (x.OpenStr? || x.OpenGroup?) && x.Valid()
    ensures IsForm(Encode(x))
  {
    var items := EncodeEach(x.items);
    EncodeEachJoins(x.items);
    assert Encode(x) == [x.major * 32 + 31] + Concat(items) + [0xff];
    if x.OpenStr? {
      forall i | 0 <= i < |items| ensures IsString(items[i], x.major) {
        assert x.items[i].Str? && x.items[i].Valid();
        StrIsForm(x.items[i].h, x.items[i].data);
      }
      assert IsOpenString(Encode(x), x.major);
    } else {
      OpenOfForm(Encode(x), x.major, items);
    }
  }

  lemma OpenOfForm(s: Bytes, major: nat, items: seq<Bytes>)
    requires major in {4, 5} && AllWellFormed(items) && (major == 5 ==> |items| % 2 == 0)
    requires s == [major * 32 + 31] + Concat(items) + [0xff]
    ensures IsOpenArray(s) || IsOpenMap(s)
  {
    if major == 4 {
      assert IsOpenArray(s);
    } else {
      assert IsOpenMap(s);
    }
  }

  /** The decoder takes a byte string for one item exactly when it is of one of the forms, and then reads it whole. */
  lemma WellFormedIffForm(s: Bytes)
    ensures WellFormed(s) <==> IsForm(s)
    ensures IsForm(s) ==> ReadWhole(s)
  {
    if IsForm(s) {
      FormIsRead(s);
    }
    if WellFormed(s) {
      TreeEncodes(s);
      match Tree(s)
      case Leaf(h) => LeafIsForm(h);
      case Str(h, data) => StrIsForm(h, data);
      case Group(_, _) => GroupIsForm(Tree(s));
      case _ => OpenIsForm(Tree(s));
    }
  }

  /** Of major type 7 the forms of simple values and floats are items, and no other is. */
  lemma SevenIsSimple(s: Bytes)
    requires s != [] && s[0] >= 0xe0
    ensures WellFormed(s) <==> IsSimple(s)
  {
    if IsSimple(s) {
      SimpleIsRead(s);
    }
    if WellFormed(s) {
      TreeEncodes(s);
      FirstByte(Tree(s));
      assert Tree(s).Major() == 7 && Tree(s).Leaf?;
      LeafIsForm(Tree(s).h);
      assert forall m, n | m in {0, 1} && Announces(s, m, n) :: s[0] < 64;
    }
  }

  // --- the encoder's heads ------------------------------------------------------------------

  /** A string or an array is written with a head that announces its length, and no head that does is shorter. */
  lemma ShortHeadIsShortest(major: nat, n: nat, head: Bytes)
    requires major < 8 && n < TWO64
    ensures Announces(ShortHead(major, n).Encode(), major, n)
    ensures Announces(head, major, n) ==> |ShortHead(major, n).Encode()| <= |head|
  {
    ShortHeadValue(major, n);
    ValidHeadAnnounces(ShortHead(major, n));
  }
}
