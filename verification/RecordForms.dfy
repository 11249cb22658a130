/** How a record of a CBOR response reads, by the form of its bytes (client/seq.go, lines 95 to 216). */
module RecordForms {
  import opened Bytes
  import opened Lists
  import opened Framing
  import opened Serve
  import opened Reader
  import Cbor
  import Json
  import opened CborForms

  // --- lists of ids ---------------------------------------------------------------------

  /** Every name parses, and to these ids. */
  ghost predicate AllParse<Id, Report>(lib: Library<Id, Report>, names: seq<Bytes>, ids: seq<Id>) {
    |ids| == |names| && forall i | 0 <= i < |names| :: lib.parse(names[i]) == Some(ids[i])
  }

  lemma {:induction false} ParseIdsAre<Id, Report>(lib: Library<Id, Report>, names: seq<Bytes>)
    ensures ParseIds(lib, names).Ok? ==> AllParse(lib, names, ParseIds(lib, names).value)
    ensures ParseIds(lib, names).Err? ==>
              ParseIds(lib, names) == Err(BadId) && exists i :: 0 <= i < |names| && lib.parse(names[i]).None?
  {
    if names != [] {
      ParseIdsAre(lib, names[1..]);
      if ParseIds(lib, names[1..]).Err? {
        var i :| 0 <= i < |names[1..]| && lib.parse(names[1..][i]).None?;
        assert names[1..][i] == names[i + 1];
      }
    }
  }

  /** A JSON list is a route exactly when each entry is a text that parses, and else fails by its first that is not. */
  lemma {:induction false} JsonIdsAre<Id, Report>(lib: Library<Id, Report>, entries: seq<Json.Json>)
    ensures var r := JsonIds(lib, entries);
            && (r.Ok? ==> |r.value| == |entries| && forall i | 0 <= i < |entries| ::
                            entries[i].Text? && lib.parse(entries[i].text) == Some(r.value[i]))
            && (r.Err? ==> exists i :: 0 <= i < |entries|
                                       && (forall j | 0 <= j < i :: entries[j].Text?
                                                                    && lib.parse(entries[j].text).Some?)
                                       && (if entries[i].Text? then lib.parse(entries[i].text).None? && r == Err(BadId)
                                           else r == Err(UnknownFraming)))
  {
    if entries != [] && entries[0].Text? && lib.parse(entries[0].text).Some? {
      JsonIdsAre(lib, entries[1..]);
      if JsonIds(lib, entries[1..]).Err? {
        var i :| 0 <= i < |entries[1..]|
                 && (forall j | 0 <= j < i :: entries[1..][j].Text? && lib.parse(entries[1..][j].text).Some?)
                 && (if entries[1..][i].Text? then lib.parse(entries[1..][i].text).None?
                                                   && JsonIds(lib, entries[1..]) == Err(BadId)
                     else JsonIds(lib, entries[1..]) == Err(UnknownFraming));
        assert entries[i + 1] == entries[1..][i];
        assert forall j | 1 <= j < i + 1 :: entries[j] == entries[1..][j - 1];
      }
    }
  }

  // --- strings ----------------------------------------------------------------------------

  function IdReading<Id, Report>(lib: Library<Id, Report>, text: Bytes): Result<Reading<Id, Report>, ReadError> {
    match lib.parse(text)
    case None => Err(BadId)
    case Some(id) => Ok(ReadId(id))
  }

  lemma WholeOpens(s: Bytes, major: nat)
    requires Cbor.WellFormed(s) && Tree(s).Major() == major
    ensures s != [] && s[0] / 32 == major
  {
    TreeEncodes(s);
    Cbor.FirstByte(Tree(s));
  }

  lemma StringDecodes<Id, Report>(lib: Library<Id, Report>, raw: Bytes)
    requires Cbor.WellFormed(raw) && Tree(raw).Major() == 3
    ensures raw != [] && DecodeCborRecord(lib, raw) == IdReading(lib, ItemText(Tree(raw)))
  {
    WholeOpens(raw, 3);
  }

  lemma ArrayDecodes<Id, Report>(lib: Library<Id, Report>, raw: Bytes, items: seq<Cbor.Item>)
    requires Cbor.WellFormed(raw) && Tree(raw).Major() == 4
    requires (Tree(raw).Group? || Tree(raw).OpenGroup?) && Tree(raw).items == items
    ensures raw != []
    ensures DecodeCborRecord(lib, raw)
         == if Names(items).None? then Err(UnknownFraming) else RouteReading(lib, Names(items).value)
  {
    WholeOpens(raw, 4);
  }

  /** A text string is an id by its bytes, whatever the width of its length. */
  lemma TextRecordReads<Id, Report>(lib: Library<Id, Report>, head: Bytes, text: Bytes)
    requires Announces(head, 3, |text|)
    ensures head + text != [] && DecodeCborRecord(lib, head + text) == IdReading(lib, text)
  {
    StringIsRead(head, 3, text);
    StringDecodes(lib, head + text);
  }

  /** Chunks and the texts in them. */
  ghost predicate TextChunks(chunks: seq<Bytes>, texts: seq<Bytes>) {
    |chunks| == |texts| && forall i | 0 <= i < |chunks| :: IsChunk(chunks[i], texts[i])
  }

  ghost predicate IsChunk(chunk: Bytes, text: Bytes) {
    exists head :: Announces(head, 3, |text|) && chunk == head + text
  }

  lemma ChunkTree(chunk: Bytes, text: Bytes)
    requires IsChunk(chunk, text)
    ensures Cbor.WellFormed(chunk) && Tree(chunk).Str? && Tree(chunk).h.major == 3 && Tree(chunk).data == text
  {
    var head :| Announces(head, 3, |text|) && chunk == head + text;
    StringIsRead(head, 3, text);
  }

  lemma ChunkTrees(chunks: seq<Bytes>, texts: seq<Bytes>)
    requires TextChunks(chunks, texts)
    ensures StringsOf(3, chunks) && forall i | 0 <= i < |chunks| :: Tree(chunks[i]).data == texts[i]
  {
    forall i | 0 <= i < |chunks|
      ensures Cbor.WellFormed(chunks[i]) && Tree(chunks[i]).Str? && Tree(chunks[i]).h.major == 3
      ensures Tree(chunks[i]).data == texts[i]
    {
      ChunkTree(chunks[i], texts[i]);
    }
  }

  lemma {:induction false} ChunkTextIs(xs: seq<Cbor.Item>, texts: seq<Bytes>)
    requires |xs| == |texts| && forall i | 0 <= i < |xs| :: xs[i].Str? && xs[i].data == texts[i]
    ensures ChunkText(xs) == Concat(texts)
  {
    if xs != [] {
      ChunkTextIs(xs[1..], texts[1..]);
    }
  }

  /** One in chunks is an id by the chunks' texts together. */
  lemma OpenTextRecordReads<Id, Report>(lib: Library<Id, Report>, chunks: seq<Bytes>, texts: seq<Bytes>)
    requires TextChunks(chunks, texts)
    ensures var raw := [0x7f] + Concat(chunks) + [0xff]; DecodeCborRecord(lib, raw) == IdReading(lib, Concat(texts))
  {
    var raw := [3 * 32 + 31] + Concat(chunks) + [0xff];
    ChunkTrees(chunks, texts);
    OpenStringIsRead(3, chunks);
    ChunkTextIs(Trees(chunks), texts);
    StringDecodes(lib, raw);
  }

  // --- arrays ---------------------------------------------------------------------------------

  function RouteReading<Id, Report>(lib: Library<Id, Report>, names: seq<Bytes>): Result<Reading<Id, Report>,
    ReadError> {
    match ParseIds(lib, names)
    case Err(e) => Err(e)
    case Ok(ids) => Ok(ReadRoute(ids))
  }

  lemma {:induction false} NamesAre(xs: seq<Cbor.Item>, texts: seq<Bytes>)
    requires |xs| == |texts| && forall i | 0 <= i < |xs| :: xs[i].Str? && xs[i].h.major == 3 && xs[i].data == texts[i]
    ensures Names(xs) == Some(texts)
  {
    if xs != [] {
      NamesAre(xs[1..], texts[1..]);
      assert texts == [texts[0]] + texts[1..];
    }
  }

  /** An array of text strings is a route by their bytes, whatever the width of its count. */
  lemma RouteRecordReads<Id, Report>(lib: Library<Id, Report>, head: Bytes, chunks: seq<Bytes>, texts: seq<Bytes>)
    requires TextChunks(chunks, texts) && Announces(head, 4, |chunks|)
    ensures head + Concat(chunks) != [] && DecodeCborRecord(lib, head + Concat(chunks)) == RouteReading(lib, texts)
  {
    ChunkTrees(chunks, texts);
    NamesAre(Trees(chunks), texts);
    GroupIsRead(head, 4, |chunks|, chunks);
    HeadAnnounces(head, 4, |chunks|);
    ArrayDecodes(lib, head + Concat(chunks), Trees(chunks));
  }

  /** And so is one closed by a break. */
  lemma OpenRouteRecordReads<Id, Report>(lib: Library<Id, Report>, chunks: seq<Bytes>, texts: seq<Bytes>)
    requires TextChunks(chunks, texts)
    ensures DecodeCborRecord(lib, [0x9f] + Concat(chunks) + [0xff]) == RouteReading(lib, texts)
  {
    ChunkTrees(chunks, texts);
    NamesAre(Trees(chunks), texts);
    OpenGroupIsRead(4, chunks);
    ArrayDecodes(lib, [4 * 32 + 31] + Concat(chunks) + [0xff], Trees(chunks));
  }

  lemma {:induction false} NamesNeedTexts(xs: seq<Cbor.Item>, i: nat)
    requires i < |xs| && xs[i].Major() != 3
    ensures Names(xs).None?
  {
    if i > 0 {
      NamesNeedTexts(xs[1..], i - 1);
    }
  }

  /** With any item that is no text string it is no route. */
  lemma MixedArrayIsRefused<Id, Report>(lib: Library<Id, Report>, head: Bytes, items: seq<Bytes>, i: nat)
    requires Announces(head, 4, |items|) && AllWellFormed(items) && i < |items| && items[i][0] / 32 != 3
    ensures head + Concat(items) != [] && DecodeCborRecord(lib, head + Concat(items)) == Err(UnknownFraming)
  {
    GroupIsRead(head, 4, |items|, items);
    HeadAnnounces(head, 4, |items|);
    WholeOpens(items[i], Tree(items[i]).Major());
    NamesNeedTexts(Trees(items), i);
    ArrayDecodes(lib, head + Concat(items), Trees(items));
  }

  // --- the rest ---------------------------------------------------------------------------------

  /**
   A record that opens as an integer, a byte string or a simple value is refused, and so is a text
   or a list that is not whole.
   */
  lemma OthersAreRefused<Id, Report>(lib: Library<Id, Report>, raw: Bytes)
    requires raw != []
    requires raw[0] / 32 in {0, 1, 2, 7} || (raw[0] / 32 in {3, 4} && !Cbor.WellFormed(raw))
    ensures DecodeCborRecord(lib, raw) == Err(UnknownFraming)
  {
  }

  /** A tagged record is a stored one where the library takes it, and bad where it does not. */
  lemma TaggedReads<Id, Report>(lib: Library<Id, Report>, raw: Bytes)
    requires raw != [] && raw[0] / 32 == 6
    ensures DecodeCborRecord(lib, raw) == if lib.stored(raw) then Ok(ReadEnvelope(raw)) else Err(BadId)
  {
  }

  /** A map reads by the byte after its head: cut short before it, refused; a text key, a report; any other, a claim. */
  lemma MapRecordReads<Id, Report>(lib: Library<Id, Report>, raw: Bytes, at: nat)
    requires raw != [] && 0xa0 <= raw[0] < 0xc0 && raw[0] !in {0xbc, 0xbd, 0xbe}
    requires at == if raw[0] == 0xb8 then 2 else if raw[0] == 0xb9 then 3 else if raw[0] == 0xba then 5
                   else if raw[0] == 0xbb then 9 else 1
    ensures DecodeCborRecord(lib, raw)
         == if |raw| <= at then Err(UnknownFraming)
            else if !(0x60 <= raw[at] < 0x80) then Ok(ReadClaim(raw))
            else if lib.readCbor(raw).None? then Err(UnknownFraming)
            else Ok(ReadReport(lib.readCbor(raw).value))
  {
  }

  /** No head of a map has one of the three reserved forms. */
  lemma ReservedMapIsRefused<Id, Report>(lib: Library<Id, Report>, raw: Bytes)
    requires raw != [] && raw[0] in {0xbc, 0xbd, 0xbe}
    ensures DecodeCborRecord(lib, raw) == Err(UnknownFraming)
  {
  }

  /**
   A JSON record reads by its shape: a text is an id, a list a route, and what is neither nor an
   object is refused.
   */
  lemma JsonRecordReads<Id, Report>(lib: Library<Id, Report>, raw: Bytes)
    ensures DecodeRecord(lib, JSON, []) == DecodeRecord(lib, CBOR, []) == Err(UnknownFraming)
    ensures raw != [] && Json.Parse(raw).None? ==> DecodeRecord(lib, JSON, raw) == Err(UnknownFraming)
    ensures raw != [] && Json.Parse(raw).Some? ==>
              var j := Json.Parse(raw).value;
              && (j.Text? ==> DecodeRecord(lib, JSON, raw) == IdReading(lib, j.text))
              && (j.List? ==> DecodeRecord(lib, JSON, raw) == match JsonIds(lib, j.items)
                                                              case Err(e) => Err(e)
                                                              case Ok(ids) => Ok(ReadRoute(ids)))
              && (j.Null? || j.Bool? || j.Number? ==> DecodeRecord(lib, JSON, raw) == Err(UnknownFraming))
  {
  }
}
