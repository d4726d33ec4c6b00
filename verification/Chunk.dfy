/** protocol/chunk.go: the printed forms of control chunks, content chunks and content
    packets, and their parsers.
 */
module Chunk {
  import opened GoStrings

  const CO_NEWLINE: int := -1
  const CO_IGNORE: int := -1000

  // ----- content chunks -----

  datatype ContentChunk = ContentChunk(offset: int, text: string)
  {
    function ToString(): string {
      Itoa(offset) + "|" + text
    }
  }

  /** Parsing is total: what has no separator, no number before it, or a number outside
      the 64-bit range becomes a chunk that is ignored and keeps the whole input. */
  function ParseContentChunk(data: string): (c: ContentChunk)
    ensures Int64(c.offset)
  {
    var cut := Cut(data, '|');
    if !cut.found then ContentChunk(CO_IGNORE, data)
    else
      match Atoi(cut.before)
      case None => ContentChunk(CO_IGNORE, data)
      case Some(offset) => ContentChunk(offset, cut.after)
  }

  /** Printing then parsing is the identity on exactly the chunks with a 64-bit offset,
      whatever the text. */
  lemma ContentChunkRoundTrip(c: ContentChunk)
    ensures ParseContentChunk(c.ToString()) == c <==> Int64(c.offset)
  {
    AtoiOfItoa(c.offset);
    CutAt(Itoa(c.offset), '|', c.text);
    assert c.ToString() == Itoa(c.offset) + ['|'] + c.text;
  }

  /** One pass of parse and print normalises any input, unparsable input included. */
  lemma ContentChunkNormalises(data: string)
    ensures ParseContentChunk(ParseContentChunk(data).ToString()) == ParseContentChunk(data)
  {
    ContentChunkRoundTrip(ParseContentChunk(data));
  }

  // ----- content packets -----

  datatype ContentPacket = ContentPacket(packetId: string, data: string)
  {
    function ToString(): string {
      packetId + "|" + data
    }
  }

  /** What a receive from a closed channel yields. */
  const ZERO_PACKET := ContentPacket("", "")

  function ParseContentPacket(s: string): ContentPacket {
    var cut := Cut(s, '|');
    ContentPacket(cut.before, cut.after)
  }

  /** A packet survives the wire form exactly when its id has no separator in it; its
      data may hold any number of them. */
  lemma ContentPacketRoundTrip(p: ContentPacket)
    ensures ParseContentPacket(p.ToString()) == p <==> Free(p.packetId, '|')
  {
    assert p.ToString() == p.packetId + ['|'] + p.data;
    if Free(p.packetId, '|') {
      CutAt(p.packetId, '|', p.data);
    }
  }

  /** A packet of a closed channel carries a chunk that is ignored. */
  lemma ZeroPacketIsIgnored()
    ensures ParseContentChunk(ZERO_PACKET.data) == ContentChunk(CO_IGNORE, "")
  {
  }

  // ----- control chunks -----

  datatype ControlChunk = ControlChunk(action: string, args: seq<string>)
  {
    function ToString(): string {
      action + "|" + Join(args, '|')
    }

    /** The form a chunk has after one trip over the wire: a single empty argument and no
        argument print alike. */
    function Normal(): ControlChunk {
      if args == [""] then ControlChunk(action, []) else this
    }

    predicate SeparatorFree() {
      Free(action, '|') && AllFree(args, '|')
    }
  }

  function ParseControlChunk(data: string): (c: ControlChunk)
    ensures c.SeparatorFree()
    ensures c.Normal() == c
  {
    var cut := Cut(data, '|');
    if !cut.found || cut.after == "" then ControlChunk(cut.before, [])
    else
      JoinOfSplit(cut.after, '|');
      assert cut.after != "" ==> Split(cut.after, '|') != [""];
      ControlChunk(cut.before, Split(cut.after, '|'))
  }

  lemma ControlChunkParseOfPrint(c: ControlChunk)
    requires c.SeparatorFree()
    ensures ParseControlChunk(c.ToString()) == c.Normal()
  {
    var right := Join(c.args, '|');
    assert c.ToString() == c.action + ['|'] + right;
    CutAt(c.action, '|', right);
    if |c.args| == 0 {
    } else {
      SplitOfJoin(c.args, '|');
      if right == "" {
        assert Split("", '|') == [""];
      }
    }
  }

  /** Printing then parsing is the identity exactly on separator-free chunks whose
      arguments are not one empty string. */
  lemma ControlChunkRoundTrip(c: ControlChunk)
    ensures ParseControlChunk(c.ToString()) == c <==> c.SeparatorFree() && c.args != [""]
  {
    if c.SeparatorFree() {
      ControlChunkParseOfPrint(c);
    }
  }

  /** Parsing then printing gives the input back when it has a separator, and otherwise
      appends one. */
  lemma ControlChunkPrintOfParse(data: string)
    ensures ParseControlChunk(data).ToString() == if Free(data, '|') then data + "|" else data
  {
    var cut := Cut(data, '|');
    if cut.found {
      JoinOfSplit(cut.after, '|');
      assert data == cut.before + "|" + cut.after;
    }
  }

  /** Two separator-free chunks print alike exactly when they have the same normal form. */
  lemma ControlChunkPrintInjective(c: ControlChunk, d: ControlChunk)
    requires c.SeparatorFree() && d.SeparatorFree()
    ensures c.ToString() == d.ToString() <==> c.Normal() == d.Normal()
  {
    ControlChunkParseOfPrint(c);
    ControlChunkParseOfPrint(d);
    if c.Normal() == d.Normal() {
      assert Join([""], '|') == Join([], '|');
    }
  }

  // ----- on the wire -----

  /** A separator comes after the decimal offset, and after the packet id. */
  lemma WireForms(id: string, text: string)
    ensures ContentChunk(10, text).ToString() == "10|" + text && ContentChunk(-1, text).ToString() == "-1|" + text
    ensures ParseContentChunk("10|" + text) == ContentChunk(10, text)
    ensures ContentPacket(id, text).ToString() == id + "|" + text
  {
    hide Itoa, Atoi, Cut, ParseContentChunk;
    ItoaIsDecimal(10, 2);
    assert "10" + "|" == "10|" && "-1" + "|" == "-1|";
    ContentChunkRoundTrip(ContentChunk(10, text));
  }

  /** A separator comes after the action of a control chunk, and between its arguments. */
  lemma ControlWireForm(action: string, first: string, second: string)
    ensures ControlChunk(action, [first, second]).ToString() == action + "|" + first + "|" + second
  {
    assert [first, second][1..] == [second];
    assert Join([first, second], '|') == first + ['|'] + Join([second], '|');
    assert action + "|" + (first + "|" + second) == action + "|" + first + "|" + second;
  }
}
