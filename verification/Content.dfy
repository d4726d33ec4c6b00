/** protocol/content.go: playing content chunks against the live text, and turning an
    edit of the live text into chunks.
 */
module Content {
  import opened GoStrings
  import opened Chunk

  /** A completed line, with the id that the newline chunk gave it. */
  datatype Line = Line(id: string, text: string)

  datatype Played1 = Played1(live: string, past: Option<Line>)

  function Repeat(c: char, n: nat): string {
    seq(n, _ => c)
  }

  /** Plays one chunk.  Offsets below the newline code change nothing; a newline retires the
      live text; a text chunk keeps the live text up to its offset, filling a missing
      stretch with question marks, and puts its own text after it. */
  function ProcessLiveChunk(oldLive: string, chunk: ContentChunk): (r: Played1)
    ensures chunk.offset < CO_NEWLINE ==> r.live == oldLive && r.past == None
    ensures chunk.offset == CO_NEWLINE ==> r.live == "" && r.past == Some(Line(chunk.text, oldLive))
    ensures chunk.offset >= 0 ==>
              && r.past == None
              && |r.live| == chunk.offset + |chunk.text|
              && r.live[chunk.offset..] == chunk.text
              && (forall k :: 0 <= k < chunk.offset ==>
                    r.live[k] == if k < |oldLive| then oldLive[k] else '?')
  {
    if chunk.offset < CO_NEWLINE then Played1(oldLive, None)
    else if chunk.offset == CO_NEWLINE then Played1("", Some(Line(chunk.text, oldLive)))
    else
      var padded := if chunk.offset > |oldLive| then oldLive + Repeat('?', chunk.offset - |oldLive|) else oldLive;
      Played1(padded[..chunk.offset] + chunk.text, None)
  }

  /** The lines completed and the live text left by playing many chunks. */
  datatype Played = Played(lines: seq<Line>, live: string)

  function Lines(past: Option<Line>): seq<Line> {
    if past.Some? then [past.value] else []
  }

  function PlayAll(live: string, chunks: seq<ContentChunk>): Played
    decreases |chunks|
  {
    if |chunks| == 0 then Played([], live)
    else
      var first := ProcessLiveChunk(live, chunks[0]);
      var rest := PlayAll(first.live, chunks[1..]);
      Played(Lines(first.past) + rest.lines, rest.live)
  }

  lemma {:induction false} PlayAllAppend(live: string, a: seq<ContentChunk>, b: seq<ContentChunk>)
    ensures var pa := PlayAll(live, a);
            var pb := PlayAll(pa.live, b);
            PlayAll(live, a + b) == Played(pa.lines + pb.lines, pb.live)
    decreases |a|
  {
    if |a| == 0 {
      assert a + b == b;
    } else {
      assert (a + b)[1..] == a[1..] + b;
      PlayAllAppend(ProcessLiveChunk(live, a[0]).live, a[1..], b);
    }
  }

  lemma PlayAllSnoc(live: string, a: seq<ContentChunk>, c: ContentChunk)
    ensures var pa := PlayAll(live, a);
            var p := ProcessLiveChunk(pa.live, c);
            PlayAll(live, a + [c]) == Played(pa.lines + Lines(p.past), p.live)
  {
    PlayAllAppend(live, a, [c]);
    var pa := PlayAll(live, a);
    assert [c][1..] == [];
    assert PlayAll(pa.live, [c]).lines == Lines(ProcessLiveChunk(pa.live, c).past);
  }

  function TextsOf(lines: seq<Line>): (texts: seq<string>)
    ensures |texts| == |lines|
  {
    if |lines| == 0 then [] else [lines[0].text] + TextsOf(lines[1..])
  }

  lemma {:induction false} TextsOfAppend(a: seq<Line>, b: seq<Line>)
    ensures TextsOf(a + b) == TextsOf(a) + TextsOf(b)
  {
    if |a| == 0 {
      assert a + b == b;
    } else {
      assert (a + b)[1..] == a[1..] + b;
      TextsOfAppend(a[1..], b);
    }
  }

  /** The texts as lines whose ids are drawn in order from `n` on. */
  function Identified(texts: seq<string>, newId: nat -> string, n: nat): (lines: seq<Line>)
    ensures |lines| == |texts|
  {
    if |texts| == 0 then [] else [Line(newId(n), texts[0])] + Identified(texts[1..], newId, n + 1)
  }

  lemma {:induction false} TextsOfIdentified(texts: seq<string>, newId: nat -> string, n: nat)
    ensures TextsOf(Identified(texts, newId, n)) == texts
  {
    if |texts| > 0 {
      TextsOfIdentified(texts[1..], newId, n + 1);
    }
  }

  // ----- from an edit to chunks -----

  /** The length of the longest common prefix. */
  function CommonPrefix(a: string, b: string): (k: nat)
    ensures k <= |a| && k <= |b|
    ensures a[..k] == b[..k]
    ensures k == |a| || k == |b| || a[k] != b[k]
  {
    if |a| == 0 || |b| == 0 || a[0] != b[0] then 0
    else
      var k := 1 + CommonPrefix(a[1..], b[1..]);
      assert a[..k] == [a[0]] + a[1..][..k - 1] && b[..k] == [b[0]] + b[1..][..k - 1];
      k
  }

  lemma CommonPrefixIs(a: string, b: string, k: nat)
    requires k <= |a| && k <= |b| && a[..k] == b[..k]
    requires k == |a| || k == |b| || a[k] != b[k]
    ensures CommonPrefix(a, b) == k
  {
    var j := CommonPrefix(a, b);
    assert forall i :: 0 <= i < j ==> a[i] == a[..j][i] && b[i] == b[..j][i];
    assert forall i :: 0 <= i < k ==> a[i] == a[..k][i] && b[i] == b[..k][i];
  }

  /** For each further line of an edit: retire the live line under a new id, then type the
      whole line.  `newId` is the source of new line ids, drawn in order from `n` on. */
  function MoreLines(lines: seq<string>, newId: nat -> string, n: nat): (chunks: seq<ContentChunk>)
    ensures |chunks| == 2 * |lines|
  {
    if |lines| == 0 then []
    else [ContentChunk(CO_NEWLINE, newId(n)), ContentChunk(0, lines[0])] + MoreLines(lines[1..], newId, n + 1)
  }

  lemma {:induction false} MoreLinesSnoc(lines: seq<string>, line: string, newId: nat -> string, n: nat)
    ensures MoreLines(lines + [line], newId, n) ==
            MoreLines(lines, newId, n)
            + [ContentChunk(CO_NEWLINE, newId(n + |lines|)), ContentChunk(0, line)]
  {
    if |lines| == 0 {
      assert [line][1..] == [];
      assert lines + [line] == [line];
    } else {
      assert (lines + [line])[1..] == lines[1..] + [line];
      MoreLinesSnoc(lines[1..], line, newId, n + 1);
    }
  }

  /** The chunks that type `lines`, the first of them from offset `start` on. */
  function TypedLines(start: nat, lines: seq<string>, newId: nat -> string): seq<ContentChunk>
    requires |lines| >= 1
  {
    [ContentChunk(start, lines[0])] + MoreLines(lines[1..], newId, 1)
  }

  function SuffixChunks(s: string, start: nat, newId: nat -> string): seq<ContentChunk>
    requires start <= |s|
  {
    TypedLines(start, Split(s[start..], '\n'), newId)
  }

  /** The chunks of an edit: none when nothing changed, and otherwise everything after the
      longest common prefix. */
  function Diff(oldLive: string, newLive: string, newId: nat -> string): seq<ContentChunk> {
    if oldLive == newLive then [] else SuffixChunks(newLive, CommonPrefix(oldLive, newLive), newId)
  }

  method SuffixToChunks(s: string, start: nat, newId: nat -> string) returns (result: seq<ContentChunk>)
    ensures result == if |s| <= start then [] else SuffixChunks(s, start, newId)
  {
    if |s| <= start {
      return [];
    }
    var lines := Split(s[start..], '\n');
    result := [ContentChunk(start, lines[0])];
    var i := 1;
    while i < |lines|
      invariant 1 <= i <= |lines|
      invariant result == [ContentChunk(start, lines[0])] + MoreLines(lines[1..i], newId, 1)
    {
      MoreLinesSnoc(lines[1..i], lines[i], newId, 1);
      assert lines[1..i + 1] == lines[1..i] + [lines[i]];
      result := result + [ContentChunk(CO_NEWLINE, newId(i))];
      result := result + [ContentChunk(0, lines[i])];
      i := i + 1;
    }
    assert lines[1..i] == lines[1..];
  }

  method DiffLines(oldLive: string, newLive: string, newId: nat -> string) returns (chunks: seq<ContentChunk>)
    ensures chunks == Diff(oldLive, newLive, newId)
  {
    var i := 0;
    while i < |oldLive| && i < |newLive|
      invariant i <= |oldLive| && i <= |newLive|
      invariant oldLive[..i] == newLive[..i]
    {
      if oldLive[i] != newLive[i] {
        CommonPrefixIs(oldLive, newLive, i);
        chunks := SuffixToChunks(newLive, i, newId);
        return;
      }
      i := i + 1;
    }
    CommonPrefixIs(oldLive, newLive, i);
    if |oldLive| < |newLive| {
      chunks := SuffixToChunks(newLive, |oldLive|, newId);
      return;
    }
    if |oldLive| > |newLive| {
      assert newLive[i..] == "" && Split("", '\n') == [""];
      return [ContentChunk(|newLive|, "")];
    }
    assert oldLive == oldLive[..i] && newLive == newLive[..i];
    return [];
  }

  // ----- playing an edit -----

  lemma PlayNewlineThenLine(live: string, id: string, line: string, tail: seq<ContentChunk>)
    ensures var rest := PlayAll(line, tail);
            PlayAll(live, [ContentChunk(CO_NEWLINE, id), ContentChunk(0, line)] + tail)
            == Played([Line(id, live)] + rest.lines, rest.live)
  {
    var newline, text := ContentChunk(CO_NEWLINE, id), ContentChunk(0, line);
    var all := [newline, text] + tail;
    assert ProcessLiveChunk("", text).live == line;
    assert all[1..] == [text] + tail && all[1..][1..] == tail;
    assert PlayAll("", all[1..]) == PlayAll(line, tail);
  }

  lemma {:induction false} PlayMoreLines(live: string, lines: seq<string>, newId: nat -> string, n: nat)
    ensures var pieces := [live] + lines;
            PlayAll(live, MoreLines(lines, newId, n))
            == Played(Identified(pieces[..|lines|], newId, n), pieces[|lines|])
    decreases |lines|
  {
    if |lines| > 0 {
      var pieces := [live] + lines;
      PlayMoreLines(lines[0], lines[1..], newId, n + 1);
      PlayNewlineThenLine(live, newId(n), lines[0], MoreLines(lines[1..], newId, n + 1));
      assert [lines[0]] + lines[1..] == lines;
      assert pieces[..|lines|][1..] == lines[..|lines| - 1];
    }
  }

  /** What playing leaves: every completed line, then the live text. */
  function Pieces(p: Played): (pieces: seq<string>)
    ensures |pieces| == |p.lines| + 1
  {
    TextsOf(p.lines) + [p.live]
  }

  /** The chunk at the end of the common prefix completes the first piece. */
  lemma FirstChunkPlays(oldLive: string, newLive: string, k: nat, text: string)
    requires k <= |oldLive| && k <= |newLive| && oldLive[..k] == newLive[..k]
    ensures ProcessLiveChunk(oldLive, ContentChunk(k, text)) == Played1(newLive[..k] + text, None)
  {
  }

  lemma PrefixFree(oldLive: string, newLive: string, k: nat)
    requires k <= |oldLive| && k <= |newLive| && oldLive[..k] == newLive[..k]
    requires Free(oldLive, '\n')
    ensures Free(newLive[..k], '\n')
  {
    assert forall i :: 0 <= i < k ==> oldLive[i] == oldLive[..k][i];
  }

  /** The pieces of the new text that an edit completes or leaves live. */
  function EditPieces(oldLive: string, newLive: string): (pieces: seq<string>)
    ensures |pieces| >= 1
  {
    if oldLive == newLive then [newLive]
    else
      var k := CommonPrefix(oldLive, newLive);
      var lines := Split(newLive[k..], '\n');
      [newLive[..k] + lines[0]] + lines[1..]
  }

  lemma EditPiecesJoin(oldLive: string, newLive: string)
    ensures Join(EditPieces(oldLive, newLive), '\n') == newLive
  {
    if oldLive != newLive {
      var k := CommonPrefix(oldLive, newLive);
      JoinOfSplit(newLive[k..], '\n');
      JoinExtendsFirst(newLive[..k], Split(newLive[k..], '\n'), '\n');
      assert newLive == newLive[..k] + newLive[k..];
    }
  }

  lemma EditPiecesFree(oldLive: string, newLive: string)
    requires Free(oldLive, '\n')
    ensures AllFree(EditPieces(oldLive, newLive), '\n')
  {
    if oldLive != newLive {
      var k := CommonPrefix(oldLive, newLive);
      PrefixFree(oldLive, newLive, k);
      JoinOfSplit(newLive[k..], '\n');
    }
  }

  lemma DiffPlays(oldLive: string, newLive: string, newId: nat -> string)
    ensures var pieces := EditPieces(oldLive, newLive);
            var n := |pieces| - 1;
            PlayAll(oldLive, Diff(oldLive, newLive, newId)) == Played(Identified(pieces[..n], newId, 1), pieces[n])
  {
    if oldLive != newLive {
      var k := CommonPrefix(oldLive, newLive);
      var lines := Split(newLive[k..], '\n');
      var d := Diff(oldLive, newLive, newId);
      FirstChunkPlays(oldLive, newLive, k, lines[0]);
      assert d[0] == ContentChunk(k, lines[0]) && d[1..] == MoreLines(lines[1..], newId, 1);
      PlayMoreLines(newLive[..k] + lines[0], lines[1..], newId, 1);
    }
  }

  lemma PiecesOfIdentified(pieces: seq<string>, newId: nat -> string)
    requires |pieces| >= 1
    ensures var n := |pieces| - 1;
            var p := Played(Identified(pieces[..n], newId, 1), pieces[n]);
            Pieces(p) == pieces && p.lines == Identified(TextsOf(p.lines), newId, 1)
  {
    TextsOfIdentified(pieces[..|pieces| - 1], newId, 1);
  }

  /** Whatever the old text, playing the chunks of an edit leaves pieces that join to the
      new text, and the ids of the completed lines are the fresh ones in order. */
  lemma DiffReplays(oldLive: string, newLive: string, newId: nat -> string)
    ensures var p := PlayAll(oldLive, Diff(oldLive, newLive, newId));
            && Join(Pieces(p), '\n') == newLive
            && p.lines == Identified(TextsOf(p.lines), newId, 1)
  {
    DiffPlays(oldLive, newLive, newId);
    PiecesOfIdentified(EditPieces(oldLive, newLive), newId);
    EditPiecesJoin(oldLive, newLive);
  }

  /** When the old text is a single line the pieces are exactly the lines of the new text. */
  lemma DiffReplaysLines(oldLive: string, newLive: string, newId: nat -> string)
    requires Free(oldLive, '\n')
    ensures Pieces(PlayAll(oldLive, Diff(oldLive, newLive, newId))) == Split(newLive, '\n')
  {
    var pieces := EditPieces(oldLive, newLive);
    DiffPlays(oldLive, newLive, newId);
    PiecesOfIdentified(pieces, newId);
    EditPiecesJoin(oldLive, newLive);
    EditPiecesFree(oldLive, newLive);
    SplitOfJoin(pieces, '\n');
  }

  // ----- runs of edits -----

  /** One edit: the text that the live text becomes, and the ids drawn for its lines. */
  datatype Edit = Edit(text: string, newId: nat -> string)

  function LastLine(s: string): (line: string)
    ensures Free(line, '\n')
  {
    JoinOfSplit(s, '\n');
    var lines := Split(s, '\n');
    lines[|lines| - 1]
  }

  /** The chunks sent over a run: after each edit the sender keeps the last line. */
  function Sent(live: string, edits: seq<Edit>): seq<ContentChunk>
    decreases |edits|
  {
    if |edits| == 0 then []
    else Diff(live, edits[0].text, edits[0].newId) + Sent(LastLine(edits[0].text), edits[1..])
  }

  function SenderLive(live: string, edits: seq<Edit>): string {
    if |edits| == 0 then live else LastLine(edits[|edits| - 1].text)
  }

  /** Every line the sender completed over a run, in order. */
  function Completed(edits: seq<Edit>): seq<string> {
    if |edits| == 0 then []
    else
      var lines := Split(edits[0].text, '\n');
      lines[..|lines| - 1] + Completed(edits[1..])
  }

  lemma SingleEditReplays(live: string, e: Edit)
    requires Free(live, '\n')
    ensures var lines := Split(e.text, '\n');
            Agrees(PlayAll(live, Diff(live, e.text, e.newId)), LastLine(e.text), lines[..|lines| - 1])
  {
    DiffReplaysLines(live, e.text, e.newId);
  }

  lemma PlayTextsAppend(live: string, a: seq<ContentChunk>, b: seq<ContentChunk>)
    ensures var pa, pb := PlayAll(live, a), PlayAll(PlayAll(live, a).live, b);
            var p := PlayAll(live, a + b);
            p.live == pb.live && TextsOf(p.lines) == TextsOf(pa.lines) + TextsOf(pb.lines)
  {
    PlayAllAppend(live, a, b);
    TextsOfAppend(PlayAll(live, a).lines, PlayAll(PlayAll(live, a).live, b).lines);
  }

  lemma RunCons(live: string, edits: seq<Edit>)
    requires |edits| > 0
    ensures var e, next := edits[0], LastLine(edits[0].text);
            var lines := Split(e.text, '\n');
            && Sent(live, edits) == Diff(live, e.text, e.newId) + Sent(next, edits[1..])
            && Completed(edits) == lines[..|lines| - 1] + Completed(edits[1..])
            && SenderLive(live, edits) == SenderLive(next, edits[1..])
  {
  }

  /** The receiver has the sender's live text, and exactly `lines` as completed lines. */
  predicate Agrees(p: Played, live: string, lines: seq<string>) {
    p.live == live && TextsOf(p.lines) == lines
  }

  lemma AgreesAppend(live: string, a: seq<ContentChunk>, b: seq<ContentChunk>,
                     mid: string, end: string, la: seq<string>, lb: seq<string>)
    requires Agrees(PlayAll(live, a), mid, la) && Agrees(PlayAll(mid, b), end, lb)
    ensures Agrees(PlayAll(live, a + b), end, la + lb)
  {
    PlayTextsAppend(live, a, b);
  }

  /** The receiver of a run has the sender's live text and exactly the completed lines. */
  lemma {:induction false} EditRunReplays(live: string, edits: seq<Edit>)
    requires Free(live, '\n')
    ensures Agrees(PlayAll(live, Sent(live, edits)), SenderLive(live, edits), Completed(edits))
    decreases |edits|
  {
    if |edits| > 0 {
      var e, next := edits[0], LastLine(edits[0].text);
      var lines := Split(e.text, '\n');
      RunCons(live, edits);
      SingleEditReplays(live, e);
      EditRunReplays(next, edits[1..]);
      AgreesAppend(live, Diff(live, e.text, e.newId), Sent(next, edits[1..]), next, SenderLive(live, edits),
                   lines[..|lines| - 1], Completed(edits[1..]));
    }
  }

  // ----- the shape of a diff -----

  /** Every text chunk starts within the live text it is played against. */
  predicate NeverPads(live: string, chunks: seq<ContentChunk>)
    decreases |chunks|
  {
    |chunks| == 0
    || (chunks[0].offset <= |live| && NeverPads(ProcessLiveChunk(live, chunks[0]).live, chunks[1..]))
  }

  lemma {:induction false} NeverPadsAppend(live: string, a: seq<ContentChunk>, b: seq<ContentChunk>)
    ensures NeverPads(live, a + b) <==> NeverPads(live, a) && NeverPads(PlayAll(live, a).live, b)
    decreases |a|
  {
    if |a| == 0 {
      assert a + b == b;
    } else {
      assert (a + b)[1..] == a[1..] + b;
      NeverPadsAppend(ProcessLiveChunk(live, a[0]).live, a[1..], b);
    }
  }

  lemma {:induction false} MoreLinesNeverPads(live: string, lines: seq<string>, newId: nat -> string, n: nat)
    ensures NeverPads(live, MoreLines(lines, newId, n))
    decreases |lines|
  {
    if |lines| > 0 {
      var newline, text := ContentChunk(CO_NEWLINE, newId(n)), ContentChunk(0, lines[0]);
      var tail := MoreLines(lines[1..], newId, n + 1);
      MoreLinesNeverPads(lines[0], lines[1..], newId, n + 1);
      assert ProcessLiveChunk("", text).live == lines[0];
      assert MoreLines(lines, newId, n)[1..] == [text] + tail && ([text] + tail)[1..] == tail;
    }
  }

  /** No chunk of a diff overshoots, so playing an edit never shows a filler. */
  lemma DiffNeverPads(oldLive: string, newLive: string, newId: nat -> string)
    ensures NeverPads(oldLive, Diff(oldLive, newLive, newId))
  {
    if oldLive != newLive {
      var d := Diff(oldLive, newLive, newId);
      var lines := Split(newLive[CommonPrefix(oldLive, newLive)..], '\n');
      assert d[1..] == MoreLines(lines[1..], newId, 1);
      MoreLinesNeverPads(ProcessLiveChunk(oldLive, d[0]).live, lines[1..], newId, 1);
    }
  }

  lemma {:induction false} EditRunNeverPads(live: string, edits: seq<Edit>)
    requires Free(live, '\n')
    ensures NeverPads(live, Sent(live, edits))
    decreases |edits|
  {
    if |edits| > 0 {
      var e := edits[0];
      DiffNeverPads(live, e.text, e.newId);
      EditRunReplays(live, edits[..1]);
      assert edits[..1][1..] == [];
      assert Sent(live, edits[..1]) == Diff(live, e.text, e.newId);
      EditRunNeverPads(LastLine(e.text), edits[1..]);
      NeverPadsAppend(live, Diff(live, e.text, e.newId), Sent(LastLine(e.text), edits[1..]));
    }
  }

  /** Typing at the end of the live text sends just what was typed. */
  lemma TypingAppends(live: string, typed: string, newId: nat -> string)
    requires |typed| > 0 && Free(typed, '\n')
    ensures Diff(live, live + typed, newId) == [ContentChunk(|live|, typed)]
  {
    CommonPrefixIs(live, live + typed, |live|);
    assert (live + typed)[|live|..] == typed;
    SplitOfFree(typed, '\n');
  }

  /** For a changed single line the diff is one chunk, and no chunk that starts within the
      old text and produces the new one is shorter. */
  lemma DiffIsShortest(oldLive: string, newLive: string, newId: nat -> string, other: ContentChunk)
    requires oldLive != newLive && Free(newLive, '\n')
    requires 0 <= other.offset <= |oldLive|
    requires ProcessLiveChunk(oldLive, other).live == newLive
    ensures |Diff(oldLive, newLive, newId)| == 1
    ensures |Diff(oldLive, newLive, newId)[0].text| <= |other.text|
  {
    var k := CommonPrefix(oldLive, newLive);
    SplitOfFree(newLive[k..], '\n');
    var o := other.offset;
    assert forall i :: 0 <= i < o ==> newLive[i] == oldLive[i];
    assert o <= k;
  }

  /** The bound on the offset matters: a chunk that overshoots can borrow fillers. */
  lemma OvershootCanBeShorter(newId: nat -> string)
    ensures var c := ContentChunk(3, "b");
            && ProcessLiveChunk("a", c).live == "a??b"
            && |c.text| < |Diff("a", "a??b", newId)[0].text|
  {
    assert "a" + "??b" == "a??b";
    TypingAppends("a", "??b", newId);
    assert Repeat('?', 2) == "??";
  }

  // ----- absorption and compaction of a log -----

  /** A text chunk wipes out an earlier one at the same or a later offset. */
  lemma TextChunkAbsorbs(live: string, c: ContentChunk, d: ContentChunk)
    requires 0 <= d.offset <= c.offset
    ensures ProcessLiveChunk(ProcessLiveChunk(live, c).live, d) == ProcessLiveChunk(live, d)
  {
    var twice := ProcessLiveChunk(ProcessLiveChunk(live, c).live, d).live;
    var once := ProcessLiveChunk(live, d).live;
    assert twice == twice[..d.offset] + twice[d.offset..];
    assert once == once[..d.offset] + once[d.offset..];
    assert twice[..d.offset] == once[..d.offset];
  }

  /** Re-delivery of the last text chunk is harmless. */
  lemma RedeliveryIsHarmless(live: string, chunks: seq<ContentChunk>, c: ContentChunk)
    requires c.offset >= 0
    ensures PlayAll(live, chunks + [c, c]) == PlayAll(live, chunks + [c])
  {
    assert chunks + [c, c] == chunks + [c] + [c];
    PlayAllSnoc(live, chunks, c);
    PlayAllSnoc(live, chunks + [c], c);
    TextChunkAbsorbs(PlayAll(live, chunks).live, c, c);
    assert PlayAll(live, chunks).lines + [] + [] == PlayAll(live, chunks).lines + [];
  }

  predicate NoNewline(chunks: seq<ContentChunk>) {
    forall k :: 0 <= k < |chunks| ==> chunks[k].offset != CO_NEWLINE
  }

  /** Drops from the end of a compact log what a chunk at `offset` absorbs. */
  function Unabsorbed(compact: seq<ContentChunk>, offset: nat): (r: seq<ContentChunk>)
    ensures r <= compact
    ensures |r| > 0 ==> r[|r| - 1].offset < offset
  {
    if |compact| == 0 || compact[|compact| - 1].offset < offset then compact
    else Unabsorbed(compact[..|compact| - 1], offset)
  }

  /** A log with strictly increasing offsets and the effect of `chunks`, built front to back. */
  function Compact(chunks: seq<ContentChunk>): seq<ContentChunk>
    requires NoNewline(chunks)
  {
    if |chunks| == 0 then []
    else
      var last := chunks[|chunks| - 1];
      var front := Compact(chunks[..|chunks| - 1]);
      if last.offset < 0 then front else Unabsorbed(front, last.offset) + [last]
  }

  predicate StrictlyIncreasing(chunks: seq<ContentChunk>) {
    && (forall k :: 0 <= k < |chunks| ==> chunks[k].offset >= 0)
    && (forall j, k :: 0 <= j < k < |chunks| ==> chunks[j].offset < chunks[k].offset)
  }

  lemma {:induction false} UnabsorbedThenChunk(live: string, compact: seq<ContentChunk>, c: ContentChunk)
    requires c.offset >= 0 && StrictlyIncreasing(compact)
    ensures PlayAll(live, Unabsorbed(compact, c.offset) + [c]).live == PlayAll(live, compact + [c]).live
  {
    if |compact| == 0 || compact[|compact| - 1].offset < c.offset {
    } else {
      var front, last := compact[..|compact| - 1], compact[|compact| - 1];
      UnabsorbedThenChunk(live, front, c);
      PlayAllSnoc(live, front, c);
      PlayAllSnoc(live, compact, c);
      assert compact == front + [last];
      PlayAllSnoc(live, front, last);
      TextChunkAbsorbs(PlayAll(live, front).live, last, c);
    }
  }

  lemma {:induction false} NoNewlineNoLines(live: string, chunks: seq<ContentChunk>)
    requires NoNewline(chunks)
    ensures PlayAll(live, chunks).lines == []
    decreases |chunks|
  {
    if |chunks| > 0 {
      NoNewlineNoLines(ProcessLiveChunk(live, chunks[0]).live, chunks[1..]);
    }
  }

  lemma {:induction false} CompactShape(chunks: seq<ContentChunk>)
    requires NoNewline(chunks)
    ensures StrictlyIncreasing(Compact(chunks))
    ensures |Compact(chunks)| <= |chunks|
  {
    if |chunks| > 0 {
      CompactShape(chunks[..|chunks| - 1]);
    }
  }

  lemma {:induction false} CompactReplay(live: string, chunks: seq<ContentChunk>)
    requires NoNewline(chunks)
    ensures PlayAll(live, Compact(chunks)).live == PlayAll(live, chunks).live
  {
    if |chunks| > 0 {
      var front, last := chunks[..|chunks| - 1], chunks[|chunks| - 1];
      CompactReplay(live, front);
      assert chunks == front + [last];
      PlayAllSnoc(live, front, last);
      if last.offset >= 0 {
        CompactShape(front);
        UnabsorbedThenChunk(live, Compact(front), last);
        PlayAllSnoc(live, Compact(front), last);
      }
    }
  }

  /** A log without newlines can be replaced by one with strictly increasing offsets. */
  lemma CompactPreservesReplay(live: string, chunks: seq<ContentChunk>)
    requires NoNewline(chunks)
    ensures StrictlyIncreasing(Compact(chunks)) && |Compact(chunks)| <= |chunks|
    ensures PlayAll(live, Compact(chunks)) == PlayAll(live, chunks)
  {
    CompactShape(chunks);
    CompactReplay(live, chunks);
    assert NoNewline(Compact(chunks));
    NoNewlineNoLines(live, chunks);
    NoNewlineNoLines(live, Compact(chunks));
  }

  // ----- what a stream tells of the live text it started from -----

  /** The smallest offset of a text chunk before the next newline. */
  function Lowest(chunks: seq<ContentChunk>): Option<nat> {
    if |chunks| == 0 || chunks[0].offset == CO_NEWLINE then None
    else if chunks[0].offset < CO_NEWLINE then Lowest(chunks[1..])
    else
      match Lowest(chunks[1..])
      case Some(n) => Some(if n < chunks[0].offset then n else chunks[0].offset)
      case None => Some(chunks[0].offset)
  }

  /** What a text chunk at `offset` keeps of the live text, fillers included. */
  function Kept(live: string, offset: nat): string {
    ProcessLiveChunk(live, ContentChunk(offset, "")).live
  }

  /** The stream keeps the same of two live texts, until the next newline. */
  predicate KeepsAlike(x: string, y: string, chunks: seq<ContentChunk>) {
    match Lowest(chunks)
    case Some(n) => Kept(x, n) == Kept(y, n)
    case None => x == y
  }

  lemma KeptAt(live: string, n: nat, k: nat)
    requires k < n
    ensures |Kept(live, n)| == n && Kept(live, n)[k] == if k < |live| then live[k] else '?'
  {
  }

  lemma PlayedIsKept(live: string, c: ContentChunk)
    requires c.offset >= 0
    ensures ProcessLiveChunk(live, c).live == Kept(live, c.offset) + c.text
  {
  }

  /** What is kept after a text chunk of what it kept itself. */
  lemma KeptTwice(x: string, y: string, c: ContentChunk, n: nat)
    requires c.offset >= 0
    ensures var m := if n < c.offset then n else c.offset;
            Kept(ProcessLiveChunk(x, c).live, n) == Kept(ProcessLiveChunk(y, c).live, n)
            <==> Kept(x, m) == Kept(y, m)
  {
    hide ProcessLiveChunk, Kept;
    var u, v := ProcessLiveChunk(x, c).live, ProcessLiveChunk(y, c).live;
    var m: nat := if n < c.offset then n else c.offset;
    PlayedIsKept(x, c);
    PlayedIsKept(y, c);
    KeptSizes(x, y, c.offset);
    KeptSizes(u, v, n);
    KeptSizes(x, y, m);
    forall k | 0 <= k < n
      ensures Kept(u, n)[k] == Kept(v, n)[k] <==> k >= m || Kept(x, m)[k] == Kept(y, m)[k]
    {
      KeptAt(u, n, k);
      KeptAt(v, n, k);
      if k < m {
        KeptAt(x, m, k);
        KeptAt(y, m, k);
        KeptAt(x, c.offset, k);
        KeptAt(y, c.offset, k);
      }
    }
    assert m <= n && (Kept(u, n) == Kept(v, n) <==> forall k :: 0 <= k < n ==> Kept(u, n)[k] == Kept(v, n)[k]);
  }

  lemma KeptSizes(x: string, y: string, n: nat)
    ensures |Kept(x, n)| == |Kept(y, n)| == n
  {
  }

  lemma KeepsAlikeStep(x: string, y: string, chunks: seq<ContentChunk>)
    requires |chunks| > 0 && chunks[0].offset != CO_NEWLINE
    ensures KeepsAlike(x, y, chunks) <==>
            KeepsAlike(ProcessLiveChunk(x, chunks[0]).live, ProcessLiveChunk(y, chunks[0]).live, chunks[1..])
  {
    hide Kept;
    var c, rest := chunks[0], chunks[1..];
    if c.offset >= 0 {
      match Lowest(rest)
      case Some(n) => KeptTwice(x, y, c, n);
      case None =>
        PlayedIsKept(x, c);
        PlayedIsKept(y, c);
        SameBack(Kept(x, c.offset), Kept(y, c.offset), c.text);
    }
  }

  lemma PlayCons(x: string, chunks: seq<ContentChunk>)
    requires |chunks| > 0
    ensures var first := ProcessLiveChunk(x, chunks[0]);
            var rest := PlayAll(first.live, chunks[1..]);
            && PlayAll(x, chunks).live == rest.live
            && TextsOf(PlayAll(x, chunks).lines) == TextsOf(Lines(first.past)) + TextsOf(rest.lines)
  {
    hide ProcessLiveChunk;
    var first := ProcessLiveChunk(x, chunks[0]);
    TextsOfAppend(Lines(first.past), PlayAll(first.live, chunks[1..]).lines);
  }

  lemma LowestOfNewline(chunks: seq<ContentChunk>)
    requires |chunks| == 0 || chunks[0].offset == CO_NEWLINE
    ensures Lowest(chunks) == None
  {
  }

  lemma NoNewlineCons(chunks: seq<ContentChunk>)
    requires |chunks| > 0
    ensures NoNewline(chunks) <==> chunks[0].offset != CO_NEWLINE && NoNewline(chunks[1..])
  {
    assert chunks == [chunks[0]] + chunks[1..];
  }

  lemma PlayNewline(x: string, c: ContentChunk)
    requires c.offset == CO_NEWLINE
    ensures ProcessLiveChunk(x, c).live == "" && TextsOf(Lines(ProcessLiveChunk(x, c).past)) == [x]
  {
    assert [Line(c.text, x)][1..] == [];
  }

  lemma PlayText(x: string, c: ContentChunk)
    requires c.offset != CO_NEWLINE
    ensures TextsOf(Lines(ProcessLiveChunk(x, c).past)) == []
  {
  }

  /** A stream played on two live texts completes equally many lines.  They read the same
      exactly if it keeps the same of both, or completes no line; and the live texts left are
      the same as well exactly if it keeps the same of both. */
  lemma {:induction false} PlaysAlikeExactly(x: string, y: string, chunks: seq<ContentChunk>)
    ensures var p, q := PlayAll(x, chunks), PlayAll(y, chunks);
            && |TextsOf(p.lines)| == |TextsOf(q.lines)|
            && (TextsOf(p.lines) == TextsOf(q.lines) <==> NoNewline(chunks) || KeepsAlike(x, y, chunks))
            && (TextsOf(p.lines) == TextsOf(q.lines) && p.live == q.live <==> KeepsAlike(x, y, chunks))
    decreases |chunks|
  {
    hide ProcessLiveChunk, Lowest, Kept;
    if |chunks| > 0 {
      var c, rest := chunks[0], chunks[1..];
      PlayCons(x, chunks);
      PlayCons(y, chunks);
      NoNewlineCons(chunks);
      if c.offset == CO_NEWLINE {
        PlayNewline(x, c);
        PlayNewline(y, c);
        SameBack([x], [y], TextsOf(PlayAll("", rest).lines));
        assert KeepsAlike(x, y, chunks) <==> x == y by { LowestOfNewline(chunks); }
      } else {
        PlayText(x, c);
        PlayText(y, c);
        KeepsAlikeStep(x, y, chunks);
        var u, v := ProcessLiveChunk(x, c).live, ProcessLiveChunk(y, c).live;
        PlaysAlikeExactly(u, v, rest);
        SameFront([], TextsOf(PlayAll(u, rest).lines), TextsOf(PlayAll(v, rest).lines));
      }
    } else {
      assert KeepsAlike(x, y, chunks) <==> x == y by { LowestOfNewline(chunks); }
    }
  }

  // ----- what cannot be parsed -----

  /** Data changes the live text, or completes a line, only if it is an offset, a separator and a
      text; all other data leaves everything as it is. */
  lemma UnparsableIsIgnored(live: string, data: string)
    ensures var r := ProcessLiveChunk(live, ParseContentChunk(data));
            r == Played1(live, None)
            || exists head, text :: data == head + "|" + text && Free(head, '|') && Atoi(head).Some?
                 && r == ProcessLiveChunk(live, ContentChunk(Atoi(head).value, text))
    ensures forall head, text :: data == head + "|" + text && Free(head, '|') && Atoi(head).None? ==>
              ProcessLiveChunk(live, ParseContentChunk(data)) == Played1(live, None)
    ensures Free(data, '|') ==> ProcessLiveChunk(live, ParseContentChunk(data)) == Played1(live, None)
  {
    hide ProcessLiveChunk, Atoi;
    var cut := Cut(data, '|');
    IgnoredChunk(live, data);
    if cut.found {
      assert data == cut.before + "|" + cut.after;
    }
    forall head, text | data == head + "|" + text && Free(head, '|') && Atoi(head).None?
      ensures ProcessLiveChunk(live, ParseContentChunk(data)) == Played1(live, None)
    {
      CutAt(head, '|', text);
      assert data == head + ['|'] + text;
    }
  }

  lemma IgnoredChunk(live: string, data: string)
    ensures ProcessLiveChunk(live, ContentChunk(CO_IGNORE, data)) == Played1(live, None)
  {
  }

  /** The first chunk of an edit starts where the texts first differ, with what the edit puts
      there up to its first newline. */
  lemma DiffStartsAtDifference(oldLive: string, newLive: string, newId: nat -> string)
    requires oldLive != newLive
    ensures var d := Diff(oldLive, newLive, newId);
            && |d| > 0 && 0 <= d[0].offset <= |oldLive| && d[0].offset <= |newLive|
            && var k := d[0].offset;
            && oldLive[..k] == newLive[..k]
            && (k < |oldLive| && k < |newLive| ==> oldLive[k] != newLive[k])
            && Free(d[0].text, '\n')
            && (newLive[k..] == d[0].text || d[0].text + "\n" <= newLive[k..])
  {
    var k := CommonPrefix(oldLive, newLive);
    var rest := newLive[k..];
    JoinOfSplit(rest, '\n');
    var lines := Split(rest, '\n');
    if |lines| > 1 {
      assert rest == lines[0] + ['\n'] + Join(lines[1..], '\n');
    }
  }
}
