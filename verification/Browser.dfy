/** The listener web page: parseContentChunk in listen.js/src/protocol.ts and the text
    state of receiveContentChunk in listen.js/src/listen/listen.tsx.  Positions in a
    JavaScript string and bytes of a Go string coincide on ASCII text.
 */
module Browser {
  import opened GoStrings
  import opened Chunk
  import opened Content

  /** The characters that `.` does not match in a JavaScript regular expression. */
  predicate IsLineBreak(c: char) {
    c == '\n' || c == '\r' || c == '\U{2028}' || c == '\U{2029}'
  }

  predicate Clean(s: string) {
    forall i :: 0 <= i < |s| ==> !IsLineBreak(s[i])
  }

  /** The offsets with a name of their own, and every other number. */
  datatype Offset =
    | Newline | PastText | LiveText | StartReread | ClearHistory | PlaySound | PlaySpeech
    | Number(n: int)

  datatype BrowserChunk = BrowserChunk(isDiff: bool, offset: Offset, text: string)

  function ParseContentOffset(offset: int): Offset {
    match offset
    case -1 => Newline
    case -2 => PastText
    case -3 => LiveText
    case -4 => StartReread
    case -6 => ClearHistory
    case -7 => PlaySound
    case -8 => PlaySpeech
    case _ => Number(offset)
  }

  /** The first group of the regular expression, as a number: an optional minus, then
      decimal digits. */
  function ParseOffset(s: string): Option<int> {
    var negative := |s| > 0 && s[0] == '-';
    var digits := if negative then s[1..] else s;
    if |digits| == 0 || !AllDigits(digits) then None
    else
      var magnitude: int := DigitsValue(digits);
      Some(if negative then -magnitude else magnitude)
  }

  /** The regular expression: a number, a separator, and then anything but a line break up
      to the end. */
  function ParseBrowserChunk(data: string): Option<BrowserChunk> {
    var cut := Cut(data, '|');
    var offset := ParseOffset(cut.before);
    if !cut.found || offset.None? || !Clean(cut.after) then None
    else
      Some(BrowserChunk(offset.value >= -1, ParseContentOffset(offset.value), cut.after))
  }

  /** What the page shows, whether it waits for a reread, and how many it asked for. */
  datatype View = View(live: string, past: string, resetInProgress: bool, rereads: nat)

  function Reread(v: View): View {
    if v.resetInProgress then v else v.(resetInProgress := true, rereads := v.rereads + 1)
  }

  function ReceiveDiff(v: View, offset: Offset, text: string): View {
    match offset
    case Number(n) =>
      if n <= 0 then v.(live := text)
      else if n > |v.live| then Reread(v)
      else v.(live := v.live[..n] + text)
    case _ => v.(live := "", past := v.past + "\n" + v.live)
  }

  /** The effect of a chunk that could be parsed. */
  function ReceiveParsed(v: View, c: BrowserChunk): View {
    if c.offset == PlaySound then v
    else if c.isDiff then ReceiveDiff(v.(resetInProgress := false), c.offset, c.text)
    else if !v.resetInProgress then v
    else if c.offset == StartReread then v.(live := "")
    else if c.offset == LiveText then v.(live := c.text, resetInProgress := false)
    else v
  }

  function Receive(v: View, data: string): View {
    match ParseBrowserChunk(data)
    case None => v
    case Some(c) => ReceiveParsed(v, c)
  }

  class ConversationView {
    var live: string
    var past: string
    var resetInProgress: bool
    var rereads: nat

    constructor ()
      ensures State() == View("", "", false, 0)
    {
      live, past, resetInProgress, rereads := "", "", false, 0;
    }

    function State(): View
      reads this
    {
      View(live, past, resetInProgress, rereads)
    }

    /** sendRereadText: one request at a time. */
    method SendRereadText()
      modifies this
      ensures State() == Reread(old(State()))
    {
      if resetInProgress {
        return;
      }
      resetInProgress := true;
      rereads := rereads + 1;
    }

    method ReceiveContentChunk(data: string)
      modifies this
      ensures State() == Receive(old(State()), data)
    {
      var parsed := ParseBrowserChunk(data);
      if parsed.Some? {
        UpdateText(parsed.value);
      }
    }

    /** The branches of receiveContentChunk once the chunk is parsed. */
    method UpdateText(chunk: BrowserChunk)
      requires chunk.isDiff ==> chunk.offset == Newline || (chunk.offset.Number? && chunk.offset.n >= 0)
      modifies this
      ensures State() == ReceiveParsed(old(State()), chunk)
    {
      if chunk.offset == PlaySound {
        // plays a sound, no text
      } else if chunk.isDiff {
        resetInProgress := false;
        if chunk.offset == Number(0) {
          live := chunk.text;
        } else if chunk.offset == Newline {
          past := past + "\n" + live;
          live := "";
        } else {
          var offset := chunk.offset.n;
          if offset > |live| {
            SendRereadText();
          } else {
            live := live[..offset] + chunk.text;
          }
        }
      } else if resetInProgress {
        if chunk.offset == StartReread {
          live := "";
        } else if chunk.offset == LiveText {
          resetInProgress := false;
          live := chunk.text;
        }
      }
    }
  }

  // ----- the two parsers agree on what a diff prints -----

  lemma ParseOffsetOfItoa(n: int)
    ensures ParseOffset(Itoa(n)) == Some(n)
  {
    var digits := Digits(if n < 0 then -n else n);
    assert IsDigit(digits[0]);
    if n < 0 {
      assert Itoa(n)[1..] == digits;
    }
  }

  /** The page reads a printed diff chunk exactly when its text has no line break. */
  lemma BrowserReadsPrinted(c: ContentChunk)
    requires c.offset >= CO_NEWLINE
    ensures ParseBrowserChunk(c.ToString()) ==
            if Clean(c.text) then Some(BrowserChunk(true, ParseContentOffset(c.offset), c.text)) else None
  {
    var left := Itoa(c.offset);
    assert c.ToString() == left + ['|'] + c.text;
    assert Free(left, '|') by { AtoiOfItoa(c.offset); }
    CutAt(left, '|', c.text);
    ParseOffsetOfItoa(c.offset);
  }

  lemma ReceiveParsedDiff(v: View, c: ContentChunk)
    requires CO_NEWLINE <= c.offset <= |v.live|
    ensures var p := ProcessLiveChunk(v.live, c);
            ReceiveParsed(v, BrowserChunk(true, ParseContentOffset(c.offset), c.text))
            == Shown(v, Played(Lines(p.past), p.live), true)
  {
    if c.offset == CO_NEWLINE {
      PastLinesOne(v, Line(c.text, v.live));
    } else {
      assert v.past + PastLines([]) == v.past;
      assert c.offset == 0 ==> v.live[..0] + c.text == c.text;
    }
  }

  /** One chunk within the live text has the same effect on the page and on the server. */
  lemma ReceivePrinted(v: View, c: ContentChunk)
    requires CO_NEWLINE <= c.offset <= |v.live| && Clean(c.text)
    ensures var p := ProcessLiveChunk(v.live, c);
            Receive(v, c.ToString()) == Shown(v, Played(Lines(p.past), p.live), true)
  {
    BrowserReadsPrinted(c);
    ReceiveParsedDiff(v, c);
  }

  lemma PastLinesOne(v: View, line: Line)
    ensures v.past + PastLines([line]) == v.past + "\n" + line.text
  {
    assert PastLines([line][1..]) == "";
    assert PastLines([line]) == "\n" + line.text;
  }

  /** The page's past text: every line after a newline. */
  function PastLines(lines: seq<Line>): string {
    if |lines| == 0 then "" else "\n" + lines[0].text + PastLines(lines[1..])
  }

  lemma {:induction false} PastLinesAppend(a: seq<Line>, b: seq<Line>)
    ensures PastLines(a + b) == PastLines(a) + PastLines(b)
  {
    if |a| == 0 {
      assert a + b == b;
    } else {
      assert (a + b)[1..] == a[1..] + b;
      PastLinesAppend(a[1..], b);
    }
  }

  function ReceiveAll(v: View, chunks: seq<ContentChunk>): View
    decreases |chunks|
  {
    if |chunks| == 0 then v else ReceiveAll(Receive(v, chunks[0].ToString()), chunks[1..])
  }

  predicate Readable(chunks: seq<ContentChunk>) {
    forall k :: 0 <= k < |chunks| ==> chunks[k].offset >= CO_NEWLINE && Clean(chunks[k].text)
  }

  /** What the page should show after a stream: the server's live text, and its completed
      lines each after a newline, without ever asking for a reread. */
  function Shown(v: View, p: Played, any: bool): View {
    View(p.live, v.past + PastLines(p.lines), if any then false else v.resetInProgress, v.rereads)
  }

  lemma ShownThen(v: View, past: seq<Line>, live: string, rest: Played, any: bool)
    ensures Shown(Shown(v, Played(past, live), true), rest, any) == Shown(v, Played(past + rest.lines, rest.live), true)
  {
    hide PastLines;
    PastLinesAppend(past, rest.lines);
    assert v.past + (PastLines(past) + PastLines(rest.lines)) == v.past + PastLines(past) + PastLines(rest.lines);
  }

  lemma {:induction false} BrowserFollows(v: View, chunks: seq<ContentChunk>)
    requires NeverPads(v.live, chunks) && Readable(chunks)
    ensures ReceiveAll(v, chunks) == Shown(v, PlayAll(v.live, chunks), |chunks| > 0)
    decreases |chunks|
  {
    if |chunks| == 0 {
      assert v.past + "" == v.past;
    } else {
      var p := ProcessLiveChunk(v.live, chunks[0]);
      var next := Shown(v, Played(Lines(p.past), p.live), true);
      assert Receive(v, chunks[0].ToString()) == next by { ReceivePrinted(v, chunks[0]); }
      BrowserFollows(next, chunks[1..]);
      ShownThen(v, Lines(p.past), p.live, PlayAll(p.live, chunks[1..]), |chunks[1..]| > 0);
    }
  }

  // ----- streams that the page cannot follow -----

  predicate Diffs(chunks: seq<ContentChunk>) {
    forall k :: 0 <= k < |chunks| ==> chunks[k].offset >= CO_NEWLINE
  }

  /** The page applies a chunk that it can read and that does not overshoot what it shows. */
  predicate Applies(live: string, c: ContentChunk) {
    Clean(c.text) && c.offset <= |live|
  }

  /** The chunks of a stream that the page applies. */
  function Applied(live: string, chunks: seq<ContentChunk>): (r: seq<ContentChunk>)
    decreases |chunks|
  {
    if |chunks| == 0 then []
    else if !Applies(live, chunks[0]) then Applied(live, chunks[1..])
    else [chunks[0]] + Applied(ProcessLiveChunk(live, chunks[0]).live, chunks[1..])
  }

  /** How many chunks of a stream can be read but overshoot. */
  function Overshoots(live: string, chunks: seq<ContentChunk>): nat
    decreases |chunks|
  {
    if |chunks| == 0 then 0
    else if Applies(live, chunks[0]) then Overshoots(ProcessLiveChunk(live, chunks[0]).live, chunks[1..])
    else (if Clean(chunks[0].text) then 1 else 0) + Overshoots(live, chunks[1..])
  }

  /** Whether the last chunk that can be read overshoots. */
  function EndsBehind(live: string, chunks: seq<ContentChunk>, before: bool): bool
    decreases |chunks|
  {
    if |chunks| == 0 then before
    else if Applies(live, chunks[0]) then EndsBehind(ProcessLiveChunk(live, chunks[0]).live, chunks[1..], false)
    else EndsBehind(live, chunks[1..], before || Clean(chunks[0].text))
  }

  /** On every stream of diffs the page shows what the server would without the chunks that
      the page cannot read and those that overshoot on it, and asks for one reread for each
      of the latter: as a diff also ends the wait for a reread, the guard of sendRereadText
      never holds a request back. */
  lemma {:induction false} BrowserSkips(v: View, chunks: seq<ContentChunk>)
    requires Diffs(chunks)
    ensures var p := PlayAll(v.live, Applied(v.live, chunks));
            ReceiveAll(v, chunks) == View(p.live, v.past + PastLines(p.lines),
                                          EndsBehind(v.live, chunks, v.resetInProgress),
                                          v.rereads + Overshoots(v.live, chunks))
    decreases |chunks|
  {
    hide Receive, ProcessLiveChunk, Clean, Itoa;
    if |chunks| == 0 {
      assert v.past + "" == v.past;
    } else if !Applies(v.live, chunks[0]) {
      ReceiveDeparts(v, chunks[0]);
      BrowserSkips(Receive(v, chunks[0].ToString()), chunks[1..]);
    } else {
      var p := ProcessLiveChunk(v.live, chunks[0]);
      var next := Shown(v, Played(Lines(p.past), p.live), true);
      assert Receive(v, chunks[0].ToString()) == next by { ReceivePrinted(v, chunks[0]); }
      BrowserSkips(next, chunks[1..]);
      var rest := Applied(p.live, chunks[1..]);
      assert ([chunks[0]] + rest)[1..] == rest;
      ShownThen(v, Lines(p.past), p.live, PlayAll(p.live, rest), true);
    }
  }

  // ----- runs of edits -----

  /** No line break but the newline that ends a line. */
  predicate NoHiddenBreak(s: string) {
    forall i :: 0 <= i < |s| && IsLineBreak(s[i]) ==> s[i] == '\n'
  }

  predicate AllClean(lines: seq<string>) {
    forall k :: 0 <= k < |lines| ==> Clean(lines[k])
  }

  ghost predicate CleanIds(edits: seq<Edit>) {
    forall j, n: nat :: 0 <= j < |edits| ==> Clean(edits[j].newId(n))
  }

  lemma {:induction false} JoinNoHiddenBreak(pieces: seq<string>)
    requires AllFree(pieces, '\n')
    ensures NoHiddenBreak(Join(pieces, '\n')) <==> AllClean(pieces)
  {
    if |pieces| == 1 {
      assert forall i :: 0 <= i < |pieces[0]| ==> pieces[0][i] != '\n';
    } else if |pieces| > 1 {
      var tail := Join(pieces[1..], '\n');
      var all := Join(pieces, '\n');
      JoinNoHiddenBreak(pieces[1..]);
      assert all == pieces[0] + ['\n'] + tail;
      NoHiddenBreakAppend(pieces[0] + ['\n'], tail);
      NoHiddenBreakAppend(pieces[0], ['\n']);
      assert NoHiddenBreak(pieces[0]) <==> Clean(pieces[0]);
      assert forall k :: 1 <= k < |pieces| ==> pieces[k] == pieces[1..][k - 1];
    }
  }

  lemma NoHiddenBreakAppend(a: string, b: string)
    ensures NoHiddenBreak(a + b) <==> NoHiddenBreak(a) && NoHiddenBreak(b)
  {
    assert forall i :: 0 <= i < |a| ==> (a + b)[i] == a[i];
    assert forall i :: 0 <= i < |b| ==> (a + b)[|a| + i] == b[i];
  }

  lemma SplitNoHiddenBreak(s: string)
    ensures NoHiddenBreak(s) <==> AllClean(Split(s, '\n'))
  {
    JoinOfSplit(s, '\n');
    JoinNoHiddenBreak(Split(s, '\n'));
  }

  lemma {:induction false} MoreLinesAt(lines: seq<string>, newId: nat -> string, n: nat, j: nat)
    requires j < |lines|
    ensures MoreLines(lines, newId, n)[2 * j] == ContentChunk(CO_NEWLINE, newId(n + j))
    ensures MoreLines(lines, newId, n)[2 * j + 1] == ContentChunk(0, lines[j])
  {
    if j > 0 {
      MoreLinesAt(lines[1..], newId, n + 1, j - 1);
    }
  }

  /** Every line typed is the text of one chunk. */
  lemma TypedLinesAt(start: nat, lines: seq<string>, newId: nat -> string, j: nat)
    requires j < |lines|
    ensures |TypedLines(start, lines, newId)| == 2 * |lines| - 1
    ensures TypedLines(start, lines, newId)[2 * j] == ContentChunk(if j == 0 then start else 0, lines[j])
    ensures j > 0 ==> TypedLines(start, lines, newId)[2 * j - 1] == ContentChunk(CO_NEWLINE, newId(j))
  {
    if j > 0 {
      MoreLinesAt(lines[1..], newId, 1, j - 1);
    }
  }

  lemma TypedLinesReadable(start: nat, lines: seq<string>, newId: nat -> string)
    requires |lines| >= 1 && AllClean(lines)
    requires forall n: nat :: Clean(newId(n))
    ensures Readable(TypedLines(start, lines, newId))
  {
    var d := TypedLines(start, lines, newId);
    TypedLinesAt(start, lines, newId, 0);
    forall k | 0 <= k < |d| ensures d[k].offset >= CO_NEWLINE && Clean(d[k].text) {
      TypedLinesAt(start, lines, newId, (k + 1) / 2);
      assert k % 2 == 0 ==> k == 2 * ((k + 1) / 2);
    }
  }

  /** The lines that an edit types: the new text after the common prefix. */
  function NewLines(live: string, newLive: string): seq<string> {
    Split(newLive[CommonPrefix(live, newLive)..], '\n')
  }

  lemma NewLinesClean(live: string, newLive: string)
    requires NoHiddenBreak(newLive)
    ensures AllClean(NewLines(live, newLive))
  {
    var k := CommonPrefix(live, newLive);
    assert newLive == newLive[..k] + newLive[k..];
    NoHiddenBreakAppend(newLive[..k], newLive[k..]);
    SplitNoHiddenBreak(newLive[k..]);
  }

  /** A hidden break that the live text does not have is in a line typed. */
  lemma NewLinesHaveBreak(live: string, newLive: string) returns (j: nat)
    requires Clean(live) && !NoHiddenBreak(newLive)
    ensures j < |NewLines(live, newLive)| && !Clean(NewLines(live, newLive)[j])
  {
    var k := CommonPrefix(live, newLive);
    assert newLive == newLive[..k] + newLive[k..];
    assert forall i :: 0 <= i < k ==> live[i] == live[..k][i];
    NoHiddenBreakAppend(newLive[..k], newLive[k..]);
    SplitNoHiddenBreak(newLive[k..]);
    j :| 0 <= j < |NewLines(live, newLive)| && !Clean(NewLines(live, newLive)[j]);
  }

  lemma DiffReadable(live: string, e: Edit)
    requires NoHiddenBreak(e.text) && forall n: nat :: Clean(e.newId(n))
    ensures Readable(Diff(live, e.text, e.newId))
  {
    if live != e.text {
      NewLinesClean(live, e.text);
      TypedLinesReadable(CommonPrefix(live, e.text), NewLines(live, e.text), e.newId);
    }
  }

  lemma {:induction false} SentReadable(live: string, edits: seq<Edit>)
    requires CleanIds(edits) && forall j :: 0 <= j < |edits| ==> NoHiddenBreak(edits[j].text)
    ensures Readable(Sent(live, edits))
    decreases |edits|
  {
    if |edits| > 0 {
      DiffReadable(live, edits[0]);
      SentReadable(LastLine(edits[0].text), edits[1..]);
    }
  }

  /** The page follows a run of edits whose texts have no hidden line break: it shows the
      sender's live text and completed lines and never asks for a reread. */
  lemma BrowserFollowsRun(v: View, edits: seq<Edit>)
    requires Free(v.live, '\n') && CleanIds(edits)
    requires forall j :: 0 <= j < |edits| ==> NoHiddenBreak(edits[j].text)
    ensures var shown := ReceiveAll(v, Sent(v.live, edits));
            var p := PlayAll(v.live, Sent(v.live, edits));
            && shown.live == p.live == SenderLive(v.live, edits)
            && shown.past == v.past + PastLines(p.lines)
            && TextsOf(p.lines) == Completed(edits)
            && shown.rereads == v.rereads
  {
    var chunks := Sent(v.live, edits);
    SentReadable(v.live, edits);
    EditRunNeverPads(v.live, edits);
    BrowserFollows(v, chunks);
    EditRunReplays(v.live, edits);
  }

  // ----- and only such runs -----

  /** The page's live text never gains a line break, whatever it receives. */
  lemma ReceiveStaysClean(v: View, data: string)
    requires Clean(v.live)
    ensures Clean(Receive(v, data).live)
  {
  }

  lemma {:induction false} ReceiveAllStaysClean(v: View, chunks: seq<ContentChunk>)
    requires Clean(v.live)
    ensures Clean(ReceiveAll(v, chunks).live)
    decreases |chunks|
  {
    if |chunks| > 0 {
      ReceiveStaysClean(v, chunks[0].ToString());
      ReceiveAllStaysClean(Receive(v, chunks[0].ToString()), chunks[1..]);
    }
  }

  /** The page and the server show the same live text at every point of the stream. */
  ghost predicate AgreeThroughout(v: View, chunks: seq<ContentChunk>) {
    forall n :: 0 <= n <= |chunks| ==> ReceiveAll(v, chunks[..n]).live == PlayAll(v.live, chunks[..n]).live
  }

  /** A text with a hidden break reaches the server's live text at some point. */
  lemma EditShowsBreak(live: string, e: Edit) returns (n: nat)
    requires !NoHiddenBreak(e.text)
    ensures n <= |Diff(live, e.text, e.newId)|
    ensures !Clean(PlayAll(live, Diff(live, e.text, e.newId)[..n]).live)
  {
    if !Clean(live) {
      n := 0;
    } else {
      var j := NewLinesHaveBreak(live, e.text);
      var d := TypedLines(CommonPrefix(live, e.text), NewLines(live, e.text), e.newId);
      assert d == Diff(live, e.text, e.newId);
      TypedLinesAt(CommonPrefix(live, e.text), NewLines(live, e.text), e.newId, j);
      n := 2 * j + 1;
      ChunkShowsBreak(live, d, 2 * j);
    }
  }

  lemma ChunkShowsBreak(live: string, d: seq<ContentChunk>, m: nat)
    requires m < |d| && d[m].offset >= 0 && !Clean(d[m].text)
    ensures !Clean(PlayAll(live, d[..m + 1]).live)
  {
    assert d[..m + 1] == d[..m] + [d[m]];
    PlayAllSnoc(live, d[..m], d[m]);
    LiveHasText(PlayAll(live, d[..m]).live, d[m]);
  }

  lemma LiveHasText(live: string, c: ContentChunk)
    requires c.offset >= 0 && !Clean(c.text)
    ensures !Clean(ProcessLiveChunk(live, c).live)
  {
    var r := ProcessLiveChunk(live, c).live;
    var i :| 0 <= i < |c.text| && IsLineBreak(c.text[i]);
    assert r[c.offset..][i] == r[c.offset + i];
  }

  lemma {:induction false} RunShowsBreak(live: string, edits: seq<Edit>) returns (n: nat)
    requires Free(live, '\n')
    requires exists j :: 0 <= j < |edits| && !NoHiddenBreak(edits[j].text)
    ensures n <= |Sent(live, edits)|
    ensures !Clean(PlayAll(live, Sent(live, edits)[..n]).live)
    decreases |edits|
  {
    hide NoHiddenBreak, Clean, Diff, LastLine, PlayAll;
    var e, next := edits[0], LastLine(edits[0].text);
    var d, rest := Diff(live, e.text, e.newId), Sent(next, edits[1..]);
    if !NoHiddenBreak(e.text) {
      n := EditShowsBreak(live, e);
      assert (d + rest)[..n] == d[..n];
    } else {
      var j :| 0 <= j < |edits| && !NoHiddenBreak(edits[j].text);
      assert edits[1..][j - 1] == edits[j];
      var m := RunShowsBreak(next, edits[1..]);
      n := |d| + m;
      assert (d + rest)[..n] == d + rest[..m];
      SingleEditReplays(live, e);
      PlayAllAppend(live, d, rest[..m]);
    }
  }

  lemma BrowserAgreesAt(v: View, chunks: seq<ContentChunk>, n: nat)
    requires n <= |chunks| && NeverPads(v.live, chunks) && Readable(chunks)
    ensures ReceiveAll(v, chunks[..n]).live == PlayAll(v.live, chunks[..n]).live
  {
    assert chunks == chunks[..n] + chunks[n..];
    NeverPadsAppend(v.live, chunks[..n], chunks[n..]);
    BrowserFollows(v, chunks[..n]);
  }

  lemma BrowserAgrees(v: View, chunks: seq<ContentChunk>)
    requires NeverPads(v.live, chunks) && Readable(chunks)
    ensures AgreeThroughout(v, chunks)
  {
    forall n | 0 <= n <= |chunks| ensures ReceiveAll(v, chunks[..n]).live == PlayAll(v.live, chunks[..n]).live {
      BrowserAgreesAt(v, chunks, n);
    }
  }

  lemma BrowserDisagrees(v: View, chunks: seq<ContentChunk>, n: nat)
    requires Clean(v.live) && n <= |chunks| && !Clean(PlayAll(v.live, chunks[..n]).live)
    ensures !AgreeThroughout(v, chunks)
  {
    ReceiveAllStaysClean(v, chunks[..n]);
  }

  /** The page agrees with the server at every point of a run exactly when no edit of the
      run holds a line break other than the newline. */
  lemma BrowserAgreesExactly(v: View, edits: seq<Edit>)
    requires Clean(v.live) && CleanIds(edits)
    ensures AgreeThroughout(v, Sent(v.live, edits)) <==>
            forall j :: 0 <= j < |edits| ==> NoHiddenBreak(edits[j].text)
  {
    if forall j :: 0 <= j < |edits| ==> NoHiddenBreak(edits[j].text) {
      SentReadable(v.live, edits);
      EditRunNeverPads(v.live, edits);
      BrowserAgrees(v, Sent(v.live, edits));
    } else {
      var n := RunShowsBreak(v.live, edits);
      BrowserDisagrees(v, Sent(v.live, edits), n);
    }
  }

  lemma OvershootRereads(v: View, c: ContentChunk)
    requires c.offset > |v.live|
    ensures ReceiveParsed(v, BrowserChunk(true, ParseContentOffset(c.offset), c.text))
            == v.(resetInProgress := true, rereads := v.rereads + 1)
  {
  }

  /** The two ways the page leaves the server's path: it drops a diff chunk whose text has
      a line break, and it rereads when a chunk overshoots. */
  lemma ReceiveDeparts(v: View, c: ContentChunk)
    requires c.offset >= CO_NEWLINE
    ensures !Clean(c.text) ==> Receive(v, c.ToString()) == v
    ensures Clean(c.text) && c.offset > |v.live| ==>
              Receive(v, c.ToString()) == v.(resetInProgress := true, rereads := v.rereads + 1)
  {
    BrowserReadsPrinted(c);
    if c.offset > |v.live| {
      OvershootRereads(v, c);
    }
  }

  /** What a hidden break leads to: the page drops the chunk that types such a text into an
      empty line, and the next keystroke at its end overshoots and asks for a reread. */
  lemma HiddenBreakForcesReread(v: View, text: string, typed: string, newId: nat -> string)
    requires v.live == "" && !Clean(text) && Free(text, '\n')
    requires |typed| > 0 && Clean(typed)
    ensures Diff("", text, newId) == [ContentChunk(0, text)]
    ensures Diff(text, text + typed, newId) == [ContentChunk(|text|, typed)]
    ensures var dropped := Receive(v, ContentChunk(0, text).ToString());
            dropped == v && Receive(dropped, ContentChunk(|text|, typed).ToString()).rereads == v.rereads + 1
  {
    assert "" + text == text;
    TypingAppends("", text, newId);
    TypingAppends(text, typed, newId);
    ReceiveDeparts(v, ContentChunk(0, text));
    ReceiveDeparts(v, ContentChunk(|text|, typed));
  }

  // ----- rereads -----

  /** A reread brings the page back: whatever a waiting page shows, after the start of the
      reread and the live text it shows that text and waits no more.  Neither has an effect
      on a page that does not wait. */
  lemma RereadResyncs(v: View, note: string, live: string)
    requires Clean(note) && Clean(live)
    ensures var started := Receive(v, ContentChunk(-4, note).ToString());
            var done := Receive(started, ContentChunk(-3, live).ToString());
            && started == (if v.resetInProgress then v.(live := "") else v)
            && done == (if v.resetInProgress then v.(live := live, resetInProgress := false) else v)
  {
    hide ParseBrowserChunk, Clean, Itoa;
    ReadsNegative(-4, note);
    ReadsNegative(-3, live);
  }

  /** Every other chunk with an offset below that of a newline leaves the page as it is. */
  lemma OthersAreIgnored(v: View, offset: int, text: string)
    requires offset < CO_NEWLINE && offset != -3 && offset != -4
    ensures Receive(v, ContentChunk(offset, text).ToString()) == v
  {
    hide ParseBrowserChunk, Clean, Itoa;
    ReadsNegative(offset, text);
  }

  lemma ReadsNegative(offset: int, text: string)
    requires offset < CO_NEWLINE
    ensures ParseBrowserChunk(ContentChunk(offset, text).ToString()) ==
            if Clean(text) then Some(BrowserChunk(false, ParseContentOffset(offset), text)) else None
  {
    var left := Itoa(offset);
    assert ContentChunk(offset, text).ToString() == left + ['|'] + text;
    assert Free(left, '|') by { AtoiOfItoa(offset); }
    CutAt(left, '|', text);
    ParseOffsetOfItoa(offset);
  }

  /** So a page that fell behind follows again after a reread: it shows the server's live text
      from then on, and the lines that the server completes from then on. */
  lemma FollowsAfterReread(v: View, note: string, live: string, chunks: seq<ContentChunk>)
    requires v.resetInProgress && Clean(note) && Clean(live) && NeverPads(live, chunks) && Readable(chunks)
    ensures var back := Receive(Receive(v, ContentChunk(-4, note).ToString()), ContentChunk(-3, live).ToString());
            var r, p := ReceiveAll(back, chunks), PlayAll(live, chunks);
            r.live == p.live && r.past == v.past + PastLines(p.lines) && r.rereads == v.rereads && !r.resetInProgress
  {
    hide Receive, ReceiveAll, PlayAll, Clean, NeverPads;
    RereadResyncs(v, note, live);
    BrowserFollows(v.(live := live, resetInProgress := false), chunks);
  }

  // ----- the two parsers -----

  /** On any data, printed by whomever: if the server can read it, the page reads the same
      exactly if there is no plus sign in front and no line break in the text, and otherwise
      cannot read it. */
  lemma ParsersAgreeExactly(head: string, text: string)
    requires Free(head, '|') && Atoi(head).Some?
    ensures var c := ParseContentChunk(head + "|" + text);
            && c == ContentChunk(Atoi(head).value, text)
            && ParseBrowserChunk(head + "|" + text) ==
               if Clean(text) && head[0] != '+' then
                 Some(BrowserChunk(c.offset >= CO_NEWLINE, ParseContentOffset(c.offset), c.text))
               else None
  {
    CutAt(head, '|', text);
    assert head + "|" + text == head + ['|'] + text;
    assert head[0] == '+' ==> !AllDigits(head);
  }
}
