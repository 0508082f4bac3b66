/**
 Forwarding and recording a chat stream (`_recording_stream` in api/routes/compat_chat.py) and
 re-encoding it as newline-delimited JSON (`_ollama_stream` in api/routes/ollama_compat.py).
 A generator is run by its consumer, who may stop pulling at any point.
 */
module StreamRelay {
  import opened Wrappers
  import opened Sequences
  import opened SseText

  datatype Ending = Exhausted | Fails

  /** The upstream: its chunks, then the end or an exception. */
  datatype Upstream = Upstream(chunks: seq<string>, ending: Ending)

  /** What reaches the thread store: an assistant message or an error event. */
  datatype Entry = Assistant(text: string) | Error

  const MARKER := "data: [DONE]"

  function Text(parts: seq<string>): string {
    if parts == [] then "" else parts[0] + Text(parts[1..])
  }

  lemma {:induction false} TextConcat(a: seq<string>, b: seq<string>)
    ensures Text(a + b) == Text(a) + Text(b)
  {
    if a == [] {
      assert a + b == b;
    } else {
      assert (a + b)[1..] == a[1..] + b;
      TextConcat(a[1..], b);
    }
  }

  /** The number of chunks before the first one whose extraction raises. */
  function Readable(chunks: seq<string>, json: Decoder): (n: nat)
    ensures n <= |chunks|
  {
    if chunks == [] || Extract(chunks[0], json).Raised? then 0 else 1 + Readable(chunks[1..], json)
  }

  lemma {:induction false} ReadableIs(chunks: seq<string>, json: Decoder)
    ensures forall i :: 0 <= i < Readable(chunks, json) ==> Extract(chunks[i], json).Parts?
    ensures Readable(chunks, json) < |chunks| ==> Extract(chunks[Readable(chunks, json)], json).Raised?
  {
    hide Extract;
    if chunks != [] {
      ReadableIs(chunks[1..], json);
    }
  }

  lemma {:induction false} ExtractAllRaises(chunks: seq<string>, json: Decoder)
    ensures ExtractAll(chunks, json).Raised? <==> Readable(chunks, json) < |chunks|
  {
    hide Extract;
    if chunks != [] {
      ExtractAllRaises(chunks[1..], json);
    }
  }

  lemma ExtractAllNone(json: Decoder)
    ensures ExtractAll([], json) == Parts([])
  {
  }

  // ---------- recording ----------

  /** The recording generator, pulled `take` times. `preamble` holds the thread and context
      events; `storeWorks` says whether storing the message goes through. */
  method RecordingStream(preamble: seq<string>, up: Upstream, json: Decoder, take: nat, storeWorks: bool)
    returns (delivered: seq<string>, store: seq<Entry>, raised: bool)
    // a consumer that stops early gets a prefix and leaves no trace in the store
    ensures var all := preamble + up.chunks[..Readable(up.chunks, json)];
            && delivered == (if take <= |all| then all[..take] else all)
            && (take <= |all| ==> store == [] && !raised)
    // a consumer that drains the stream leaves exactly one entry: a message only if the upstream
    // ended by itself, every chunk could be read, and storing it works
    ensures take > |preamble| + Readable(up.chunks, json) ==>
              if up.ending.Exhausted? && Readable(up.chunks, json) == |up.chunks| && storeWorks
              then ExtractAll(up.chunks, json).Parts?
                   && store == [Assistant(Text(ExtractAll(up.chunks, json).parts))] && !raised
              else store == [Error] && raised
  {
    hide Extract, ExtractAll;
    ExtractAllRaises(up.chunks, json);
    delivered, store, raised := [], [], false;
    ExtractAllNone(json);
    ReadableIs(up.chunks, json);
    ghost var all := preamble + up.chunks[..Readable(up.chunks, json)];
    var i := 0;
    while i < |preamble|
      invariant 0 <= i <= |preamble| && i <= take && delivered == preamble[..i]
    {
      if i == take {
        assert delivered == all[..take];
        return;
      }
      delivered := delivered + [preamble[i]];
      i := i + 1;
    }
    var parts: seq<string> := [];
    i := 0;
    while i < |up.chunks|
      invariant 0 <= i <= Readable(up.chunks, json) && |preamble| + i <= take
      invariant delivered == preamble + up.chunks[..i]
      invariant ExtractAll(up.chunks[..i], json) == Parts(parts)
    {
      if |delivered| == take {
        assert delivered == all[..take];
        return;
      }
      var more := ExtractSseContent(up.chunks[i], json);
      if more.Raised? {
        ExtractAllRaises(up.chunks, json);
        return delivered, [Error], true;
      }
      ExtractAllSnoc(up.chunks[..i], up.chunks[i], json);
      assert up.chunks[..i + 1] == up.chunks[..i] + [up.chunks[i]];
      parts := parts + more.parts;
      delivered := delivered + [up.chunks[i]];
      i := i + 1;
    }
    assert up.chunks[..i] == up.chunks;
    if |delivered| == take {
      assert delivered == all[..take];
      return;
    }
    if up.ending.Fails? || !storeWorks {
      return delivered, [Error], true;
    }
    var content := JoinParts(parts);
    store := [Assistant(content)];
  }

  predicate Drained(up: Upstream, json: Decoder) {
    up.ending.Exhausted? && ExtractAll(up.chunks, json).Parts?
  }

  method JoinParts(parts: seq<string>) returns (s: string)
    ensures s == Text(parts)
  {
    s := "";
    var i := 0;
    while i < |parts|
      invariant 0 <= i <= |parts| && s == Text(parts[..i])
    {
      TextConcat(parts[..i], [parts[i]]);
      assert parts[..i + 1] == parts[..i] + [parts[i]] && [parts[i]][1..] == [];
      s := s + parts[i];
      i := i + 1;
    }
    assert parts[..|parts|] == parts;
  }

  // ---------- re-encoding ----------

  datatype Line = Content(text: string) | Done | Raw(chunk: string)

  predicate MarkerAt(chunk: string, i: nat) {
    i + |MARKER| <= |chunk| && chunk[i..i + |MARKER|] == MARKER
  }

  predicate HasMarker(chunk: string) {
    exists i: nat :: i <= |chunk| && MarkerAt(chunk, i)
  }

  function PartsOf(p: Parsed): seq<string> {
    if p.Raised? then [] else p.parts
  }

  function ContentLines(parts: seq<string>): seq<Line> {
    if parts == [] then [] else [Content(parts[0])] + ContentLines(parts[1..])
  }

  function ChunkLines(chunk: string, parts: seq<string>): seq<Line> {
    if parts == [] && !HasMarker(chunk) then [Raw(chunk)]
    else ContentLines(parts) + if HasMarker(chunk) then [Done] else []
  }

  /** The lines made of chunks that can all be read. */
  function OllamaLines(chunks: seq<string>, json: Decoder): seq<Line> {
    if chunks == [] then []
    else ChunkLines(chunks[0], PartsOf(Extract(chunks[0], json))) + OllamaLines(chunks[1..], json)
  }

  /** A chunk's lines, by position: one content line for each part, then one line more only if the
      chunk has the marker, which is then the done line, or no content, when it is the chunk itself. */
  ghost predicate LinesOf(chunk: string, parts: seq<string>, lines: seq<Line>) {
    && |lines| == |parts| + (if HasMarker(chunk) || parts == [] then 1 else 0)
    && (forall k :: 0 <= k < |parts| ==> lines[k] == Content(parts[k]))
    && (HasMarker(chunk) ==> lines[|parts|] == Done)
    && (!HasMarker(chunk) && parts == [] ==> lines == [Raw(chunk)])
  }

  lemma {:induction false} ContentLinesAt(parts: seq<string>)
    ensures |ContentLines(parts)| == |parts|
    ensures forall k :: 0 <= k < |parts| ==> ContentLines(parts)[k] == Content(parts[k])
  {
    if parts != [] {
      ContentLinesAt(parts[1..]);
      assert forall k :: 0 < k < |parts| ==> parts[k] == parts[1..][k - 1];
    }
  }

  lemma ChunkLinesAre(chunk: string, parts: seq<string>)
    ensures LinesOf(chunk, parts, ChunkLines(chunk, parts))
    ensures (exists k :: 0 <= k < |ChunkLines(chunk, parts)| && ChunkLines(chunk, parts)[k].Raw?) <==>
              parts == [] && !HasMarker(chunk)
  {
    hide HasMarker;
    ContentLinesAt(parts);
    var lines := ChunkLines(chunk, parts);
    if parts == [] && !HasMarker(chunk) {
      assert lines[0] == Raw(chunk);
    }
  }

  function Joined(parts: seq<seq<Line>>): seq<Line> {
    if parts == [] then [] else parts[0] + Joined(parts[1..])
  }

  /** The lines of a stream are those of its chunks, one after the other. */
  lemma {:induction false} StreamLinesAre(chunks: seq<string>, json: Decoder) returns (lines: seq<seq<Line>>)
    ensures OllamaLines(chunks, json) == Joined(lines) && |lines| == |chunks|
    ensures forall k :: 0 <= k < |chunks| ==> LinesOf(chunks[k], PartsOf(Extract(chunks[k], json)), lines[k])
  {
    hide Extract, HasMarker, ChunkLines, LinesOf;
    if chunks == [] {
      lines := [];
    } else {
      var parts := PartsOf(Extract(chunks[0], json));
      var rest := StreamLinesAre(chunks[1..], json);
      ChunkLinesAre(chunks[0], parts);
      lines := [ChunkLines(chunks[0], parts)] + rest;
      assert lines[1..] == rest;
      assert forall k :: 0 < k < |chunks| ==> chunks[k] == chunks[1..][k - 1] && lines[k] == rest[k - 1];
    }
  }

  /** The chunks passed on as they are, in order. */
  function Raws(lines: seq<Line>): seq<string> {
    if lines == [] then [] else (if lines[0].Raw? then [lines[0].chunk] else []) + Raws(lines[1..])
  }

  /** By position: the raw lines are the chunks without content and marker. */
  ghost predicate RawAt(chunks: seq<string>, json: Decoder, raws: seq<string>, at: seq<nat>) {
    && Ascending(at, |chunks|) && |at| == |raws|
    && (forall k :: 0 <= k < |at| ==> raws[k] == chunks[at[k]])
    && (forall i :: 0 <= i < |chunks| ==>
          (i in at <==> PartsOf(Extract(chunks[i], json)) == [] && !HasMarker(chunks[i])))
  }

  lemma {:induction false} RawsConcat(a: seq<Line>, b: seq<Line>)
    ensures Raws(a + b) == Raws(a) + Raws(b)
  {
    if a == [] {
      assert a + b == b;
    } else {
      assert (a + b)[1..] == a[1..] + b;
      RawsConcat(a[1..], b);
      ConcatAssoc(if a[0].Raw? then [a[0].chunk] else [], Raws(a[1..]), Raws(b));
    }
  }

  lemma {:induction false} NoRaws(parts: seq<string>)
    ensures Raws(ContentLines(parts)) == []
  {
    if parts != [] {
      assert ContentLines(parts)[1..] == ContentLines(parts[1..]);
      NoRaws(parts[1..]);
    }
  }

  lemma ChunkRaws(chunk: string, parts: seq<string>)
    ensures Raws(ChunkLines(chunk, parts)) == if parts == [] && !HasMarker(chunk) then [chunk] else []
  {
    hide HasMarker;
    NoRaws(parts);
    RawsConcat(ContentLines(parts), [Done]);
    assert [Done][1..] == [] && [Raw(chunk)][1..] == [];
    assert ContentLines(parts) + [] == ContentLines(parts);
  }

  /** Over a whole stream exactly the chunks without content and without marker are passed on as
      they are, each once and in order. */
  lemma {:induction false} RawsAre(chunks: seq<string>, json: Decoder) returns (at: seq<nat>)
    ensures RawAt(chunks, json, Raws(OllamaLines(chunks, json)), at)
  {
    hide Extract, HasMarker, ChunkLines, Raws;
    if chunks == [] {
      at := [];
      NoRaws([]);
    } else {
      var n := |chunks| - 1;
      var front, last := chunks[..n], chunks[n];
      var parts := PartsOf(Extract(last, json));
      assert chunks == front + [last] && [last][1..] == [];
      at := RawsAre(front, json);
      OllamaLinesConcat(front, [last], json);
      assert OllamaLines([last], json) == ChunkLines(last, parts) + [] == ChunkLines(last, parts);
      RawsConcat(OllamaLines(front, json), ChunkLines(last, parts));
      ChunkRaws(last, parts);
      RawMore(front, json, Raws(OllamaLines(front, json)), at, last);
      if parts == [] && !HasMarker(last) {
        at := at + [n];
      } else {
        assert Raws(OllamaLines(front, json)) + [] == Raws(OllamaLines(front, json));
      }
    }
  }

  lemma RawMore(front: seq<string>, json: Decoder, raws: seq<string>, at: seq<nat>, last: string)
    requires RawAt(front, json, raws, at)
    ensures if PartsOf(Extract(last, json)) == [] && !HasMarker(last)
            then RawAt(front + [last], json, raws + [last], at + [|front|])
            else RawAt(front + [last], json, raws, at)
  {
    hide Extract, HasMarker;
    var n, all, more := |front|, front + [last], at + [|front|];
    assert all[n] == last && forall i :: 0 <= i < n ==> all[i] == front[i];
    assert n !in at && n in more by { assert more[|at|] == n; }
    assert forall i :: 0 <= i < n ==> (i in more <==> i in at) by {
      assert forall i :: i in more <==> i in at || i == n;
    }
  }

  /** The text a client assembles from the `done: false` lines. */
  function Assembled(lines: seq<Line>): string {
    if lines == [] then "" else (if lines[0].Content? then lines[0].text else "") + Assembled(lines[1..])
  }

  function DoneCount(lines: seq<Line>): nat {
    if lines == [] then 0 else (if lines[0].Done? then 1 else 0) + DoneCount(lines[1..])
  }

  function MarkerCount(chunks: seq<string>): nat {
    if chunks == [] then 0 else (if HasMarker(chunks[0]) then 1 else 0) + MarkerCount(chunks[1..])
  }

  lemma {:induction false} LinesConcat(a: seq<Line>, b: seq<Line>)
    ensures Assembled(a + b) == Assembled(a) + Assembled(b)
    ensures DoneCount(a + b) == DoneCount(a) + DoneCount(b)
  {
    if a == [] {
      assert a + b == b;
    } else {
      assert (a + b)[1..] == a[1..] + b;
      LinesConcat(a[1..], b);
    }
  }

  lemma {:induction false} ContentLinesMean(parts: seq<string>)
    ensures Assembled(ContentLines(parts)) == Text(parts) && DoneCount(ContentLines(parts)) == 0
  {
    if parts != [] {
      assert ([Content(parts[0])] + ContentLines(parts[1..]))[1..] == ContentLines(parts[1..]);
      ContentLinesMean(parts[1..]);
    }
  }

  lemma ChunkLinesMean(chunk: string, parts: seq<string>)
    ensures Assembled(ChunkLines(chunk, parts)) == Text(parts)
    ensures DoneCount(ChunkLines(chunk, parts)) == if HasMarker(chunk) then 1 else 0
  {
    ContentLinesMean(parts);
    LinesConcat(ContentLines(parts), if HasMarker(chunk) then [Done] else []);
    assert DoneCount([Done]) == 1 && Assembled([Done]) == "" by { assert [Done][1..] == []; }
    assert DoneCount([Raw(chunk)]) == 0 && Assembled([Raw(chunk)]) == "" by { assert [Raw(chunk)][1..] == []; }
  }

  /** The re-encoded text is the extracted text, and there is one `done: true` line for each
      chunk that contains the marker. */
  lemma {:induction false} OllamaLinesMean(chunks: seq<string>, json: Decoder)
    ensures ExtractAll(chunks, json).Parts? ==>
              Assembled(OllamaLines(chunks, json)) == Text(ExtractAll(chunks, json).parts)
    ensures DoneCount(OllamaLines(chunks, json)) == MarkerCount(chunks)
  {
    hide Extract, HasMarker, ChunkLines;
    if chunks != [] {
      var head := PartsOf(Extract(chunks[0], json));
      OllamaLinesMean(chunks[1..], json);
      ChunkLinesMean(chunks[0], head);
      LinesConcat(ChunkLines(chunks[0], head), OllamaLines(chunks[1..], json));
      TextConcat(head, PartsOf(ExtractAll(chunks[1..], json)));
    }
  }

  lemma {:induction false} OllamaLinesConcat(a: seq<string>, b: seq<string>, json: Decoder)
    ensures OllamaLines(a + b, json) == OllamaLines(a, json) + OllamaLines(b, json)
  {
    hide Extract, ChunkLines;
    if a == [] {
      assert a + b == b;
    } else {
      assert (a + b)[1..] == a[1..] + b;
      OllamaLinesConcat(a[1..], b, json);
    }
  }

  lemma {:induction false} NoMarkersNoDone(chunks: seq<string>)
    requires forall i :: 0 <= i < |chunks| ==> !HasMarker(chunks[i])
    ensures MarkerCount(chunks) == 0
  {
    hide HasMarker;
    if chunks != [] {
      NoMarkersNoDone(chunks[1..]);
    }
  }

  /** If exactly the chunk at `k` contains the marker, there is exactly one `done: true` line:
      the content of that chunk comes right before it and the later chunks' lines after it. */
  lemma OneMarkerOneDone(chunks: seq<string>, k: nat, json: Decoder)
    requires k < |chunks| && forall i :: 0 <= i < |chunks| ==> (HasMarker(chunks[i]) <==> i == k)
    ensures var before := OllamaLines(chunks[..k], json) + ContentLines(PartsOf(Extract(chunks[k], json)));
            var after := OllamaLines(chunks[k + 1..], json);
            && OllamaLines(chunks, json) == before + [Done] + after
            && DoneCount(before) == 0 && DoneCount(after) == 0
  {
    hide *;
    var a, b, mid := chunks[..k], chunks[k + 1..], chunks[k];
    var parts := PartsOf(Extract(mid, json));
    assert chunks == a + ([mid] + b);
    OllamaLinesConcat(a, [mid] + b, json);
    MarkedChunk(mid, b, json);
    OllamaLinesMean(a, json);
    OllamaLinesMean(b, json);
    NoMarkersNoDone(a);
    NoMarkersNoDone(b);
    ContentLinesMean(parts);
    LinesConcat(OllamaLines(a, json), ContentLines(parts));
    Rearrange(OllamaLines(a, json), ContentLines(parts), OllamaLines(b, json));
  }

  lemma MarkedChunk(chunk: string, rest: seq<string>, json: Decoder)
    requires HasMarker(chunk)
    ensures OllamaLines([chunk] + rest, json) ==
            (ContentLines(PartsOf(Extract(chunk, json))) + [Done]) + OllamaLines(rest, json)
  {
    hide Extract, HasMarker;
    assert ([chunk] + rest)[1..] == rest;
  }

  lemma Rearrange(a: seq<Line>, b: seq<Line>, c: seq<Line>)
    ensures a + ((b + [Done]) + c) == (a + b) + [Done] + c
  {
  }

  lemma MarkerHasNoBreak(j: nat)
    requires j < |MARKER|
    ensures !IsBreak(MARKER[j])
  {
    assert MARKER[j] in {'d', 'a', 't', ':', ' ', '[', 'D', 'O', 'N', 'E', ']'};
  }

  /** A cut at a line boundary neither makes nor breaks a marker. */
  lemma MarkerConcat(a: string, b: string)
    requires EndsAtBreak(a)
    ensures HasMarker(a + b) <==> HasMarker(a) || HasMarker(b)
  {
    hide MarkerAt;
    MarkerStays(a, b);
    if i: nat :| i <= |a + b| && MarkerAt(a + b, i) {
      MarkerToParts(a, b, i);
    }
  }

  lemma MarkerStays(a: string, b: string)
    ensures HasMarker(a) || HasMarker(b) ==> HasMarker(a + b)
  {
    hide MarkerAt;
    if i: nat :| i <= |a| && MarkerAt(a, i) {
      MarkerFromParts(a, b, i);
    }
    if i: nat :| i <= |b| && MarkerAt(b, i) {
      MarkerFromParts(a, b, |a| + i);
    }
  }

  lemma MarkerFromParts(a: string, b: string, i: nat)
    ensures i <= |a| && MarkerAt(a, i) ==> MarkerAt(a + b, i)
    ensures |a| <= i <= |a| + |b| && MarkerAt(b, i - |a|) ==> MarkerAt(a + b, i)
  {
    var n := |MARKER|;
    assert i + n <= |a| ==> (a + b)[i..i + n] == a[i..i + n];
    assert |a| <= i <= i + n <= |a + b| ==> (a + b)[i..i + n] == b[i - |a|..i - |a| + n];
  }

  lemma MarkerToParts(a: string, b: string, i: nat)
    requires EndsAtBreak(a) && MarkerAt(a + b, i)
    ensures (i <= |a| && MarkerAt(a, i)) || (|a| <= i <= |a| + |b| && MarkerAt(b, i - |a|))
  {
    hide IsBreak;
    var n, t := |MARKER|, a + b;
    assert i + n <= |a| ==> t[i..i + n] == a[i..i + n];
    assert |a| <= i ==> t[i..i + n] == b[i - |a|..i - |a| + n];
    if i < |a| < i + n {
      var j := |a| - 1 - i;
      assert MARKER[j] == t[i..i + n][j] == a[|a| - 1];
      MarkerHasNoBreak(j);
    }
  }

  /** However a text is cut at line boundaries, a `done: true` line is sent if and only
      if the text contains the marker. How many are sent does depend on the cuts. */
  lemma {:induction false} DoneIffMarkerInText(chunks: seq<string>, json: Decoder)
    requires LineAligned(chunks)
    ensures DoneCount(OllamaLines(chunks, json)) > 0 <==> HasMarker(Flatten(chunks))
  {
    hide Extract, HasMarker, ChunkLines, OllamaLines;
    OllamaLinesMean(chunks, json);
    if chunks == [] {
      NoMarkerInNothing();
    } else {
      OllamaLinesMean(chunks[1..], json);
      if |chunks| == 1 {
        assert Flatten(chunks) == chunks[0] + Flatten(chunks[1..]) == chunks[0];
      } else {
        assert forall i :: 0 <= i < |chunks[1..]| - 1 ==> chunks[1..][i] == chunks[i + 1];
        DoneIffMarkerInText(chunks[1..], json);
        MarkerConcat(chunks[0], Flatten(chunks[1..]));
      }
    }
  }

  lemma NoMarkerInNothing()
    ensures !HasMarker("")
  {
  }

  /** Two markers: two `done: true` lines in two chunks, one in a single chunk. */
  lemma DoneCountDependsOnCuts(json: Decoder)
    ensures var m := MARKER + "\n";
            && DoneCount(OllamaLines([m, m], json)) == 2 && DoneCount(OllamaLines([m + m], json)) == 1
            && Flatten([m, m]) == Flatten([m + m]) && LineAligned([m, m])
  {
    var m := MARKER + "\n";
    assert m[0..|MARKER|] == MARKER && (m + m)[0..|MARKER|] == MARKER;
    assert MarkerAt(m, 0) && MarkerAt(m + m, 0);
    OllamaLinesMean([m, m], json);
    OllamaLinesMean([m + m], json);
    assert [m, m][1..] == [m] && [m][1..] == [] && [m + m][1..] == [];
    assert m[|m| - 1] == '\n';
    assert Flatten([m, m]) == m + Flatten([m]) == m + (m + Flatten([]));
    assert Flatten([m + m]) == (m + m) + Flatten([]);
  }

  ghost predicate AlignedCut(chunks: seq<string>, t: string) {
    LineAligned(chunks) && Flatten(chunks) == t
  }

  predicate SplitsMarkers(t: string, n: nat)
    requires n <= |t|
  {
    EndsAtBreak(t[..n]) && HasMarker(t[..n]) && HasMarker(t[n..])
  }

  /** A line boundary of the text has markers on both sides. */
  predicate MarkersApart(t: string) {
    exists n: nat :: n <= |t| && SplitsMarkers(t, n)
  }

  lemma {:induction false} TwoMarkedChunks(chunks: seq<string>, json: Decoder)
    requires LineAligned(chunks) && MarkerCount(chunks) >= 2
    ensures MarkersApart(Flatten(chunks))
  {
    hide HasMarker, EndsAtBreak;
    var c, rest, t := chunks[0], chunks[1..], Flatten(chunks);
    assert rest != [] by { OneChunkAtMost(chunks); }
    assert forall i :: 0 <= i < |rest| - 1 ==> rest[i] == chunks[i + 1];
    assert t == c + Flatten(rest);
    if HasMarker(c) {
      OllamaLinesMean(rest, json);
      DoneIffMarkerInText(rest, json);
      assert t[..|c|] == c && t[|c|..] == Flatten(rest);
      assert SplitsMarkers(t, |c|);
    } else {
      TwoMarkedChunks(rest, json);
      var n: nat :| n <= |Flatten(rest)| && SplitsMarkers(Flatten(rest), n);
      ApartLater(c, Flatten(rest), n);
    }
  }

  lemma OneChunkAtMost(chunks: seq<string>)
    ensures |chunks| <= 1 ==> MarkerCount(chunks) <= 1
  {
    hide HasMarker;
    assert |chunks| == 1 ==> chunks[1..] == [];
  }

  lemma ApartLater(c: string, rest: string, n: nat)
    requires EndsAtBreak(c) && n <= |rest| && SplitsMarkers(rest, n)
    ensures MarkersApart(c + rest)
  {
    hide HasMarker;
    var t, m := c + rest, |c| + n;
    assert t[..m] == c + rest[..n] && t[m..] == rest[n..];
    MarkerConcat(c, rest[..n]);
    NoMarkerInNothing();
    assert rest[..0] == "" && n > 0;
    assert SplitsMarkers(t, m);
  }

  /** How many `done: true` lines are sent is independent of how a text is cut at line boundaries
      exactly when no line boundary of the text has markers on both sides. */
  lemma DoneCountIndependentIff(t: string, json: Decoder)
    ensures (forall one, other :: AlignedCut(one, t) && AlignedCut(other, t) ==>
               DoneCount(OllamaLines(one, json)) == DoneCount(OllamaLines(other, json)))
            <==> !MarkersApart(t)
  {
    hide HasMarker, EndsAtBreak, OllamaLines, Flatten, MarkerCount;
    if n: nat :| n <= |t| && SplitsMarkers(t, n) {
      var one, other := [t], [t[..n], t[n..]];
      ApartCuts(t, n);
      OllamaLinesMean(one, json);
      OllamaLinesMean(other, json);
      assert AlignedCut(one, t) && AlignedCut(other, t);
    } else {
      forall one, other | AlignedCut(one, t) && AlignedCut(other, t)
        ensures DoneCount(OllamaLines(one, json)) == DoneCount(OllamaLines(other, json))
      {
        DoneCountIs(one, t, json);
        DoneCountIs(other, t, json);
      }
    }
  }

  lemma DoneCountIs(chunks: seq<string>, t: string, json: Decoder)
    requires AlignedCut(chunks, t) && !MarkersApart(t)
    ensures DoneCount(OllamaLines(chunks, json)) == if HasMarker(t) then 1 else 0
  {
    hide HasMarker, OllamaLines, MarkersApart;
    OllamaLinesMean(chunks, json);
    DoneIffMarkerInText(chunks, json);
    if MarkerCount(chunks) >= 2 {
      TwoMarkedChunks(chunks, json);
    }
  }

  lemma ApartCuts(t: string, n: nat)
    requires n <= |t| && SplitsMarkers(t, n)
    ensures AlignedCut([t], t) && AlignedCut([t[..n], t[n..]], t)
    ensures MarkerCount([t]) == 1 && MarkerCount([t[..n], t[n..]]) == 2
  {
    hide HasMarker, EndsAtBreak;
    var a, b := t[..n], t[n..];
    assert t == a + b;
    MarkerConcat(a, b);
    assert [t][1..] == [] && [a, b][1..] == [b] && [b][1..] == [];
    FlattenOne(t);
    FlattenOne(b);
  }

  lemma FlattenOne(t: string)
    ensures Flatten([t]) == t
  {
    assert [t][1..] == [] && t + "" == t;
  }

  // ---------- cuts anywhere ----------

  /** The cut after every character. */
  function Singles(t: string): seq<string> {
    if t == "" then [] else [[t[0]]] + Singles(t[1..])
  }

  lemma {:induction false} SinglesCarryNothing(t: string, json: Decoder)
    ensures Flatten(Singles(t)) == t && MarkerCount(Singles(t)) == 0
    ensures ExtractAll(Singles(t), json) == Parts([])
  {
    hide Extract, HasMarker;
    if t != "" {
      var rest := Singles(t[1..]);
      SinglesCarryNothing(t[1..], json);
      assert Singles(t)[1..] == rest && t == [t[0]] + t[1..];
      SingleCarriesNothing(t[0], json);
      JoinAssoc(Parts([]), Parts([]), Parts([]));
    }
  }

  lemma SingleCarriesNothing(c: char, json: Decoder)
    ensures Extract([c], json) == Parts([]) && !HasMarker([c])
  {
    hide IsBreak, LinePayload;
    ShortLines(c, json);
    if IsBreak(c) {
      SplitFirst([c], 0);
      SplitNothing();
      assert [c][..0] == "" && [c][1..] == "";
      assert SplitLines([c]) == [""] + [];
      EmptyLineIsSilent([], json);
    } else {
      OneLine([c], json);
      assert [[c]][1..] == [];
    }
  }

  lemma ShortLines(c: char, json: Decoder)
    ensures LinePayload([c], json) == None && LinePayload("", json) == None
  {
  }

  lemma {:induction false} UnmarkedText(chunks: seq<string>)
    requires !HasMarker(Flatten(chunks))
    ensures MarkerCount(chunks) == 0
  {
    hide HasMarker;
    if chunks != [] {
      MarkerStays(chunks[0], Flatten(chunks[1..]));
      UnmarkedText(chunks[1..]);
    }
  }

  /** The upstream cuts its text anywhere. Then the number of `done: true` lines is independent of
      the cuts exactly for a text without the marker, and none is sent for it. */
  lemma DoneCountAnyCutIff(t: string, json: Decoder)
    ensures (forall one, other :: Flatten(one) == t && Flatten(other) == t ==>
               DoneCount(OllamaLines(one, json)) == DoneCount(OllamaLines(other, json)))
            <==> !HasMarker(t)
    ensures !HasMarker(t) ==> forall chunks :: Flatten(chunks) == t ==> DoneCount(OllamaLines(chunks, json)) == 0
  {
    hide HasMarker, OllamaLines, Flatten, MarkerCount, Singles;
    if HasMarker(t) {
      FlattenOne(t);
      MarkerInOne(t);
      SinglesCarryNothing(t, json);
      OllamaLinesMean([t], json);
      OllamaLinesMean(Singles(t), json);
      assert Flatten([t]) == t && Flatten(Singles(t)) == t;
    } else {
      forall chunks | Flatten(chunks) == t ensures DoneCount(OllamaLines(chunks, json)) == 0 {
        UnmarkedText(chunks);
        OllamaLinesMean(chunks, json);
      }
    }
  }

  lemma MarkerInOne(t: string)
    requires HasMarker(t)
    ensures MarkerCount([t]) == 1
  {
    hide HasMarker;
    assert [t][1..] == [];
  }

  /** A marker cut in two, at any of its places: no `done: true` line is sent, although the text has
      only one marker and no line boundary. */
  lemma CutMarkerIsLost(a: string, b: string, json: Decoder)
    requires a + b == MARKER && a != "" && b != ""
    ensures Flatten([a, b]) == Flatten([a + b]) && !MarkersApart(a + b)
    ensures DoneCount(OllamaLines([a, b], json)) == 0 && DoneCount(OllamaLines([a + b], json)) == 1
  {
    hide IsBreak, EndsAtBreak, OllamaLines, HasMarker, DoneCount;
    assert |a| + |b| == |a + b| == |MARKER|;
    ShortIsUnmarked(a);
    ShortIsUnmarked(b);
    assert [a, b][1..] == [b] && [b][1..] == [];
    FlattenOne(b);
    FlattenOne(a + b);
    MarkerIsMarked();
    MarkerInOne(a + b);
    OllamaLinesMean([a, b], json);
    OllamaLinesMean([a + b], json);
    forall n: nat | n <= |a + b| ensures !SplitsMarkers(a + b, n) {
      ShortIsUnmarked((a + b)[..n]);
      ShortIsUnmarked((a + b)[n..]);
    }
  }

  lemma ShortIsUnmarked(s: string)
    ensures |s| < |MARKER| ==> !HasMarker(s)
  {
  }

  lemma MarkerIsMarked()
    ensures HasMarker(MARKER)
  {
    assert MARKER[0..|MARKER|] == MARKER && MarkerAt(MARKER, 0);
  }

  /** The re-encoding generator over the chunks its inner stream delivers: it works through
      the chunks that can be read and raises at the first that cannot. */
  method OllamaStream(chunks: seq<string>, json: Decoder) returns (lines: seq<Line>, raised: bool)
    ensures lines == OllamaLines(chunks[..Readable(chunks, json)], json)
    ensures raised <==> Readable(chunks, json) < |chunks|
  {
    hide *;
    lines, raised := [], false;
    ReadableIs(chunks, json);
    OllamaLinesNil(json);
    var i := 0;
    while i < |chunks|
      invariant 0 <= i <= Readable(chunks, json)
      invariant lines == OllamaLines(chunks[..i], json)
    {
      var contents := ExtractSseContent(chunks[i], json);
      if contents.Raised? {
        return lines, true;
      }
      var more := ReencodeChunk(chunks[i], contents.parts);
      OllamaLinesSnoc(chunks, i, contents.parts, json);
      lines := lines + more;
      i := i + 1;
    }
  }

  lemma OllamaLinesNil(json: Decoder)
    ensures OllamaLines([], json) == []
  {
  }

  lemma OllamaLinesSnoc(chunks: seq<string>, i: nat, parts: seq<string>, json: Decoder)
    requires i < |chunks| && Extract(chunks[i], json) == Parts(parts)
    ensures OllamaLines(chunks[..i + 1], json) == OllamaLines(chunks[..i], json) + ChunkLines(chunks[i], parts)
  {
    hide Extract, ChunkLines;
    OllamaLinesConcat(chunks[..i], [chunks[i]], json);
    assert chunks[..i + 1] == chunks[..i] + [chunks[i]] && [chunks[i]][1..] == [];
    assert ChunkLines(chunks[i], parts) + [] == ChunkLines(chunks[i], parts);
  }

  /** One turn of the loop: content lines, a done line if the marker occurs, and the chunk
      itself if nothing was emitted. */
  method ReencodeChunk(chunk: string, parts: seq<string>) returns (lines: seq<Line>)
    ensures lines == ChunkLines(chunk, parts) && LinesOf(chunk, parts, lines)
  {
    hide HasMarker, LinesOf;
    ChunkLinesAre(chunk, parts);
    lines := [];
    var emitted := false;
    var j := 0;
    while j < |parts|
      invariant 0 <= j <= |parts| && (emitted <==> j > 0)
      invariant lines == ContentLines(parts[..j])
    {
      emitted := true;
      ContentLinesSnoc(parts, j);
      lines := lines + [Content(parts[j])];
      j := j + 1;
    }
    assert parts[..j] == parts;
    var marked := FindMarker(chunk);
    if marked {
      emitted := true;
      lines := lines + [Done];
    }
    if !emitted {
      lines := lines + [Raw(chunk)];
    }
  }

  lemma {:induction false} ContentLinesSnoc(parts: seq<string>, j: nat)
    requires j < |parts|
    ensures ContentLines(parts[..j + 1]) == ContentLines(parts[..j]) + [Content(parts[j])]
  {
    if j > 0 {
      assert parts[..j + 1][1..] == parts[1..][..j];
      assert parts[..j][1..] == parts[1..][..j - 1];
      assert parts[1..][j - 1] == parts[j];
      ContentLinesSnoc(parts[1..], j - 1);
    }
  }

  method FindMarker(chunk: string) returns (found: bool)
    ensures found <==> HasMarker(chunk)
  {
    var i: nat := 0;
    while i + |MARKER| <= |chunk|
      invariant forall k: nat :: k < i ==> !MarkerAt(chunk, k)
    {
      if MarkerAt(chunk, i) {
        return true;
      }
      i := i + 1;
    }
    return false;
  }

  // ---------- end to end ----------

  /** Delivered and recorded text agree: behind a preamble without content, the message the
      recording stream stores is the text the client assembles from the re-encoded lines. */
  lemma DeliveredIsRecorded(preamble: seq<string>, up: Upstream, json: Decoder)
    requires forall i :: 0 <= i < |preamble| ==> Extract(preamble[i], json) == Parts([])
    requires Drained(up, json)
    ensures Readable(preamble + up.chunks, json) == |preamble + up.chunks|
    ensures Assembled(OllamaLines(preamble + up.chunks, json)) == Text(ExtractAll(up.chunks, json).parts)
  {
    hide Extract, OllamaLines;
    OllamaLinesMean(preamble + up.chunks, json);
    SilentPreamble(preamble, json);
    ExtractAllConcat(preamble, up.chunks, json);
    ExtractAllRaises(preamble + up.chunks, json);
    JoinAssoc(ExtractAll(up.chunks, json), Parts([]), Parts([]));
  }

  /** An event of the generator's own, `data: <JSON>` and an empty line, has no content when the
      JSON is not an object with choices, as the thread and context events are not. */
  lemma EventIsSilent(body: string, json: Decoder)
    requires forall i :: 0 <= i < |body| ==> !IsBreak(body[i])
    requires var payload := LinePayload("data: " + body, json); payload.Some? ==> "choices" !in payload.value
    ensures Extract("data: " + body + "\n\n", json) == Parts([])
  {
    hide LinePayload, IsBreak;
    var line := "data: " + body;
    DataLine(body);
    LineAndBreaks(line, json);
    assert [line][1..] == [];
    var p := LinePayload(line, json);
    if p.Some? {
      assert Payloads([line], json) == [p.value] + [];
      assert [p.value][1..] == [];
    }
  }

  lemma {:induction false} SilentPreamble(preamble: seq<string>, json: Decoder)
    requires forall i :: 0 <= i < |preamble| ==> Extract(preamble[i], json) == Parts([])
    ensures ExtractAll(preamble, json) == Parts([])
  {
    hide Extract;
    if preamble != [] {
      SilentPreamble(preamble[1..], json);
    }
  }

  /** A chunk without content and without the marker, such as a context event, passes through as
      it is, in its place. */
  lemma SilentChunkPassesRaw(before: seq<string>, chunk: string, after: seq<string>, json: Decoder)
    requires Extract(chunk, json) == Parts([]) && !HasMarker(chunk)
    ensures OllamaLines(before + ([chunk] + after), json) ==
            OllamaLines(before, json) + ([Raw(chunk)] + OllamaLines(after, json))
  {
    hide Extract, HasMarker;
    OllamaLinesConcat(before, [chunk] + after, json);
    assert ([chunk] + after)[1..] == after;
  }

  /** The stored message does not depend on how the upstream cut its text, as long as it cuts at line
      boundaries. */
  lemma RecordedTextIgnoresChunking(one: seq<string>, other: seq<string>, json: Decoder)
    requires LineAligned(one) && LineAligned(other) && Flatten(one) == Flatten(other)
    ensures Drained(Upstream(one, Exhausted), json) <==> Drained(Upstream(other, Exhausted), json)
    ensures Drained(Upstream(one, Exhausted), json) ==>
              Text(ExtractAll(one, json).parts) == Text(ExtractAll(other, json).parts)
  {
    SameTextSameContent(one, other, json);
  }

  /** What a drained stream with an exhausted upstream stores: a message, or None for an error. */
  function Recorded(chunks: seq<string>, json: Decoder): Option<string> {
    if ExtractAll(chunks, json).Raised? then None else Some(Text(ExtractAll(chunks, json).parts))
  }

  lemma RecordedConcat(a: seq<string>, b: seq<string>, json: Decoder)
    ensures Recorded(a + b, json) ==
            if Recorded(a, json).None? || Recorded(b, json).None? then None
            else Some(Recorded(a, json).value + Recorded(b, json).value)
  {
    hide ExtractAll, Text;
    ExtractAllConcat(a, b, json);
    if ExtractAll(a, json).Parts? && ExtractAll(b, json).Parts? {
      TextConcat(ExtractAll(a, json).parts, ExtractAll(b, json).parts);
    }
  }

  /** No stretch of the text, read by itself, has content. */
  ghost predicate Wordless(t: string, json: Decoder) {
    forall i, j :: 0 <= i <= j <= |t| ==> Recorded([t[i..j]], json) == Some("")
  }

  lemma {:induction false} WordlessCut(t: string, k: nat, chunks: seq<string>, json: Decoder)
    requires Wordless(t, json) && k <= |t| && Flatten(chunks) == t[k..]
    ensures Recorded(chunks, json) == Some("")
    decreases |chunks|
  {
    hide ExtractAll;
    if chunks == [] {
      NothingRecorded(json);
    } else {
      var c, rest := chunks[0], chunks[1..];
      assert t[k..][..|c|] == c && t[k..][|c|..] == Flatten(rest);
      assert t[k..k + |c|] == c && t[k + |c|..] == Flatten(rest);
      assert Recorded([t[k..k + |c|]], json) == Some("");
      WordlessCut(t, k + |c|, rest, json);
      RecordedConcat([c], rest, json);
      assert chunks == [c] + rest;
    }
  }

  lemma NothingRecorded(json: Decoder)
    ensures Recorded([], json) == Some("")
  {
  }

  lemma SinglesRecordNothing(t: string, json: Decoder)
    ensures Flatten(Singles(t)) == t && Recorded(Singles(t), json) == Some("")
  {
    SinglesCarryNothing(t, json);
  }

  lemma {:induction false} FlattenConcat(a: seq<string>, b: seq<string>)
    ensures Flatten(a + b) == Flatten(a) + Flatten(b)
  {
    if a == [] {
      assert a + b == b;
    } else {
      assert (a + b)[1..] == a[1..] + b;
      FlattenConcat(a[1..], b);
    }
  }

  /** One stretch of a text as a chunk of its own, and every other character by itself. */
  lemma StretchCut(t: string, i: nat, j: nat, json: Decoder) returns (chunks: seq<string>)
    requires i <= j <= |t|
    ensures Flatten(chunks) == t && Recorded(chunks, json) == Recorded([t[i..j]], json)
  {
    hide Recorded, Flatten, Singles;
    var (a, m, b) := (Singles(t[..i]), [t[i..j]], Singles(t[j..]));
    chunks := a + (m + b);
    SinglesRecordNothing(t[..i], json);
    SinglesRecordNothing(t[j..], json);
    FlattenOne(t[i..j]);
    FlattenConcat(m, b);
    FlattenConcat(a, m + b);
    assert t == t[..i] + (t[i..j] + t[j..]);
    RecordedConcat(m, b, json);
    RecordedConcat(a, m + b, json);
    var r := Recorded(m, json);
    assert r.Some? ==> "" + (r.value + "") == r.value;
  }

  /** The upstream cuts its text anywhere. Then what is stored is independent of the cuts exactly for
      a text without content, read whole or in part: any other loses its content to some cut. */
  lemma RecordedAnyCutIff(t: string, json: Decoder)
    ensures (forall one, other :: Flatten(one) == t && Flatten(other) == t ==>
               Recorded(one, json) == Recorded(other, json))
            <==> Wordless(t, json)
  {
    hide Recorded, Flatten, Singles;
    if Wordless(t, json) {
      assert t[0..] == t;
      forall chunks | Flatten(chunks) == t ensures Recorded(chunks, json) == Some("") {
        WordlessCut(t, 0, chunks, json);
      }
    } else {
      var i, j :| 0 <= i <= j <= |t| && Recorded([t[i..j]], json) != Some("");
      var one := StretchCut(t, i, j, json);
      SinglesRecordNothing(t, json);
      assert Flatten(one) == t && Flatten(Singles(t)) == t;
    }
  }
}
