/** The first loop of `extractNotes`: the document's lines are scanned left
    to right and cut into chunks at the begin and end marker lines. */
module Chunks {
  import opened Strings
  import opened Settings

  /** The loop variables: the chunk being collected ("" when none is open)
      and the chunks pushed so far. */
  datatype Scan = Scan(chunk: string, chunks: seq<string>)

  predicate IsBegin(cfg: Config, line: string) {
    line == cfg.noteBeginning
  }

  /** An end marker line; the begin test comes first, so a line that is
      both is a begin line. */
  predicate IsEnd(cfg: Config, line: string) {
    line != cfg.noteBeginning && line == cfg.noteEnding
  }

  /** A begin line drops any open chunk and opens a new one; an end line
      pushes the chunk, open or not; any other line is kept only while a
      chunk is open. */
  function ScanStep(cfg: Config, st: Scan, line: string): Scan {
    if IsBegin(cfg, line) then st.(chunk := line + "\n")
    else if IsEnd(cfg, line) then Scan("", st.chunks + [st.chunk])
    else if st.chunk != "" then st.(chunk := st.chunk + line + "\n")
    else st
  }

  function ScanFrom(cfg: Config, st: Scan, lines: seq<string>): Scan
    decreases |lines|
  {
    if |lines| == 0 then st else ScanFrom(cfg, ScanStep(cfg, st, lines[0]), lines[1..])
  }

  /** The chunks of a document's lines; a chunk still open at the end is
      dropped. */
  function ChunksOf(cfg: Config, lines: seq<string>): seq<string> {
    ScanFrom(cfg, Scan("", []), lines).chunks
  }

  // ---------------------------------------------------------------------
  // the same chunks, read segment by segment
  // ---------------------------------------------------------------------

  /** The position of the first end line at or after `n`. */
  function NextEnd(cfg: Config, lines: seq<string>, n: nat): (r: Option<nat>)
    requires n <= |lines|
    ensures r.Some? ==> n <= r.value < |lines|
    decreases |lines| - n
  {
    if n == |lines| then None
    else if IsEnd(cfg, lines[n]) then Some(n)
    else NextEnd(cfg, lines, n + 1)
  }

  /** The next end line is an end line, and none lies before it. */
  lemma {:induction false} NextEndIsFirst(cfg: Config, lines: seq<string>, n: nat)
    requires n <= |lines|
    ensures NextEnd(cfg, lines, n).Some? ==> IsEnd(cfg, lines[NextEnd(cfg, lines, n).value])
    ensures NextEnd(cfg, lines, n).Some? ==> forall k | n <= k < NextEnd(cfg, lines, n).value :: !IsEnd(cfg, lines[k])
    ensures NextEnd(cfg, lines, n).None? ==> forall k | n <= k < |lines| :: !IsEnd(cfg, lines[k])
    decreases |lines| - n
  {
    if n < |lines| && !IsEnd(cfg, lines[n]) {
      NextEndIsFirst(cfg, lines, n + 1);
    }
  }

  /** The lines before the next end line hold no end line. */
  lemma NoEndBefore(cfg: Config, lines: seq<string>, n: nat, j: nat)
    requires n <= |lines| && NextEnd(cfg, lines, n) == Some(j)
    ensures forall i | 0 <= i < |lines[n..j]| :: !IsEnd(cfg, lines[n..j][i])
  {
    NextEndIsFirst(cfg, lines, n);
    forall i | 0 <= i < |lines[n..j]| ensures !IsEnd(cfg, lines[n..j][i]) {
      assert lines[n..j][i] == lines[n + i];
    }
  }

  /** Without a next end line, the rest holds no end line. */
  lemma NoEndAfter(cfg: Config, lines: seq<string>, n: nat)
    requires n <= |lines| && NextEnd(cfg, lines, n).None?
    ensures forall i | 0 <= i < |lines[n..]| :: !IsEnd(cfg, lines[n..][i])
  {
    NextEndIsFirst(cfg, lines, n);
    forall i | 0 <= i < |lines[n..]| ensures !IsEnd(cfg, lines[n..][i]) {
      assert lines[n..][i] == lines[n + i];
    }
  }

  /** The position of the last begin line. */
  function LastBegin(cfg: Config, lines: seq<string>): (r: Option<nat>)
    ensures r.Some? ==> r.value < |lines|
    decreases |lines|
  {
    if |lines| == 0 then None
    else if IsBegin(cfg, lines[|lines| - 1]) then Some(|lines| - 1)
    else LastBegin(cfg, lines[..|lines| - 1])
  }

  /** The last begin line is a begin line, and none lies after it. */
  lemma {:induction false} LastBeginIsLast(cfg: Config, lines: seq<string>)
    ensures LastBegin(cfg, lines).Some? ==> IsBegin(cfg, lines[LastBegin(cfg, lines).value])
    ensures LastBegin(cfg, lines).Some? ==> forall i | LastBegin(cfg, lines).value < i < |lines| :: !IsBegin(cfg, lines[i])
    ensures LastBegin(cfg, lines).None? ==> forall i | 0 <= i < |lines| :: !IsBegin(cfg, lines[i])
    decreases |lines|
  {
    if |lines| > 0 && !IsBegin(cfg, lines[|lines| - 1]) {
      var pre := lines[..|lines| - 1];
      LastBeginIsLast(cfg, pre);
      assert forall i | 0 <= i < |pre| :: pre[i] == lines[i];
    }
  }

  /** The chunk an end line closes, given the lines since the previous end
      line: the lines from the last begin line on, each followed by a line
      feed; "" when there is no begin line. */
  function ChunkOf(cfg: Config, segment: seq<string>): string {
    match LastBegin(cfg, segment)
    case Some(i) => Terminated(segment[i..])
    case None => ""
  }

  /** One chunk per end line from position `n` on, each made of the lines
      since the previous end line (or since `n`). */
  function SegmentsFrom(cfg: Config, lines: seq<string>, n: nat): seq<string>
    requires n <= |lines|
    decreases |lines| - n
  {
    match NextEnd(cfg, lines, n)
    case None => []
    case Some(j) => [ChunkOf(cfg, lines[n..j])] + SegmentsFrom(cfg, lines, j + 1)
  }

  /** One chunk per end line, each made of its segment. */
  function Segmented(cfg: Config, lines: seq<string>): seq<string> {
    SegmentsFrom(cfg, lines, 0)
  }

  /** The open chunk after a run of lines without end lines, from an open
      chunk `c`: the lines from the last begin line on, or `c` extended by
      all of them, or still nothing. */
  function Pending(cfg: Config, c: string, segment: seq<string>): string {
    match LastBegin(cfg, segment)
    case Some(i) => Terminated(segment[i..])
    case None => if c == "" then "" else c + Terminated(segment)
  }

  lemma {:induction false} ScanAppend(cfg: Config, st: Scan, a: seq<string>, b: seq<string>)
    ensures ScanFrom(cfg, st, a + b) == ScanFrom(cfg, ScanFrom(cfg, st, a), b)
    decreases |a|
  {
    if |a| > 0 {
      assert (a + b)[1..] == a[1..] + b;
      ScanAppend(cfg, ScanStep(cfg, st, a[0]), a[1..], b);
    } else {
      assert a + b == b;
    }
  }

  /** Over lines without an end line the scan only grows or replaces the
      open chunk. */
  lemma {:induction false} ScanSegment(cfg: Config, st: Scan, segment: seq<string>)
    requires forall i | 0 <= i < |segment| :: !IsEnd(cfg, segment[i])
    ensures ScanFrom(cfg, st, segment) == Scan(Pending(cfg, st.chunk, segment), st.chunks)
    decreases |segment|
  {
    if |segment| > 0 {
      var pre := segment[..|segment| - 1];
      var line := segment[|segment| - 1];
      var mid := Scan(Pending(cfg, st.chunk, pre), st.chunks);
      assert ScanFrom(cfg, st, segment) == ScanStep(cfg, mid, line) by {
        ScanSegment(cfg, st, pre);
        assert segment == pre + [line];
        ScanAppend(cfg, st, pre, [line]);
        assert [line][1..] == [];
      }
      assert segment == pre + [line];
      PendingStep(cfg, st.chunk, st.chunks, pre, line);
    }
  }

  /** One more line that is not an end line moves the open chunk on as
      `Pending` says. */
  lemma PendingStep(cfg: Config, c: string, chunks: seq<string>, pre: seq<string>, line: string)
    requires !IsEnd(cfg, line)
    ensures ScanStep(cfg, Scan(Pending(cfg, c, pre), chunks), line) == Scan(Pending(cfg, c, pre + [line]), chunks)
  {
    var segment := pre + [line];
    assert segment[..|segment| - 1] == pre;
    if IsBegin(cfg, line) {
      assert segment[|segment| - 1..] == [line];
      assert Terminated([line]) == line + "\n" + Terminated([]);
    } else {
      match LastBegin(cfg, pre)
      case Some(i) =>
        assert segment[i..] == pre[i..] + [line];
        TerminatedAppend(pre[i..], line);
        assert pre[i..][0] == pre[i];
      case None =>
        TerminatedAppend(pre, line);
    }
  }

  /** The lines from `n` on, cut around line `j`. */
  lemma CutAround(lines: seq<string>, n: nat, j: nat)
    requires n <= j < |lines|
    ensures lines[n..] == (lines[n..j] + [lines[j]]) + lines[j + 1..]
  {
  }

  /** The scan from `n` up to and including the next end line closes the
      open chunk. */
  lemma CloseFirst(cfg: Config, st: Scan, lines: seq<string>, n: nat, j: nat)
    requires n <= |lines| && NextEnd(cfg, lines, n) == Some(j)
    ensures ScanFrom(cfg, st, lines[n..])
      == ScanFrom(cfg, Scan("", st.chunks + [Pending(cfg, st.chunk, lines[n..j])]), lines[j + 1..])
  {
    var segment := lines[n..j];
    var rest := lines[j + 1..];
    var mid := Scan(Pending(cfg, st.chunk, segment), st.chunks);
    CutAround(lines, n, j);
    ScanAppend(cfg, st, segment + [lines[j]], rest);
    assert ScanFrom(cfg, st, segment) == mid by {
      NoEndBefore(cfg, lines, n, j);
      ScanSegment(cfg, st, segment);
    }
    assert ScanFrom(cfg, mid, [lines[j]]) == Scan("", mid.chunks + [mid.chunk]) by {
      NextEndIsFirst(cfg, lines, n);
      assert [lines[j]][1..] == [];
    }
    ScanAppend(cfg, st, segment, [lines[j]]);
  }

  /** From a closed state, the scan pushes one chunk per segment. */
  lemma {:induction false} ScanFromSegments(cfg: Config, acc: seq<string>, lines: seq<string>, n: nat)
    requires n <= |lines|
    ensures ScanFrom(cfg, Scan("", acc), lines[n..]).chunks == acc + SegmentsFrom(cfg, lines, n)
    decreases |lines| - n
  {
    match NextEnd(cfg, lines, n)
    case None =>
      NoMoreSegments(cfg, acc, lines, n);
    case Some(j) =>
      var chunk := ChunkOf(cfg, lines[n..j]);
      var later := SegmentsFrom(cfg, lines, j + 1);
      assert ScanFrom(cfg, Scan("", acc), lines[n..]).chunks == acc + [chunk] + later by {
        CloseNext(cfg, acc, lines, n, j);
        ScanFromSegments(cfg, acc + [chunk], lines, j + 1);
      }
      assert SegmentsFrom(cfg, lines, n) == [chunk] + later by {
        SegmentsCons(cfg, lines, n, j);
      }
      assert acc + [chunk] + later == acc + ([chunk] + later);
  }

  /** Past the last end line the scan pushes nothing more. */
  lemma NoMoreSegments(cfg: Config, acc: seq<string>, lines: seq<string>, n: nat)
    requires n <= |lines| && NextEnd(cfg, lines, n).None?
    ensures ScanFrom(cfg, Scan("", acc), lines[n..]).chunks == acc
    ensures SegmentsFrom(cfg, lines, n) == []
  {
    var tail := lines[n..];
    NoEndAfter(cfg, lines, n);
    ScanSegment(cfg, Scan("", acc), tail);
  }

  /** From a closed state, the next end line pushes the chunk of its
      segment. */
  lemma CloseNext(cfg: Config, acc: seq<string>, lines: seq<string>, n: nat, j: nat)
    requires n <= |lines| && NextEnd(cfg, lines, n) == Some(j)
    ensures ScanFrom(cfg, Scan("", acc), lines[n..]) == ScanFrom(cfg, Scan("", acc + [ChunkOf(cfg, lines[n..j])]), lines[j + 1..])
  {
    CloseFirst(cfg, Scan("", acc), lines, n, j);
  }

  lemma SegmentsCons(cfg: Config, lines: seq<string>, n: nat, j: nat)
    requires n <= |lines| && NextEnd(cfg, lines, n) == Some(j)
    ensures SegmentsFrom(cfg, lines, n) == [ChunkOf(cfg, lines[n..j])] + SegmentsFrom(cfg, lines, j + 1)
  {
  }

  /** The scan's chunks are the segments' chunks. */
  lemma ChunksAreSegments(cfg: Config, lines: seq<string>)
    ensures ChunksOf(cfg, lines) == Segmented(cfg, lines)
  {
    ScanFromSegments(cfg, [], lines, 0);
    assert lines[0..] == lines;
  }

  // ---------------------------------------------------------------------
  // what the chunks are
  // ---------------------------------------------------------------------

  /** The number of end lines. */
  function EndLines(cfg: Config, lines: seq<string>): nat
    decreases |lines|
  {
    if |lines| == 0 then 0 else (if IsEnd(cfg, lines[0]) then 1 else 0) + EndLines(cfg, lines[1..])
  }

  lemma {:induction false} EndLinesAppend(cfg: Config, a: seq<string>, b: seq<string>)
    ensures EndLines(cfg, a + b) == EndLines(cfg, a) + EndLines(cfg, b)
    decreases |a|
  {
    if |a| > 0 {
      assert (a + b)[1..] == a[1..] + b;
      EndLinesAppend(cfg, a[1..], b);
    } else {
      assert a + b == b;
    }
  }

  lemma {:induction false} NoEndLines(cfg: Config, lines: seq<string>)
    requires forall i | 0 <= i < |lines| :: !IsEnd(cfg, lines[i])
    ensures EndLines(cfg, lines) == 0
    decreases |lines|
  {
    if |lines| > 0 {
      NoEndLines(cfg, lines[1..]);
    }
  }

  /** Every end line pushes exactly one chunk, and nothing else does: a
      chunk left open at the end of the document is lost. */
  lemma OneChunkPerEnd(cfg: Config, lines: seq<string>)
    ensures |ChunksOf(cfg, lines)| == EndLines(cfg, lines)
  {
    ChunksAreSegments(cfg, lines);
    SegmentCount(cfg, lines, 0);
    assert lines[0..] == lines;
  }

  lemma {:induction false} SegmentCount(cfg: Config, lines: seq<string>, n: nat)
    requires n <= |lines|
    ensures |SegmentsFrom(cfg, lines, n)| == EndLines(cfg, lines[n..])
    decreases |lines| - n
  {
    match NextEnd(cfg, lines, n)
    case None =>
      NoEndAfter(cfg, lines, n);
      NoEndLines(cfg, lines[n..]);
    case Some(j) =>
      SegmentCount(cfg, lines, j + 1);
      EndLinesSplit(cfg, lines, n, j);
  }

  /** The end lines from `n` on: none before the next one at `j`, that
      one, and those after it. */
  lemma EndLinesSplit(cfg: Config, lines: seq<string>, n: nat, j: nat)
    requires n <= |lines| && NextEnd(cfg, lines, n) == Some(j)
    ensures EndLines(cfg, lines[n..]) == 1 + EndLines(cfg, lines[j + 1..])
  {
    var segment := lines[n..j];
    var rest := lines[j + 1..];
    CutAround(lines, n, j);
    assert lines[n..] == segment + ([lines[j]] + rest);
    EndLinesAppend(cfg, segment, [lines[j]] + rest);
    NoEndBefore(cfg, lines, n, j);
    NoEndLines(cfg, segment);
    NextEndIsFirst(cfg, lines, n);
    assert ([lines[j]] + rest)[1..] == rest;
  }

  /** The lines of a chunk: a begin line, then lines that are neither a
      begin nor an end line. */
  predicate ChunkLines(cfg: Config, ls: seq<string>) {
    && |ls| >= 1
    && IsBegin(cfg, ls[0])
    && forall k | 1 <= k < |ls| :: !IsBegin(cfg, ls[k]) && !IsEnd(cfg, ls[k])
  }

  /** A chunk is either empty (an end line with no open chunk) or the run of
      document lines from a begin line up to the end line that closes it,
      with no marker line in between, each line followed by a line feed. */
  predicate ChunkAt(cfg: Config, lines: seq<string>, chunk: string, a: nat, b: nat) {
    a < b < |lines| && IsEnd(cfg, lines[b]) && ChunkLines(cfg, lines[a..b]) && chunk == Terminated(lines[a..b])
  }

  /** The chunk is empty or lies between lines `a` and `b`. */
  predicate EmptyOrAt(cfg: Config, lines: seq<string>, chunk: string, a: nat, b: nat) {
    chunk == "" || ChunkAt(cfg, lines, chunk, a, b)
  }

  lemma ChunkShape(cfg: Config, lines: seq<string>, i: nat)
    requires i < |ChunksOf(cfg, lines)|
    ensures ChunksOf(cfg, lines)[i] == "" || exists a: nat, b: nat :: ChunkAt(cfg, lines, ChunksOf(cfg, lines)[i], a, b)
  {
    ChunksAreSegments(cfg, lines);
    var a, b := SegmentShape(cfg, lines, 0, i);
  }

  /** Where chunk `i` from position `n` lies, when it is not empty. */
  lemma {:induction false} SegmentShape(cfg: Config, lines: seq<string>, n: nat, i: nat) returns (a: nat, b: nat)
    requires n <= |lines| && i < |SegmentsFrom(cfg, lines, n)|
    ensures EmptyOrAt(cfg, lines, SegmentsFrom(cfg, lines, n)[i], a, b)
    decreases |lines| - n
  {
    if i == 0 {
      a, b := HeadSegmentShape(cfg, lines, n);
    } else {
      var m := LaterSegments(cfg, lines, n, i);
      a, b := SegmentShape(cfg, lines, m, i - 1);
    }
  }

  /** Where the first chunk from position `n` lies, when it is not empty. */
  lemma HeadSegmentShape(cfg: Config, lines: seq<string>, n: nat) returns (a: nat, b: nat)
    requires n <= |lines| && 0 < |SegmentsFrom(cfg, lines, n)|
    ensures EmptyOrAt(cfg, lines, SegmentsFrom(cfg, lines, n)[0], a, b)
  {
    var j := NextEnd(cfg, lines, n).value;
    assert SegmentsFrom(cfg, lines, n)[0] == ChunkOf(cfg, lines[n..j]) by {
      SegmentsAt(cfg, lines, n, j, 0);
    }
    a, b := FirstSegmentShape(cfg, lines, n, j);
  }

  /** Chunk `i > 0` from `n` is chunk `i - 1` from the line after the next
      end line. */
  lemma LaterSegments(cfg: Config, lines: seq<string>, n: nat, i: nat) returns (m: nat)
    requires n <= |lines| && 0 < i < |SegmentsFrom(cfg, lines, n)|
    ensures n < m <= |lines| && i - 1 < |SegmentsFrom(cfg, lines, m)|
    ensures SegmentsFrom(cfg, lines, n)[i] == SegmentsFrom(cfg, lines, m)[i - 1]
  {
    var j := NextEnd(cfg, lines, n).value;
    SegmentsAt(cfg, lines, n, j, i);
    m := j + 1;
  }

  /** Chunk `i` from `n` is the next segment's chunk or chunk `i - 1` after
      the next end line. */
  lemma SegmentsAt(cfg: Config, lines: seq<string>, n: nat, j: nat, i: nat)
    requires n <= |lines| && NextEnd(cfg, lines, n) == Some(j)
    ensures |SegmentsFrom(cfg, lines, n)| == 1 + |SegmentsFrom(cfg, lines, j + 1)|
    ensures i == 0 ==> SegmentsFrom(cfg, lines, n)[i] == ChunkOf(cfg, lines[n..j])
    ensures 0 < i < |SegmentsFrom(cfg, lines, n)| ==> SegmentsFrom(cfg, lines, n)[i] == SegmentsFrom(cfg, lines, j + 1)[i - 1]
  {
  }

  /** The chunk the next end line closes. */
  lemma FirstSegmentShape(cfg: Config, lines: seq<string>, n: nat, j: nat) returns (a: nat, b: nat)
    requires n <= |lines| && NextEnd(cfg, lines, n) == Some(j)
    ensures EmptyOrAt(cfg, lines, ChunkOf(cfg, lines[n..j]), a, b)
  {
    var segment := lines[n..j];
    b := j;
    LastBeginIsLast(cfg, segment);
    NoEndBefore(cfg, lines, n, j);
    NextEndIsFirst(cfg, lines, n);
    match LastBegin(cfg, segment)
    case None =>
      a := n;
    case Some(k) =>
      a := n + k;
      assert segment[k..] == lines[n + k..j];
  }

  /** A document without a begin line yields only empty chunks. */
  lemma NoBeginOnlyEmptyChunks(cfg: Config, lines: seq<string>)
    requires forall k | 0 <= k < |lines| :: !IsBegin(cfg, lines[k])
    ensures forall i | 0 <= i < |ChunksOf(cfg, lines)| :: ChunksOf(cfg, lines)[i] == ""
  {
    forall i | 0 <= i < |ChunksOf(cfg, lines)| ensures ChunksOf(cfg, lines)[i] == "" {
      ChunkShape(cfg, lines, i);
      forall a: nat, b: nat ensures !ChunkAt(cfg, lines, ChunksOf(cfg, lines)[i], a, b) {
        if a < b < |lines| {
          assert lines[a..b][0] == lines[a];
        }
      }
    }
  }

  /** Lines that are neither begin nor end lines. */
  predicate NoMarkers(cfg: Config, ls: seq<string>) {
    forall k | 0 <= k < |ls| :: !IsBegin(cfg, ls[k]) && !IsEnd(cfg, ls[k])
  }

  /** A document holding one chunk, with text free of marker lines around
      it, yields that chunk alone. */
  lemma OneChunk(cfg: Config, pre: seq<string>, body: seq<string>, end: string, post: seq<string>)
    requires NoMarkers(cfg, pre) && NoMarkers(cfg, post)
    requires ChunkLines(cfg, body) && IsEnd(cfg, end)
    ensures ChunksOf(cfg, pre + body + [end] + post) == [Terminated(body)]
  {
    var s0 := Scan("", []);
    var s1 := Scan(Terminated(body), []);
    var s2 := Scan("", [Terminated(body)]);
    assert ScanFrom(cfg, s0, pre) == s0 by {
      ScanSegment(cfg, s0, pre);
      LastBeginIsLast(cfg, pre);
    }
    assert ScanFrom(cfg, s0, body) == s1 by {
      ScanSegment(cfg, s0, body);
      LastBeginIsLast(cfg, body);
      assert body[0..] == body;
    }
    assert ScanFrom(cfg, s1, [end]) == s2 by {
      assert [end][1..] == [];
    }
    assert ScanFrom(cfg, s2, post) == s2 by {
      ScanSegment(cfg, s2, post);
      LastBeginIsLast(cfg, post);
    }
    ScanAppend(cfg, s0, pre, body);
    ScanAppend(cfg, s0, pre + body, [end]);
    ScanAppend(cfg, s0, pre + body + [end], post);
  }

  /** A non-empty chunk starts with the begin line and, split on line feeds
      again, gives back its lines and one trailing empty part; so it never
      splits into nothing. */
  lemma ChunkRoundTrip(cfg: Config, ls: seq<string>)
    requires ChunkLines(cfg, ls)
    requires forall k | 0 <= k < |ls| :: '\n' !in ls[k]
    ensures StartsWith(Terminated(ls), cfg.noteBeginning + "\n")
    ensures Split(Terminated(ls), '\n') == ls + [""]
  {
    SplitTerminated(ls);
    assert Terminated(ls) == (cfg.noteBeginning + "\n") + Terminated(ls[1..]);
  }
}
