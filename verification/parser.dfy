/** `extractNotes` and `parseChunk`: the document is cut into chunks, each
    chunk is parsed as the note type it names, and the notes of chunks
    without a fatal error are kept; every diagnostic is reported. */
module Parser {
  import opened Strings
  import opened Settings
  import opened Notes
  import opened Fields
  import opened TypeAndDeck
  import opened Chunks
  import BasicParser
  import ClozeParser

  /** `parseChunk`: the first pass resolves type and deck; the chunk then
      goes to the Cloze parser when the resolved type is Cloze, and to the
      Basic parser for every other type. The first pass's diagnostics come
      before the field parser's. Splitting always yields at least one line,
      so the source's empty-chunk exception cannot be raised. */
  function ParseChunk(chunk: string, cfg: Config): (r: Parsed)
    ensures var lines := Split(chunk, '\n');
      var first := PrescanErrors(cfg, lines);
      var deck := LastDeck(cfg, lines);
      var cloze := LastValidType(cfg, lines) == ClozeCard;
      && |first| <= |r.errors| && r.errors[..|first|] == first
      && r.note.deck == deck
      && (r.note.noteType == NoteType.Cloze <==> cloze)
      && Parsed(r.note, r.errors[|first|..])
         == (if cloze then ClozeParser.ParseClozeChunk(lines, cfg, deck) else BasicParser.ParseBasicChunk(lines, cfg, deck))
      && (AnyFatal(r.errors) <==> AnyFatal(r.errors[|first|..]))
  {
    var lines := Split(chunk, '\n');
    var h := Prescan(cfg, lines);
    var p :=
      if h.cardType == ClozeCard then ClozeParser.ParseClozeChunk(lines, cfg, h.deck)
      else BasicParser.ParseBasicChunk(lines, cfg, h.deck);
    var errors := h.errors + p.errors;
    PrescanIsLastWins(cfg, lines);
    PrescanNeverFatal(cfg, lines);
    AnyFatalAppend(h.errors, p.errors);
    assert errors[..|h.errors|] == h.errors && errors[|h.errors|..] == p.errors;
    Parsed(p.note, errors)
  }

  /** What `extractNotes` returns. */
  datatype Extracted = Extracted(notes: seq<Note>, errors: seq<ParserError>)

  /** Whether a chunk's note survives: none of its diagnostics is fatal. */
  predicate Kept(p: Parsed) {
    !AnyFatal(p.errors)
  }

  /** The second loop of `extractNotes`, over the parsed chunks: every
      chunk's diagnostics are appended; its note only when it is kept. */
  function Collect(results: seq<Parsed>, acc: Extracted): Extracted
    decreases |results|
  {
    if |results| == 0 then acc
    else
      var p := results[0];
      var next :=
        if AnyFatal(p.errors) then Extracted(acc.notes, acc.errors + p.errors)
        else Extracted(acc.notes + [p.note], acc.errors + p.errors);
      Collect(results[1..], next)
  }

  /** Each chunk parsed on its own. */
  function ParseAll(cfg: Config, chunks: seq<string>): (r: seq<Parsed>)
    ensures |r| == |chunks|
    ensures forall i | 0 <= i < |chunks| :: r[i] == ParseChunk(chunks[i], cfg)
  {
    seq(|chunks|, i requires 0 <= i < |chunks| => ParseChunk(chunks[i], cfg))
  }

  /** The chunks of a document: its lines are the parts of splitting on
      line feeds. */
  function DocumentChunks(text: string, cfg: Config): seq<string> {
    ChunksOf(cfg, Split(text, '\n'))
  }

  /** `extractNotes` */
  function ExtractNotes(text: string, cfg: Config): Extracted {
    Collect(ParseAll(cfg, DocumentChunks(text, cfg)), Extracted([], []))
  }

  // ---------------------------------------------------------------------
  // the result as a filter and a concatenation
  // ---------------------------------------------------------------------

  /** The notes of the kept chunks, in chunk order. */
  function KeptNotes(results: seq<Parsed>): seq<Note>
    decreases |results|
  {
    if |results| == 0 then []
    else (if Kept(results[0]) then [results[0].note] else []) + KeptNotes(results[1..])
  }

  /** Every chunk's diagnostics, in chunk order. */
  function AllErrors(results: seq<Parsed>): seq<ParserError>
    decreases |results|
  {
    if |results| == 0 then [] else results[0].errors + AllErrors(results[1..])
  }

  lemma {:induction false} CollectIsFilter(results: seq<Parsed>, acc: Extracted)
    ensures Collect(results, acc) == Extracted(acc.notes + KeptNotes(results), acc.errors + AllErrors(results))
    decreases |results|
  {
    if |results| == 0 {
      assert acc.notes + [] == acc.notes && acc.errors + [] == acc.errors;
    } else {
      var p := results[0];
      var rest := results[1..];
      var kept: seq<Note> := if Kept(p) then [p.note] else [];
      var next := Extracted(acc.notes + kept, acc.errors + p.errors);
      assert Collect(results, acc) == Collect(rest, next) by {
        if !Kept(p) {
          assert acc.notes + kept == acc.notes;
        }
      }
      CollectIsFilter(rest, next);
      assert acc.notes + kept + KeptNotes(rest) == acc.notes + (kept + KeptNotes(rest));
      assert acc.errors + p.errors + AllErrors(rest) == acc.errors + (p.errors + AllErrors(rest));
    }
  }

  /** `extractNotes` keeps exactly the notes of chunks without a fatal
      error and reports the diagnostics of all chunks. */
  lemma ExtractNotesIsFilter(text: string, cfg: Config)
    ensures var results := ParseAll(cfg, DocumentChunks(text, cfg));
      ExtractNotes(text, cfg) == Extracted(KeptNotes(results), AllErrors(results))
  {
    CollectIsFilter(ParseAll(cfg, DocumentChunks(text, cfg)), Extracted([], []));
  }

  /** The number of kept chunks. */
  function KeptCount(results: seq<Parsed>): nat
    decreases |results|
  {
    if |results| == 0 then 0 else (if Kept(results[0]) then 1 else 0) + KeptCount(results[1..])
  }

  /** One note per kept chunk, so never more notes than chunks. */
  lemma {:induction false} NotesPerKeptChunk(results: seq<Parsed>)
    ensures |KeptNotes(results)| == KeptCount(results) <= |results|
    decreases |results|
  {
    if |results| > 0 {
      NotesPerKeptChunk(results[1..]);
    }
  }

  /** A chunk's note is among the notes if the chunk is kept, and every
      note is the note of a kept chunk. */
  lemma {:induction false} KeptNotesMembers(results: seq<Parsed>)
    ensures forall i | 0 <= i < |results| && Kept(results[i]) :: results[i].note in KeptNotes(results)
    ensures forall n | n in KeptNotes(results) ::
      exists i | 0 <= i < |results| :: Kept(results[i]) && results[i].note == n
    decreases |results|
  {
    if |results| > 0 {
      var rest := results[1..];
      KeptNotesMembers(rest);
      var head: seq<Note> := if Kept(results[0]) then [results[0].note] else [];
      assert KeptNotes(results) == head + KeptNotes(rest);
      forall i | 0 < i < |results| ensures results[i] == rest[i - 1] { }
      forall n | n in KeptNotes(results)
        ensures exists i | 0 <= i < |results| :: Kept(results[i]) && results[i].note == n
      {
        if n !in head {
          var k :| 0 <= k < |rest| && Kept(rest[k]) && rest[k].note == n;
          assert results[k + 1] == rest[k];
        }
      }
    }
  }

  /** The diagnostics are empty exactly when no chunk has one. */
  lemma {:induction false} NoErrorsIff(results: seq<Parsed>)
    ensures AllErrors(results) == [] <==> forall i | 0 <= i < |results| :: results[i].errors == []
    decreases |results|
  {
    if |results| > 0 {
      var rest := results[1..];
      NoErrorsIff(rest);
      forall i | 0 < i < |results| ensures results[i] == rest[i - 1] { }
    }
  }

  /** A document holding one chunk among lines free of markers yields the
      note of that chunk when it is kept, and its diagnostics either way. */
  lemma OneChunkDocument(text: string, cfg: Config, pre: seq<string>, body: seq<string>, end: string, post: seq<string>)
    requires Split(text, '\n') == pre + body + [end] + post
    requires NoMarkers(cfg, pre) && NoMarkers(cfg, post)
    requires ChunkLines(cfg, body) && IsEnd(cfg, end)
    ensures var p := ParseChunk(Terminated(body), cfg);
      ExtractNotes(text, cfg) == Extracted(if Kept(p) then [p.note] else [], p.errors)
  {
    OneChunk(cfg, pre, body, end, post);
    SingleChunkDocument(text, cfg, Terminated(body));
  }

  /** A document with one chunk yields that chunk's note when it is kept,
      and its diagnostics either way. */
  lemma SingleChunkDocument(text: string, cfg: Config, chunk: string)
    requires DocumentChunks(text, cfg) == [chunk]
    ensures var p := ParseChunk(chunk, cfg);
      ExtractNotes(text, cfg) == Extracted(if Kept(p) then [p.note] else [], p.errors)
  {
    ExtractNotesIsFilter(text, cfg);
    SingleResult(ParseChunk(chunk, cfg));
  }

  lemma SingleResult(p: Parsed)
    ensures KeptNotes([p]) == if Kept(p) then [p.note] else []
    ensures AllErrors([p]) == p.errors
  {
    assert [p][1..] == [];
    assert p.errors + [] == p.errors;
  }

  // ---------------------------------------------------------------------
  // empty chunks and documents without a begin line
  // ---------------------------------------------------------------------

  /** The empty chunk a stray end line pushes has no front, so its note
      is always dropped. */
  lemma EmptyChunkIsFatal(cfg: Config)
    ensures ParseChunk("", cfg).errors != []
    ensures !Kept(ParseChunk("", cfg))
  {
    var lines := Split("", '\n');
    assert lines == [""];
    assert LastValidType(cfg, lines) == BasicCard by {
      assert lines[..0] == [];
      assert Trim(Substring("", |cfg.noteTypeBeginning|)) == "";
    }
    var deck := LastDeck(cfg, lines);
    assert Extract(cfg, lines).front == "" by {
      assert lines[1..] == [];
      assert Substring("", |cfg.noteFrontBeginning|) == "";
    }
    var basic := BasicParser.ParseBasicChunk(lines, cfg, deck);
    assert Trim("") == "";
    assert AnyFatal(basic.errors);
  }

  /** A document without a begin line yields no notes, and diagnostics
      exactly when it has an end line: each end line then pushes an empty
      chunk. */
  lemma NoBeginMarker(text: string, cfg: Config)
    requires forall i | 0 <= i < |Split(text, '\n')| :: Split(text, '\n')[i] != cfg.noteBeginning
    ensures ExtractNotes(text, cfg).notes == []
    ensures ExtractNotes(text, cfg).errors == [] <==> EndLines(cfg, Split(text, '\n')) == 0
  {
    var lines := Split(text, '\n');
    var chunks := DocumentChunks(text, cfg);
    var results := ParseAll(cfg, chunks);
    ExtractNotesIsFilter(text, cfg);
    NoBeginOnlyEmptyChunks(cfg, lines);
    OneChunkPerEnd(cfg, lines);
    var empty := ParseChunk("", cfg);
    EmptyChunkIsFatal(cfg);
    assert forall i | 0 <= i < |results| :: results[i] == empty;
    OnlyDropped(results, empty);
    NoErrorsIff(results);
    if |results| > 0 {
      assert results[0].errors != [];
    }
  }

  lemma {:induction false} OnlyDropped(results: seq<Parsed>, p: Parsed)
    requires forall i | 0 <= i < |results| :: results[i] == p
    requires !Kept(p)
    ensures KeptNotes(results) == []
    decreases |results|
  {
    if |results| > 0 {
      OnlyDropped(results[1..], p);
    }
  }

  /** The empty document yields nothing, unless the empty line is itself
      an end marker. */
  lemma EmptyDocument(cfg: Config)
    requires cfg.noteEnding != "" || cfg.noteBeginning == ""
    ensures ExtractNotes("", cfg) == Extracted([], [])
  {
    var lines := Split("", '\n');
    assert lines == [""];
    assert ScanFrom(cfg, Scan("", []), lines) == ScanFrom(cfg, ScanStep(cfg, Scan("", []), ""), []);
  }
}
