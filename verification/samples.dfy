/** The chunks of the repository's own test documents, parsed under the
    shipped settings. Each test document is a chunk surrounded by a few
    placeholder lines; `Parser.OneChunkDocument` carries each result over
    to any such document. */
module Samples {
  import opened Strings
  import opened Settings
  import opened Notes
  import opened TypeAndDeck
  import opened Fields
  import BasicParser
  import ClozeParser
  import Parser
  import Chunks

  /** Text that `trim` leaves as it is, and that is not empty. */
  predicate Trimmed(t: string) {
    t != "" && !IsTrimmable(t[0]) && !IsTrimmable(t[|t| - 1])
  }

  /** The text after a marker and one space, trimmed. */
  lemma PadTrim(t: string)
    requires Trimmed(t)
    ensures Trim(" " + t) == t
  {
    assert (" " + t)[1..1 + |t|] == t;
    TrimUnique(" " + t, t, 1);
  }

  // ---------------------------------------------------------------------
  // how each kind of test line is read under the shipped settings
  // ---------------------------------------------------------------------

  /** A line opening with none of the letters the four field markers open
      with is plain content, and neither a type nor a deck line. */
  /** A line that starts with neither `C` nor `D` is no type or deck line. */
  lemma FieldLine(line: string)
    requires line == "" || (line[0] != 'C' && line[0] != 'D')
    ensures !IsTypeLine(Default, line) && !StartsWith(line, Default.deckBeginning)
  {
    if line != "" {
      DifferentAt(line, Default.noteTypeBeginning, 0);
      DifferentAt(line, Default.deckBeginning, 0);
    }
  }

  lemma ContentLine(line: string)
    requires line == "" || (line[0] != 'C' && line[0] != 'D' && line[0] != 'F' && line[0] != 'B')
    ensures !IsTypeLine(Default, line) && !StartsWith(line, Default.deckBeginning)
    ensures Classify(Default, line) == Content
  {
    if line != "" {
      DifferentAt(line, Default.noteTypeBeginning, 0);
      DifferentAt(line, Default.deckBeginning, 0);
      DifferentAt(line, Default.noteFrontBeginning, 0);
      DifferentAt(line, Default.noteBackBeginning, 0);
    }
  }

  lemma TypeLine(t: string)
    requires Trimmed(t)
    ensures var line := "Card Type: " + t;
      && IsTypeLine(Default, line) && TypeText(Default, line) == t
      && Classify(Default, line) == Skipped
  {
    var line := "Card Type: " + t;
    assert line[..10] == "Card Type:";
    assert Substring(line, 10) == " " + t;
    PadTrim(t);
  }

  lemma DeckLine(d: string)
    requires Trimmed(d)
    ensures var line := "Deck: " + d;
      && !IsTypeLine(Default, line) && IsDeckLine(Default, line)
      && StartsWith(line, Default.deckBeginning) && DeckText(Default, line) == d
      && Classify(Default, line) == Skipped
  {
    var line := "Deck: " + d;
    DifferentAt(line, Default.noteTypeBeginning, 0);
    assert line[..5] == "Deck:";
    assert Substring(line, 5) == " " + d;
    PadTrim(d);
  }

  /** A marker, one space and a trimmed text: an inline field line. */
  lemma MarkedLine(marker: string, t: string)
    requires Trimmed(marker) && Trimmed(t)
    ensures var line := marker + " " + t;
      && StartsWith(line, marker) && IsInline(line, marker)
      && line[|marker|..] == " " + t && Trim(" " + t) == t
  {
    var line := marker + " " + t;
    assert line[..|marker|] == marker;
    assert line[|marker|..] == " " + t;
    assert line[|line| - 1] == t[|t| - 1];
    TrimOfTrimmed(line);
    TrimOfTrimmed(marker);
    PadTrim(t);
  }

  lemma FrontLine(q: string, f: Fields, rest: seq<string>)
    requires Trimmed(q)
    ensures var line := "Front: " + q;
      && !IsTypeLine(Default, line) && !StartsWith(line, Default.deckBeginning)
      && Run(Default, f, [line] + rest)
         == Run(Default, f.(front := " " + q, warnings := f.warnings + if f.front != "" then [Warn(FrontOverwritten)] else []), rest)
      && Trim(" " + q) == q
  {
    var line := "Front: " + q;
    assert line == "Front:" + " " + q;
    MarkedLine("Front:", q);
    DifferentAt(line, Default.noteTypeBeginning, 0);
    DifferentAt(line, Default.deckBeginning, 0);
    InlineFrontLine(Default, f, line);
    RunCons(Default, f, line, rest);
  }

  lemma BackLine(a: string, f: Fields, rest: seq<string>)
    requires Trimmed(a)
    ensures var line := "Back: " + a;
      && !IsTypeLine(Default, line) && !StartsWith(line, Default.deckBeginning)
      && Run(Default, f, [line] + rest)
         == Run(Default, f.(back := " " + a, warnings := f.warnings + if f.back != "" then [Warn(BackOverwritten)] else []), rest)
      && Trim(" " + a) == a
  {
    var line := "Back: " + a;
    assert line == "Back:" + " " + a;
    MarkedLine("Back:", a);
    DifferentAt(line, Default.noteTypeBeginning, 0);
    DifferentAt(line, Default.deckBeginning, 0);
    DifferentAt(line, Default.noteFrontBeginning, 0);
    InlineBackLine(Default, f, line);
    RunCons(Default, f, line, rest);
  }

  lemma BareFrontLine()
    ensures !IsTypeLine(Default, "Front:") && !StartsWith("Front:", Default.deckBeginning)
    ensures Classify(Default, "Front:") == FrontOpener
  {
    DifferentAt("Front:", Default.noteTypeBeginning, 0);
    DifferentAt("Front:", Default.deckBeginning, 0);
  }

  /** One line, then the rest. */
  lemma RunCons(cfg: Config, f: Fields, line: string, rest: seq<string>)
    ensures Run(cfg, f, [line] + rest) == Run(cfg, Step(cfg, f, line), rest)
  {
    assert ([line] + rest)[0] == line && ([line] + rest)[1..] == rest;
  }

  // ---------------------------------------------------------------------
  // the first pass over a test chunk
  // ---------------------------------------------------------------------

  /** The type a type line naming `t` resolves to, starting from Basic. */
  function Resolved(t: string): CardType {
    if ParseCardType(t).Some? then ParseCardType(t).value else BasicCard
  }

  /** What that type line reports, starting from Basic. */
  function TypeErrors(t: string): seq<ParserError> {
    if ParseCardType(t).None? then [InvalidType] else []
  }

  lemma PrescanCons(h: Header, line: string, rest: seq<string>)
    ensures PrescanFrom(Default, h, [line] + rest) == PrescanFrom(Default, PrescanStep(Default, h, line), rest)
  {
    assert ([line] + rest)[0] == line && ([line] + rest)[1..] == rest;
  }

  lemma TypeStep(t: string, h: Header)
    requires Trimmed(t) && h.cardType == BasicCard
    ensures PrescanStep(Default, h, "Card Type: " + t) == Header(Resolved(t), h.deck, h.errors + TypeErrors(t))
  {
    TypeLine(t);
    assert TypeLineErrors(Default, BasicCard, "Card Type: " + t) == TypeErrors(t);
  }

  lemma DeckStep(d: string, h: Header)
    requires Trimmed(d)
    ensures PrescanStep(Default, h, "Deck: " + d) == h.(deck := d)
  {
    DeckLine(d);
  }

  /** Lines that are neither type nor deck lines. */
  predicate FieldLines(body: seq<string>) {
    forall k | 0 <= k < |body| :: !IsTypeLine(Default, body[k]) && !StartsWith(body[k], Default.deckBeginning)
  }

  /** The first pass passes over field lines. */
  lemma {:induction false} FieldLinesPrescan(h: Header, body: seq<string>)
    requires FieldLines(body)
    ensures PrescanFrom(Default, h, body) == h
    decreases |body|
  {
    if |body| > 0 {
      assert body == [body[0]] + body[1..];
      PrescanCons(h, body[0], body[1..]);
      FieldLinesPrescan(h, body[1..]);
    }
  }

  /** The field loop passes over lines that leave its state alone. */
  lemma {:induction false} IdleRun(f: Fields, meta: seq<string>)
    requires forall k | 0 <= k < |meta| :: Step(Default, f, meta[k]) == f
    ensures Run(Default, f, meta) == f
    decreases |meta|
  {
    if |meta| > 0 {
      RunCons(Default, f, meta[0], meta[1..]);
      assert meta == [meta[0]] + meta[1..];
      IdleRun(f, meta[1..]);
    }
  }

  /** Before any field line the field loop has nothing to do. */
  lemma MetaRun(t: string, d: string, typeFirst: bool)
    requires Trimmed(t) && Trimmed(d)
    ensures Run(Default, Initial, ["## Anki"] + Meta(t, d, typeFirst)) == Initial
  {
    var head := ["## Anki"] + Meta(t, d, typeFirst);
    assert Step(Default, Initial, "## Anki") == Initial by { ContentLine("## Anki"); }
    assert Step(Default, Initial, "Card Type: " + t) == Initial by { TypeLine(t); }
    assert Step(Default, Initial, "Deck: " + d) == Initial by { DeckLine(d); }
    assert forall k | 0 <= k < |head| :: head[k] in {"## Anki", "Card Type: " + t, "Deck: " + d};
    IdleRun(Initial, head);
  }

  /** The lines of a test chunk: the begin line, a type and a deck line in
      either order, then the field lines. */
  function Chunk(t: string, d: string, typeFirst: bool, body: seq<string>): seq<string> {
    ["## Anki"] + Meta(t, d, typeFirst) + body
  }

  function Meta(t: string, d: string, typeFirst: bool): seq<string> {
    if typeFirst then ["Card Type: " + t, "Deck: " + d] else ["Deck: " + d, "Card Type: " + t]
  }

  /** The first pass resolves the named type and deck and reports only an
      unknown type name; the field loop sees the field lines alone. */
  lemma ChunkHeader(t: string, d: string, typeFirst: bool, body: seq<string>)
    requires Trimmed(t) && Trimmed(d) && FieldLines(body)
    ensures Prescan(Default, Chunk(t, d, typeFirst, body)) == Header(Resolved(t), d, TypeErrors(t))
    ensures Extract(Default, Chunk(t, d, typeFirst, body)) == Run(Default, Initial, body)
  {
    var head := ["## Anki"] + Meta(t, d, typeFirst);
    var h := Header(Resolved(t), d, TypeErrors(t));
    assert Chunk(t, d, typeFirst, body) == head + body;
    assert PrescanFrom(Default, Start(Default), head) == h by {
      MetaPrescan(t, d, typeFirst);
    }
    PrescanAppend(Default, Start(Default), head, body);
    FieldLinesPrescan(h, body);
    assert Run(Default, Initial, head) == Initial by {
      MetaRun(t, d, typeFirst);
    }
    RunAppend(Default, Initial, head, body);
  }

  lemma MetaPrescan(t: string, d: string, typeFirst: bool)
    requires Trimmed(t) && Trimmed(d)
    ensures PrescanFrom(Default, Start(Default), ["## Anki"] + Meta(t, d, typeFirst)) == Header(Resolved(t), d, TypeErrors(t))
  {
    var h0 := Start(Default);
    ContentLine("## Anki");
    PrescanCons(h0, "## Anki", Meta(t, d, typeFirst));
    var typeLine, deckLine := "Card Type: " + t, "Deck: " + d;
    if typeFirst {
      var h1 := Header(Resolved(t), h0.deck, [] + TypeErrors(t));
      TypeStep(t, h0);
      PrescanCons(h0, typeLine, [deckLine]);
      DeckStep(d, h1);
      PrescanCons(h1, deckLine, []);
    } else {
      var h1 := h0.(deck := d);
      DeckStep(d, h0);
      PrescanCons(h0, deckLine, [typeLine]);
      TypeStep(t, h1);
      PrescanCons(h1, typeLine, []);
    }
  }

  /** A line with no line break in it. */
  predicate OneLine(s: string) {
    '\n' !in s
  }

  /** A name or text as the tests write it: one line, trimmed. */
  predicate Written(s: string) {
    Trimmed(s) && OneLine(s)
  }

  /** Field lines as the tests write them. */
  predicate Body(body: seq<string>) {
    FieldLines(body) && forall k | 0 <= k < |body| :: OneLine(body[k])
  }

  lemma FieldLinesSnoc(body: seq<string>)
    requires FieldLines(body)
    ensures FieldLines(body + [""])
  {
    ContentLine("");
    forall k | 0 <= k < |body| + 1
      ensures !IsTypeLine(Default, (body + [""])[k]) && !StartsWith((body + [""])[k], Default.deckBeginning)
    {
      if k < |body| { assert (body + [""])[k] == body[k]; }
    }
  }

  lemma ChunkOneLines(t: string, d: string, typeFirst: bool, body: seq<string>)
    requires OneLine(t) && OneLine(d) && forall k | 0 <= k < |body| :: OneLine(body[k])
    ensures var chunk := Chunk(t, d, typeFirst, body); forall k | 0 <= k < |chunk| :: '\n' !in chunk[k]
  {
    var chunk := Chunk(t, d, typeFirst, body);
    assert OneLine("Card Type: " + t) && OneLine("Deck: " + d);
    forall k | 0 <= k < |chunk| ensures '\n' !in chunk[k] {
      if 3 <= k { assert chunk[k] == body[k - 3]; }
    }
  }

  /** The lines of a test chunk as the parsers see them: the split leaves
      an empty line after the last. The field loop sees only the field
      lines, and the first pass finds the named type and deck. */
  lemma SampleLines(t: string, d: string, typeFirst: bool, body: seq<string>)
    requires Written(t) && Written(d) && Body(body)
    ensures var lines := Chunk(t, d, typeFirst, body) + [""];
      && Split(Terminated(Chunk(t, d, typeFirst, body)), '\n') == lines
      && Extract(Default, lines) == Run(Default, Initial, body + [""])
      && PrescanErrors(Default, lines) == TypeErrors(t)
      && LastDeck(Default, lines) == d
      && LastValidType(Default, lines) == Resolved(t)
  {
    var chunk := Chunk(t, d, typeFirst, body);
    var lines := chunk + [""];
    ChunkSnoc(t, d, typeFirst, body);
    FieldLinesSnoc(body);
    ChunkHeader(t, d, typeFirst, body + [""]);
    PrescanIsLastWins(Default, lines);
    ChunkOneLines(t, d, typeFirst, body);
    SplitTerminated(chunk);
  }

  /** `SampleLines` for a Cloze chunk. */
  lemma ClozeLines(d: string, typeFirst: bool, body: seq<string>)
    requires Written(d) && Body(body)
    ensures var lines := Chunk("Cloze", d, typeFirst, body) + [""];
      && Split(Terminated(Chunk("Cloze", d, typeFirst, body)), '\n') == lines
      && Extract(Default, lines) == Run(Default, Initial, body + [""])
      && PrescanErrors(Default, lines) == []
      && LastDeck(Default, lines) == d
      && LastValidType(Default, lines) == ClozeCard
  {
    SampleLines("Cloze", d, typeFirst, body);
  }

  /** A test chunk of a type other than Cloze parses like its lines under
      the Basic parser, with the first pass's report on an unknown type name
      in front. */
  lemma SampleBasicChunk(t: string, d: string, typeFirst: bool, body: seq<string>, note: Note, errors: seq<ParserError>)
    requires Written(t) && Written(d) && Body(body)
    requires Resolved(t) != ClozeCard
    requires BasicParser.ParseBasicChunk(Chunk(t, d, typeFirst, body) + [""], Default, d) == Parsed(note, errors)
    ensures Parser.ParseChunk(Terminated(Chunk(t, d, typeFirst, body)), Default) == Parsed(note, TypeErrors(t) + errors)
  {
    SampleLines(t, d, typeFirst, body);
    ParsedAfter(Parser.ParseChunk(Terminated(Chunk(t, d, typeFirst, body)), Default), TypeErrors(t));
  }

  /** A Cloze test chunk parses like its lines under the Cloze parser. */
  lemma SampleClozeChunk(d: string, typeFirst: bool, body: seq<string>)
    requires Written(d) && Body(body)
    ensures ParseCardType("Cloze") == Some(ClozeCard)
    ensures Parser.ParseChunk(Terminated(Chunk("Cloze", d, typeFirst, body)), Default)
      == ClozeParser.ParseClozeChunk(Chunk("Cloze", d, typeFirst, body) + [""], Default, d)
  {
    ClozeLines(d, typeFirst, body);
    var r := Parser.ParseChunk(Terminated(Chunk("Cloze", d, typeFirst, body)), Default);
    ParsedAfter(r, []);
    assert [] + r.errors[0..] == r.errors;
  }

  lemma ChunkSnoc(t: string, d: string, typeFirst: bool, body: seq<string>)
    ensures Chunk(t, d, typeFirst, body) + [""] == Chunk(t, d, typeFirst, body + [""])
  {
    assert ["## Anki"] + Meta(t, d, typeFirst) + body + [""] == ["## Anki"] + Meta(t, d, typeFirst) + (body + [""]);
  }

  /** A result whose diagnostics start with `first` is `first` ahead of the rest. */
  lemma ParsedAfter(r: Parsed, first: seq<ParserError>)
    requires |first| <= |r.errors| && r.errors[..|first|] == first
    ensures r == Parsed(r.note, first + r.errors[|first|..])
  {
    assert r.errors == r.errors[..|first|] + r.errors[|first|..];
  }

  // ---------------------------------------------------------------------
  // an inline front and an inline back
  // ---------------------------------------------------------------------

  /** `Front: q` then `Back: a` fill both fields and warn about nothing. */
  lemma InlineRun(q: string, a: string)
    requires Trimmed(q) && Trimmed(a)
    ensures Run(Default, Initial, ["Front: " + q, "Back: " + a, ""]) == Fields(" " + q, " " + a, Idle, [])
  {
    var r5 := [""];
    var r4 := ["Back: " + a] + r5;
    assert ["Front: " + q, "Back: " + a, ""] == ["Front: " + q] + r4;
    var front := Initial.(front := " " + q);
    var done := front.(back := " " + a);
    var g := Initial.(front := " " + q, warnings := Initial.warnings + if Initial.front != "" then [Warn(FrontOverwritten)] else []);
    assert g == front;
    assert Run(Default, Initial, ["Front: " + q] + r4) == Run(Default, g, r4) by {
      FrontLine(q, Initial, r4);
    }
    assert Run(Default, front, r4) == Run(Default, done, r5) by {
      BackLine(a, front, r5);
    }
    assert Run(Default, done, r5) == done by {
      ContentLine("");
      RunCons(Default, done, "", []);
    }
  }

  lemma InlineLines(q: string, a: string)
    requires Written(q) && Written(a)
    ensures Body(["Front: " + q, "Back: " + a])
  {
    var front, back := "Front: " + q, "Back: " + a;
    assert front[0] == 'F' && back[0] == 'B';
    FieldLine(front);
    FieldLine(back);
    assert OneLine(front) && OneLine(back);
  }

  /** Fields that trim to non-empty texts, with no warnings: a Basic note
      and no diagnostics. */
  lemma BasicComplete(lines: seq<string>, d: string, q: string, a: string)
    requires Trimmed(q) && Trimmed(a)
    requires Extract(Default, lines) == Fields(" " + q, " " + a, Idle, [])
    ensures BasicParser.ParseBasicChunk(lines, Default, d) == Parsed(Note(q, Some(a), NoteType.Basic, d), [])
  {
    PadTrim(q);
    PadTrim(a);
  }

  /** The field parser's part of a Basic test chunk with an inline front
      and back: the trimmed texts, and no diagnostics. */
  lemma InlineBasicFields(t: string, d: string, typeFirst: bool, q: string, a: string)
    requires Written(t) && Written(d) && Written(q) && Written(a)
    ensures Body(["Front: " + q, "Back: " + a])
    ensures BasicParser.ParseBasicChunk(Chunk(t, d, typeFirst, ["Front: " + q, "Back: " + a]) + [""], Default, d)
      == Parsed(Note(q, Some(a), NoteType.Basic, d), [])
  {
    var body := ["Front: " + q, "Back: " + a];
    InlineLines(q, a);
    InlineRun(q, a);
    assert body + [""] == ["Front: " + q, "Back: " + a, ""];
    SampleLines(t, d, typeFirst, body);
    BasicComplete(Chunk(t, d, typeFirst, body) + [""], d, q, a);
  }

  /** A Basic test chunk with an inline front and back: the trimmed texts
      under the named deck, with only the first pass's report. */
  lemma InlineBasicChunk(t: string, d: string, typeFirst: bool, q: string, a: string)
    requires Written(t) && Written(d) && Written(q) && Written(a)
    requires Resolved(t) != ClozeCard
    ensures Parser.ParseChunk(Terminated(Chunk(t, d, typeFirst, ["Front: " + q, "Back: " + a])), Default)
      == Parsed(Note(q, Some(a), NoteType.Basic, d), TypeErrors(t))
  {
    InlineBasicFields(t, d, typeFirst, q, a);
    SampleBasicChunk(t, d, typeFirst, ["Front: " + q, "Back: " + a], Note(q, Some(a), NoteType.Basic, d), []);
    assert TypeErrors(t) + [] == TypeErrors(t);
  }

  // The names and texts of the repository's test notes.
  const Knowledge := "Common Knowledge"
  const FranceQuestion := "What is the capital of France?"
  const Paris := "Paris"
  const Misspelt := "Basix"
  const FrontText := "Front"
  const BackText := "Back"

  /** The inline Basic note of basic.test.ts: no diagnostics at all. */
  lemma CapitalOfFrance()
    ensures Parser.ParseChunk(Terminated(Chunk("Basic", Knowledge, true, ["Front: " + FranceQuestion, "Back: " + Paris])), Default)
      == Parsed(Note(FranceQuestion, Some(Paris), NoteType.Basic, Knowledge), [])
  {
    CapitalOfFranceText();
    InlineBasicChunk("Basic", Knowledge, true, FranceQuestion, Paris);
  }

  /** The deck of the tests is written on one line. */
  lemma KnowledgeWritten()
    ensures Written(Knowledge)
  {
    assert Knowledge[0] == 'C' && Knowledge[|Knowledge| - 1] == 'e';
  }

  /** The names and texts of the first Basic chunk are written on one line
      each, and its type is not Cloze. */
  lemma CapitalOfFranceText()
    ensures Written("Basic") && Written(Knowledge) && Written(FranceQuestion) && Written(Paris)
    ensures Resolved("Basic") != ClozeCard
  {
    KnowledgeWritten();
    assert Written(FranceQuestion) && Written(Paris);
  }

  /** A report on an unknown type name alone keeps the note. */
  lemma InvalidTypeKept(note: Note)
    ensures InvalidType.kind == Error && !InvalidType.fatal
    ensures Parser.Kept(Parsed(note, [InvalidType]))
  {
  }

  /** A misspelt type name: the note is parsed as Basic, with one non-fatal
      error in front, so it is kept. The deck line comes first here. */
  lemma MisspeltType()
    ensures Parser.ParseChunk(Terminated(Chunk(Misspelt, Knowledge, false, ["Front: " + FrontText, "Back: " + BackText])), Default)
      == Parsed(Note(FrontText, Some(BackText), NoteType.Basic, Knowledge), [InvalidType])
  {
    MisspeltTypeText();
    InlineBasicChunk(Misspelt, Knowledge, false, FrontText, BackText);
  }

  /** The misspelt name names no type, and the texts are written on one
      line each. */
  lemma MisspeltTypeText()
    ensures ParseCardType(Misspelt) == None && Resolved(Misspelt) == BasicCard && TypeErrors(Misspelt) == [InvalidType]
    ensures Written(Misspelt) && Written(Knowledge) && Written(FrontText) && Written(BackText)
  {
    assert ParseCardType(Misspelt) == None;
    KnowledgeWritten();
  }

  // ---------------------------------------------------------------------
  // whole documents
  // ---------------------------------------------------------------------

  /** A test chunk holds no marker line after its begin line when its
      field lines hold none. */
  lemma MarkerFree(t: string, d: string, typeFirst: bool, body: seq<string>)
    requires Written(t) && Written(d) && Chunks.NoMarkers(Default, body)
    ensures Chunks.ChunkLines(Default, Chunk(t, d, typeFirst, body))
  {
    var c := Chunk(t, d, typeFirst, body);
    var tl := "Card Type: " + t;
    var dl := "Deck: " + d;
    assert tl[0] == 'C' && dl[0] == 'D';
    assert Default.noteBeginning[0] == '#' && Default.noteEnding[0] == 'A';
    forall k | 1 <= k < |c| ensures !Chunks.IsBegin(Default, c[k]) && !Chunks.IsEnd(Default, c[k]) {
      if k >= 3 {
        assert c[k] == body[k - 3];
      } else {
        assert c[k] == tl || c[k] == dl;
      }
    }
  }

  /** The lines of an inline Basic test chunk are no markers. */
  lemma InlineMarkerFree(q: string, a: string)
    ensures Chunks.NoMarkers(Default, ["Front: " + q, "Back: " + a])
  {
    assert ("Front: " + q)[0] == 'F' && ("Back: " + a)[0] == 'B';
    assert Default.noteBeginning[0] == '#' && Default.noteEnding[0] == 'A';
  }

  /** The first Basic test as a document: the chunk among lines with no
      marker yields its one note and nothing else. */
  lemma CapitalOfFranceDocument(text: string, pre: seq<string>, post: seq<string>)
    requires Split(text, '\n') == pre + Chunk("Basic", Knowledge, true, ["Front: " + FranceQuestion, "Back: " + Paris]) + [Default.noteEnding] + post
    requires Chunks.NoMarkers(Default, pre) && Chunks.NoMarkers(Default, post)
    ensures Parser.ExtractNotes(text, Default) == Parser.Extracted([Note(FranceQuestion, Some(Paris), NoteType.Basic, Knowledge)], [])
  {
    CapitalOfFrance();
    CapitalOfFranceText();
    InlineMarkerFree(FranceQuestion, Paris);
    MarkerFree("Basic", Knowledge, true, ["Front: " + FranceQuestion, "Back: " + Paris]);
    Parser.OneChunkDocument(text, Default, pre, Chunk("Basic", Knowledge, true, ["Front: " + FranceQuestion, "Back: " + Paris]), Default.noteEnding, post);
  }

  /** The misspelt type as a document: the note is kept, and the one error
      is reported. */
  lemma MisspeltTypeDocument(text: string, pre: seq<string>, post: seq<string>)
    requires Split(text, '\n') == pre + Chunk(Misspelt, Knowledge, false, ["Front: " + FrontText, "Back: " + BackText]) + [Default.noteEnding] + post
    requires Chunks.NoMarkers(Default, pre) && Chunks.NoMarkers(Default, post)
    ensures Parser.ExtractNotes(text, Default) == Parser.Extracted([Note(FrontText, Some(BackText), NoteType.Basic, Knowledge)], [InvalidType])
  {
    MisspeltType();
    MisspeltTypeText();
    InvalidTypeKept(Note(FrontText, Some(BackText), NoteType.Basic, Knowledge));
    InlineMarkerFree(FrontText, BackText);
    MarkerFree(Misspelt, Knowledge, false, ["Front: " + FrontText, "Back: " + BackText]);
    Parser.OneChunkDocument(text, Default, pre, Chunk(Misspelt, Knowledge, false, ["Front: " + FrontText, "Back: " + BackText]), Default.noteEnding, post);
  }
}
