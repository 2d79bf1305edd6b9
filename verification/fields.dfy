/** The front/back field state machine shared by the Basic and the Cloze
    parser. Both parsers run the same loop over the chunk lines (the Cloze
    parser calls its front "text"); it is defined once here. */
module Fields {
  import opened Strings
  import opened Settings
  import opened Notes

  /** Which field multiline content currently goes to (`isParsing`). */
  datatype Parsing = Idle | InFront | InBack

  /** How one chunk line is read. The checks are made in this order, so a
      line that could be read two ways takes the first. */
  datatype LineKind =
    | Skipped                    // a card type or deck line
    | InlineFront(text: string)  // "Front: text"
    | FrontOpener                // "Front:" alone, multiline front follows
    | InlineBack(text: string)
    | BackOpener
    | Content                    // any other line

  /** A line the type/deck prescan consumes. */
  predicate IsMetaLine(cfg: Config, line: string) {
    StartsWith(line, cfg.noteTypeBeginning) || StartsWith(line, cfg.deckBeginning)
  }

  /** A line starting with `marker` whose trimmed length differs from the
      trimmed marker's, so it carries text of its own. */
  predicate IsInline(line: string, marker: string) {
    StartsWith(line, marker) && |Trim(line)| != |Trim(marker)|
  }

  function Classify(cfg: Config, line: string): LineKind {
    if IsMetaLine(cfg, line) then Skipped
    else if IsInline(line, cfg.noteFrontBeginning) then InlineFront(Substring(line, |cfg.noteFrontBeginning|))
    else if line == cfg.noteFrontBeginning then FrontOpener
    else if IsInline(line, cfg.noteBackBeginning) then InlineBack(Substring(line, |cfg.noteBackBeginning|))
    else if line == cfg.noteBackBeginning then BackOpener
    else Content
  }

  /** The loop variables: both fields as collected so far (untrimmed), the
      parsing state, and the overwrite warnings raised so far. */
  datatype Fields = Fields(front: string, back: string, parsing: Parsing, warnings: seq<ParserError>)

  const Initial := Fields("", "", Idle, [])

  function Step(cfg: Config, f: Fields, line: string): Fields {
    match Classify(cfg, line)
    case Skipped => f
    case InlineFront(text) =>
      f.(front := text, warnings := f.warnings + (if f.front != "" then [Warn(FrontOverwritten)] else []))
    case FrontOpener => f.(front := "", parsing := InFront)
    case InlineBack(text) =>
      f.(back := text, warnings := f.warnings + (if f.back != "" then [Warn(BackOverwritten)] else []))
    case BackOpener => f.(back := "", parsing := InBack)
    case Content =>
      if f.parsing == InFront then f.(front := f.front + line + "\n")
      else if f.parsing == InBack then f.(back := f.back + line + "\n")
      else f
  }

  /** The loop over `lines`, left to right, from state `f`. */
  function Run(cfg: Config, f: Fields, lines: seq<string>): Fields
    decreases |lines|
  {
    if |lines| == 0 then f else Run(cfg, Step(cfg, f, lines[0]), lines[1..])
  }

  /** The fields of a chunk, before trimming. */
  function Extract(cfg: Config, lines: seq<string>): Fields {
    Run(cfg, Initial, lines)
  }

  lemma {:induction false} RunAppend(cfg: Config, f: Fields, a: seq<string>, b: seq<string>)
    ensures Run(cfg, f, a + b) == Run(cfg, Run(cfg, f, a), b)
    decreases |a|
  {
    if |a| > 0 {
      assert (a + b)[1..] == a[1..] + b;
      RunAppend(cfg, Step(cfg, f, a[0]), a[1..], b);
    } else {
      assert a + b == b;
    }
  }

  lemma RunSnoc(cfg: Config, f: Fields, pre: seq<string>, line: string)
    ensures Run(cfg, f, pre + [line]) == Step(cfg, Run(cfg, f, pre), line)
  {
    RunAppend(cfg, f, pre, [line]);
    assert [line][1..] == [];
  }

  /** The chunk lines with every type and deck line removed. */
  function WithoutMeta(cfg: Config, lines: seq<string>): (r: seq<string>)
    ensures |r| <= |lines|
    ensures forall i | 0 <= i < |r| :: !IsMetaLine(cfg, r[i])
    ensures forall i | 0 <= i < |lines| && !IsMetaLine(cfg, lines[i]) :: lines[i] in r
    ensures forall i | 0 <= i < |r| :: r[i] in lines
    ensures (forall i | 0 <= i < |lines| :: !IsMetaLine(cfg, lines[i])) ==> r == lines
    decreases |lines|
  {
    if |lines| == 0 then []
    else if IsMetaLine(cfg, lines[0]) then WithoutMeta(cfg, lines[1..])
    else [lines[0]] + WithoutMeta(cfg, lines[1..])
  }

  /** Removing the meta lines works line by line: it keeps each other
      line, in order, and drops each meta line. */
  lemma {:induction false} WithoutMetaAppend(cfg: Config, a: seq<string>, b: seq<string>)
    ensures WithoutMeta(cfg, a + b) == WithoutMeta(cfg, a) + WithoutMeta(cfg, b)
    decreases |a|
  {
    if |a| == 0 {
      assert a + b == b;
    } else {
      assert (a + b)[0] == a[0] && (a + b)[1..] == a[1..] + b;
      WithoutMetaAppend(cfg, a[1..], b);
    }
  }

  /** A single line survives exactly when it is not a type or deck line. */
  lemma WithoutMetaSingle(cfg: Config, line: string)
    ensures WithoutMeta(cfg, [line]) == if IsMetaLine(cfg, line) then [] else [line]
  {
  }

  /** Type and deck lines never contribute to either field nor raise a
      warning, wherever they stand: the loop over the chunk is the loop over
      the chunk without them. */
  lemma {:induction false} MetaLinesIgnored(cfg: Config, f: Fields, lines: seq<string>)
    ensures Run(cfg, f, lines) == Run(cfg, f, WithoutMeta(cfg, lines))
    decreases |lines|
  {
    if |lines| > 0 {
      MetaLinesIgnored(cfg, Step(cfg, f, lines[0]), lines[1..]);
      if !IsMetaLine(cfg, lines[0]) {
        var w := [lines[0]] + WithoutMeta(cfg, lines[1..]);
        assert w[0] == lines[0] && w[1..] == WithoutMeta(cfg, lines[1..]);
      }
    }
  }

  predicate OnlyOverwriteWarnings(ws: seq<ParserError>) {
    forall i | 0 <= i < |ws| :: ws[i] == Warn(FrontOverwritten) || ws[i] == Warn(BackOverwritten)
  }

  /** Field extraction raises nothing but the two non-fatal overwrite
      warnings. */
  lemma {:induction false} ExtractionOnlyWarns(cfg: Config, f: Fields, lines: seq<string>)
    requires OnlyOverwriteWarnings(f.warnings)
    ensures OnlyOverwriteWarnings(Run(cfg, f, lines).warnings)
    ensures NoneFatal(Run(cfg, f, lines).warnings)
    decreases |lines|
  {
    if |lines| > 0 {
      ExtractionOnlyWarns(cfg, Step(cfg, f, lines[0]), lines[1..]);
    }
  }

  /** Extraction warnings never carry a missing-field message. */
  lemma {:induction false} WarningsCarryNoOtherMessage(ws: seq<ParserError>)
    requires OnlyOverwriteWarnings(ws)
    ensures CountMessage(ws, FrontMissing) == 0
    ensures CountMessage(ws, BackMissing) == 0
    ensures CountMessage(ws, ClozeMissing) == 0
    decreases |ws|
  {
    if |ws| > 0 {
      WarningsCarryNoOtherMessage(ws[..|ws| - 1]);
    }
  }

  /** An inline front line replaces the front with the text after the
      marker, warns iff the front was already non-empty, and leaves the back
      and the parsing state alone. */
  lemma InlineFrontLine(cfg: Config, before: Fields, line: string)
    requires !IsMetaLine(cfg, line) && IsInline(line, cfg.noteFrontBeginning)
    ensures var after := Step(cfg, before, line);
      && after.front == line[|cfg.noteFrontBeginning|..]
      && after.back == before.back
      && after.parsing == before.parsing
      && after.warnings == before.warnings + (if before.front != "" then [Warn(FrontOverwritten)] else [])
  {
    assert Classify(cfg, line) == InlineFront(line[|cfg.noteFrontBeginning|..]);
  }

  /** A line that is exactly the front marker empties the front and starts
      multiline front parsing, without a warning. */
  lemma FrontOpenerLine(cfg: Config, before: Fields, line: string)
    requires !IsMetaLine(cfg, line) && line == cfg.noteFrontBeginning
    ensures Step(cfg, before, line) == before.(front := "", parsing := InFront)
  {
    assert Classify(cfg, line) == FrontOpener;
  }

  /** The same two rules for the back, which apply only to lines that are
      not front lines. */
  lemma InlineBackLine(cfg: Config, before: Fields, line: string)
    requires !IsMetaLine(cfg, line) && !IsInline(line, cfg.noteFrontBeginning) && line != cfg.noteFrontBeginning
    requires IsInline(line, cfg.noteBackBeginning)
    ensures var after := Step(cfg, before, line);
      && after.back == line[|cfg.noteBackBeginning|..]
      && after.front == before.front
      && after.parsing == before.parsing
      && after.warnings == before.warnings + (if before.back != "" then [Warn(BackOverwritten)] else [])
  {
    assert Classify(cfg, line) == InlineBack(line[|cfg.noteBackBeginning|..]);
  }

  lemma BackOpenerLine(cfg: Config, before: Fields, line: string)
    requires !IsMetaLine(cfg, line) && !IsInline(line, cfg.noteFrontBeginning) && line != cfg.noteFrontBeginning
    requires line == cfg.noteBackBeginning
    ensures Step(cfg, before, line) == before.(back := "", parsing := InBack)
  {
    assert Classify(cfg, line) == BackOpener;
  }

  /** Content lines go, each followed by a line feed, to the field being
      parsed, and nowhere when no field is. */
  lemma {:induction false} ContentLines(cfg: Config, f: Fields, body: seq<string>)
    requires forall i | 0 <= i < |body| :: Classify(cfg, body[i]) == Content
    ensures f.parsing == InFront ==> Run(cfg, f, body) == f.(front := f.front + Terminated(body))
    ensures f.parsing == InBack ==> Run(cfg, f, body) == f.(back := f.back + Terminated(body))
    ensures f.parsing == Idle ==> Run(cfg, f, body) == f
    decreases |body|
  {
    if |body| > 0 {
      ContentLines(cfg, Step(cfg, f, body[0]), body[1..]);
    }
  }

  /** The multiline form round-trips: a bare front marker followed by
      content lines yields exactly those lines, each terminated by a line
      feed, whatever the front held before. */
  lemma MultilineFront(cfg: Config, f: Fields, opener: string, body: seq<string>)
    requires Classify(cfg, opener) == FrontOpener
    requires forall i | 0 <= i < |body| :: Classify(cfg, body[i]) == Content
    ensures Run(cfg, f, [opener] + body) == f.(front := Terminated(body), parsing := InFront)
  {
    assert ([opener] + body)[1..] == body;
    ContentLines(cfg, Step(cfg, f, opener), body);
  }

  lemma MultilineBack(cfg: Config, f: Fields, opener: string, body: seq<string>)
    requires Classify(cfg, opener) == BackOpener
    requires forall i | 0 <= i < |body| :: Classify(cfg, body[i]) == Content
    ensures Run(cfg, f, [opener] + body) == f.(back := Terminated(body), parsing := InBack)
  {
    assert ([opener] + body)[1..] == body;
    ContentLines(cfg, Step(cfg, f, opener), body);
  }

  /** The front evolves on its own: it depends on the front and the parsing
      state it starts from, never on the back. */
  lemma {:induction false} FrontIndependentOfBack(cfg: Config, f: Fields, g: Fields, lines: seq<string>)
    requires f.front == g.front && f.parsing == g.parsing
    ensures Run(cfg, f, lines).front == Run(cfg, g, lines).front
    ensures Run(cfg, f, lines).parsing == Run(cfg, g, lines).parsing
    decreases |lines|
  {
    if |lines| > 0 {
      var f', g' := Step(cfg, f, lines[0]), Step(cfg, g, lines[0]);
      match Classify(cfg, lines[0]) {
        case Skipped =>
        case InlineFront(_) =>
        case FrontOpener =>
        case InlineBack(_) =>
        case BackOpener =>
        case Content =>
      }
      assert f'.front == g'.front && f'.parsing == g'.parsing;
      FrontIndependentOfBack(cfg, f', g', lines[1..]);
    }
  }

  lemma {:induction false} BackIndependentOfFront(cfg: Config, f: Fields, g: Fields, lines: seq<string>)
    requires f.back == g.back && f.parsing == g.parsing
    ensures Run(cfg, f, lines).back == Run(cfg, g, lines).back
    ensures Run(cfg, f, lines).parsing == Run(cfg, g, lines).parsing
    decreases |lines|
  {
    if |lines| > 0 {
      var f', g' := Step(cfg, f, lines[0]), Step(cfg, g, lines[0]);
      match Classify(cfg, lines[0]) {
        case Skipped =>
        case InlineFront(_) =>
        case FrontOpener =>
        case InlineBack(_) =>
        case BackOpener =>
        case Content =>
      }
      assert f'.back == g'.back && f'.parsing == g'.parsing;
      BackIndependentOfFront(cfg, f', g', lines[1..]);
    }
  }

  /** A bare front marker discards everything before it as far as the front
      is concerned: the final front depends only on the lines from the last
      opener on. */
  lemma FrontOpenerForgets(cfg: Config, f: Fields, g: Fields, pre: seq<string>, opener: string, post: seq<string>)
    requires Classify(cfg, opener) == FrontOpener
    ensures Run(cfg, f, pre + [opener] + post).front == Run(cfg, g, [opener] + post).front
  {
    RunAppend(cfg, f, pre + [opener], post);
    RunAppend(cfg, f, pre, [opener]);
    RunAppend(cfg, g, [opener], post);
    FrontIndependentOfBack(cfg, Run(cfg, f, pre + [opener]), Run(cfg, g, [opener]), post);
  }

  lemma BackOpenerForgets(cfg: Config, f: Fields, g: Fields, pre: seq<string>, opener: string, post: seq<string>)
    requires Classify(cfg, opener) == BackOpener
    ensures Run(cfg, f, pre + [opener] + post).back == Run(cfg, g, [opener] + post).back
  {
    RunAppend(cfg, f, pre + [opener], post);
    RunAppend(cfg, f, pre, [opener]);
    RunAppend(cfg, g, [opener], post);
    BackIndependentOfFront(cfg, Run(cfg, f, pre + [opener]), Run(cfg, g, [opener]), post);
  }
}
