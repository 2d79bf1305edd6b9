/** The first pass of `parseChunk` over a chunk's lines: it resolves the card
    type and the deck, warning when a type is named again and reporting a
    type it does not know. */
module TypeAndDeck {
  import opened Strings
  import opened Settings
  import opened Notes

  /** The four card types a type line may name. */
  datatype CardType = BasicCard | ClozeCard | BasicReversed | BasicTypeIn

  function CardTypeName(t: CardType): string {
    match t
    case BasicCard => "Basic"
    case ClozeCard => "Cloze"
    case BasicReversed => "Basic (and reversed card)"
    case BasicTypeIn => "Basic (type in the answer)"
  }

  /** The type a type line's text names, if it is one of the four. */
  function ParseCardType(s: string): (r: Option<CardType>)
    ensures r.Some? ==> CardTypeName(r.value) == s
    ensures r.None? ==> forall t: CardType :: CardTypeName(t) != s
  {
    if s == "Basic" then Some(BasicCard)
    else if s == "Cloze" then Some(ClozeCard)
    else if s == "Basic (and reversed card)" then Some(BasicReversed)
    else if s == "Basic (type in the answer)" then Some(BasicTypeIn)
    else None
  }

  /** Every card type is read back from its name. */
  lemma CardTypeRoundTrip(t: CardType)
    ensures ParseCardType(CardTypeName(t)) == Some(t)
  {
  }

  /** A type line names the card type; it is recognised before a deck line. */
  predicate IsTypeLine(cfg: Config, line: string) {
    StartsWith(line, cfg.noteTypeBeginning)
  }

  predicate IsDeckLine(cfg: Config, line: string) {
    !IsTypeLine(cfg, line) && StartsWith(line, cfg.deckBeginning)
  }

  /** The trimmed text after the marker. */
  function TypeText(cfg: Config, line: string): string {
    Trim(Substring(line, |cfg.noteTypeBeginning|))
  }

  function DeckText(cfg: Config, line: string): string {
    Trim(Substring(line, |cfg.deckBeginning|))
  }

  /** The invalid-type diagnostic: an error, explicitly not fatal. */
  const InvalidType := ParserError(Error, TypeInvalid, false)

  /** The loop variables of the first pass. */
  datatype Header = Header(cardType: CardType, deck: string, errors: seq<ParserError>)

  function Start(cfg: Config): Header {
    Header(BasicCard, cfg.defaultDeck, [])
  }

  /** What one type line reports, given the type resolved before it: the
      overwrite warning first (only when that type is not Basic), then the
      invalid-type error when the line names no known type. */
  function TypeLineErrors(cfg: Config, current: CardType, line: string): seq<ParserError> {
    (if current != BasicCard then [Warn(TypeOverwritten)] else [])
    + (if ParseCardType(TypeText(cfg, line)).None? then [InvalidType] else [])
  }

  function PrescanStep(cfg: Config, h: Header, line: string): Header {
    if IsTypeLine(cfg, line) then
      var errors := h.errors + TypeLineErrors(cfg, h.cardType, line);
      match ParseCardType(TypeText(cfg, line))
      case Some(t) => Header(t, h.deck, errors)
      case None => Header(h.cardType, h.deck, errors)
    else if StartsWith(line, cfg.deckBeginning) then h.(deck := DeckText(cfg, line))
    else h
  }

  function PrescanFrom(cfg: Config, h: Header, lines: seq<string>): Header
    decreases |lines|
  {
    if |lines| == 0 then h else PrescanFrom(cfg, PrescanStep(cfg, h, lines[0]), lines[1..])
  }

  /** The type, deck and diagnostics the first pass over a chunk yields. */
  function Prescan(cfg: Config, lines: seq<string>): Header {
    PrescanFrom(cfg, Start(cfg), lines)
  }

  // ---------------------------------------------------------------------
  // the same results read from the end of the chunk
  // ---------------------------------------------------------------------

  /** The type named by the last type line that names a valid one; Basic
      when there is none. */
  function LastValidType(cfg: Config, lines: seq<string>): CardType
    decreases |lines|
  {
    if |lines| == 0 then BasicCard
    else
      var last := lines[|lines| - 1];
      if IsTypeLine(cfg, last) && ParseCardType(TypeText(cfg, last)).Some? then
        ParseCardType(TypeText(cfg, last)).value
      else LastValidType(cfg, lines[..|lines| - 1])
  }

  /** The trimmed text of the last deck line; the default deck when there
      is none. */
  function LastDeck(cfg: Config, lines: seq<string>): string
    decreases |lines|
  {
    if |lines| == 0 then cfg.defaultDeck
    else
      var last := lines[|lines| - 1];
      if IsDeckLine(cfg, last) then DeckText(cfg, last)
      else LastDeck(cfg, lines[..|lines| - 1])
  }

  /** Every type line's diagnostics, in line order; each line judged by
      the type resolved before it. */
  function PrescanErrors(cfg: Config, lines: seq<string>): seq<ParserError>
    decreases |lines|
  {
    if |lines| == 0 then []
    else
      var pre := lines[..|lines| - 1];
      var last := lines[|lines| - 1];
      PrescanErrors(cfg, pre)
      + (if IsTypeLine(cfg, last) then TypeLineErrors(cfg, LastValidType(cfg, pre), last) else [])
  }

  lemma {:induction false} PrescanAppend(cfg: Config, h: Header, a: seq<string>, b: seq<string>)
    ensures PrescanFrom(cfg, h, a + b) == PrescanFrom(cfg, PrescanFrom(cfg, h, a), b)
    decreases |a|
  {
    if |a| > 0 {
      assert (a + b)[1..] == a[1..] + b;
      PrescanAppend(cfg, PrescanStep(cfg, h, a[0]), a[1..], b);
    } else {
      assert a + b == b;
    }
  }

  /** The first pass resolves the last valid type and the last deck line,
      and reports each type line's diagnostics in order. */
  lemma {:induction false} PrescanIsLastWins(cfg: Config, lines: seq<string>)
    ensures Prescan(cfg, lines) == Header(LastValidType(cfg, lines), LastDeck(cfg, lines), PrescanErrors(cfg, lines))
    decreases |lines|
  {
    if |lines| > 0 {
      var pre := lines[..|lines| - 1];
      var last := lines[|lines| - 1];
      PrescanIsLastWins(cfg, pre);
      assert lines == pre + [last];
      PrescanAppend(cfg, Start(cfg), pre, [last]);
      assert [last][1..] == [];
    }
  }

  /** The first pass never raises a fatal diagnostic. */
  lemma {:induction false} PrescanNeverFatal(cfg: Config, lines: seq<string>)
    ensures NoneFatal(Prescan(cfg, lines).errors)
    decreases |lines|
  {
    PrescanIsLastWins(cfg, lines);
    ErrorsNeverFatal(cfg, lines);
  }

  lemma {:induction false} ErrorsNeverFatal(cfg: Config, lines: seq<string>)
    ensures NoneFatal(PrescanErrors(cfg, lines))
    decreases |lines|
  {
    if |lines| > 0 {
      var pre := lines[..|lines| - 1];
      ErrorsNeverFatal(cfg, pre);
    }
  }

  /** The number of type lines naming no known type. */
  function InvalidTypeLines(cfg: Config, lines: seq<string>): nat
    decreases |lines|
  {
    if |lines| == 0 then 0
    else
      var last := lines[|lines| - 1];
      InvalidTypeLines(cfg, lines[..|lines| - 1])
      + (if IsTypeLine(cfg, last) && ParseCardType(TypeText(cfg, last)).None? then 1 else 0)
  }

  /** The number of type lines met while the resolved type is not Basic. */
  function OverwritingTypeLines(cfg: Config, lines: seq<string>): nat
    decreases |lines|
  {
    if |lines| == 0 then 0
    else
      var pre := lines[..|lines| - 1];
      var last := lines[|lines| - 1];
      OverwritingTypeLines(cfg, pre)
      + (if IsTypeLine(cfg, last) && LastValidType(cfg, pre) != BasicCard then 1 else 0)
  }

  /** One invalid-type error per invalid type line, one overwrite warning
      per type line after a non-Basic type, and nothing else. */
  lemma {:induction false} PrescanCounts(cfg: Config, lines: seq<string>)
    ensures CountMessage(Prescan(cfg, lines).errors, TypeInvalid) == InvalidTypeLines(cfg, lines)
    ensures CountMessage(Prescan(cfg, lines).errors, TypeOverwritten) == OverwritingTypeLines(cfg, lines)
    ensures |Prescan(cfg, lines).errors| == InvalidTypeLines(cfg, lines) + OverwritingTypeLines(cfg, lines)
  {
    PrescanIsLastWins(cfg, lines);
    ErrorCounts(cfg, lines);
  }

  lemma {:induction false} ErrorCounts(cfg: Config, lines: seq<string>)
    ensures CountMessage(PrescanErrors(cfg, lines), TypeInvalid) == InvalidTypeLines(cfg, lines)
    ensures CountMessage(PrescanErrors(cfg, lines), TypeOverwritten) == OverwritingTypeLines(cfg, lines)
    ensures |PrescanErrors(cfg, lines)| == InvalidTypeLines(cfg, lines) + OverwritingTypeLines(cfg, lines)
    decreases |lines|
  {
    if |lines| > 0 {
      var pre := lines[..|lines| - 1];
      var last := lines[|lines| - 1];
      ErrorCounts(cfg, pre);
      var e := if IsTypeLine(cfg, last) then TypeLineErrors(cfg, LastValidType(cfg, pre), last) else [];
      CountMessageAppend(PrescanErrors(cfg, pre), e, TypeInvalid);
      CountMessageAppend(PrescanErrors(cfg, pre), e, TypeOverwritten);
      LineErrorCounts(cfg, LastValidType(cfg, pre), last);
    }
  }

  lemma LineErrorCounts(cfg: Config, current: CardType, line: string)
    ensures var e := TypeLineErrors(cfg, current, line);
      && CountMessage(e, TypeInvalid) == (if ParseCardType(TypeText(cfg, line)).None? then 1 else 0)
      && CountMessage(e, TypeOverwritten) == (if current != BasicCard then 1 else 0)
  {
    var a: seq<ParserError> := if current != BasicCard then [Warn(TypeOverwritten)] else [];
    var b: seq<ParserError> := if ParseCardType(TypeText(cfg, line)).None? then [InvalidType] else [];
    CountMessageAppend(a, b, TypeInvalid);
    CountMessageAppend(a, b, TypeOverwritten);
  }

  /** A chunk with no type line is Basic and raises nothing in the first
      pass. */
  lemma {:induction false} NoTypeLine(cfg: Config, lines: seq<string>)
    requires forall i | 0 <= i < |lines| :: !IsTypeLine(cfg, lines[i])
    ensures Prescan(cfg, lines).cardType == BasicCard
    ensures Prescan(cfg, lines).errors == []
    decreases |lines|
  {
    PrescanIsLastWins(cfg, lines);
    NoTypeLineFromEnd(cfg, lines);
  }

  lemma {:induction false} NoTypeLineFromEnd(cfg: Config, lines: seq<string>)
    requires forall i | 0 <= i < |lines| :: !IsTypeLine(cfg, lines[i])
    ensures LastValidType(cfg, lines) == BasicCard
    ensures PrescanErrors(cfg, lines) == []
    decreases |lines|
  {
    if |lines| > 0 {
      NoTypeLineFromEnd(cfg, lines[..|lines| - 1]);
    }
  }
}
