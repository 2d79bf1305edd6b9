/** The Cloze note parser: the same front/back extraction as the Basic
    parser, then every `{{...}}` deletion on the front is rewritten into
    Anki's `{{c<number>::<content>}}` form. */
module ClozeParser {
  import opened Strings
  import opened Settings
  import opened Notes
  import opened Fields
  import opened ClozeMatch
  import opened ClozeRewrite
  import BasicParser

  /** `parseClozeChunk`: the trimmed front with its deletions rewritten the
      way the code does it (`ClozeRewrite.Rewrite`), the trimmed back
      (absent when empty), type Cloze, and `deck`. A front without deletions
      is a fatal error, and so, separately, is an empty front; a missing back
      is no error at all. When no deletion's inner text holds `{`, `:` or
      `$`, the front is the in-place rewrite. */
  function ParseClozeChunk(lines: seq<string>, cfg: Config, deck: string): (r: Parsed)
    ensures var f := Extract(cfg, lines);
      && r.note == Note(Rewrite(Trim(f.front)),
                        if Trim(f.back) == "" then None else Some(Trim(f.back)),
                        NoteType.Cloze, deck)
      && |f.warnings| <= |r.errors| && r.errors[..|f.warnings|] == f.warnings
    ensures var text := Trim(Extract(cfg, lines).front);
      && (PlainDeletions(text) ==> r.note.front == InPlace(text))
      && CountMessage(r.errors, ClozeMissing) == (if Deletions(text) == [] then 1 else 0)
      && CountMessage(r.errors, FrontMissing) == (if text == "" then 1 else 0)
      && CountMessage(r.errors, BackMissing) == 0
      && (AnyFatal(r.errors) <==> Deletions(text) == [])
    ensures var w := Extract(cfg, lines).warnings;
      && |r.errors| == |w| + CountMessage(r.errors, ClozeMissing) + CountMessage(r.errors, FrontMissing)
      && FatalFrom(r.errors, |w|)
  {
    var f := Extract(cfg, lines);
    var text := Trim(f.front);
    RewriteEmpty(text);
    assert PlainDeletions(text) ==> Rewrite(text) == InPlace(text) by {
      if PlainDeletions(text) {
        RewriteInPlace(text);
      }
    }
    Finish(cfg, lines, deck, Rewrite(text))
  }

  /** The same parser with each deletion rewritten where the match found it
      (`ClozeRewrite.InPlace`): it differs from `parseClozeChunk` in the
      front alone, and not at all when the deletions are plain. */
  function ParseClozeChunkInPlace(lines: seq<string>, cfg: Config, deck: string): (r: Parsed)
    ensures var p := ParseClozeChunk(lines, cfg, deck);
      && r.errors == p.errors
      && r.note == p.note.(front := InPlace(Trim(Extract(cfg, lines).front)))
    ensures PlainDeletions(Trim(Extract(cfg, lines).front)) ==> r == ParseClozeChunk(lines, cfg, deck)
  {
    var f := Extract(cfg, lines);
    var text := Trim(f.front);
    RewriteEmpty(text);
    InPlaceEmpty(text);
    assert PlainDeletions(text) ==> Rewrite(text) == InPlace(text) by {
      if PlainDeletions(text) {
        RewriteInPlace(text);
      }
    }
    Finish(cfg, lines, deck, InPlace(text))
  }

  /** The note and diagnostics of a Cloze chunk whose front, once trimmed,
      has been rewritten to `front`: the empty-front check looks at the
      rewritten front. */
  function Finish(cfg: Config, lines: seq<string>, deck: string, front: string): (r: Parsed)
    requires front == "" <==> Trim(Extract(cfg, lines).front) == ""
    ensures var f := Extract(cfg, lines);
      var text := Trim(f.front);
      && r.note == Note(front, if Trim(f.back) == "" then None else Some(Trim(f.back)), NoteType.Cloze, deck)
      && |f.warnings| <= |r.errors| && r.errors[..|f.warnings|] == f.warnings
      && CountMessage(r.errors, ClozeMissing) == (if Deletions(text) == [] then 1 else 0)
      && CountMessage(r.errors, FrontMissing) == (if text == "" then 1 else 0)
      && CountMessage(r.errors, BackMissing) == 0
      && (AnyFatal(r.errors) <==> Deletions(text) == [])
      && |r.errors| == |f.warnings| + CountMessage(r.errors, ClozeMissing) + CountMessage(r.errors, FrontMissing)
      && FatalFrom(r.errors, |f.warnings|)
  {
    var f := Extract(cfg, lines);
    var text := Trim(f.front);
    var back := Trim(f.back);
    var deletions := Deletions(text);
    ExtractionOnlyWarns(cfg, Initial, lines);
    assert text == "" ==> deletions == [];
    AfterWarnings(f.warnings, deletions == [], front == "");
    Parsed(Note(front, if back == "" then None else Some(back), NoteType.Cloze, deck),
           f.warnings + Missing(deletions == [], front == ""))
  }

  /** The errors the two checks push, in the order they are made. */
  function Missing(noDeletions: bool, noFront: bool): seq<ParserError> {
    (if noDeletions then [Fatal(ClozeMissing)] else []) + (if noFront then [Fatal(FrontMissing)] else [])
  }

  /** The field loop's warnings followed by the two checks' errors. */
  lemma AfterWarnings(w: seq<ParserError>, noDeletions: bool, noFront: bool)
    requires OnlyOverwriteWarnings(w)
    requires noFront ==> noDeletions
    ensures var errors := w + Missing(noDeletions, noFront);
      && |w| <= |errors| && errors[..|w|] == w
      && CountMessage(errors, ClozeMissing) == (if noDeletions then 1 else 0)
      && CountMessage(errors, FrontMissing) == (if noFront then 1 else 0)
      && CountMessage(errors, BackMissing) == 0
      && (AnyFatal(errors) <==> noDeletions)
      && |errors| == |w| + CountMessage(errors, ClozeMissing) + CountMessage(errors, FrontMissing)
      && FatalFrom(errors, |w|)
  {
    var missing := Missing(noDeletions, noFront);
    assert (w + missing)[..|w|] == w;
    assert !AnyFatal(w);
    WarningsCarryNoOtherMessage(w);
    MissingErrors(noDeletions, noFront);
    CountMessageAppend(w, missing, ClozeMissing);
    CountMessageAppend(w, missing, FrontMissing);
    CountMessageAppend(w, missing, BackMissing);
    AnyFatalAppend(w, missing);
    FatalAfter(w, missing);
  }

  lemma MissingErrors(noDeletions: bool, noFront: bool)
    ensures var missing := Missing(noDeletions, noFront);
      && CountMessage(missing, ClozeMissing) == (if noDeletions then 1 else 0)
      && CountMessage(missing, FrontMissing) == (if noFront then 1 else 0)
      && CountMessage(missing, BackMissing) == 0
      && (AnyFatal(missing) <==> noDeletions || noFront)
      && |missing| == (if noDeletions then 1 else 0) + (if noFront then 1 else 0)
      && FatalFrom(missing, 0)
  {
    var a: seq<ParserError> := if noDeletions then [Fatal(ClozeMissing)] else [];
    var b: seq<ParserError> := if noFront then [Fatal(FrontMissing)] else [];
    CountMessageAppend(a, b, ClozeMissing);
    CountMessageAppend(a, b, FrontMissing);
    CountMessageAppend(a, b, BackMissing);
    AnyFatalAppend(a, b);
    if noDeletions { assert a[0].fatal; }
    if noFront { assert b[0].fatal; }
  }

  /** The Cloze and Basic parsers read the same fields from a chunk: the
      Cloze back is the Basic back, absent when empty, and a front without
      deletions is the Basic front unchanged. */
  lemma ClozeAgreesWithBasic(lines: seq<string>, cfg: Config, deck: string)
    ensures var basic := BasicParser.ParseBasicChunk(lines, cfg, deck).note;
      var cloze := ParseClozeChunk(lines, cfg, deck).note;
      && cloze.back == (if basic.back == Some("") then None else basic.back)
      && (Deletions(basic.front) == [] ==> cloze.front == basic.front)
      && cloze.deck == basic.deck
  {
  }
}
