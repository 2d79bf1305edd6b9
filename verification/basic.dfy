/** The Basic note parser. */
module BasicParser {
  import opened Strings
  import opened Settings
  import opened Notes
  import opened Fields

  /** `parseBasicChunk`: the chunk's front and back, trimmed, as a Basic note
      for `deck`. A missing (empty after trimming) front and a missing back
      each add a fatal error, independently; the note is returned even then,
      and the caller drops it. */
  function ParseBasicChunk(lines: seq<string>, cfg: Config, deck: string): (r: Parsed)
    ensures var f := Extract(cfg, lines);
      && r.note == Note(Trim(f.front), Some(Trim(f.back)), NoteType.Basic, deck)
      && |f.warnings| <= |r.errors| && r.errors[..|f.warnings|] == f.warnings
    ensures CountMessage(r.errors, FrontMissing) == (if r.note.front == "" then 1 else 0)
    ensures CountMessage(r.errors, BackMissing) == (if r.note.back == Some("") then 1 else 0)
    ensures AnyFatal(r.errors) <==> r.note.front == "" || r.note.back == Some("")
    ensures var w := Extract(cfg, lines).warnings;
      && |r.errors| == |w| + CountMessage(r.errors, FrontMissing) + CountMessage(r.errors, BackMissing)
      && FatalFrom(r.errors, |w|)
  {
    var f := Extract(cfg, lines);
    var front := Trim(f.front);
    var back := Trim(f.back);
    ExtractionOnlyWarns(cfg, Initial, lines);
    AfterWarnings(f.warnings, front == "", back == "");
    Parsed(Note(front, Some(back), NoteType.Basic, deck), f.warnings + Missing(front == "", back == ""))
  }

  /** The errors the two emptiness checks push, in the order they are made. */
  function Missing(noFront: bool, noBack: bool): seq<ParserError> {
    (if noFront then [Fatal(FrontMissing)] else []) + (if noBack then [Fatal(BackMissing)] else [])
  }

  /** The field loop's warnings followed by the missing-field errors. */
  lemma AfterWarnings(w: seq<ParserError>, noFront: bool, noBack: bool)
    requires OnlyOverwriteWarnings(w)
    ensures var errors := w + Missing(noFront, noBack);
      && |w| <= |errors| && errors[..|w|] == w
      && CountMessage(errors, FrontMissing) == (if noFront then 1 else 0)
      && CountMessage(errors, BackMissing) == (if noBack then 1 else 0)
      && (AnyFatal(errors) <==> noFront || noBack)
      && |errors| == |w| + CountMessage(errors, FrontMissing) + CountMessage(errors, BackMissing)
      && FatalFrom(errors, |w|)
  {
    var missing := Missing(noFront, noBack);
    assert (w + missing)[..|w|] == w;
    assert !AnyFatal(w);
    WarningsCarryNoOtherMessage(w);
    MissingErrors(noFront, noBack);
    CountMessageAppend(w, missing, FrontMissing);
    CountMessageAppend(w, missing, BackMissing);
    AnyFatalAppend(w, missing);
    FatalAfter(w, missing);
  }

  lemma MissingErrors(noFront: bool, noBack: bool)
    ensures var missing := Missing(noFront, noBack);
      && CountMessage(missing, FrontMissing) == (if noFront then 1 else 0)
      && CountMessage(missing, BackMissing) == (if noBack then 1 else 0)
      && (AnyFatal(missing) <==> noFront || noBack)
      && |missing| == (if noFront then 1 else 0) + (if noBack then 1 else 0)
      && FatalFrom(missing, 0)
  {
    var a: seq<ParserError> := if noFront then [Fatal(FrontMissing)] else [];
    var b: seq<ParserError> := if noBack then [Fatal(BackMissing)] else [];
    CountMessageAppend(a, b, FrontMissing);
    CountMessageAppend(a, b, BackMissing);
    AnyFatalAppend(a, b);
    if noFront { assert a[0].fatal; }
    if noBack { assert b[0].fatal; }
  }
}
