/** What the parser produces: notes and diagnostics. */
module Notes {
  import opened Strings

  /** The two note types a chunk can be parsed into. */
  datatype NoteType = Basic | Cloze

  /** A parsed note. A Basic note always has a back; a Cloze note's back is
      absent when the chunk gives none. */
  datatype Note = Note(front: string, back: Option<string>, noteType: NoteType, deck: string)

  /** What parsing one chunk returns: its note, and every diagnostic raised
      for it. */
  datatype Parsed = Parsed(note: Note, errors: seq<ParserError>)

  datatype ErrorKind = Warning | Error

  /** A diagnostic; an absent `fatal` flag reads as false. */
  datatype ParserError = ParserError(kind: ErrorKind, message: string, fatal: bool)

  const TypeOverwritten := "The type of the card is being overwritten. (it has been likely defined twice.)"
  const TypeInvalid := "The type of the card is invalid. Returning to the last type defined."
  const FrontOverwritten := "The front of the card is being overwritten. (it has been likely defined twice)"
  const BackOverwritten := "The back of the card is being overwritten. (it has been likely defined twice)"
  const FrontMissing := "The front of the card is missing."
  const BackMissing := "The back of the card is missing."
  const ClozeMissing := "The front of the card is missing Cloze deletions."

  function Warn(message: string): ParserError {
    ParserError(Warning, message, false)
  }

  function Fatal(message: string): ParserError {
    ParserError(Error, message, true)
  }

  /** `errors.some((error) => error.fatal)` */
  predicate AnyFatal(errors: seq<ParserError>) {
    exists i | 0 <= i < |errors| :: errors[i].fatal
  }

  predicate NoneFatal(errors: seq<ParserError>) {
    forall i | 0 <= i < |errors| :: !errors[i].fatal
  }

  /** The number of errors carrying the given message. */
  function CountMessage(errors: seq<ParserError>, message: string): nat
  {
    if |errors| == 0 then 0
    else CountMessage(errors[..|errors| - 1], message) + (if errors[|errors| - 1].message == message then 1 else 0)
  }

  lemma {:induction false} CountMessageAppend(a: seq<ParserError>, b: seq<ParserError>, message: string)
    ensures CountMessage(a + b, message) == CountMessage(a, message) + CountMessage(b, message)
    decreases |b|
  {
    if |b| == 0 {
      assert a + b == a;
    } else {
      assert (a + b)[..|a + b| - 1] == a + b[..|b| - 1];
      CountMessageAppend(a, b[..|b| - 1], message);
    }
  }

  lemma AnyFatalAppend(a: seq<ParserError>, b: seq<ParserError>)
    ensures AnyFatal(a + b) <==> AnyFatal(a) || AnyFatal(b)
  {
    if AnyFatal(b) {
      var i :| 0 <= i < |b| && b[i].fatal;
      assert (a + b)[|a| + i] == b[i];
    }
    if AnyFatal(a) {
      var i :| 0 <= i < |a| && a[i].fatal;
      assert (a + b)[i] == a[i];
    }
  }

  /** Fatal errors appended after some diagnostics. */
  predicate FatalFrom(errors: seq<ParserError>, n: nat) {
    forall i | n <= i < |errors| :: errors[i].kind == Error && errors[i].fatal
  }

  lemma FatalAfter(a: seq<ParserError>, b: seq<ParserError>)
    requires FatalFrom(b, 0)
    ensures FatalFrom(a + b, |a|)
  {
    forall i | |a| <= i < |a + b| ensures (a + b)[i] == b[i - |a|] { }
  }
}
