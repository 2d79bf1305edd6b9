/** The Cloze notes of the repository's tests: fronts with two deletions
    that name their own cloze number, written inline after `Front:` or on
    lines of their own after a `Front:` opener. */
module ClozeSamples {
  import opened Strings
  import opened Settings
  import opened Notes
  import opened Fields
  import opened ClozeMatch
  import opened ClozeRewrite
  import ClozeDiscrepancies
  import ClozeParser
  import Parser
  import Chunks
  import opened Samples

  // ---------------------------------------------------------------------
  // a front with two deletions
  // ---------------------------------------------------------------------

  /** A deletion as a note writes it. */
  function Braced(x: string): string {
    "{{" + x + "}}"
  }

  /** Text a deletion may hold for the scan to end it at its own `}}`. */
  predicate Inside(x: string) {
    forall k | 0 <= k < |x| :: x[k] != '{' && x[k] != '}' && !IsLineTerminator(x[k])
  }

  /** Text between deletions: nothing that opens another. */
  predicate Between(g: string) {
    '{' !in g
  }

  /** The lazy close finds the first `}}` when nothing before it ends the
      match. */
  lemma CloseAt(s: string, j: nat, e: nat)
    requires j <= e && e + 2 <= |s| && s[e] == '}' && s[e + 1] == '}'
    requires forall k | j <= k < e :: s[k] != '}' && !IsLineTerminator(s[k])
    ensures Close(s, j) == Some(e)
  {
    assert ClosesAt(s, j, e);
  }

  /** The regular expression tried at a written deletion matches all of it. */
  lemma MatchBraced(a: string, x: string, b: string)
    requires Inside(x)
    ensures MatchAt(a + Braced(x) + b, |a|) == Some(|a| + |x| + 4)
  {
    var s := a + Braced(x) + b;
    var p := |a|;
    assert s[p] == '{' && s[p + 1] == '{';
    assert s[p + 2 + |x|] == '}' && s[p + 3 + |x|] == '}';
    forall k | p + 2 <= k < p + 2 + |x| ensures s[k] != '}' && !IsLineTerminator(s[k]) {
      assert s[k] == x[k - p - 2];
    }
    CloseAt(s, p + 2, p + 2 + |x|);
    MatchAtClose(s, p, p + 2 + |x|);
  }

  /** `{{` where the lazy close finds `}}`: a match up to that `}}`. */
  lemma MatchAtClose(s: string, p: nat, e: nat)
    requires p + 2 <= |s| && s[p] == '{' && s[p + 1] == '{' && Close(s, p + 2) == Some(e)
    ensures MatchAt(s, p) == Some(e + 2)
  {
  }

  /** No match starts in text after the last deletion. */
  lemma NoMatchAfter(a: string, g: string)
    requires Between(g)
    ensures forall q: nat | |a| <= q :: MatchAt(a + g, q).None?
  {
    var s := a + g;
    forall q: nat | |a| <= q ensures MatchAt(s, q).None? {
      if q < |s| {
        assert s[q] == g[q - |a|];
      }
    }
  }

  /** The front `g0 {{x}} g1 {{y}} g2`. */
  function TwoDeletions(g0: string, x: string, g1: string, y: string, g2: string): string {
    g0 + Braced(x) + g1 + Braced(y) + g2
  }

  /** From the start of a gap, the scan's next match is the deletion after it. */
  lemma ScanGapThenDeletion(a: string, g: string, x: string, rest: string)
    requires Between(g) && Inside(x)
    ensures Scan(a + g + Braced(x) + rest, |a|)
      == [Span(|a| + |g|, |a| + |g| + |x| + 4)] + Scan(a + g + Braced(x) + rest, |a| + |g| + |x| + 4)
  {
    var s := a + g + Braced(x) + rest;
    forall q: nat | |a| <= q < |a| + |g| ensures s[q] != '{' {
      assert s[q] == g[q - |a|];
    }
    MatchBraced(a + g, x, rest);
    ScanGap(s, |a|, |a| + |g|, |a| + |g| + |x| + 4);
  }

  /** After positions where nothing matches, the scan's next span is the
      first match. */
  lemma ScanGap(s: string, from: nat, p: nat, e: nat)
    requires from <= p < |s| && MatchAt(s, p) == Some(e)
    requires forall q: nat | from <= q < p :: s[q] != '{'
    ensures Scan(s, from) == [Span(p, e)] + Scan(s, e)
  {
    SkipNoMatch(s, from, p);
  }

  /** From the start of a last gap, the scan finds nothing. */
  lemma ScanLastGap(a: string, g: string)
    requires Between(g)
    ensures Scan(a + g, |a|) == []
  {
    NoMatchAfter(a, g);
    NoMatchFrom(a + g, |a|);
  }

  /** The scan finds exactly the two written deletions. */
  lemma TwoDeletionsScan(g0: string, x: string, g1: string, y: string, g2: string)
    requires Between(g0) && Between(g1) && Between(g2) && Inside(x) && Inside(y)
    ensures var s := TwoDeletions(g0, x, g1, y, g2);
      var p0 := |g0|;
      var p1 := |g0| + |x| + 4 + |g1|;
      Spans(s) == [Span(p0, p0 + |x| + 4), Span(p1, p1 + |y| + 4)]
  {
    var s := TwoDeletions(g0, x, g1, y, g2);
    var first := g0 + Braced(x);
    var second := first + g1 + Braced(y);
    assert s == "" + g0 + Braced(x) + (g1 + Braced(y) + g2);
    ScanGapThenDeletion("", g0, x, g1 + Braced(y) + g2);
    assert s == first + g1 + Braced(y) + g2;
    ScanGapThenDeletion(first, g1, y, g2);
    assert s == second + g2;
    ScanLastGap(second, g2);
  }

  /** The three slices of `a + m + b`. */
  lemma ThreeParts(a: string, m: string, b: string)
    ensures (a + m + b)[..|a|] == a
    ensures (a + m + b)[|a|..|a| + |m|] == m
    ensures (a + m + b)[|a| + |m|..] == b
  {
  }

  /** The deletions are the two written ones. */
  lemma TwoDeletionsTexts(g0: string, x: string, g1: string, y: string, g2: string)
    requires Between(g0) && Between(g1) && Between(g2) && Inside(x) && Inside(y)
    ensures Deletions(TwoDeletions(g0, x, g1, y, g2)) == [Braced(x), Braced(y)]
  {
    var s := TwoDeletions(g0, x, g1, y, g2);
    TwoDeletionsScan(g0, x, g1, y, g2);
    assert Deletions(s)[0] == Braced(x) by {
      DeletionText(s, 0);
      assert s == g0 + Braced(x) + (g1 + Braced(y) + g2);
      ThreeParts(g0, Braced(x), g1 + Braced(y) + g2);
    }
    assert Deletions(s)[1] == Braced(y) by {
      DeletionText(s, 1);
      ThreeParts(g0 + Braced(x) + g1, Braced(y), g2);
    }
  }

  /** The text between the braces of a written deletion. */
  lemma InnerBraced(x: string)
    ensures Inner(Braced(x)) == x
  {
    assert Braced(x)[2..|x| + 2] == x;
  }

  /** A deletion with nothing for the sequential rewrite to trip on. */
  predicate PlainInside(x: string) {
    Inside(x) && ':' !in x && '$' !in x
  }

  /** The source's rewrite of a front with two plain deletions: each one
      replaced by its Anki form where it stands. */
  lemma TwoDeletionsRewrite(g0: string, x: string, g1: string, y: string, g2: string)
    requires Between(g0) && Between(g1) && Between(g2) && PlainInside(x) && PlainInside(y)
    ensures Deletions(TwoDeletions(g0, x, g1, y, g2)) != []
    ensures Rewrite(TwoDeletions(g0, x, g1, y, g2))
      == g0 + Render(ToAnki(Braced(x), 0)) + g1 + Render(ToAnki(Braced(y), 1)) + g2
  {
    var s := TwoDeletions(g0, x, g1, y, g2);
    TwoDeletionsTexts(g0, x, g1, y, g2);
    assert PlainDeletions(s) by {
      InnerBraced(x);
      InnerBraced(y);
    }
    RewriteInPlace(s);
    assert InPlace(s) == g0 + Render(ToAnki(Braced(x), 0)) + g1 + Render(ToAnki(Braced(y), 1)) + g2 by {
      TwoDeletionsInPlace(g0, x, g1, y, g2);
    }
  }

  lemma TwoDeletionsInPlace(g0: string, x: string, g1: string, y: string, g2: string)
    requires Between(g0) && Between(g1) && Between(g2) && Inside(x) && Inside(y)
    ensures InPlace(TwoDeletions(g0, x, g1, y, g2))
      == g0 + Render(ToAnki(Braced(x), 0)) + g1 + Render(ToAnki(Braced(y), 1)) + g2
  {
    var s := TwoDeletions(g0, x, g1, y, g2);
    var forms := Forms(s);
    var p0, e0 := |g0|, |g0| + |x| + 4;
    var p1, e1 := e0 + |g1|, e0 + |g1| + |y| + 4;
    var r0, r1 := Render(ToAnki(Braced(x), 0)), Render(ToAnki(Braced(y), 1));
    TwoDeletionsForms(g0, x, g1, y, g2);
    assert Render(forms[0]) == r0 && Render(forms[1]) == r1;
    PartialTwoAt(s, forms, p0, e0, p1, e1);
    TwoDeletionsGaps(g0, x, g1, y, g2);
    assert s[..p0] == g0 && s[e0..p1] == g1 && s[e1..] == g2;
    calc {
      InPlace(s);
      Partial(s, forms, 2);
      s[..p0] + Render(forms[0]) + s[e0..p1] + Render(forms[1]) + s[e1..];
      g0 + r0 + g1 + r1 + g2;
    }
  }

  /** Two deletions, rewritten where they stand. */
  lemma PartialTwoAt(s: string, forms: seq<AnkiCloze>, p0: nat, e0: nat, p1: nat, e1: nat)
    requires |forms| == |Spans(s)| == 2
    requires SpanAt(s, 0) == Span(p0, e0) && SpanAt(s, 1) == Span(p1, e1)
    ensures Partial(s, forms, 2) == s[..p0] + Render(forms[0]) + s[e0..p1] + Render(forms[1]) + s[e1..]
  {
    ClozeDiscrepancies.PartialTwo(s, forms);
  }

  /** Where the two deletions stand, and their Anki forms. */
  lemma TwoDeletionsForms(g0: string, x: string, g1: string, y: string, g2: string)
    requires Between(g0) && Between(g1) && Between(g2) && Inside(x) && Inside(y)
    ensures var s := TwoDeletions(g0, x, g1, y, g2);
      var p1 := |g0| + |x| + 4 + |g1|;
      && |Spans(s)| == 2
      && SpanAt(s, 0) == Span(|g0|, |g0| + |x| + 4) && SpanAt(s, 1) == Span(p1, p1 + |y| + 4)
      && Forms(s) == [ToAnki(Braced(x), 0), ToAnki(Braced(y), 1)]
      && InPlace(s) == Partial(s, Forms(s), 2)
  {
    TwoDeletionsScan(g0, x, g1, y, g2);
    TwoDeletionsTexts(g0, x, g1, y, g2);
  }

  /** The text around the two deletions. */
  lemma TwoDeletionsGaps(g0: string, x: string, g1: string, y: string, g2: string)
    ensures var s := TwoDeletions(g0, x, g1, y, g2);
      var e0 := |g0| + |x| + 4;
      var p1 := e0 + |g1|;
      && s[..|g0|] == g0 && s[e0..p1] == g1 && s[p1 + |y| + 4..] == g2
  {
    var s := TwoDeletions(g0, x, g1, y, g2);
    assert s == g0 + Braced(x) + (g1 + Braced(y) + g2);
    ThreeParts(g0, Braced(x), g1 + Braced(y) + g2);
    assert s == (g0 + Braced(x)) + g1 + (Braced(y) + g2);
    ThreeParts(g0 + Braced(x), g1, Braced(y) + g2);
    ThreeParts(g0 + Braced(x) + g1, Braced(y), g2);
  }

  // ---------------------------------------------------------------------
  // deletions that name their cloze number
  // ---------------------------------------------------------------------

  /** `{{n|c}}` is the Anki cloze numbered `n` hiding `c`, wherever it stands. */
  lemma NumberedForm(n: string, c: string, i: nat)
    requires '|' !in n && '|' !in c
    ensures ToAnki(Braced(n + "|" + c), i) == AnkiCloze(n, c)
  {
    var inner := n + "|" + c;
    InnerBraced(inner);
    ReplacementParts(Braced(inner), i);
    assert IndexOf(inner, "|", 0) == Some(|n|) by {
      assert OccursAt(inner, "|", |n|) by {
        assert inner[|n|..|n| + 1] == "|";
      }
      forall j: nat | j < |n| ensures !OccursAt(inner, "|", j) {
        assert inner[j] == n[j];
      }
    }
    assert inner[|n| + 1..] == c;
    assert IndexOf(c, "|", 0) == None by {
      forall j: nat | j < |c| ensures !OccursAt(c, "|", j) {
        assert c[j..j + 1][0] == c[j];
      }
    }
    assert inner[..|n|] == n && c[..|c|] == c;
  }

  // ---------------------------------------------------------------------
  // the field loop on a Cloze front
  // ---------------------------------------------------------------------

  /** `Front: q` alone: the front is filled and the back stays empty. */
  lemma InlineFrontRun(q: string)
    requires Trimmed(q)
    ensures Run(Default, Initial, ["Front: " + q, ""]) == Fields(" " + q, "", Idle, [])
  {
    var front := Initial.(front := " " + q);
    var g := Initial.(front := " " + q, warnings := Initial.warnings + if Initial.front != "" then [Warn(FrontOverwritten)] else []);
    assert g == front;
    assert ["Front: " + q, ""] == ["Front: " + q] + [""];
    FrontLine(q, Initial, [""]);
    ContentLine("");
    RunCons(Default, front, "", []);
  }

  /** A line of prose: written, and starting with none of the letters that
      begin a field or meta line. */
  predicate Prose(l: string) {
    Written(l) && l[0] != 'C' && l[0] != 'D' && l[0] != 'F' && l[0] != 'B'
  }

  /** `Front:` then two lines of prose: each line and a line break join the
      front, the empty last line too. */
  lemma MultilineFrontRun(l1: string, l2: string)
    requires Prose(l1) && Prose(l2)
    ensures Run(Default, Initial, ["Front:", l1, l2, ""]) == Fields(l1 + "\n" + l2 + "\n" + "\n", "", InFront, [])
  {
    var f0 := Initial.(front := "", parsing := InFront);
    var f1 := f0.(front := "" + l1 + "\n");
    var f2 := f1.(front := f1.front + l2 + "\n");
    var f3 := f2.(front := f2.front + "" + "\n");
    BareFrontLine();
    ContentLine(l1);
    ContentLine(l2);
    ContentLine("");
    assert ["Front:", l1, l2, ""] == ["Front:"] + ([l1] + ([l2] + [""]));
    RunCons(Default, Initial, "Front:", [l1] + ([l2] + [""]));
    RunCons(Default, f0, l1, [l2] + [""]);
    RunCons(Default, f1, l2, [""]);
    RunCons(Default, f2, "", []);
    assert f3.front == l1 + "\n" + l2 + "\n" + "\n";
  }

  /** The trailing line breaks trim away. */
  lemma MultilineTrim(l1: string, l2: string)
    requires Written(l1) && Written(l2)
    ensures Trim(l1 + "\n" + l2 + "\n" + "\n") == l1 + "\n" + l2
  {
    var r := l1 + "\n" + l2;
    var s := r + "\n" + "\n";
    assert s[0..|r|] == r;
    assert r[0] == l1[0] && r[|r| - 1] == l2[|l2| - 1];
    TrimUnique(s, r, 0);
  }

  /** A Cloze chunk whose fields bring no warning and whose trimmed front
      has deletions: the rewritten front, no back, no diagnostics. */
  lemma ClozeComplete(lines: seq<string>, d: string, front: string, parsing: Parsing, text: string)
    requires Extract(Default, lines) == Fields(front, "", parsing, [])
    requires Trim(front) == text && Deletions(text) != []
    ensures ClozeParser.ParseClozeChunk(lines, Default, d) == Parsed(Note(Rewrite(text), None, NoteType.Cloze, d), [])
  {
    assert Trim("") == "";
    assert Deletions("") == [];
  }

  // ---------------------------------------------------------------------
  // Cloze test chunks
  // ---------------------------------------------------------------------

  lemma InlineFrontBody(q: string)
    requires Written(q)
    ensures Body(["Front: " + q])
  {
    var line := "Front: " + q;
    assert line[0] == 'F';
    FieldLine(line);
    assert OneLine(line);
  }

  lemma MultilineFrontBody(l1: string, l2: string)
    requires Prose(l1) && Prose(l2)
    ensures Body(["Front:", l1, l2])
  {
    BareFrontLine();
    FieldLine(l1);
    FieldLine(l2);
  }

  /** The field parser's part of a Cloze test chunk with an inline front. */
  lemma InlineClozeFields(d: string, typeFirst: bool, q: string)
    requires Written(d) && Written(q) && Deletions(q) != []
    ensures Body(["Front: " + q])
    ensures ClozeParser.ParseClozeChunk(Chunk("Cloze", d, typeFirst, ["Front: " + q]) + [""], Default, d)
      == Parsed(Note(Rewrite(q), None, NoteType.Cloze, d), [])
  {
    var body := ["Front: " + q];
    InlineFrontBody(q);
    InlineFrontRun(q);
    assert body + [""] == ["Front: " + q, ""];
    ClozeLines(d, typeFirst, body);
    PadTrim(q);
    ClozeComplete(Chunk("Cloze", d, typeFirst, body) + [""], d, " " + q, Idle, q);
  }

  /** A Cloze test chunk with an inline front that has deletions: the
      rewritten front under the named deck, no back, no diagnostics. */
  lemma InlineClozeChunk(d: string, typeFirst: bool, q: string)
    requires Written(d) && Written(q) && Deletions(q) != []
    ensures Parser.ParseChunk(Terminated(Chunk("Cloze", d, typeFirst, ["Front: " + q])), Default)
      == Parsed(Note(Rewrite(q), None, NoteType.Cloze, d), [])
  {
    InlineClozeFields(d, typeFirst, q);
    SampleClozeChunk(d, typeFirst, ["Front: " + q]);
  }

  /** The field parser's part of a Cloze test chunk with a front on lines
      of its own. */
  lemma MultilineClozeFields(d: string, typeFirst: bool, l1: string, l2: string)
    requires Written(d) && Prose(l1) && Prose(l2) && Deletions(l1 + "\n" + l2) != []
    ensures Body(["Front:", l1, l2])
    ensures ClozeParser.ParseClozeChunk(Chunk("Cloze", d, typeFirst, ["Front:", l1, l2]) + [""], Default, d)
      == Parsed(Note(Rewrite(l1 + "\n" + l2), None, NoteType.Cloze, d), [])
  {
    var body := ["Front:", l1, l2];
    MultilineFrontBody(l1, l2);
    MultilineFrontRun(l1, l2);
    assert body + [""] == ["Front:", l1, l2, ""];
    ClozeLines(d, typeFirst, body);
    MultilineTrim(l1, l2);
    ClozeComplete(Chunk("Cloze", d, typeFirst, body) + [""], d, l1 + "\n" + l2 + "\n" + "\n", InFront, l1 + "\n" + l2);
  }

  /** A Cloze test chunk whose front is two lines of prose after `Front:`:
      the two lines, rewritten, under the named deck, no back, no
      diagnostics. */
  lemma MultilineClozeChunk(d: string, typeFirst: bool, l1: string, l2: string)
    requires Written(d) && Prose(l1) && Prose(l2) && Deletions(l1 + "\n" + l2) != []
    ensures Parser.ParseChunk(Terminated(Chunk("Cloze", d, typeFirst, ["Front:", l1, l2])), Default)
      == Parsed(Note(Rewrite(l1 + "\n" + l2), None, NoteType.Cloze, d), [])
  {
    MultilineClozeFields(d, typeFirst, l1, l2);
    SampleClozeChunk(d, typeFirst, ["Front:", l1, l2]);
  }

  // ---------------------------------------------------------------------
  // the tests' fronts with numbered deletions
  // ---------------------------------------------------------------------

  /** A deletion `{{n|c}}` with nothing in it for the scan or the
      sequential rewrite to trip on. */
  predicate Numbered(n: string, c: string) {
    PlainInside(n + "|" + c) && '|' !in n && '|' !in c
  }

  /** Two numbered deletions keep the numbers they name, whatever their
      position: each is replaced by `{{cN::content}}` where it stands. */
  lemma NumberedRewrite(g0: string, n: string, a: string, g1: string, m: string, b: string, g2: string)
    requires Between(g0) && Between(g1) && Between(g2) && Numbered(n, a) && Numbered(m, b)
    ensures Deletions(TwoDeletions(g0, n + "|" + a, g1, m + "|" + b, g2)) != []
    ensures Rewrite(TwoDeletions(g0, n + "|" + a, g1, m + "|" + b, g2))
      == g0 + Render(AnkiCloze(n, a)) + g1 + Render(AnkiCloze(m, b)) + g2
  {
    TwoDeletionsRewrite(g0, n + "|" + a, g1, m + "|" + b, g2);
    NumberedForm(n, a, 0);
    NumberedForm(m, b, 1);
  }

  /** Text around the deletions that starts and ends on a printing
      character and stays on one line. */
  predicate Edges(g: string, h: string) {
    g != "" && h != "" && !IsTrimmable(g[0]) && !IsTrimmable(h[|h| - 1]) && OneLine(g) && OneLine(h)
  }

  /** A deletion stays on its line. */
  lemma BracedOneLine(x: string)
    requires Inside(x)
    ensures OneLine(Braced(x))
  {
    forall k | 0 <= k < |Braced(x)| ensures Braced(x)[k] != '\n' {
      if 2 <= k < |x| + 2 {
        assert Braced(x)[k] == x[k - 2];
      }
    }
  }

  /** A line with one deletion between such edges is written as the tests
      write it and starts where its lead starts. */
  lemma DeletionLine(g: string, x: string, h: string)
    requires Edges(g, h) && Inside(x)
    ensures Written(g + Braced(x) + h) && (g + Braced(x) + h)[0] == g[0]
  {
    var s := g + Braced(x) + h;
    assert s[|s| - 1] == h[|h| - 1];
    BracedOneLine(x);
  }

  /** A line with two deletions between such edges is written as the tests
      write it. */
  lemma TwoDeletionsWritten(g0: string, x: string, g1: string, y: string, g2: string)
    requires Edges(g0, g2) && OneLine(g1) && Inside(x) && Inside(y)
    ensures Written(TwoDeletions(g0, x, g1, y, g2))
  {
    var s := TwoDeletions(g0, x, g1, y, g2);
    assert s[0] == g0[0] && s[|s| - 1] == g2[|g2| - 1];
    BracedOneLine(x);
    BracedOneLine(y);
  }

  /** The text around two deletions on one written line. */
  predicate Around(g0: string, g1: string, g2: string) {
    Edges(g0, g2) && OneLine(g1) && Between(g0) && Between(g1) && Between(g2)
  }

  /** A Cloze test chunk whose inline front has two numbered deletions:
      each deletion becomes the Anki cloze of the number it names. */
  lemma NumberedInlineChunk(d: string, typeFirst: bool, g0: string, n: string, a: string, g1: string, m: string, b: string, g2: string)
    requires Written(d) && Around(g0, g1, g2) && Numbered(n, a) && Numbered(m, b)
    ensures Parser.ParseChunk(Terminated(Chunk("Cloze", d, typeFirst, ["Front: " + TwoDeletions(g0, n + "|" + a, g1, m + "|" + b, g2)])), Default)
      == Parsed(Note(g0 + Render(AnkiCloze(n, a)) + g1 + Render(AnkiCloze(m, b)) + g2, None, NoteType.Cloze, d), [])
  {
    TwoDeletionsWritten(g0, n + "|" + a, g1, m + "|" + b, g2);
    NumberedRewrite(g0, n, a, g1, m, b, g2);
    InlineClozeChunk(d, typeFirst, TwoDeletions(g0, n + "|" + a, g1, m + "|" + b, g2));
  }

  const FranceIs := "The capital of France is "
  const ThenGermanyIs := ". The capital of Germany is "
  const FullStop := "."
  const One := "1"
  const Berlin := "Berlin"

  /** Two deletions that both name cloze 1, on the `Front:` line:
      `{{1|Paris}}` and `{{1|Berlin}}` become `{{c1::Paris}}` and
      `{{c1::Berlin}}`, with no diagnostics. */
  lemma IdsProvided()
    ensures Parser.ParseChunk(Terminated(Chunk("Cloze", Knowledge, true, ["Front: " + TwoDeletions(FranceIs, One + "|" + Paris, ThenGermanyIs, One + "|" + Berlin, FullStop)])), Default)
      == Parsed(Note(FranceIs + "{{c1::Paris}}" + ThenGermanyIs + "{{c1::Berlin}}" + FullStop, None, NoteType.Cloze, Knowledge), [])
  {
    IdsProvidedText();
    NumberedInlineChunk(Knowledge, true, FranceIs, One, Paris, ThenGermanyIs, One, Berlin, FullStop);
    FirstClozes();
  }

  /** The deck and the text of the front are as the chunk needs them. */
  lemma IdsProvidedText()
    ensures Written(Knowledge) && Around(FranceIs, ThenGermanyIs, FullStop)
    ensures Numbered(One, Paris) && Numbered(One, Berlin)
  {
    KnowledgeWritten();
    assert Edges(FranceIs, FullStop);
    NumberedOne();
  }

  /** The two deletions of cloze 1 hold nothing the rewrite trips on. */
  lemma NumberedOne()
    ensures Numbered(One, Paris) && Numbered(One, Berlin)
  {
  }

  /** How the two numbered deletions of cloze 1 render. */
  lemma FirstClozes()
    ensures Render(AnkiCloze(One, Paris)) == "{{c1::Paris}}"
    ensures Render(AnkiCloze(One, Berlin)) == "{{c1::Berlin}}"
  {
  }

  /** A line of prose around one deletion. */
  predicate ProseAround(g: string, h: string) {
    Edges(g, h) && Between(g) && Between(h) && g[0] != 'C' && g[0] != 'D' && g[0] != 'F' && g[0] != 'B'
  }

  /** The two lines of a front, each holding one deletion, joined as the
      front joins them. */
  lemma JoinedLines(g0: string, x: string, h0: string, g1: string, y: string, h1: string)
    requires ProseAround(g0, h0) && ProseAround(g1, h1) && Inside(x) && Inside(y)
    ensures Prose(g0 + Braced(x) + h0) && Prose(g1 + Braced(y) + h1)
    ensures Between(h0 + "\n" + g1)
    ensures (g0 + Braced(x) + h0) + "\n" + (g1 + Braced(y) + h1) == TwoDeletions(g0, x, h0 + "\n" + g1, y, h1)
  {
    DeletionLine(g0, x, h0);
    DeletionLine(g1, y, h1);
  }

  /** A Cloze test chunk whose front is two lines after `Front:`, each with
      a numbered deletion: the lines joined by a line break, each deletion
      the Anki cloze of the number it names. */
  lemma NumberedMultilineChunk(d: string, typeFirst: bool, g0: string, n: string, a: string, h0: string, g1: string, m: string, b: string, h1: string)
    requires Written(d) && ProseAround(g0, h0) && ProseAround(g1, h1) && Numbered(n, a) && Numbered(m, b)
    ensures Parser.ParseChunk(Terminated(Chunk("Cloze", d, typeFirst, ["Front:", g0 + Braced(n + "|" + a) + h0, g1 + Braced(m + "|" + b) + h1])), Default)
      == Parsed(Note(g0 + Render(AnkiCloze(n, a)) + h0 + "\n" + g1 + Render(AnkiCloze(m, b)) + h1, None, NoteType.Cloze, d), [])
  {
    var l1 := g0 + Braced(n + "|" + a) + h0;
    var l2 := g1 + Braced(m + "|" + b) + h1;
    JoinedLines(g0, n + "|" + a, h0, g1, m + "|" + b, h1);
    NumberedRewrite(g0, n, a, h0 + "\n" + g1, m, b, h1);
    MultilineClozeChunk(d, typeFirst, l1, l2);
    Regroup(g0, Render(AnkiCloze(n, a)), h0, g1, Render(AnkiCloze(m, b)), h1);
  }

  /** The middle gap of the joined lines, spelt out. */
  lemma Regroup(g0: string, r0: string, h0: string, g1: string, r1: string, h1: string)
    ensures g0 + r0 + (h0 + "\n" + g1) + r1 + h1 == g0 + r0 + h0 + "\n" + g1 + r1 + h1
  {
  }

  const GermanyIs := "The capital of Germany is "
  const Hint := "(Hint: "
  const AmazingFood := " has amazing food.)"
  const Two := "2"

  /** The same cloze 2 named twice, on two lines after `Front:`: both
      become `{{c2::Berlin}}` and the lines stay apart. */
  lemma IdsProvidedMultiline()
    ensures Parser.ParseChunk(Terminated(Chunk("Cloze", Knowledge, true, ["Front:", GermanyIs + Braced(Two + "|" + Berlin) + FullStop, Hint + Braced(Two + "|" + Berlin) + AmazingFood])), Default)
      == Parsed(Note(GermanyIs + "{{c2::Berlin}}" + FullStop + "\n" + Hint + "{{c2::Berlin}}" + AmazingFood, None, NoteType.Cloze, Knowledge), [])
  {
    IdsProvidedMultilineText();
    NumberedMultilineChunk(Knowledge, true, GermanyIs, Two, Berlin, FullStop, Hint, Two, Berlin, AmazingFood);
    SecondCloze();
  }

  /** The deck and the two lines are as the chunk needs them. */
  lemma IdsProvidedMultilineText()
    ensures Written(Knowledge) && ProseAround(GermanyIs, FullStop) && ProseAround(Hint, AmazingFood)
    ensures Numbered(Two, Berlin)
  {
    KnowledgeWritten();
    assert ProseAround(GermanyIs, FullStop);
    assert ProseAround(Hint, AmazingFood);
  }

  /** How the numbered deletion of cloze 2 renders. */
  lemma SecondCloze()
    ensures Render(AnkiCloze(Two, Berlin)) == "{{c2::Berlin}}"
  {
  }

  // ---------------------------------------------------------------------
  // the Cloze tests as documents
  // ---------------------------------------------------------------------

  /** Field lines starting with a letter other than the markers' first
      characters are no markers. */
  lemma LeadsFree(body: seq<string>)
    requires forall k | 0 <= k < |body| :: body[k] != "" && body[k][0] != '#' && body[k][0] != 'A'
    ensures Chunks.NoMarkers(Default, body)
  {
    assert Default.noteBeginning[0] == '#' && Default.noteEnding[0] == 'A';
  }

  /** A Cloze test chunk of the tests' deck among lines with no marker:
      the document yields the chunk's note when the chunk parses without
      diagnostics. */
  lemma ClozeDocument(text: string, pre: seq<string>, body: seq<string>, post: seq<string>, note: Note)
    requires Split(text, '\n') == pre + Chunk("Cloze", Knowledge, true, body) + [Default.noteEnding] + post
    requires Chunks.NoMarkers(Default, pre) && Chunks.NoMarkers(Default, post) && Chunks.NoMarkers(Default, body)
    requires Parser.ParseChunk(Terminated(Chunk("Cloze", Knowledge, true, body)), Default) == Parsed(note, [])
    ensures Parser.ExtractNotes(text, Default) == Parser.Extracted([note], [])
  {
    KnowledgeWritten();
    assert Written("Cloze");
    MarkerFree("Cloze", Knowledge, true, body);
    Parser.OneChunkDocument(text, Default, pre, Chunk("Cloze", Knowledge, true, body), Default.noteEnding, post);
  }

  /** Cloze 1 named twice on the `Front:` line, as a document. */
  lemma IdsProvidedDocument(text: string, pre: seq<string>, post: seq<string>)
    requires Split(text, '\n') == pre + Chunk("Cloze", Knowledge, true, ["Front: " + TwoDeletions(FranceIs, One + "|" + Paris, ThenGermanyIs, One + "|" + Berlin, FullStop)]) + [Default.noteEnding] + post
    requires Chunks.NoMarkers(Default, pre) && Chunks.NoMarkers(Default, post)
    ensures Parser.ExtractNotes(text, Default)
      == Parser.Extracted([Note(FranceIs + "{{c1::Paris}}" + ThenGermanyIs + "{{c1::Berlin}}" + FullStop, None, NoteType.Cloze, Knowledge)], [])
  {
    IdsProvided();
    IdsProvidedLeads();
    ClozeDocument(text, pre, ["Front: " + TwoDeletions(FranceIs, One + "|" + Paris, ThenGermanyIs, One + "|" + Berlin, FullStop)], post,
      Note(FranceIs + "{{c1::Paris}}" + ThenGermanyIs + "{{c1::Berlin}}" + FullStop, None, NoteType.Cloze, Knowledge));
  }

  /** The front line starts with `F`, so it is no marker. */
  lemma IdsProvidedLeads()
    ensures Chunks.NoMarkers(Default, ["Front: " + TwoDeletions(FranceIs, One + "|" + Paris, ThenGermanyIs, One + "|" + Berlin, FullStop)])
  {
    var line := "Front: " + TwoDeletions(FranceIs, One + "|" + Paris, ThenGermanyIs, One + "|" + Berlin, FullStop);
    assert line[0] == 'F';
    LeadsFree([line]);
  }

  /** Cloze 2 named on two lines after `Front:`, as a document. */
  lemma IdsProvidedMultilineDocument(text: string, pre: seq<string>, post: seq<string>)
    requires Split(text, '\n') == pre + Chunk("Cloze", Knowledge, true, ["Front:", GermanyIs + Braced(Two + "|" + Berlin) + FullStop, Hint + Braced(Two + "|" + Berlin) + AmazingFood]) + [Default.noteEnding] + post
    requires Chunks.NoMarkers(Default, pre) && Chunks.NoMarkers(Default, post)
    ensures Parser.ExtractNotes(text, Default)
      == Parser.Extracted([Note(GermanyIs + "{{c2::Berlin}}" + FullStop + "\n" + Hint + "{{c2::Berlin}}" + AmazingFood, None, NoteType.Cloze, Knowledge)], [])
  {
    IdsProvidedMultiline();
    IdsProvidedMultilineLeads();
    ClozeDocument(text, pre, ["Front:", GermanyIs + Braced(Two + "|" + Berlin) + FullStop, Hint + Braced(Two + "|" + Berlin) + AmazingFood], post,
      Note(GermanyIs + "{{c2::Berlin}}" + FullStop + "\n" + Hint + "{{c2::Berlin}}" + AmazingFood, None, NoteType.Cloze, Knowledge));
  }

  /** The opener and the two lines of prose are no markers. */
  lemma IdsProvidedMultilineLeads()
    ensures Chunks.NoMarkers(Default, ["Front:", GermanyIs + Braced(Two + "|" + Berlin) + FullStop, Hint + Braced(Two + "|" + Berlin) + AmazingFood])
  {
    var l1 := GermanyIs + Braced(Two + "|" + Berlin) + FullStop;
    var l2 := Hint + Braced(Two + "|" + Berlin) + AmazingFood;
    assert l1[0] == 'T' && l2[0] == '(';
    LeadsFree(["Front:", l1, l2]);
  }
}
