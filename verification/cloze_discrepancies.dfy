/** Two fronts on which the cloze rewrite as written (`Rewrite`) and the
    evidently intended one (`InPlace`) part ways: a deletion holding `$$`,
    and a plain deletion followed by one whose text is the first one's Anki
    form. */
module ClozeDiscrepancies {
  import opened Strings
  import opened ClozeMatch
  import opened ClozeRewrite

  // ---------------------------------------------------------------------
  // `$` patterns in the replacement string
  // ---------------------------------------------------------------------

  /** A deletion holding display math. */
  const DisplayMath := "{{$$x$$}}"

  lemma DisplayMathReplacement()
    ensures Replacement(DisplayMath, 0) == "{{c1::$$x$$}}"
  {
    var s := DisplayMath;
    assert s[2..7] == "$$x$$";
    assert '|' !in s;
    assert NatToString(1) == "1";
  }

  /** A template prefix without `$` is copied unchanged. */
  lemma {:induction false} SubstituteAfterPlain(a: string, b: string, m: string, before: string, after: string)
    requires '$' !in a
    ensures Substitute(a + b, m, before, after) == a + Substitute(b, m, before, after)
  {
    if |a| > 0 {
      assert (a + b)[0] == a[0] && a[0] != '$';
      assert (a + b)[1..] == a[1..] + b;
      assert a == [a[0]] + a[1..];
      assert Substitute(a + b, m, before, after) == [a[0]] + Substitute((a + b)[1..], m, before, after);
      SubstituteAfterPlain(a[1..], b, m, before, after);
      assert [a[0]] + (a[1..] + Substitute(b, m, before, after)) == a + Substitute(b, m, before, after);
    } else {
      assert a + b == b;
    }
  }

  /** `$$` in a template stands for one `$`. */
  lemma SubstituteDollarDollar(b: string, m: string, before: string, after: string)
    ensures Substitute("$$" + b, m, before, after) == "$" + Substitute(b, m, before, after)
  {
    assert ("$$" + b)[2..] == b;
  }

  lemma DisplayMathSubstitute()
    ensures Substitute("{{c1::$$x$$}}", DisplayMath, "", "") == "{{c1::$x$}}"
  {
    var m := DisplayMath;
    var t2 := "x" + ("$$" + "}}");
    assert Substitute("$$" + t2, m, "", "") == "$" + ("x" + ("$" + "}}")) by {
      DisplayMathTail();
      SubstituteDollarDollar(t2, m, "", "");
    }
    SubstituteAfterPlain("{{c1::", "$$" + t2, m, "", "");
    DisplayMathConcatHint();
  }

  lemma DisplayMathTail()
    ensures Substitute("x" + ("$$" + "}}"), DisplayMath, "", "") == "x" + ("$" + "}}")
  {
    var m := DisplayMath;
    SubstituteDollarDollar("}}", m, "", "");
    assert Substitute("}}", m, "", "") == "}}";
    SubstituteAfterPlain("x", "$$" + "}}", m, "", "");
  }

  /** Solver hint: the literals above, reassociated. */
  lemma DisplayMathConcatHint()
    ensures "{{c1::" + ("$$" + ("x" + ("$$" + "}}"))) == "{{c1::$$x$$}}"
    ensures "{{c1::" + ("$" + ("x" + ("$" + "}}"))) == "{{c1::$x$}}"
  {
  }

  /** The whole front is its one deletion. */
  lemma DisplayMathScan()
    ensures Spans(DisplayMath) == [Span(0, 9)]
    ensures Deletions(DisplayMath) == [DisplayMath]
  {
    var s := DisplayMath;
    var spans := [Span(0, 9)];
    assert Ordered(s, spans, 0) by {
      DisplayMathMatch();
    }
    assert Covering(s, spans, 0) by {
      forall q: nat | MatchAt(s, q).Some?
        ensures exists i | 0 <= i < |spans| :: spans[i].start <= q < spans[i].end
      {
        DisplayMathOpenings(q);
        assert spans[0].start <= q < spans[0].end;
      }
    }
    ScanUnique(s, spans, 0);
    DeletionText(s, 0);
    assert s[0..9] == s;
  }

  lemma DisplayMathMatch()
    ensures MatchAt(DisplayMath, 0) == Some(9)
  {
    var s := DisplayMath;
    assert Close(s, 7) == Some(7);
    assert Close(s, 6) == Some(7);
    assert Close(s, 5) == Some(7);
    assert Close(s, 4) == Some(7);
    assert Close(s, 3) == Some(7);
    assert Close(s, 2) == Some(7);
  }

  /** Only position 0 opens with `{{`. */
  lemma DisplayMathOpenings(q: nat)
    requires MatchAt(DisplayMath, q).Some?
    ensures q == 0
  {
    var s := DisplayMath;
    assert q + 2 <= |s| && s[q] == '{' && s[q + 1] == '{';
  }

  /** As written, `$$` inside a deletion comes out as a single `$`. */
  lemma DollarPatternsExpand()
    ensures Rewrite(DisplayMath) == "{{c1::$x$}}"
  {
    var s := DisplayMath;
    DisplayMathScan();
    DisplayMathReplacement();
    DisplayMathSubstitute();
    RewriteSingle(s);
    ReplaceWhole(s, "{{c1::$$x$$}}");
  }

  /** With one deletion the rewrite is one `replace` call. */
  lemma RewriteSingle(s: string)
    requires |Deletions(s)| == 1
    ensures Rewrite(s) == ReplaceFirst(s, Deletions(s)[0], Replacement(Deletions(s)[0], 0))
  {
    RewriteOneAt(s, Deletions(s)[0], 0);
    assert Deletions(s) == [Deletions(s)[0]];
  }

  /** Replacing the whole text: nothing before, nothing after. */
  lemma ReplaceWhole(s: string, r: string)
    ensures ReplaceFirst(s, s, r) == Substitute(r, s, "", "")
  {
    assert LeftmostAt(s, s, 0);
    assert s[..0] == "" && s[|s|..] == "";
  }

  /** The intended rewrite keeps the deletion's text literally. */
  lemma DollarPatternsKept()
    ensures InPlace(DisplayMath) == "{{c1::$$x$$}}"
  {
    var s := DisplayMath;
    var forms := Forms(s);
    DisplayMathScan();
    assert Render(forms[0]) == "{{c1::$$x$$}}" by {
      DisplayMathReplacement();
      assert forms[0] == ToAnki(s, 0);
    }
    assert Piece(s, forms, 0) == Render(forms[0]) by {
      assert EndBefore(s, 0) == 0 && SpanAt(s, 0).start == 0;
      assert s[0..0] == "";
    }
    assert Assemble(s, forms, 1) == Piece(s, forms, 0) by {
      AssembleNext(s, forms, 0);
      assert "" + Piece(s, forms, 0) == Piece(s, forms, 0);
    }
    assert s[EndBefore(s, 1)..] == "" by {
      assert EndBefore(s, 1) == 9;
    }
    assert Assemble(s, forms, 1) + "" == Assemble(s, forms, 1);
  }

  // ---------------------------------------------------------------------
  // the first occurrence is not always the deletion's own place
  // ---------------------------------------------------------------------

  /** A plain deletion followed by one already in Anki's form. */
  const Mixed := "{{x}} {{c1::x}}"

  lemma MixedFirstMatch()
    ensures MatchAt(Mixed, 0) == Some(5)
  {
    var s := Mixed;
    assert Close(s, 3) == Some(3);
    assert Close(s, 2) == Some(3);
  }

  lemma MixedSecondMatch()
    ensures MatchAt(Mixed, 6) == Some(15)
  {
    var s := Mixed;
    assert Close(s, 13) == Some(13);
    assert Close(s, 12) == Some(13);
    assert Close(s, 11) == Some(13);
    assert Close(s, 10) == Some(13);
    assert Close(s, 9) == Some(13);
    assert Close(s, 8) == Some(13);
  }

  /** Only positions 0 and 6 open with `{{`. */
  lemma MixedOpenings(q: nat)
    requires MatchAt(Mixed, q).Some?
    ensures q == 0 || q == 6
  {
    var s := Mixed;
    assert q + 2 <= |s| && s[q] == '{' && s[q + 1] == '{';
  }

  /** The scan finds `{{x}}` at 0 and `{{c1::x}}` at 6. */
  lemma MixedScan()
    ensures Spans(Mixed) == [Span(0, 5), Span(6, 15)]
    ensures Deletions(Mixed) == ["{{x}}", "{{c1::x}}"]
  {
    var s := Mixed;
    var spans := [Span(0, 5), Span(6, 15)];
    assert Spans(s) == spans by {
      MixedOrdered();
      MixedCovering();
      ScanUnique(s, spans, 0);
    }
    MixedSlices();
    assert Deletions(s)[0] == "{{x}}" by {
      DeletionText(s, 0);
    }
    assert Deletions(s)[1] == "{{c1::x}}" by {
      DeletionText(s, 1);
    }
  }

  lemma MixedSlices()
    ensures Mixed[0..5] == "{{x}}" && Mixed[6..15] == "{{c1::x}}"
  {
  }

  lemma MixedOrdered()
    ensures Ordered(Mixed, [Span(0, 5), Span(6, 15)], 0)
  {
    MixedFirstMatch();
    MixedSecondMatch();
  }

  lemma MixedCovering()
    ensures Covering(Mixed, [Span(0, 5), Span(6, 15)], 0)
  {
    var spans := [Span(0, 5), Span(6, 15)];
    forall q: nat | MatchAt(Mixed, q).Some?
      ensures exists i | 0 <= i < |spans| :: spans[i].start <= q < spans[i].end
    {
      MixedOpenings(q);
      if q == 0 { assert spans[0].start <= q < spans[0].end; }
      else { assert spans[1].start <= q < spans[1].end; }
    }
  }

  /** The first deletion is numbered 1; the second, which has no `|`, is
      numbered 2 and keeps `c1::x` as its content. */
  lemma MixedReplacements()
    ensures Replacement("{{x}}", 0) == "{{c1::x}}"
    ensures Replacement("{{c1::x}}", 1) == "{{c2::c1::x}}"
  {
    PlainReplacement();
    NestedReplacement();
  }

  lemma PlainReplacement()
    ensures Replacement("{{x}}", 0) == "{{c1::x}}"
  {
    assert '|' !in "{{x}}";
    assert Inner("{{x}}") == "x";
    assert NatToString(1) == "1";
  }

  lemma NestedReplacement()
    ensures Replacement("{{c1::x}}", 1) == "{{c2::c1::x}}"
  {
    assert '|' !in "{{c1::x}}";
    assert Inner("{{c1::x}}") == "c1::x";
    assert NatToString(2) == "2";
  }

  /** With two deletions the rewrite is two `replace` calls. */
  lemma RewriteTwo(t: string, d0: string, d1: string)
    ensures RewriteFrom(t, [d0, d1], 0)
      == ReplaceFirst(ReplaceFirst(t, d0, Replacement(d0, 0)), d1, Replacement(d1, 1))
  {
    assert [d0, d1][1..] == [d1];
    RewriteOneAt(ReplaceFirst(t, d0, Replacement(d0, 0)), d1, 1);
  }

  /** The rewrite of a last deletion. */
  lemma RewriteOneAt(t: string, d: string, i: nat)
    ensures RewriteFrom(t, [d], i) == ReplaceFirst(t, d, Replacement(d, i))
  {
    assert [d][1..] == [];
  }

  /** As written, the second replacement lands on the output of the first:
      the Anki cloze written for `{{x}}` is the leftmost occurrence of the
      second deletion's text. */
  lemma WrongOccurrenceReplaced()
    ensures Rewrite(Mixed) == "{{c2::c1::x}} {{c1::x}}"
  {
    var s := Mixed;
    var t := "{{c1::x}} {{c1::x}}";
    assert Rewrite(s) == RewriteFrom(s, ["{{x}}", "{{c1::x}}"], 0) by {
      MixedScan();
    }
    assert RewriteFrom(s, ["{{x}}", "{{c1::x}}"], 0)
        == ReplaceFirst(ReplaceFirst(s, "{{x}}", "{{c1::x}}"), "{{c1::x}}", "{{c2::c1::x}}") by {
      MixedReplacements();
      RewriteTwo(s, "{{x}}", "{{c1::x}}");
    }
    assert ReplaceFirst(s, "{{x}}", "{{c1::x}}") == t by {
      MixedFirstReplace();
    }
    assert ReplaceFirst(t, "{{c1::x}}", "{{c2::c1::x}}") == "{{c2::c1::x}} {{c1::x}}" by {
      MixedSecondReplace();
    }
  }

  lemma MixedFirstReplace()
    ensures ReplaceFirst("{{x}} {{c1::x}}", "{{x}}", "{{c1::x}}") == "{{c1::x}} {{c1::x}}"
  {
    MixedConcatHint();
    ReplacePrefix("{{x}}", " {{c1::x}}", "{{c1::x}}");
  }

  lemma MixedSecondReplace()
    ensures ReplaceFirst("{{c1::x}} {{c1::x}}", "{{c1::x}}", "{{c2::c1::x}}") == "{{c2::c1::x}} {{c1::x}}"
  {
    MixedConcatHint();
    ReplacePrefix("{{c1::x}}", " {{c1::x}}", "{{c2::c1::x}}");
  }

  /** Solver hint: the literals of this example, cut where the replaces work. */
  lemma MixedConcatHint()
    ensures "{{x}} {{c1::x}}" == "{{x}}" + " {{c1::x}}"
    ensures "{{c1::x}} {{c1::x}}" == "{{c1::x}}" + " {{c1::x}}"
    ensures "{{c2::c1::x}} {{c1::x}}" == "{{c2::c1::x}}" + " {{c1::x}}"
    ensures '$' !in "{{c1::x}}" && '$' !in "{{c2::c1::x}}"
  {
  }

  /** Replacing a prefix that contains no `$` pattern. */
  lemma ReplacePrefix(a: string, rest: string, r: string)
    requires '$' !in r
    ensures ReplaceFirst(a + rest, a, r) == r + rest
  {
    var s := a + rest;
    assert s[0..|a|] == a;
    assert LeftmostAt(s, a, 0);
    assert s[..0] == "" && s[|a|..] == rest;
  }

  /** With two deletions the intended rewrite is the text around them
      with each replaced by its form. */
  lemma PartialTwo(s: string, forms: seq<AnkiCloze>)
    requires |forms| == |Spans(s)| == 2
    ensures Partial(s, forms, 2)
      == s[..SpanAt(s, 0).start] + Render(forms[0]) + s[SpanAt(s, 0).end..SpanAt(s, 1).start]
         + Render(forms[1]) + s[SpanAt(s, 1).end..]
  {
    var a := SpanAt(s, 0);
    PartialNext(s, forms, 1);
    assert Assemble(s, forms, 1) == s[..a.start] + Render(forms[0]) by {
      AssembleNext(s, forms, 0);
      assert Piece(s, forms, 0) == s[..a.start] + Render(forms[0]);
      assert "" + Piece(s, forms, 0) == Piece(s, forms, 0);
    }
    assert EndBefore(s, 1) == a.end;
  }

  lemma MixedForms()
    ensures |Forms(Mixed)| == 2
    ensures Render(Forms(Mixed)[0]) == "{{c1::x}}"
    ensures Render(Forms(Mixed)[1]) == "{{c2::c1::x}}"
  {
    MixedScan();
    MixedReplacements();
  }

  /** Solver hint: the text around the two spans of `Mixed`. */
  lemma MixedSliceHint()
    ensures Mixed[..0] == "" && Mixed[5..6] == " " && Mixed[15..] == ""
  {
  }

  lemma MixedInPlaceParts()
    ensures InPlace(Mixed) == "" + "{{c1::x}}" + " " + "{{c2::c1::x}}" + ""
  {
    var s := Mixed;
    var forms := Forms(s);
    MixedScan();
    MixedForms();
    var a := SpanAt(s, 0);
    var b := SpanAt(s, 1);
    assert a == Span(0, 5) && b == Span(6, 15);
    PartialTwo(s, forms);
    var g0, g1, g2 := s[..a.start], s[a.end..b.start], s[b.end..];
    assert InPlace(s) == g0 + Render(forms[0]) + g1 + Render(forms[1]) + g2;
    MixedSliceHint();
  }

  /** The intended rewrite numbers the deletions where they stand. */
  lemma EachDeletionInPlace()
    ensures InPlace(Mixed) == "{{c1::x}} {{c2::c1::x}}"
  {
    MixedInPlaceParts();
    InPlaceConcatHint();
  }

  /** Solver hint: the pieces of the in-place rewrite, glued. */
  lemma InPlaceConcatHint()
    ensures "" + "{{c1::x}}" + " " + "{{c2::c1::x}}" + "" == "{{c1::x}} {{c2::c1::x}}"
  {
  }
}
