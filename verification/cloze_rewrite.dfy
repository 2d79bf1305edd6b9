/** Rewriting a Cloze front into Anki's form. The source replaces each
    matched deletion, in order, at the first place its text occurs in the
    partly rewritten front, with a replacement string in which `$` patterns
    are live. `InPlace` is the evidently intended rewrite, every deletion
    replaced literally where the scan found it; the two agree on every front
    whose deletions hold no `{`, `:` or `$`. */
module ClozeRewrite {
  import opened Strings
  import opened ClozeMatch

  /** `deletion.slice(2, -2)`: the text between the braces; empty for a
      text shorter than the four braces. */
  function Inner(deletion: string): (r: string)
    ensures |deletion| >= 4 ==> deletion == deletion[..2] + r + deletion[|deletion| - 2..]
    ensures |deletion| < 4 ==> r == ""
  {
    if |deletion| >= 4 then deletion[2..|deletion| - 2] else ""
  }

  /** The deletion names its own cloze number, as in `{{1|Paris}}`: it
      contains a `|` and its inner text splits into more than one part. */
  predicate HasId(deletion: string) {
    '|' in deletion && |Split(Inner(deletion), '|')| > 1
  }

  /** The cloze number written into the Anki form: the given id, or the
      deletion's position among all matches plus one. */
  function ClozeNumber(deletion: string, index: nat): string {
    if HasId(deletion) then Split(Inner(deletion), '|')[0] else NatToString(index + 1)
  }

  /** The text the Anki cloze hides. */
  function ClozeContent(deletion: string): string {
    if HasId(deletion) then Split(Inner(deletion), '|')[1] else Inner(deletion)
  }

  /** An Anki cloze, `{{c<number>::<content>}}`. */
  datatype AnkiCloze = AnkiCloze(number: string, content: string)

  function Render(a: AnkiCloze): string {
    "{{c" + a.number + "::" + a.content + "}}"
  }

  /** The Anki cloze for the deletion at position `index` (counted from 0). */
  function ToAnki(deletion: string, index: nat): AnkiCloze {
    AnkiCloze(ClozeNumber(deletion, index), ClozeContent(deletion))
  }

  /** The replacement string the source builds for the deletion. */
  function Replacement(deletion: string, index: nat): string {
    Render(ToAnki(deletion, index))
  }

  /** The number and content read without `split`: the id is the inner text
      before its first `|` and the content runs from there to the next `|`
      or the end; with no `|` in the inner text the number is `index + 1`
      and the content is the whole inner text. */
  lemma ReplacementParts(deletion: string, index: nat)
    ensures var inner := Inner(deletion);
      match IndexOf(inner, "|", 0)
      case None =>
        ClozeNumber(deletion, index) == NatToString(index + 1) && ClozeContent(deletion) == inner
      case Some(a) =>
        var rest := inner[a + 1..];
        var b := if IndexOf(rest, "|", 0).Some? then IndexOf(rest, "|", 0).value else |rest|;
        ClozeNumber(deletion, index) == inner[..a] && ClozeContent(deletion) == rest[..b]
  {
    var inner := Inner(deletion);
    SplitFirstParts(inner, '|');
    match IndexOf(inner, "|", 0)
    case None =>
    case Some(a) =>
      assert inner[a] == '|';
      assert deletion[a + 2] == '|';
  }

  /** The source's `forEach` over the deletions: each one in turn has its
      first occurrence in the current text replaced by its Anki form,
      numbered from `index`. A non-empty text stays non-empty. */
  function RewriteFrom(text: string, deletions: seq<string>, index: nat): (r: string)
    ensures text != "" ==> r != ""
    decreases |deletions|
  {
    if |deletions| == 0 then text
    else
      var d := deletions[0];
      var next := ReplaceFirst(text, d, Replacement(d, index));
      assert text != "" ==> next != "" by {
        var template := Replacement(d, index);
        if IndexOf(text, d, 0).Some? {
          var i := IndexOf(text, d, 0).value;
          assert Substitute(template, d, text[..i], text[i + |d|..])
            == [template[0]] + Substitute(template[1..], d, text[..i], text[i + |d|..]);
        }
      }
      RewriteFrom(next, deletions[1..], index + 1)
  }

  /** The front after the rewrite. */
  function Rewrite(text: string): string {
    RewriteFrom(text, Deletions(text), 0)
  }

  /** The written rewrite empties no front and fills no empty one. */
  lemma RewriteEmpty(s: string)
    ensures Rewrite(s) == "" <==> s == ""
  {
    if s == "" {
      assert Deletions(s) == [];
    }
  }

  // ---------------------------------------------------------------------
  // the intended rewrite
  // ---------------------------------------------------------------------

  /** Span `k` of the scan, with the bounds the scan guarantees. */
  function SpanAt(s: string, k: nat): (sp: Span)
    requires k < |Spans(s)|
    ensures sp == Spans(s)[k]
    ensures sp.start + 4 <= sp.end <= |s|
    ensures k > 0 ==> Spans(s)[k - 1].end <= sp.start
  {
    ScanOrdered(s, 0);
    Spans(s)[k]
  }

  /** Where the text after the first `k` spans begins. */
  function EndBefore(s: string, k: nat): (r: nat)
    requires k <= |Spans(s)|
    ensures r <= |s|
    ensures k < |Spans(s)| ==> r <= SpanAt(s, k).start
  {
    if k == 0 then 0 else SpanAt(s, k - 1).end
  }

  /** The Anki clozes of all deletions, in order. */
  function Forms(s: string): (r: seq<AnkiCloze>)
    ensures |r| == |Spans(s)|
  {
    var dels := Deletions(s);
    seq(|dels|, i requires 0 <= i < |dels| => ToAnki(dels[i], i))
  }

  /** The front up to the end of span `k - 1`, with spans `0 .. k - 1`
      replaced literally by the given Anki clozes where they stand. */
  function Assemble(s: string, forms: seq<AnkiCloze>, k: nat): string
    requires |forms| == |Spans(s)| && k <= |forms|
  {
    if k == 0 then ""
    else Assemble(s, forms, k - 1) + s[EndBefore(s, k - 1)..SpanAt(s, k - 1).start] + Render(forms[k - 1])
  }

  /** The first `k` deletions rewritten in place, the rest of the front as
      it was. */
  function Partial(s: string, forms: seq<AnkiCloze>, k: nat): string
    requires |forms| == |Spans(s)| && k <= |forms|
  {
    Assemble(s, forms, k) + s[EndBefore(s, k)..]
  }

  /** The evidently intended rewrite: every deletion replaced by its Anki
      form, literally, at the place the scan found it. */
  function InPlace(s: string): string {
    Partial(s, Forms(s), |Spans(s)|)
  }

  /** Without deletions the front is unchanged. */
  lemma InPlaceWithoutDeletions(s: string)
    requires Deletions(s) == []
    ensures InPlace(s) == s
  {
  }

  /** The rewrite empties no front and fills no empty one. */
  lemma InPlaceEmpty(s: string)
    ensures InPlace(s) == "" <==> s == ""
  {
    var n := |Spans(s)|;
    if n > 0 {
      var forms := Forms(s);
      assert Assemble(s, forms, n) == Assemble(s, forms, n - 1) + s[EndBefore(s, n - 1)..SpanAt(s, n - 1).start] + Render(forms[n - 1]);
    }
  }

  /** Rewriting more deletions extends the rewritten prefix. */
  lemma {:induction false} AssemblePrefix(s: string, forms: seq<AnkiCloze>, k: nat, m: nat)
    requires |forms| == |Spans(s)| && k <= m <= |forms|
    ensures |Assemble(s, forms, k)| <= |Assemble(s, forms, m)|
    ensures Assemble(s, forms, m)[..|Assemble(s, forms, k)|] == Assemble(s, forms, k)
    decreases m - k
  {
    if k < m {
      AssemblePrefix(s, forms, k, m - 1);
      AssembleNext(s, forms, m - 1);
      PrefixOfConcat(Assemble(s, forms, m - 1), Piece(s, forms, m - 1), |Assemble(s, forms, k)|);
    }
  }

  /** The intended rewrite puts each deletion's Anki form, literally, where
      the deletion stood, after the unchanged text since the previous
      deletion. */
  lemma InPlaceLayout(s: string, k: nat)
    requires k < |Spans(s)|
    ensures var at := |Assemble(s, Forms(s), k)|;
      var gap := s[EndBefore(s, k)..SpanAt(s, k).start];
      && OccursAt(InPlace(s), gap, at)
      && OccursAt(InPlace(s), Replacement(Deletions(s)[k], k), at + |gap|)
  {
    AssembledLayout(s, Forms(s), k);
    assert Replacement(Deletions(s)[k], k) == Render(Forms(s)[k]);
  }

  lemma AssembledLayout(s: string, forms: seq<AnkiCloze>, k: nat)
    requires |forms| == |Spans(s)| && k < |forms|
    ensures var at := |Assemble(s, forms, k)|;
      var gap := s[EndBefore(s, k)..SpanAt(s, k).start];
      && OccursAt(Partial(s, forms, |forms|), gap, at)
      && OccursAt(Partial(s, forms, |forms|), Render(forms[k]), at + |gap|)
  {
    AssemblePrefix(s, forms, k + 1, |forms|);
    assert Partial(s, forms, |forms|)[..|Assemble(s, forms, k + 1)|] == Assemble(s, forms, k + 1);
    PiecesOfPrefix(Partial(s, forms, |forms|), Assemble(s, forms, k),
      s[EndBefore(s, k)..SpanAt(s, k).start], Render(forms[k]));
  }

  lemma PiecesOfPrefix(whole: string, p: string, gap: string, r: string)
    requires |p + gap + r| <= |whole| && whole[..|p + gap + r|] == p + gap + r
    ensures OccursAt(whole, gap, |p|) && OccursAt(whole, r, |p| + |gap|)
  {
    var a := p + gap + r;
    assert whole[|p|..|p| + |gap|] == a[|p|..|p| + |gap|];
    assert whole[|p| + |gap|..|a|] == a[|p| + |gap|..|a|];
  }

  // ---------------------------------------------------------------------
  // the source's rewrite agrees with it on plain deletions
  // ---------------------------------------------------------------------

  /** A deletion whose inner text holds no `{`, `:` or `$`. */
  predicate Plain(deletion: string) {
    var inner := Inner(deletion);
    '{' !in inner && ':' !in inner && '$' !in inner
  }

  predicate PlainDeletions(s: string) {
    forall i | 0 <= i < |Deletions(s)| :: Plain(Deletions(s)[i])
  }

  predicate NoDoubleClose(s: string) {
    forall k | 0 <= k < |s| - 1 :: !(s[k] == '}' && s[k + 1] == '}')
  }

  /** An Anki cloze whose parts hold no `{` and no `$`, and whose number
      holds no `}}`. */
  predicate CleanForm(a: AnkiCloze) {
    && '{' !in a.number && '{' !in a.content
    && '$' !in a.number && '$' !in a.content
    && NoDoubleClose(a.number)
  }

  predicate CleanForms(forms: seq<AnkiCloze>) {
    forall i | 0 <= i < |forms| :: CleanForm(forms[i])
  }

  /** The sequential, first-occurrence rewrite the source performs equals
      the in-place one whenever no deletion holds `{`, `:` or `$`. */
  lemma RewriteInPlace(s: string)
    requires PlainDeletions(s)
    ensures Rewrite(s) == InPlace(s)
  {
    assert Partial(s, Forms(s), 0) == s;
    FormsClean(s);
    RewriteStepwise(s, 0);
  }

  lemma {:induction false} RewriteStepwise(s: string, k: nat)
    requires PlainDeletions(s) && CleanForms(Forms(s)) && k <= |Spans(s)|
    ensures RewriteFrom(Partial(s, Forms(s), k), Deletions(s)[k..], k) == InPlace(s)
    decreases |Spans(s)| - k
  {
    var dels := Deletions(s);
    if k < |Spans(s)| {
      assert dels[k..][0] == dels[k];
      assert dels[k..][1..] == dels[k + 1..];
      assert Replacement(dels[k], k) == Render(Forms(s)[k]);
      ReplaceStep(s, Forms(s), k);
      RewriteStepwise(s, k + 1);
    } else {
      assert dels[k..] == [];
    }
  }

  lemma FormsClean(s: string)
    requires PlainDeletions(s)
    ensures CleanForms(Forms(s))
  {
    forall i | 0 <= i < |Forms(s)| ensures CleanForm(Forms(s)[i]) {
      DeletionShape(s, i);
      ReplacementClean(Deletions(s)[i], i);
    }
  }

  /** One step of the source's loop: deletion `k` is replaced where the scan
      found it. */
  lemma ReplaceStep(s: string, forms: seq<AnkiCloze>, k: nat)
    requires |forms| == |Spans(s)| && CleanForms(forms) && k < |Spans(s)|
    requires Plain(Deletions(s)[k])
    ensures ReplaceFirst(Partial(s, forms, k), Deletions(s)[k], Render(forms[k])) == Partial(s, forms, k + 1)
  {
    var p := Assemble(s, forms, k);
    var e := EndBefore(s, k);
    var sp := SpanAt(s, k);
    var d := Deletions(s)[k];
    var r := Render(forms[k]);
    assert ReplaceFirst(p + s[e..], d, r) == p + s[e..sp.start] + r + s[sp.end..] by {
      FirstOccurrence(s, forms, k);
      RenderNoDollar(forms[k]);
      ReplaceInGap(p, s, e, sp.start, sp.end, d, r);
    }
    assert Partial(s, forms, k) == p + s[e..];
    PartialNext(s, forms, k);
  }

  /** Partial `k + 1` extends the assembled prefix by the gap before span
      `k` and its Anki form. */
  lemma PartialNext(s: string, forms: seq<AnkiCloze>, k: nat)
    requires |forms| == |Spans(s)| && k < |forms|
    ensures Partial(s, forms, k + 1)
      == Assemble(s, forms, k) + s[EndBefore(s, k)..SpanAt(s, k).start] + Render(forms[k]) + s[SpanAt(s, k).end..]
  {
  }

  /** Replacing, with a `$`-free string, the first occurrence of a text that
      first occurs at `st` of `s`, shifted behind `p`, splices it in there. */
  lemma ReplaceInGap(p: string, s: string, e: nat, st: nat, en: nat, d: string, r: string)
    requires e <= st <= en <= |s| && |d| == en - st && '$' !in r
    requires LeftmostAt(p + s[e..], d, |p| + (st - e))
    ensures ReplaceFirst(p + s[e..], d, r) == p + s[e..st] + r + s[en..]
  {
    var t := p + s[e..];
    var i0 := |p| + (st - e);
    ReplaceLiteral(t, d, r, i0);
    SpliceGap(p, s, e, st, en, r);
  }

  lemma SpliceGap(p: string, s: string, e: nat, st: nat, en: nat, r: string)
    requires e <= st <= en <= |s|
    ensures var t := p + s[e..]; var i0 := |p| + (st - e);
      t[..i0] + r + t[i0 + (en - st)..] == p + s[e..st] + r + s[en..]
  {
    var t := p + s[e..];
    var i0 := |p| + (st - e);
    assert t[..i0] == p + s[e..st];
    assert t[i0 + (en - st)..] == s[en..];
  }

  /** In the partly rewritten front, the first occurrence of deletion `k`
      is the deletion itself. */
  lemma FirstOccurrence(s: string, forms: seq<AnkiCloze>, k: nat)
    requires |forms| == |Spans(s)| && CleanForms(forms) && k < |Spans(s)|
    requires Plain(Deletions(s)[k])
    ensures LeftmostAt(Assemble(s, forms, k) + s[EndBefore(s, k)..], Deletions(s)[k],
      |Assemble(s, forms, k)| + (SpanAt(s, k).start - EndBefore(s, k)))
  {
    var d := Deletions(s)[k];
    var p := Assemble(s, forms, k);
    var e := EndBefore(s, k);
    var o0 := SpanAt(s, k).start - e;
    var u := s[e..];
    assert LeftmostAt(p + u, d, |p| + o0) by {
      assert NoStartWithin(p, d) by {
        DeletionShape(s, k);
        NoOccurrenceInPrefix(s, forms, k, d);
      }
      LeftmostInRest(s, k);
      FirstAfterPrefix(p, u, d, o0);
    }
  }

  /** In the original front from the end of span `k - 1` on, deletion `k`
      first occurs where the scan found it. */
  lemma LeftmostInRest(s: string, k: nat)
    requires k < |Spans(s)|
    ensures LeftmostAt(s[EndBefore(s, k)..], Deletions(s)[k], SpanAt(s, k).start - EndBefore(s, k))
  {
    var d := Deletions(s)[k];
    var e := EndBefore(s, k);
    var o0 := SpanAt(s, k).start - e;
    DeletionShape(s, k);
    forall o: nat | o < o0 ensures !OccursAt(s[e..], d, o) {
      GapHoldsNoDeletion(s, k, d, o);
    }
    DeletionOccurs(s, k);
    OccursSuffix(s, e, d, o0);
  }

  lemma DeletionOccurs(s: string, k: nat)
    requires k < |Spans(s)|
    ensures OccursAt(s, Deletions(s)[k], SpanAt(s, k).start)
  {
    DeletionText(s, k);
  }

  /** A deletion text does not start inside the gap before span `k` of the
      original front. */
  lemma GapHoldsNoDeletion(s: string, k: nat, d: string, o: nat)
    requires k < |Spans(s)| && IsDeletionText(d)
    requires o < SpanAt(s, k).start - EndBefore(s, k)
    ensures !OccursAt(s[EndBefore(s, k)..], d, o)
  {
    var e := EndBefore(s, k);
    GapHasNoMatch(s, k, e + o);
    OccurrenceMatches(s, d, e + o);
    OccursSuffix(s, e, d, o);
  }

  /** The first occurrence in `p + u`, when `p` holds none, is the first
      occurrence in `u`, shifted. */
  lemma FirstAfterPrefix(p: string, u: string, d: string, o0: nat)
    requires NoStartWithin(p, d) && LeftmostAt(u, d, o0)
    ensures LeftmostAt(p + u, d, |p| + o0)
  {
    OccursShift(p, u, d, o0);
    assert forall j: nat | j < |p| :: !OccursAt(p + u, d, j);
    forall j: nat | |p| <= j < |p| + o0 ensures !OccursAt(p + u, d, j) {
      OccursShift(p, u, d, j - |p|);
    }
  }

  /** Replacing the first occurrence with a `$`-free string splices it in
      literally. */
  lemma ReplaceLiteral(t: string, d: string, r: string, i0: nat)
    requires LeftmostAt(t, d, i0)
    requires '$' !in r
    ensures ReplaceFirst(t, d, r) == t[..i0] + r + t[i0 + |d|..]
  {
  }

  lemma RenderNoDollar(a: AnkiCloze)
    requires CleanForm(a)
    ensures '$' !in Render(a)
  {
  }

  /** No position between two spans starts a match. */
  lemma GapHasNoMatch(s: string, k: nat, q: nat)
    requires k < |Spans(s)| && EndBefore(s, k) <= q < SpanAt(s, k).start
    ensures MatchAt(s, q).None?
  {
    ScanOrdered(s, 0);
    ScanCovering(s, 0);
    var spans := Spans(s);
    forall i | 0 <= i < |spans| ensures q < spans[i].start || spans[i].end <= q {
      if i + 1 < k {
        assert spans[i].end <= spans[k - 1].start;
      }
      if k < i {
        assert spans[k].end <= spans[i].start;
      }
    }
  }

  /** An earlier `{` in front of a match starts a longer match. */
  lemma BraceBeforeMatch(s: string, q: nat)
    ensures q + 1 < |s| && s[q] == '{' && MatchAt(s, q + 1).Some? ==> MatchAt(s, q).Some?
  {
    if q + 1 < |s| && s[q] == '{' && MatchAt(s, q + 1).Some? {
      assert Close(s, q + 2) == Close(s, q + 3);
    }
  }

  lemma OccursShift(p: string, u: string, d: string, x: nat)
    ensures OccursAt(p + u, d, |p| + x) <==> OccursAt(u, d, x)
  {
    if x + |d| <= |u| {
      assert (p + u)[|p| + x..|p| + x + |d|] == u[x..x + |d|];
    }
  }

  lemma OccursSuffix(s: string, e: nat, d: string, x: nat)
    requires e <= |s|
    ensures OccursAt(s[e..], d, x) <==> OccursAt(s, d, e + x)
  {
    if e + x + |d| <= |s| {
      assert s[e..][x..x + |d|] == s[e + x..e + x + |d|];
    }
  }

  /** A text differing from `d` at offset `m` does not hold `d` at `j`. */
  lemma Mismatch(t: string, d: string, j: nat, m: nat)
    requires m < |d| && j + m < |t| && t[j + m] != d[m]
    ensures !OccursAt(t, d, j)
  {
    if j + |d| <= |t| {
      assert t[j..j + |d|][m] == t[j + m];
    }
  }

  /** The Anki cloze of a plain deletion is clean. */
  lemma ReplacementClean(d: string, index: nat)
    requires IsDeletionText(d) && Plain(d)
    ensures CleanForm(ToAnki(d, index))
  {
    NumberClean(d, index);
    ContentClean(d, index);
  }

  lemma NumberClean(d: string, index: nat)
    requires IsDeletionText(d) && Plain(d)
    ensures '{' !in ClozeNumber(d, index) && '$' !in ClozeNumber(d, index)
    ensures NoDoubleClose(ClozeNumber(d, index))
  {
    var inner := Inner(d);
    InnerNoDoubleClose(d);
    ReplacementParts(d, index);
    if IndexOf(inner, "|", 0).Some? {
      SliceKeeps(inner, 0, IndexOf(inner, "|", 0).value);
    }
  }

  lemma ContentClean(d: string, index: nat)
    requires Plain(d)
    ensures '{' !in ClozeContent(d) && '$' !in ClozeContent(d)
  {
    var inner := Inner(d);
    ReplacementParts(d, index);
    if IndexOf(inner, "|", 0).Some? {
      var a := IndexOf(inner, "|", 0).value;
      var rest := inner[a + 1..];
      var b := if IndexOf(rest, "|", 0).Some? then IndexOf(rest, "|", 0).value else |rest|;
      SliceKeeps(inner, a + 1, |inner|);
      SliceKeeps(rest, 0, b);
      assert rest[..b] == rest[0..b];
    }
  }

  lemma InnerNoDoubleClose(d: string)
    requires IsDeletionText(d)
    ensures NoDoubleClose(Inner(d))
  {
    var inner := Inner(d);
    forall k | 0 <= k < |inner| - 1 ensures !(inner[k] == '}' && inner[k + 1] == '}') {
      assert inner[k] == d[k + 2] && inner[k + 1] == d[k + 3];
    }
  }

  /** A slice has no character and no `}}` its text lacks. */
  lemma SliceKeeps(s: string, i: nat, j: nat)
    requires i <= j <= |s|
    ensures '{' !in s ==> '{' !in s[i..j]
    ensures '$' !in s ==> '$' !in s[i..j]
    ensures NoDoubleClose(s) ==> NoDoubleClose(s[i..j])
  {
    assert forall k | 0 <= k < j - i :: s[i..j][k] == s[i + k];
  }

  /** No occurrence of `d` starts within `piece`, whatever follows it. */
  ghost predicate NoStartWithin(piece: string, d: string) {
    forall o: nat, x: string | o < |piece| :: !OccursAt(piece + x, d, o)
  }

  lemma NoStartWithinConcat(a: string, b: string, d: string)
    requires NoStartWithin(a, d) && NoStartWithin(b, d)
    ensures NoStartWithin(a + b, d)
  {
    forall o: nat, x: string | o < |a + b| ensures !OccursAt(a + b + x, d, o) {
      assert a + b + x == a + (b + x);
      if o < |a| {
        assert !OccursAt(a + (b + x), d, o);
      } else {
        assert !OccursAt(b + x, d, o - |a|);
        OccursShift(a, b + x, d, o - |a|);
      }
    }
  }

  /** A deletion without `{` or `:` inside never starts within the
      rewritten prefix, whatever follows it. */
  lemma NoOccurrenceInPrefix(s: string, forms: seq<AnkiCloze>, k: nat, d: string)
    requires |forms| == |Spans(s)| && CleanForms(forms) && k <= |Spans(s)|
    requires IsDeletionText(d) && '{' !in Inner(d) && ':' !in Inner(d)
    ensures NoStartWithin(Assemble(s, forms, k), d)
  {
    var pieces := Pieces(s, forms, k);
    forall i | 0 <= i < k ensures NoStartWithin(pieces[i], d) {
      PieceShielded(s, forms, i, d);
    }
    AssembleIsConcat(s, forms, k);
    NoStartWithinAll(pieces, d);
  }

  /** The concatenation of the pieces, in order. */
  function Concat(pieces: seq<string>): string
    decreases |pieces|
  {
    if |pieces| == 0 then "" else Concat(pieces[..|pieces| - 1]) + pieces[|pieces| - 1]
  }

  lemma {:induction false} NoStartWithinAll(pieces: seq<string>, d: string)
    requires forall i | 0 <= i < |pieces| :: NoStartWithin(pieces[i], d)
    ensures NoStartWithin(Concat(pieces), d)
    decreases |pieces|
  {
    if |pieces| > 0 {
      var pre := pieces[..|pieces| - 1];
      NoStartWithinAll(pre, d);
      NoStartWithinConcat(Concat(pre), pieces[|pieces| - 1], d);
    }
  }

  /** The first `k` pieces of the rewritten front. */
  function Pieces(s: string, forms: seq<AnkiCloze>, k: nat): (r: seq<string>)
    requires |forms| == |Spans(s)| && k <= |forms|
    ensures |r| == k
  {
    seq(k, i requires 0 <= i < k => Piece(s, forms, i))
  }

  lemma {:induction false} AssembleIsConcat(s: string, forms: seq<AnkiCloze>, k: nat)
    requires |forms| == |Spans(s)| && k <= |forms|
    ensures Assemble(s, forms, k) == Concat(Pieces(s, forms, k))
    decreases k
  {
    if k > 0 {
      PiecesNext(s, forms, k - 1);
      assert Assemble(s, forms, k) == Concat(Pieces(s, forms, k - 1)) + Piece(s, forms, k - 1) by {
        AssembleIsConcat(s, forms, k - 1);
        AssembleNext(s, forms, k - 1);
      }
    }
  }

  lemma PiecesNext(s: string, forms: seq<AnkiCloze>, k: nat)
    requires |forms| == |Spans(s)| && k < |forms|
    ensures Concat(Pieces(s, forms, k + 1)) == Concat(Pieces(s, forms, k)) + Piece(s, forms, k)
  {
    assert Pieces(s, forms, k + 1)[..k] == Pieces(s, forms, k);
  }

  /** The gap before span `k` followed by the Anki form of deletion `k`. */
  function Piece(s: string, forms: seq<AnkiCloze>, k: nat): string
    requires |forms| == |Spans(s)| && k < |forms|
  {
    s[EndBefore(s, k)..SpanAt(s, k).start] + Render(forms[k])
  }

  lemma AssembleNext(s: string, forms: seq<AnkiCloze>, k: nat)
    requires |forms| == |Spans(s)| && k < |forms|
    ensures Assemble(s, forms, k + 1) == Assemble(s, forms, k) + Piece(s, forms, k)
  {
  }

  lemma PieceShielded(s: string, forms: seq<AnkiCloze>, k: nat, d: string)
    requires |forms| == |Spans(s)| && CleanForms(forms) && k < |forms|
    requires IsDeletionText(d) && '{' !in Inner(d) && ':' !in Inner(d)
    ensures NoStartWithin(Piece(s, forms, k), d)
  {
    GapGuarded(s, k, d);
    FormShielded(forms[k], d);
    GuardedThenForm(s[EndBefore(s, k)..SpanAt(s, k).start], Render(forms[k]), d);
  }

  /** No occurrence of `d` starts within `g` when a `{` follows it. */
  ghost predicate NoStartBeforeBrace(g: string, d: string) {
    forall o: nat, y: string | o < |g| && 0 < |y| && y[0] == '{' :: !OccursAt(g + y, d, o)
  }

  lemma GuardedThenForm(g: string, r: string, d: string)
    requires NoStartBeforeBrace(g, d) && NoStartWithin(r, d) && 0 < |r| && r[0] == '{'
    ensures NoStartWithin(g + r, d)
  {
    forall o: nat, x: string | o < |g + r| ensures !OccursAt(g + r + x, d, o) {
      assert g + r + x == g + (r + x);
      if o < |g| {
        assert (r + x)[0] == '{';
        assert !OccursAt(g + (r + x), d, o);
      } else {
        assert !OccursAt(r + x, d, o - |g|);
        OccursShift(g, r + x, d, o - |g|);
      }
    }
  }

  /** The gap before span `k` holds no start of a deletion without `{`
      inside when a `{` follows it. */
  lemma GapGuarded(s: string, k: nat, d: string)
    requires k < |Spans(s)| && IsDeletionText(d) && '{' !in Inner(d)
    ensures NoStartBeforeBrace(s[EndBefore(s, k)..SpanAt(s, k).start], d)
  {
    forall o: nat, y: string | o < SpanAt(s, k).start - EndBefore(s, k) && 0 < |y| && y[0] == '{'
      ensures !OccursAt(s[EndBefore(s, k)..SpanAt(s, k).start] + y, d, o)
    {
      NoOccurrenceInGap(s, k, d, y, o);
    }
  }

  /** An Anki cloze with clean parts starts with `{` and holds no start of
      a deletion without `{` or `:` inside. */
  lemma FormShielded(a: AnkiCloze, d: string)
    requires IsDeletionText(d) && '{' !in Inner(d) && ':' !in Inner(d) && CleanForm(a)
    ensures 0 < |Render(a)| && Render(a)[0] == '{'
    ensures NoStartWithin(Render(a), d)
  {
    forall o: nat, x: string | o < |Render(a)| ensures !OccursAt(Render(a) + x, d, o) {
      NotInForm(a, x, d, o);
    }
  }

  /** Inside the gap before span `k`, followed by text starting with `{`, a
      deletion without `{` inside does not start. */
  lemma NoOccurrenceInGap(s: string, k: nat, d: string, rx: string, o: nat)
    requires k < |Spans(s)|
    requires IsDeletionText(d) && '{' !in Inner(d)
    requires o < SpanAt(s, k).start - EndBefore(s, k)
    requires |rx| > 0 && rx[0] == '{'
    ensures !OccursAt(s[EndBefore(s, k)..SpanAt(s, k).start] + rx, d, o)
  {
    var e := EndBefore(s, k);
    var st := SpanAt(s, k).start;
    var t := s[e..st] + rx;
    var l := (st - e) - o;
    if l >= |d| {
      WithinGap(s, k, d, rx, o);
    } else if l == 1 {
      LastInGap(s, k, d, rx);
    } else {
      assert t[o + l] == rx[0];
      BraceInside(t, d, o, l);
    }
  }

  /** A deletion lying wholly inside a gap would be a match the scan
      skipped. */
  lemma WithinGap(s: string, k: nat, d: string, rx: string, o: nat)
    requires k < |Spans(s)| && IsDeletionText(d)
    requires o + |d| <= SpanAt(s, k).start - EndBefore(s, k)
    ensures !OccursAt(s[EndBefore(s, k)..SpanAt(s, k).start] + rx, d, o)
  {
    var e := EndBefore(s, k);
    var st := SpanAt(s, k).start;
    var t := s[e..st] + rx;
    var q := e + o;
    GapHasNoMatch(s, k, q);
    OccurrenceMatches(s, d, q);
    SliceOfGap(s, e, st, rx, o, |d|);
  }

  /** The character right before a span is no `{`: with it the scan would
      have matched one position earlier. */
  lemma LastInGap(s: string, k: nat, d: string, rx: string)
    requires k < |Spans(s)| && IsDeletionText(d)
    requires EndBefore(s, k) < SpanAt(s, k).start
    ensures !OccursAt(s[EndBefore(s, k)..SpanAt(s, k).start] + rx, d, SpanAt(s, k).start - EndBefore(s, k) - 1)
  {
    var e := EndBefore(s, k);
    var st := SpanAt(s, k).start;
    var t := s[e..st] + rx;
    var q := st - 1;
    GapHasNoMatch(s, k, q);
    ScanOrdered(s, 0);
    assert MatchAt(s, st).Some?;
    BraceBeforeMatch(s, q);
    assert t[q - e] == s[q];
    Mismatch(t, d, q - e, 0);
  }

  /** A `{` at offset `l` past the opening braces and before the end of a
      deletion without `{` inside rules the deletion out there. */
  lemma BraceInside(t: string, d: string, o: nat, l: nat)
    requires IsDeletionText(d) && '{' !in Inner(d)
    requires 2 <= l < |d| && o + l < |t| && t[o + l] == '{'
    ensures !OccursAt(t, d, o)
  {
    if l < |d| - 2 {
      assert d[l] == Inner(d)[l - 2];
    }
    Mismatch(t, d, o, l);
  }

  /** An Anki cloze with clean parts holds no deletion without `{` or `:`
      inside starting within it. */
  lemma NotInForm(a: AnkiCloze, x: string, d: string, o: nat)
    requires IsDeletionText(d) && '{' !in Inner(d) && ':' !in Inner(d)
    requires CleanForm(a) && o < |Render(a)|
    ensures !OccursAt(Render(a) + x, d, o)
  {
    var n := a.number;
    var c := a.content;
    var r := "{{c" + n + "::" + c + "}}";
    var t := r + x;
    var inner := Inner(d);
    assert t[2] == 'c';
    assert t[3 + |n|] == ':';
    if o == 0 {
      if |inner| >= 2 + |n| {
        assert d[3 + |n|] == inner[1 + |n|];
        Mismatch(t, d, 0, 3 + |n|);
      } else if |inner| == 0 {
        Mismatch(t, d, 0, 2);
      } else if |inner| >= |n| {
        Mismatch(t, d, 0, 3 + |n|);
      } else {
        var m := 2 + |inner|;
        assert t[m] == n[m - 3] && t[m + 1] == n[m - 2];
        if n[m - 3] != '}' {
          Mismatch(t, d, 0, m);
        } else {
          Mismatch(t, d, 0, m + 1);
        }
      }
    } else if o == 1 {
      Mismatch(t, d, 1, 1);
    } else {
      assert r[2..] == "c" + n + "::" + c + "}}";
      assert t[o] == r[2..][o - 2];
      Mismatch(t, d, o, 0);
    }
  }
}
