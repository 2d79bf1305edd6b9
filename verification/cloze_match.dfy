/** The cloze-deletion matcher: `text.match(/{{(.*?)}}/g)`. A deletion is
    `{{`, then the shortest run of characters other than line terminators
    that is followed by `}}`, then that `}}`. A global match scans left to
    right, takes the leftmost deletion, and resumes after its end. */
module ClozeMatch {
  import opened Strings

  /** A match, as the positions `[start, end)` of `s` it covers. */
  datatype Span = Span(start: nat, end: nat)

  /** `}}` sits at `e` and every character from `j` up to it is matched by
      the regular expression's `.`. */
  predicate ClosesAt(s: string, j: nat, e: nat) {
    && j <= e && e + 2 <= |s|
    && s[e] == '}' && s[e + 1] == '}'
    && forall k | j <= k < e :: !IsLineTerminator(s[k])
  }

  /** The lazy `(.*?)}}`: the first position from `j` on where `}}` closes. */
  function Close(s: string, j: nat): (r: Option<nat>)
    ensures r.Some? ==> ClosesAt(s, j, r.value)
    ensures r.Some? ==> forall e: nat | e < r.value :: !ClosesAt(s, j, e)
    ensures r.None? ==> forall e: nat :: !ClosesAt(s, j, e)
    decreases |s| - j
  {
    if j + 2 > |s| then None
    else if s[j] == '}' && s[j + 1] == '}' then Some(j)
    else if IsLineTerminator(s[j]) then None
    else
      var r := Close(s, j + 1);
      assert forall e: nat :: ClosesAt(s, j, e) ==> e == j || ClosesAt(s, j + 1, e);
      assert r.Some? ==> ClosesAt(s, j, r.value);
      r
  }

  /** A deletion starts at `p` and may end at `end`: `{{` at `p`, `}}`
      right before `end`, no line terminator in between. */
  ghost predicate IsOccurrence(s: string, p: nat, end: nat) {
    p + 4 <= end <= |s| && s[p] == '{' && s[p + 1] == '{' && ClosesAt(s, p + 2, end - 2)
  }

  /** The match the regular expression finds when tried at `p`: its end. */
  function MatchAt(s: string, p: nat): (r: Option<nat>)
    ensures r.Some? ==> p + 4 <= r.value <= |s|
  {
    if p + 2 <= |s| && s[p] == '{' && s[p + 1] == '{' then
      match Close(s, p + 2)
      case Some(e) => Some(e + 2)
      case None => None
    else None
  }

  /** The match tried at `p` is the shortest deletion starting there, and
      there is none exactly when the regular expression fails at `p`. */
  lemma MatchAtShortest(s: string, p: nat)
    ensures MatchAt(s, p).Some? ==> IsOccurrence(s, p, MatchAt(s, p).value)
    ensures MatchAt(s, p).Some? ==> forall end: nat | end < MatchAt(s, p).value :: !IsOccurrence(s, p, end)
    ensures MatchAt(s, p).None? ==> forall end: nat :: !IsOccurrence(s, p, end)
  {
  }

  /** The spans lie inside `s`, each one a match, after `from`, in
      increasing order and without overlap. */
  ghost predicate Ordered(s: string, spans: seq<Span>, from: nat) {
    && (forall i | 0 <= i < |spans| :: from <= spans[i].start && MatchAt(s, spans[i].start) == Some(spans[i].end))
    && (forall i, j | 0 <= i < j < |spans| :: spans[i].end <= spans[j].start)
  }

  /** Every position from `from` on where a match could start lies inside
      one of the spans: nothing was skipped. */
  ghost predicate Covering(s: string, spans: seq<Span>, from: nat) {
    forall q: nat | from <= q && MatchAt(s, q).Some? ::
      exists i | 0 <= i < |spans| :: spans[i].start <= q < spans[i].end
  }

  /** The global scan from `from`: try a match at each position; after a
      match, continue at its end. */
  function Scan(s: string, from: nat): (spans: seq<Span>)
    decreases |s| - from
  {
    if from >= |s| then []
    else
      match MatchAt(s, from)
      case Some(end) => [Span(from, end)] + Scan(s, end)
      case None => Scan(s, from + 1)
  }

  /** The scan yields matches, in order, without overlap. */
  lemma {:induction false} ScanOrdered(s: string, from: nat)
    ensures Ordered(s, Scan(s, from), from)
    decreases |s| - from
  {
    if from < |s| {
      match MatchAt(s, from)
      case Some(end) =>
        ScanOrdered(s, end);
        OrderedCons(s, from, Span(from, end), Scan(s, end));
      case None =>
        ScanOrdered(s, from + 1);
    }
  }

  /** A match in front of ordered matches from its end keeps them ordered. */
  lemma OrderedCons(s: string, from: nat, first: Span, rest: seq<Span>)
    requires from <= first.start && MatchAt(s, first.start) == Some(first.end)
    requires Ordered(s, rest, first.end)
    ensures Ordered(s, [first] + rest, from)
  {
    var spans := [first] + rest;
    forall i | 0 < i < |spans| ensures spans[i] == rest[i - 1] { }
  }

  /** The scan skips no position where a match starts. */
  lemma {:induction false} ScanCovering(s: string, from: nat)
    ensures Covering(s, Scan(s, from), from)
    decreases |s| - from
  {
    if from >= |s| {
      forall q: nat | from <= q ensures MatchAt(s, q).None? { }
    } else {
      match MatchAt(s, from)
      case Some(end) =>
        ScanCovering(s, end);
        CoveringCons(s, from, end, Scan(s, end));
      case None =>
        ScanCovering(s, from + 1);
    }
  }

  /** A span from `from` to `end` in front of spans covering everything
      from `end` on covers everything from `from` on. */
  lemma CoveringCons(s: string, from: nat, end: nat, rest: seq<Span>)
    requires Covering(s, rest, end)
    ensures Covering(s, [Span(from, end)] + rest, from)
  {
    var spans := [Span(from, end)] + rest;
    forall q: nat | from <= q && MatchAt(s, q).Some?
      ensures exists i | 0 <= i < |spans| :: spans[i].start <= q < spans[i].end
    {
      if q < end {
        assert spans[0].start <= q < spans[0].end;
      } else {
        var i :| 0 <= i < |rest| && rest[i].start <= q < rest[i].end;
        assert spans[i + 1] == rest[i];
      }
    }
  }

  /** `s.match(/{{(.*?)}}/g)` as positions. */
  function Spans(s: string): seq<Span> {
    Scan(s, 0)
  }

  /** The matched texts, in order: the strings the source's `forEach`
      visits. */
  function Deletions(s: string): (r: seq<string>)
    ensures |r| == |Spans(s)|
  {
    ScanOrdered(s, 0);
    var spans := Spans(s);
    seq(|spans|, i requires 0 <= i < |spans| => s[spans[i].start..spans[i].end])
  }

  /** Each deletion is the text of its span. */
  lemma DeletionText(s: string, i: nat)
    requires i < |Spans(s)|
    ensures Spans(s)[i].start + 4 <= Spans(s)[i].end <= |s|
    ensures Deletions(s)[i] == s[Spans(s)[i].start..Spans(s)[i].end]
  {
    ScanOrdered(s, 0);
  }

  /** The scan is the only left-to-right, leftmost, non-overlapping
      segmentation: any ordered, covering sequence of matches is the scan. */
  lemma {:induction false} ScanUnique(s: string, spans: seq<Span>, from: nat)
    requires Ordered(s, spans, from) && Covering(s, spans, from)
    ensures spans == Scan(s, from)
    decreases |s| - from
  {
    if |spans| == 0 {
      NoMatchFrom(s, from);
    } else {
      var first := spans[0];
      NothingBeforeFirst(s, spans, from);
      SkipNoMatch(s, from, first.start);
      CoveringTail(s, spans, from);
      ScanUnique(s, spans[1..], first.end);
      assert spans == [first] + spans[1..];
    }
  }

  /** Before the first span of an ordered, covering sequence no match
      starts. */
  lemma NothingBeforeFirst(s: string, spans: seq<Span>, from: nat)
    requires Ordered(s, spans, from) && Covering(s, spans, from) && |spans| > 0
    ensures spans[0].start < |s|
    ensures forall q: nat | from <= q < spans[0].start :: MatchAt(s, q).None?
  {
    forall q: nat | from <= q < spans[0].start ensures MatchAt(s, q).None? {
      assert forall i | 0 <= i < |spans| :: q < spans[i].start by {
        forall i | 0 < i < |spans| ensures spans[0].start < spans[i].start {
          assert spans[0].end <= spans[i].start;
        }
      }
    }
  }

  /** Dropping the first span leaves an ordered, covering sequence from its
      end. */
  lemma CoveringTail(s: string, spans: seq<Span>, from: nat)
    requires Ordered(s, spans, from) && Covering(s, spans, from) && |spans| > 0
    ensures Ordered(s, spans[1..], spans[0].end)
    ensures Covering(s, spans[1..], spans[0].end)
  {
    var rest := spans[1..];
    assert forall i | 0 <= i < |rest| :: rest[i] == spans[i + 1];
    forall q: nat | spans[0].end <= q && MatchAt(s, q).Some?
      ensures exists i | 0 <= i < |rest| :: rest[i].start <= q < rest[i].end
    {
      var i :| 0 <= i < |spans| && spans[i].start <= q < spans[i].end;
      assert 0 < i;
      assert rest[i - 1].start <= q < rest[i - 1].end;
    }
  }

  /** Positions without a match are skipped. */
  lemma {:induction false} SkipNoMatch(s: string, from: nat, to: nat)
    requires from <= to < |s|
    requires forall q: nat | from <= q < to :: MatchAt(s, q).None?
    ensures Scan(s, from) == Scan(s, to)
    decreases (to as int) - from
  {
    if from < to {
      SkipNoMatch(s, from + 1, to);
    }
  }

  /** With no match anywhere from `from` on, the scan finds nothing. */
  lemma {:induction false} NoMatchFrom(s: string, from: nat)
    requires forall q: nat | from <= q :: MatchAt(s, q).None?
    ensures Scan(s, from) == []
    decreases |s| - from
  {
    if from < |s| {
      NoMatchFrom(s, from + 1);
    }
  }

  /** There are no deletions exactly when no `{{` is followed, on the same
      line, by a `}}`. */
  lemma NoDeletionsIff(s: string)
    ensures Deletions(s) == [] <==> forall p: nat, end: nat :: !IsOccurrence(s, p, end)
  {
    if forall p: nat, end: nat :: !IsOccurrence(s, p, end) {
      forall q: nat ensures MatchAt(s, q).None? {
        MatchAtShortest(s, q);
      }
      NoMatchFrom(s, 0);
    } else {
      var p: nat, end: nat :| IsOccurrence(s, p, end);
      MatchAtShortest(s, p);
      ScanCovering(s, 0);
    }
  }

  /** A deletion text found by the scan: `{{`, an inner text without line
      terminators and without `}}`, then `}}`. */
  predicate IsDeletionText(d: string) {
    && |d| >= 4
    && d[0] == '{' && d[1] == '{' && d[|d| - 2] == '}' && d[|d| - 1] == '}'
    && (forall k | 2 <= k < |d| - 2 :: !IsLineTerminator(d[k]))
    && (forall k | 2 <= k < |d| - 2 :: !(d[k] == '}' && d[k + 1] == '}'))
  }

  /** Every scanned deletion has that shape, and its inner text is what the
      lazy group captured. */
  lemma DeletionShape(s: string, i: nat)
    requires i < |Deletions(s)|
    ensures IsDeletionText(Deletions(s)[i])
  {
    DeletionText(s, i);
    ScanOrdered(s, 0);
    var sp := Spans(s)[i];
    var d := Deletions(s)[i];
    assert MatchAt(s, sp.start) == Some(sp.end);
    MatchAtShortest(s, sp.start);
    forall k | 2 <= k < |d| - 2 ensures !(d[k] == '}' && d[k + 1] == '}') {
      assert !ClosesAt(s, sp.start + 2, sp.start + k);
    }
  }

  /** A deletion text appearing anywhere in `s` is a place where the
      regular expression matches. */
  lemma OccurrenceMatches(s: string, d: string, q: nat)
    requires IsDeletionText(d)
    ensures OccursAt(s, d, q) ==> MatchAt(s, q).Some?
  {
    if OccursAt(s, d, q) {
      assert s[q + |d| - 2] == d[|d| - 2];
      forall k | q + 2 <= k < q + |d| - 2 ensures !IsLineTerminator(s[k]) {
        assert s[k] == d[k - q];
      }
      assert ClosesAt(s, q + 2, q + |d| - 2);
      assert IsOccurrence(s, q, q + |d|);
      MatchAtShortest(s, q);
    }
  }
}
