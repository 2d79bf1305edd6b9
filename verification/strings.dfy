/** The JavaScript string built-ins the parser relies on, with their
    ECMAScript semantics written out: `startsWith`, `substring`, `trim`,
    `split` on a one-character separator, `indexOf`, `replace` with a string
    pattern (including the `$` replacement patterns), and the decimal
    rendering of a non-negative integer in a template literal. Strings are
    sequences of Unicode scalar values. */
module Strings {

  datatype Option<T> = None | Some(value: T)

  /** `s.startsWith(prefix)` */
  predicate StartsWith(s: string, prefix: string) {
    |prefix| <= |s| && s[..|prefix|] == prefix
  }

  /** Two strings that differ at a position both have cannot start one with the other. */
  lemma DifferentAt(s: string, prefix: string, i: nat)
    requires i < |s| && i < |prefix| && s[i] != prefix[i]
    ensures !StartsWith(s, prefix)
  {
    if |prefix| <= |s| {
      assert s[..|prefix|][i] != prefix[i];
    }
  }

  /** `s.substring(n)` for a non-negative start: the text after the first
      `n` characters, and "" when `n` is past the end. */
  function Substring(s: string, n: nat): (r: string)
    ensures n <= |s| ==> s[..n] + r == s
    ensures n >= |s| ==> r == ""
  {
    if n <= |s| then s[n..] else ""
  }

  // ---------------------------------------------------------------------
  // trim
  // ---------------------------------------------------------------------

  /** LineTerminator (ECMAScript section 12.3): LF, CR, LS and PS. */
  predicate IsLineTerminator(c: char) {
    c == '\n' || c == '\r' || c == '\U{2028}' || c == '\U{2029}'
  }

  /** WhiteSpace (ECMAScript section 12.2): TAB, VT, FF, ZWNBSP and every
      code point of the Space_Separator category. */
  predicate IsWhiteSpace(c: char) {
    || c == '\t' || c == '\U{000B}' || c == '\U{000C}' || c == '\U{FEFF}'
    || c == ' ' || c == '\U{00A0}' || c == '\U{1680}'
    || ('\U{2000}' <= c <= '\U{200A}')
    || c == '\U{202F}' || c == '\U{205F}' || c == '\U{3000}'
  }

  /** What `String.prototype.trim` removes (ECMAScript section 22.1.3.32). */
  predicate IsTrimmable(c: char) {
    IsWhiteSpace(c) || IsLineTerminator(c)
  }

  predicate AllTrimmable(s: string) {
    forall i | 0 <= i < |s| :: IsTrimmable(s[i])
  }

  /** The first position from `i` on whose character `trim` keeps. */
  function SkipLeading(s: string, i: nat): (k: nat)
    requires i <= |s|
    ensures i <= k <= |s|
    ensures forall j | i <= j < k :: IsTrimmable(s[j])
    ensures k == |s| || !IsTrimmable(s[k])
    decreases |s| - i
  {
    if i < |s| && IsTrimmable(s[i]) then SkipLeading(s, i + 1) else i
  }

  /** The position right after the last character of `s[lo..hi]` that
      `trim` keeps. */
  function SkipTrailing(s: string, lo: nat, hi: nat): (k: nat)
    requires lo <= hi <= |s|
    ensures lo <= k <= hi
    ensures forall j | k <= j < hi :: IsTrimmable(s[j])
    ensures k == lo || !IsTrimmable(s[k - 1])
    decreases hi - lo
  {
    if lo < hi && IsTrimmable(s[hi - 1]) then SkipTrailing(s, lo, hi - 1) else hi
  }

  /** `r` sits at offset `k` of `s`, and everything around it is trimmable. */
  predicate TrimmedAt(s: string, r: string, k: nat) {
    && k + |r| <= |s|
    && s[k..k + |r|] == r
    && (forall j | 0 <= j < k :: IsTrimmable(s[j]))
    && (forall j | k + |r| <= j < |s| :: IsTrimmable(s[j]))
  }

  /** `s.trim()`: `s` without its leading and trailing white space and line
      terminators. */
  function Trim(s: string): (r: string)
    ensures |r| <= |s|
    ensures r == "" || (!IsTrimmable(r[0]) && !IsTrimmable(r[|r| - 1]))
    ensures r == "" <==> AllTrimmable(s)
    ensures exists k :: TrimmedAt(s, r, k)
  {
    var a := SkipLeading(s, 0);
    var b := SkipTrailing(s, a, |s|);
    assert TrimmedAt(s, s[a..b], a);
    s[a..b]
  }

  /** Trimming removes exactly the trimmable margins: `Trim` agrees with
      any description of `s` as margin + core + margin. */
  lemma TrimUnique(s: string, r: string, k: nat)
    requires TrimmedAt(s, r, k)
    requires r == "" || (!IsTrimmable(r[0]) && !IsTrimmable(r[|r| - 1]))
    ensures Trim(s) == r
  {
    if r != "" {
      var a := SkipLeading(s, 0);
      assert s[k] == r[0];
      assert a == k;
      assert s[k + |r| - 1] == r[|r| - 1];
      var b := SkipTrailing(s, a, |s|);
      assert b == k + |r|;
    }
  }

  /** A string without trimmable characters at its ends is its own trim. */
  lemma TrimOfTrimmed(s: string)
    requires s == "" || (!IsTrimmable(s[0]) && !IsTrimmable(s[|s| - 1]))
    ensures Trim(s) == s
  {
    assert s[0..|s|] == s;
    TrimUnique(s, s, 0);
  }

  /** Trimming twice is trimming once. */
  lemma TrimIdempotent(s: string)
    ensures Trim(Trim(s)) == Trim(s)
  {
    TrimOfTrimmed(Trim(s));
  }

  // ---------------------------------------------------------------------
  // split and join on a one-character separator
  // ---------------------------------------------------------------------

  /** `parts.join(sep)` */
  function Join(parts: seq<string>, sep: char): string
  {
    if |parts| == 0 then ""
    else if |parts| == 1 then parts[0]
    else parts[0] + [sep] + Join(parts[1..], sep)
  }

  /** `s.split(sep)` for a one-character separator: the maximal runs of
      non-separator characters, so always at least one part. */
  function Split(s: string, sep: char): (parts: seq<string>)
    ensures |parts| >= 1
    ensures forall i | 0 <= i < |parts| :: sep !in parts[i]
    ensures Join(parts, sep) == s
    decreases |s|
  {
    if |s| == 0 then [""]
    else
      var rest := Split(s[1..], sep);
      if s[0] == sep then
        assert s == [sep] + s[1..];
        [""] + rest
      else
        var parts := [[s[0]] + rest[0]] + rest[1..];
        assert Join(parts, sep) == s by {
          if |rest| > 1 {
            assert Join(rest, sep) == rest[0] + [sep] + Join(rest[1..], sep);
            assert parts[1..] == rest[1..];
          }
          assert s == [s[0]] + s[1..];
        }
        parts
  }

  /** In a join of separator-free parts, the first separator ends the
      first part. */
  lemma JoinFirstSeparator(p: seq<string>, sep: char)
    requires |p| >= 1
    requires forall i | 0 <= i < |p| :: sep !in p[i]
    ensures |p| == 1 ==> IndexOf(Join(p, sep), [sep], 0) == None
    ensures |p| > 1 ==> IndexOf(Join(p, sep), [sep], 0) == Some(|p[0]|)
  {
    var s := Join(p, sep);
    if |p| > 1 {
      assert OccursAt(s, [sep], |p[0]|);
      forall i: nat | i < |p[0]| ensures !OccursAt(s, [sep], i) {
        assert s[i] == p[0][i];
      }
    } else {
      forall i: nat ensures !OccursAt(s, [sep], i) {
        if i < |s| {
          assert s[i] == p[0][i];
        }
      }
    }
  }

  /** Joining separator-free parts loses nothing: the parts can be read back. */
  lemma {:induction false} JoinInjective(p: seq<string>, q: seq<string>, sep: char)
    requires |p| >= 1 && |q| >= 1
    requires forall i | 0 <= i < |p| :: sep !in p[i]
    requires forall i | 0 <= i < |q| :: sep !in q[i]
    requires Join(p, sep) == Join(q, sep)
    ensures p == q
    decreases |p|
  {
    var s := Join(p, sep);
    JoinFirstSeparator(p, sep);
    JoinFirstSeparator(q, sep);
    if |p| > 1 {
      assert |q| > 1;
      assert p[0] == s[..|p[0]|] == q[0];
      assert Join(p[1..], sep) == s[|p[0]| + 1..] == Join(q[1..], sep);
      JoinInjective(p[1..], q[1..], sep);
      assert p == [p[0]] + p[1..];
      assert q == [q[0]] + q[1..];
    }
  }

  /** `Split` reads back what `Join` wrote. */
  lemma SplitJoin(parts: seq<string>, sep: char)
    requires |parts| >= 1
    requires forall i | 0 <= i < |parts| :: sep !in parts[i]
    ensures Split(Join(parts, sep), sep) == parts
  {
    JoinInjective(Split(Join(parts, sep), sep), parts, sep);
  }

  /** The first two parts of a split are the text before the first
      separator and the text between the first and the second (or the end). */
  lemma SplitFirstParts(s: string, sep: char)
    ensures IndexOf(s, [sep], 0).None? ==> Split(s, sep) == [s]
    ensures IndexOf(s, [sep], 0).Some? ==>
      var a := IndexOf(s, [sep], 0).value;
      var rest := s[a + 1..];
      var b := if IndexOf(rest, [sep], 0).Some? then IndexOf(rest, [sep], 0).value else |rest|;
      && |Split(s, sep)| > 1
      && Split(s, sep)[0] == s[..a]
      && Split(s, sep)[1] == rest[..b]
  {
    var parts := Split(s, sep);
    JoinFirstSeparator(parts, sep);
    if |parts| > 1 {
      var tail := parts[1..];
      assert s == parts[0] + [sep] + Join(tail, sep);
      assert s[|parts[0]| + 1..] == Join(tail, sep);
      JoinFirstSeparator(tail, sep);
      if |tail| > 1 {
        assert Join(tail, sep) == tail[0] + [sep] + Join(tail[1..], sep);
      }
    }
  }

  /** The lines, each followed by a line feed: what `acc += line + '\n'`
      builds up. */
  function Terminated(lines: seq<string>): string
  {
    if |lines| == 0 then "" else lines[0] + "\n" + Terminated(lines[1..])
  }

  lemma {:induction false} TerminatedAppend(lines: seq<string>, line: string)
    ensures Terminated(lines + [line]) == Terminated(lines) + line + "\n"
  {
    if |lines| > 0 {
      assert (lines + [line])[1..] == lines[1..] + [line];
      TerminatedAppend(lines[1..], line);
    }
  }

  /** Line-feed-terminated lines split back into the lines and one trailing
      empty part. */
  lemma {:induction false} SplitTerminated(lines: seq<string>)
    requires forall i | 0 <= i < |lines| :: '\n' !in lines[i]
    ensures Split(Terminated(lines), '\n') == lines + [""]
  {
    TerminatedIsJoin(lines);
    SplitJoin(lines + [""], '\n');
  }

  lemma {:induction false} TerminatedIsJoin(lines: seq<string>)
    ensures Terminated(lines) == Join(lines + [""], '\n')
  {
    if |lines| > 0 {
      TerminatedIsJoin(lines[1..]);
      assert (lines + [""])[1..] == lines[1..] + [""];
    }
  }

  // ---------------------------------------------------------------------
  // indexOf and replace
  // ---------------------------------------------------------------------

  predicate OccursAt(s: string, pat: string, i: nat) {
    i + |pat| <= |s| && s[i..i + |pat|] == pat
  }

  /** A prefix of `a` is a prefix of `a + b`. */
  lemma PrefixOfConcat<T>(a: seq<T>, b: seq<T>, n: nat)
    requires n <= |a|
    ensures (a + b)[..n] == a[..n]
  {
  }

  /** A slice within the first part of `s[e..st] + rx` is a slice of `s`. */
  lemma SliceOfGap<T>(s: seq<T>, e: nat, st: nat, rx: seq<T>, o: nat, n: nat)
    requires e <= st <= |s| && o + n <= st - e
    ensures (s[e..st] + rx)[o..o + n] == s[e + o..e + o + n]
  {
    var t := s[e..st] + rx;
    var a, b := t[o..o + n], s[e + o..e + o + n];
    forall i | 0 <= i < n ensures a[i] == b[i] {
      assert t[o + i] == s[e + o + i];
    }
  }

  /** `pat` occurs at `i` and nowhere before. */
  predicate LeftmostAt(s: string, pat: string, i: nat) {
    OccursAt(s, pat, i) && forall j: nat | j < i :: !OccursAt(s, pat, j)
  }

  /** `s.indexOf(pat, from)`: the leftmost occurrence at or after `from`. */
  function IndexOf(s: string, pat: string, from: nat): (r: Option<nat>)
    ensures r.Some? ==> from <= r.value && OccursAt(s, pat, r.value)
    ensures r.Some? ==> forall i: nat | from <= i < r.value :: !OccursAt(s, pat, i)
    ensures r.None? ==> forall i: nat | from <= i :: !OccursAt(s, pat, i)
    decreases |s| - from
  {
    if from + |pat| > |s| then None
    else if OccursAt(s, pat, from) then Some(from)
    else IndexOf(s, pat, from + 1)
  }

  /** GetSubstitution (ECMAScript section 22.1.3.19.1) for a match without
      capture groups: `$$`, `$&`, `` $` `` and `$'` are expanded, every other
      `$` stays literal. */
  function Substitute(template: string, matched: string, before: string, after: string): (r: string)
    ensures '$' !in template ==> r == template
  {
    if |template| == 0 then ""
    else if template[0] == '$' && |template| >= 2 && template[1] in "$&`'" then
      var expansion :=
        if template[1] == '$' then "$"
        else if template[1] == '&' then matched
        else if template[1] == '`' then before
        else after;
      expansion + Substitute(template[2..], matched, before, after)
    else
      [template[0]] + Substitute(template[1..], matched, before, after)
  }

  /** `s.replace(pat, replacement)` with a string pattern: only the leftmost
      occurrence is replaced. */
  function ReplaceFirst(s: string, pat: string, replacement: string): (r: string)
    ensures (forall i: nat :: !OccursAt(s, pat, i)) ==> r == s
    ensures forall i: nat | LeftmostAt(s, pat, i) ::
      r == s[..i] + Substitute(replacement, pat, s[..i], s[i + |pat|..]) + s[i + |pat|..]
  {
    match IndexOf(s, pat, 0)
    case None => s
    case Some(i) => s[..i] + Substitute(replacement, pat, s[..i], s[i + |pat|..]) + s[i + |pat|..]
  }

  // ---------------------------------------------------------------------
  // numbers in template literals
  // ---------------------------------------------------------------------

  predicate IsDigit(c: char) {
    '0' <= c <= '9'
  }

  function DigitChar(d: nat): (c: char)
    requires d < 10
    ensures IsDigit(c) && (c as int) - ('0' as int) == d
  {
    ['0', '1', '2', '3', '4', '5', '6', '7', '8', '9'][d]
  }

  /** The value of a string of decimal digits. */
  function DecimalValue(s: string): int
  {
    if |s| == 0 then 0
    else 10 * DecimalValue(s[..|s| - 1]) + ((s[|s| - 1] as int) - ('0' as int))
  }

  /** `${n}` for a non-negative integer: its decimal digits, without
      leading zeros. */
  function NatToString(n: nat): (r: string)
    ensures |r| >= 1
    ensures forall i | 0 <= i < |r| :: IsDigit(r[i])
    ensures r[0] == '0' ==> n == 0
    ensures DecimalValue(r) == n
  {
    if n < 10 then [DigitChar(n)]
    else
      var r := NatToString(n / 10) + [DigitChar(n % 10)];
      assert r[..|r| - 1] == NatToString(n / 10);
      r
  }
}
