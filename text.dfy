/** The string helpers the sheet builder relies on: the cell sanitizer of main.go
    and the three standard-library string operations it calls
    (strings.ReplaceAll with an apostrophe, strings.Split on line breaks,
    strings.TrimSpace). Strings are sequences of Unicode code points. */
module Text {

  // ---------------------------------------------------------------------------
  // Sanitizer
  // ---------------------------------------------------------------------------

  /** True when `s` begins with a minus sign, which a spreadsheet application
      would read as the start of a formula or of a negative number. */
  predicate StartsWithDash(s: string) {
    |s| > 0 && s[0] == '-'
  }

  /** sanitizeCellValue: a leading `-` gets a `'` literal-text marker in front;
      any other value is kept as it is. */
  function Sanitize(value: string): (r: string)
    ensures !StartsWithDash(r)
  {
    if StartsWithDash(value) then "'" + value else value
  }

  /** The two equations of the sanitizer, and so: a value is kept exactly
      when it does not start with `-`. */
  lemma SanitizeEquations(v: string)
    ensures StartsWithDash(v) ==> Sanitize(v) == "'" + v
    ensures !StartsWithDash(v) ==> Sanitize(v) == v
    ensures Sanitize(v) == v <==> !StartsWithDash(v)
  {
    if StartsWithDash(v) {
      assert |Sanitize(v)| == |v| + 1;
    }
  }

  /** Sanitizing twice is sanitizing once. */
  lemma SanitizeIdempotent(v: string)
    ensures Sanitize(Sanitize(v)) == Sanitize(v)
  {
  }

  // ---------------------------------------------------------------------------
  // strings.ReplaceAll(value, "'", "")
  // ---------------------------------------------------------------------------

  /** `s` with every apostrophe removed, the others kept in order. */
  function StripApostrophes(s: string): (r: string)
    ensures '\'' !in r
    ensures |r| <= |s|
  {
    StripFrom(s, 0)
  }

  /** The characters of `s` from position `i` on, without apostrophes. */
  function StripFrom(s: string, i: nat): (r: string)
    requires i <= |s|
    ensures '\'' !in r
    ensures |r| <= |s| - i
    decreases |s| - i
  {
    if i == |s| then []
    else (if s[i] == '\'' then [] else [s[i]]) + StripFrom(s, i + 1)
  }

  lemma {:induction false} StripFromKeeps(s: string, i: nat)
    requires i <= |s|
    ensures '\'' !in s[i..] ==> StripFrom(s, i) == s[i..]
    ensures forall c :: c in StripFrom(s, i) ==> c in s[i..]
    decreases |s| - i
  {
    if i < |s| {
      var head := if s[i] == '\'' then [] else [s[i]];
      StripFromKeeps(s, i + 1);
      assert s[i..] == [s[i]] + s[i + 1..];
      forall c | c in StripFrom(s, i)
        ensures c in s[i..]
      {
        if c !in head {
          assert c in StripFrom(s, i + 1);
        }
      }
    }
  }

  /** Nothing but apostrophes is removed: text without them is kept as it
      is, and no other character appears. */
  lemma StripApostrophesKeeps(s: string)
    ensures '\'' !in s ==> StripApostrophes(s) == s
    ensures forall c :: c in StripApostrophes(s) ==> c in s
  {
    StripFromKeeps(s, 0);
    assert s[0..] == s;
  }

  /** Past the end of `a`, stripping `a + b` is stripping `b`. */
  lemma {:induction false} StripFromShift(a: string, b: string, j: nat)
    requires j <= |b|
    ensures StripFrom(a + b, |a| + j) == StripFrom(b, j)
    decreases |b| - j
  {
    if j < |b| {
      assert (a + b)[|a| + j] == b[j];
      StripFromShift(a, b, j + 1);
    }
  }

  lemma {:induction false} StripFromAppend(a: string, b: string, i: nat)
    requires i <= |a|
    ensures StripFrom(a + b, i) == StripFrom(a, i) + StripApostrophes(b)
    decreases |a| - i
  {
    if i == |a| {
      StripFromShift(a, b, 0);
      assert |a| + 0 == i;
    } else {
      assert (a + b)[i] == a[i];
      StripFromAppend(a, b, i + 1);
      var head := if a[i] == '\'' then [] else [a[i]];
      assert head + (StripFrom(a, i + 1) + StripApostrophes(b)) == head + StripFrom(a, i + 1) + StripApostrophes(b);
    }
  }

  /** Removing apostrophes distributes over concatenation. */
  lemma StripApostrophesAppend(a: string, b: string)
    ensures StripApostrophes(a + b) == StripApostrophes(a) + StripApostrophes(b)
  {
    StripFromAppend(a, b, 0);
  }

  /** Removing apostrophes twice is removing them once. */
  lemma StripApostrophesIdempotent(s: string)
    ensures StripApostrophes(StripApostrophes(s)) == StripApostrophes(s)
  {
    StripApostrophesKeeps(StripApostrophes(s));
  }

  /** The sanitizer's marker never reaches the measured text: what is measured
      for a sanitized value is what would be measured for the raw value, and
      it is the raw value itself exactly when that has no apostrophes. */
  lemma MarkerNotMeasured(v: string)
    ensures StripApostrophes(Sanitize(v)) == StripApostrophes(v)
    ensures StripApostrophes(Sanitize(v)) == v <==> '\'' !in v
  {
    StripApostrophesKeeps(v);
    if StartsWithDash(v) {
      StripApostrophesAppend("'", v);
    }
  }

  // ---------------------------------------------------------------------------
  // strings.Split(s, "\n") and its inverse strings.Join(parts, "\n")
  // ---------------------------------------------------------------------------

  /** The pieces of `s` between line breaks; one piece more than there are
      line breaks, so the empty string gives one empty piece. */
  function Split(s: string): (r: seq<string>)
    ensures |r| >= 1
  {
    SplitFrom(s, 0, "")
  }

  /** The pieces of `s` from position `i` on, when the piece being read so
      far is `cur`. */
  function SplitFrom(s: string, i: nat, cur: string): (r: seq<string>)
    requires i <= |s|
    ensures |r| >= 1
    decreases |s| - i
  {
    if i == |s| then [cur]
    else if s[i] == '\n' then [cur] + SplitFrom(s, i + 1, "")
    else SplitFrom(s, i + 1, cur + [s[i]])
  }

  lemma {:induction false} SplitFromHasNoBreak(s: string, i: nat, cur: string)
    requires i <= |s| && '\n' !in cur
    ensures forall k :: 0 <= k < |SplitFrom(s, i, cur)| ==> '\n' !in SplitFrom(s, i, cur)[k]
    decreases |s| - i
  {
    if i < |s| {
      if s[i] == '\n' {
        var rest := SplitFrom(s, i + 1, "");
        SplitFromHasNoBreak(s, i + 1, "");
        var r := [cur] + rest;
        forall k | 1 <= k < |r|
          ensures '\n' !in r[k]
        {
          assert r[k] == rest[k - 1];
        }
      } else {
        assert '\n' !in cur + [s[i]];
        SplitFromHasNoBreak(s, i + 1, cur + [s[i]]);
      }
    }
  }

  /** No piece holds a line break. */
  lemma SplitPiecesHaveNoBreak(s: string)
    ensures forall i :: 0 <= i < |Split(s)| ==> '\n' !in Split(s)[i]
  {
    SplitFromHasNoBreak(s, 0, "");
  }

  /** The pieces glued back together with line breaks in between. */
  function Join(parts: seq<string>): string {
    if |parts| == 0 then ""
    else if |parts| == 1 then parts[0]
    else parts[0] + "\n" + Join(parts[1..])
  }

  lemma {:induction false} JoinSplitFrom(s: string, i: nat, cur: string)
    requires i <= |s|
    ensures Join(SplitFrom(s, i, cur)) == cur + s[i..]
    decreases |s| - i
  {
    if i < |s| {
      assert s[i..] == [s[i]] + s[i + 1..];
      if s[i] == '\n' {
        var rest := SplitFrom(s, i + 1, "");
        JoinSplitFrom(s, i + 1, "");
        assert ([cur] + rest)[1..] == rest;
        assert Join([cur] + rest) == cur + "\n" + Join(rest);
      } else {
        JoinSplitFrom(s, i + 1, cur + [s[i]]);
        assert cur + [s[i]] + s[i + 1..] == cur + s[i..];
      }
    }
  }

  /** Splitting loses nothing: joining the pieces gives the text back. */
  lemma JoinSplit(s: string)
    ensures Join(Split(s)) == s
  {
    JoinSplitFrom(s, 0, "");
    assert "" + s[0..] == s;
  }

  /** Past the end of `a`, splitting `a + t` is splitting `t`. */
  lemma {:induction false} SplitFromShift(a: string, t: string, j: nat, cur: string)
    requires j <= |t|
    ensures SplitFrom(a + t, |a| + j, cur) == SplitFrom(t, j, cur)
    decreases |t| - j
  {
    if j < |t| {
      assert (a + t)[|a| + j] == t[j];
      if t[j] == '\n' {
        SplitFromShift(a, t, j + 1, "");
      } else {
        SplitFromShift(a, t, j + 1, cur + [t[j]]);
      }
    }
  }

  /** Text read before position `j` only lengthens the first piece. */
  lemma {:induction false} SplitFromCarry(t: string, j: nat, p: string, q: string)
    requires j <= |t|
    ensures SplitFrom(t, j, p + q) == [p + SplitFrom(t, j, q)[0]] + SplitFrom(t, j, q)[1..]
    decreases |t| - j
  {
    if j < |t| {
      if t[j] == '\n' {
        var rest := SplitFrom(t, j + 1, "");
        assert ([q] + rest)[1..] == rest;
      } else {
        SplitFromCarry(t, j + 1, p, q + [t[j]]);
        assert p + q + [t[j]] == p + (q + [t[j]]);
      }
    }
  }

  lemma {:induction false} SplitFromPrefix(a: string, t: string, i: nat, cur: string)
    requires i <= |a| && '\n' !in a
    ensures SplitFrom(a + t, i, cur) == SplitFrom(t, 0, cur + a[i..])
    decreases |a| - i
  {
    if i == |a| {
      SplitFromShift(a, t, 0, cur);
      assert cur + a[i..] == cur;
    } else {
      assert (a + t)[i] == a[i] && a[i] in a;
      SplitFromPrefix(a, t, i + 1, cur + [a[i]]);
      assert cur + [a[i]] + a[i + 1..] == cur + a[i..];
    }
  }

  /** Text without a line break followed by more text: the first piece of the
      split absorbs the prefix. */
  lemma SplitPrefix(a: string, t: string)
    requires '\n' !in a
    ensures Split(a + t) == [a + Split(t)[0]] + Split(t)[1..]
  {
    SplitFromPrefix(a, t, 0, "");
    assert "" + a[0..] == a + "";
    SplitFromCarry(t, 0, a, "");
  }

  /** A line break ends the first piece. */
  lemma SplitBreak(t: string)
    ensures Split("\n" + t) == [""] + Split(t)
  {
    var nt := "\n" + t;
    assert nt[0] == '\n';
    SplitFromShift("\n", t, 0, "");
  }

  /** Joining pieces that hold no line break and splitting again gives the
      pieces back. */
  lemma {:induction false} SplitJoin(parts: seq<string>)
    requires |parts| >= 1
    requires forall i :: 0 <= i < |parts| ==> '\n' !in parts[i]
    ensures Split(Join(parts)) == parts
  {
    if |parts| == 1 {
      SplitPrefix(parts[0], "");
      assert Split("") == [""];
      assert parts[0] + "" == parts[0];
      assert parts == [parts[0]];
    } else {
      var tail := Join(parts[1..]);
      SplitJoin(parts[1..]);
      var nt := "\n" + tail;
      SplitBreak(tail);
      assert Join(parts) == parts[0] + nt;
      SplitPrefix(parts[0], nt);
      assert Split(nt)[0] == "" && Split(nt)[1..] == parts[1..];
      assert parts[0] + "" == parts[0];
      assert parts == [parts[0]] + parts[1..];
    }
  }

  // ---------------------------------------------------------------------------
  // strings.TrimSpace
  // ---------------------------------------------------------------------------

  /** unicode.IsSpace: the Latin-1 spaces and the other code points with the
      Unicode White_Space property. */
  predicate IsSpace(c: char) {
    c == ' ' || ('\t' <= c <= '\r') || c == '\U{85}' || c == '\U{A0}'
    || c == '\U{1680}' || ('\U{2000}' <= c <= '\U{200A}')
    || c == '\U{2028}' || c == '\U{2029}' || c == '\U{202F}'
    || c == '\U{205F}' || c == '\U{3000}'
  }

  predicate AllSpace(s: string) {
    forall i :: 0 <= i < |s| ==> IsSpace(s[i])
  }

  /** `s` without its leading white space: what is left does not begin with
      white space. */
  function TrimLeft(s: string): (r: string)
    ensures |r| <= |s|
    ensures r == [] || !IsSpace(r[0])
  {
    SuffixFrom(s, LeadingSpace(s, 0))
  }

  /** The characters of `s` from position `i` on. */
  function SuffixFrom(s: string, i: nat): (r: string)
    requires i <= |s|
    ensures |r| == |s| - i
    decreases |s| - i
  {
    if i == |s| then [] else [s[i]] + SuffixFrom(s, i + 1)
  }

  lemma {:induction false} SuffixFromIsSlice(s: string, i: nat)
    requires i <= |s|
    ensures SuffixFrom(s, i) == s[i..]
    decreases |s| - i
  {
    if i < |s| {
      SuffixFromIsSlice(s, i + 1);
      assert s[i..] == [s[i]] + s[i + 1..];
    }
  }

  /** The first position at or after `i` that does not hold white space. */
  function LeadingSpace(s: string, i: nat): (k: nat)
    requires i <= |s|
    ensures i <= k <= |s| && (k == |s| || !IsSpace(s[k]))
    decreases |s| - i
  {
    if i < |s| && IsSpace(s[i]) then LeadingSpace(s, i + 1) else i
  }

  /** `s` without its trailing white space: what is left starts where `s`
      does and does not end with white space. */
  function TrimRight(s: string): (r: string)
    ensures |r| <= |s|
    ensures r == [] || (r[0] == s[0] && !IsSpace(r[|r| - 1]))
  {
    s[..TrailingSpace(s, |s|)]
  }

  /** The end of `s[..j]` once its trailing white space is cut off. */
  function TrailingSpace(s: string, j: nat): (k: nat)
    requires j <= |s|
    ensures k <= j && (k == 0 || !IsSpace(s[k - 1]))
  {
    if j > 0 && IsSpace(s[j - 1]) then TrailingSpace(s, j - 1) else j
  }

  /** strings.TrimSpace: `s` without leading and trailing white space. */
  function TrimSpace(s: string): (r: string)
    ensures |r| <= |s|
    ensures r == [] || (!IsSpace(r[0]) && !IsSpace(r[|r| - 1]))
  {
    TrimRight(TrimLeft(s))
  }

  lemma {:induction false} LeadingSpaceIsSpace(s: string, i: nat)
    requires i <= |s|
    ensures forall j :: i <= j < LeadingSpace(s, i) ==> IsSpace(s[j])
    decreases |s| - i
  {
    if i < |s| && IsSpace(s[i]) {
      LeadingSpaceIsSpace(s, i + 1);
    }
  }

  /** TrimLeft keeps a suffix and cuts off only white space. */
  lemma TrimLeftCuts(s: string)
    ensures var r := TrimLeft(s);
      r == s[|s| - |r|..] && AllSpace(s[..|s| - |r|])
  {
    LeadingSpaceIsSpace(s, 0);
    SuffixFromIsSlice(s, LeadingSpace(s, 0));
  }

  lemma {:induction false} TrailingSpaceIsSpace(s: string, j: nat)
    requires j <= |s|
    ensures forall k :: TrailingSpace(s, j) <= k < j ==> IsSpace(s[k])
  {
    if j > 0 && IsSpace(s[j - 1]) {
      TrailingSpaceIsSpace(s, j - 1);
    }
  }

  /** TrimRight keeps a prefix and cuts off only white space. */
  lemma TrimRightCuts(s: string)
    ensures var r := TrimRight(s);
      r == s[..|r|] && AllSpace(s[|r|..])
  {
    TrailingSpaceIsSpace(s, |s|);
  }

  /** TrimSpace cuts only white space: `s` is white space `a`, the trimmed
      text, then white space `b`. */
  lemma TrimSpaceCuts(s: string) returns (a: string, b: string)
    ensures AllSpace(a) && AllSpace(b) && s == a + TrimSpace(s) + b
  {
    var l := TrimLeft(s);
    TrimLeftCuts(s);
    a := s[..|s| - |l|];
    assert s == a + l by {
      assert s == s[..|s| - |l|] + s[|s| - |l|..];
    }
    var r := TrimRight(l);
    TrimRightCuts(l);
    b := l[|r|..];
    assert l == r + b by {
      assert l == l[..|r|] + l[|r|..];
    }
    assert a + l == a + r + b;
  }

  lemma {:induction false} LeadingSpaceSkips(a: string, t: string, i: nat)
    requires AllSpace(a) && i <= |a|
    requires t == [] || !IsSpace(t[0])
    ensures LeadingSpace(a + t, i) == |a|
    decreases |a| - i
  {
    if i < |a| {
      assert (a + t)[i] == a[i];
      LeadingSpaceSkips(a, t, i + 1);
    } else if t != [] {
      assert (a + t)[i] == t[0];
    }
  }

  lemma TrimLeftSkips(a: string, t: string)
    requires AllSpace(a)
    requires t == [] || !IsSpace(t[0])
    ensures TrimLeft(a + t) == t
  {
    LeadingSpaceSkips(a, t, 0);
    SuffixFromIsSlice(a + t, |a|);
    assert (a + t)[|a|..] == t;
  }

  lemma {:induction false} TrailingSpaceSkips(t: string, b: string, j: nat)
    requires AllSpace(b) && |t| <= j <= |t| + |b|
    requires t == [] || !IsSpace(t[|t| - 1])
    ensures TrailingSpace(t + b, j) == |t|
  {
    if j > |t| {
      assert (t + b)[j - 1] == b[j - 1 - |t|];
      TrailingSpaceSkips(t, b, j - 1);
    } else if t != [] {
      assert (t + b)[j - 1] == t[|t| - 1];
    }
  }

  lemma TrimRightSkips(t: string, b: string)
    requires AllSpace(b)
    requires t == [] || !IsSpace(t[|t| - 1])
    ensures TrimRight(t + b) == t
  {
    TrailingSpaceSkips(t, b, |t + b|);
    assert (t + b)[..|t|] == t;
  }

  /** TrimSpace removes exactly the white space around the text: white space,
      then text with no white space at either end, then white space, trims
      to that text. */
  lemma TrimSpaceExact(a: string, m: string, b: string)
    requires AllSpace(a) && AllSpace(b)
    requires m == [] || (!IsSpace(m[0]) && !IsSpace(m[|m| - 1]))
    ensures TrimSpace(a + m + b) == m
  {
    if m == [] {
      assert a + m + b == a + b;
      assert AllSpace(a + b);
      TrimLeftSkips(a + b, []);
      assert a + b + [] == a + b;
    } else {
      assert a + m + b == a + (m + b);
      TrimLeftSkips(a, m + b);
      TrimRightSkips(m, b);
    }
  }

  /** Trimming is idempotent. */
  lemma TrimSpaceIdempotent(s: string)
    ensures TrimSpace(TrimSpace(s)) == TrimSpace(s)
  {
    var m := TrimSpace(s);
    assert [] + m + [] == m;
    TrimSpaceExact([], m, []);
  }
}
