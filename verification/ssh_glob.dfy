/** Host patterns: `*` stands for any run of characters, `?` for one. */
module GlobRules {
  predicate FitsOne(c: char, x: char) {
    c == '?' || c == x
  }

  predicate Matches(pattern: string, text: string)
    decreases |pattern| + |text|
  {
    if pattern == "" then text == ""
    else if pattern[0] == '*' then Matches(pattern[1..], text) || (text != "" && Matches(pattern, text[1..]))
    else text != "" && FitsOne(pattern[0], text[0]) && Matches(pattern[1..], text[1..])
  }

  predicate AllStars(pattern: string) {
    forall i :: 0 <= i < |pattern| ==> pattern[i] == '*'
  }

  /** `segment` has no star and fits `text` character by character. */
  predicate Fits(segment: string, text: string) {
    |segment| == |text| && forall i :: 0 <= i < |segment| ==> segment[i] != '*' && FitsOne(segment[i], text[i])
  }

  predicate Plain(name: string) {
    forall i :: 0 <= i < |name| ==> name[i] != '*' && name[i] != '?'
  }

  // ----- what the definition amounts to -----

  /** Without pattern characters a pattern matches itself alone. */
  lemma {:induction false} PlainMatchesItself(pattern: string, text: string)
    requires Plain(pattern)
    ensures Matches(pattern, text) <==> pattern == text
  {
    if pattern != "" && text != "" && pattern[0] == text[0] {
      PlainMatchesItself(pattern[1..], text[1..]);
      assert pattern == [pattern[0]] + pattern[1..] && text == [text[0]] + text[1..];
    }
  }

  lemma {:induction false} NothingLeftToMatch(pattern: string)
    ensures Matches(pattern, "") <==> AllStars(pattern)
  {
    if pattern != "" && pattern[0] == '*' {
      NothingLeftToMatch(pattern[1..]);
      assert pattern == [pattern[0]] + pattern[1..];
    }
  }

  /** A star followed by `rest` matches exactly the texts that end in a match of `rest`. */
  lemma {:induction false} StarMatchesSuffixes(rest: string, text: string)
    ensures Matches("*" + rest, text) <==> exists j :: 0 <= j <= |text| && Matches(rest, text[j..])
    decreases |text|
  {
    assert ("*" + rest)[1..] == rest && text[0..] == text;
    if text != "" {
      StarMatchesSuffixes(rest, text[1..]);
      forall j | 0 <= j <= |text| - 1 ensures text[1..][j..] == text[j + 1..] {
      }
      if j :| 1 <= j <= |text| && Matches(rest, text[j..]) {
        assert Matches(rest, text[1..][j - 1..]);
      }
      if j :| 0 <= j <= |text| - 1 && Matches(rest, text[1..][j..]) {
        assert Matches(rest, text[j + 1..]);
      }
    }
  }

  /** A star-free segment takes as many characters as it has. */
  lemma {:induction false} PeelSegment(segment: string, rest: string, text: string)
    requires forall i :: 0 <= i < |segment| ==> segment[i] != '*'
    ensures Matches(segment + rest, text) <==>
            |segment| <= |text| && Fits(segment, text[..|segment|]) && Matches(rest, text[|segment|..])
  {
    if segment == "" {
      assert segment + rest == rest && text[0..] == text;
    } else if text != "" {
      assert (segment + rest)[1..] == segment[1..] + rest;
      PeelSegment(segment[1..], rest, text[1..]);
      if |segment| <= |text| {
        assert text[1..][|segment| - 1..] == text[|segment|..];
        assert text[..|segment|][1..] == text[1..][..|segment| - 1];
        FitsStep(segment, text[..|segment|]);
      }
    }
  }

  lemma FitsStep(segment: string, text: string)
    requires |segment| == |text| > 0 && segment[0] != '*'
    ensures Fits(segment, text) <==> FitsOne(segment[0], text[0]) && Fits(segment[1..], text[1..])
  {
    assert segment == [segment[0]] + segment[1..] && text == [text[0]] + text[1..];
  }

  /** What a star pattern matches after dropping characters, it matches without dropping them. */
  lemma StarAbsorbs(rest: string, text: string, k: nat)
    requires k <= |text| && Matches("*" + rest, text[k..])
    ensures Matches("*" + rest, text)
  {
    StarMatchesSuffixes(rest, text[k..]);
    var j :| 0 <= j <= |text| - k && Matches(rest, text[k..][j..]);
    assert text[k..][j..] == text[k + j..];
    StarMatchesSuffixes(rest, text);
  }

  // ----- why only the latest star needs to be retried -----

  /** Reaching a second star settles the first: whatever matches then matches from where the second star is. */
  lemma LaterStarSuffices(segment: string, rest: string, taken: string, left: string)
    requires Fits(segment, taken)
    ensures Matches("*" + (segment + ("*" + rest)), taken + left) <==> Matches("*" + rest, left)
  {
    var text := taken + left;
    var tail := "*" + rest;
    assert text[..|segment|] == taken && text[|segment|..] == left && text[0..] == text;
    StarMatchesSuffixes(segment + tail, text);
    PeelSegment(segment, tail, text);
    if Matches(tail, left) {
      assert Matches(segment + tail, text[0..]);
    }
    if j :| 0 <= j <= |text| && Matches(segment + tail, text[j..]) {
      PeelSegment(segment, tail, text[j..]);
      assert text[j..][|segment|..] == left[j..];
      StarAbsorbs(rest, left, j);
    }
  }

  /** Failing after the segment is failing at this start: the star has to take one more character. */
  lemma StarMovesOn(segment: string, rest: string, taken: string, left: string)
    requires Fits(segment, taken) && !Matches(rest, left) && taken + left != ""
    ensures Matches("*" + (segment + rest), taken + left) <==> Matches("*" + (segment + rest), (taken + left)[1..])
  {
    var text := taken + left;
    assert text[..|segment|] == taken && text[|segment|..] == left;
    PeelSegment(segment, rest, text);
    assert ("*" + (segment + rest))[1..] == segment + rest;
  }

  /** At the end of the text only the latest start can still match. */
  lemma EndOfText(segment: string, rest: string, taken: string)
    requires Fits(segment, taken)
    ensures Matches("*" + (segment + rest), taken) <==> AllStars(rest)
  {
    NothingLeftToMatch(rest);
    StarMatchesSuffixes(segment + rest, taken);
    PeelSegment(segment, rest, taken);
    assert taken[..|segment|] == taken && taken[|segment|..] == "" && taken[0..] == taken;
    if j :| 0 <= j <= |taken| && Matches(segment + rest, taken[j..]) {
      PeelSegment(segment, rest, taken[j..]);
    }
  }
}

module Glob {
  import opened Common
  import opened GlobRules

  /** Where the latest star is, and where in the text what follows it was last tried. */
  datatype Backtrack = Backtrack(star: nat, start: nat)

  /** What the loop has settled: the whole question is the question left, and since the star everything fitted. */
  ghost predicate Settled(pattern: string, text: string, p: nat, t: nat, backtrack: Option<Backtrack>) {
    && p <= |pattern| && t <= |text|
    && match backtrack
       case None => Matches(pattern, text) == Matches(pattern[p..], text[t..])
       case Some(b) =>
         && b.star < p && b.start <= t && pattern[b.star] == '*'
         && Fits(pattern[b.star + 1..p], text[b.start..t])
         && Matches(pattern, text) == Matches(pattern[b.star..], text[b.start..])
  }

  function Split(pattern: string, star: nat, p: nat): (r: (string, string))
    requires star < p <= |pattern| && pattern[star] == '*'
    ensures pattern[star..] == "*" + (r.0 + r.1)
  {
    assert pattern[star..] == "*" + (pattern[star + 1..p] + pattern[p..]);
    (pattern[star + 1..p], pattern[p..])
  }

  lemma AtStar(pattern: string, text: string, p: nat, t: nat, backtrack: Option<Backtrack>)
    requires Settled(pattern, text, p, t, backtrack) && p < |pattern| && pattern[p] == '*'
    ensures Settled(pattern, text, p + 1, t, Some(Backtrack(p, t)))
  {
    hide Matches;
    assert pattern[p + 1..p + 1] == "" && text[t..t] == "";
    if backtrack.Some? {
      var b := backtrack.value;
      var (segment, rest) := Split(pattern, b.star, p);
      assert rest == "*" + pattern[p + 1..];
      assert text[b.start..] == text[b.start..t] + text[t..];
      LaterStarSuffices(segment, pattern[p + 1..], text[b.start..t], text[t..]);
    }
  }

  lemma AtFit(pattern: string, text: string, p: nat, t: nat, backtrack: Option<Backtrack>)
    requires Settled(pattern, text, p, t, backtrack) && p < |pattern| && t < |text|
    requires pattern[p] != '*' && FitsOne(pattern[p], text[t])
    ensures Settled(pattern, text, p + 1, t + 1, backtrack)
  {
    if backtrack.Some? {
      var b := backtrack.value;
      assert pattern[b.star + 1..p + 1] == pattern[b.star + 1..p] + [pattern[p]];
      assert text[b.start..t + 1] == text[b.start..t] + [text[t]];
    }
  }

  lemma AtMisfit(pattern: string, text: string, p: nat, t: nat, backtrack: Option<Backtrack>)
    requires Settled(pattern, text, p, t, backtrack) && t < |text|
    requires p == |pattern| || (pattern[p] != '*' && !FitsOne(pattern[p], text[t]))
    ensures backtrack.None? ==> !Matches(pattern, text)
    ensures backtrack.Some? ==> var b := backtrack.value;
                                Settled(pattern, text, b.star + 1, b.start + 1, Some(Backtrack(b.star, b.start + 1)))
  {
    assert !Matches(pattern[p..], text[t..]);
    if backtrack.Some? {
      hide Matches;
      var b := backtrack.value;
      var (segment, rest) := Split(pattern, b.star, p);
      assert text[b.start..] == text[b.start..t] + text[t..];
      StarMovesOn(segment, rest, text[b.start..t], text[t..]);
      assert text[b.start..][1..] == text[b.start + 1..];
      assert pattern[b.star + 1..b.star + 1] == "" && text[b.start + 1..b.start + 1] == "";
    }
  }

  lemma AtEnd(pattern: string, text: string, p: nat, backtrack: Option<Backtrack>)
    requires Settled(pattern, text, p, |text|, backtrack)
    ensures Matches(pattern, text) <==> AllStars(pattern[p..])
  {
    hide Matches;
    if backtrack.Some? {
      var b := backtrack.value;
      var (segment, rest) := Split(pattern, b.star, p);
      assert text[b.start..|text|] == text[b.start..];
      EndOfText(segment, rest, text[b.start..]);
    } else {
      assert text[|text|..] == "";
      NothingLeftToMatch(pattern[p..]);
    }
  }

  /** Decides a match going back to the latest star only. */
  method Run(pattern: string, text: string) returns (matched: bool)
    ensures matched <==> Matches(pattern, text)
  {
    hide Matches, Fits;
    var p: nat, t: nat := 0, 0;
    var backtrack: Option<Backtrack> := None;
    assert pattern[0..] == pattern && text[0..] == text;
    while t < |text|
      invariant Settled(pattern, text, p, t, backtrack)
      decreases if backtrack.Some? then |pattern| - backtrack.value.star else |pattern| + 1,
                if backtrack.Some? then |text| - backtrack.value.start else 0,
                |pattern| - p
    {
      if p < |pattern| && pattern[p] == '*' {
        AtStar(pattern, text, p, t, backtrack);
        backtrack := Some(Backtrack(p, t));
        p := p + 1;
      } else if p < |pattern| && FitsOne(pattern[p], text[t]) {
        AtFit(pattern, text, p, t, backtrack);
        p, t := p + 1, t + 1;
      } else {
        AtMisfit(pattern, text, p, t, backtrack);
        if backtrack.None? {
          return false;
        }
        var b := backtrack.value;
        p, t := b.star + 1, b.start + 1;
        backtrack := Some(Backtrack(b.star, b.start + 1));
      }
    }
    AtEnd(pattern, text, p, backtrack);
    matched := true;
    for i := p to |pattern|
      invariant matched <==> forall k :: p <= k < i ==> pattern[k] == '*'
    {
      matched := matched && pattern[i] == '*';
    }
    assert forall k :: p <= k < |pattern| ==> pattern[p..][k - p] == pattern[k];
  }
}
