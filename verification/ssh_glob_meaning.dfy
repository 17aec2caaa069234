/** What a host pattern matches, by laying it along the text. */
module GlobMeaning {
  import opened GlobRules

  /** A star covers any stretch of the text, `?` one character, any other character itself. */
  predicate Covers(c: char, text: string, from: nat, to: nat) {
    from <= to <= |text|
    && match c
       case '*' => true
       case '?' => to == from + 1
       case _ => to == from + 1 && text[from] == c
  }

  /** Where along the text each pattern character starts. */
  predicate Laid(pattern: string, text: string, cuts: seq<nat>) {
    && |cuts| == |pattern| + 1 && cuts[0] == 0 && cuts[|pattern|] == |text|
    && forall i :: 0 <= i < |pattern| ==> Covers(pattern[i], text, cuts[i], cuts[i + 1])
  }

  /** The cuts behind `first`, one character further on. */
  function Moved(cuts: seq<nat>): (r: seq<nat>)
    ensures |r| == |cuts| && forall i :: 0 <= i < |r| ==> r[i] == cuts[i] + 1
  {
    seq(|cuts|, i requires 0 <= i < |cuts| => cuts[i] + 1)
  }

  function MovedBack(cuts: seq<nat>): (r: seq<nat>)
    requires forall i :: 0 <= i < |cuts| ==> cuts[i] > 0
    ensures |r| == |cuts| && forall i :: 0 <= i < |r| ==> r[i] == cuts[i] - 1
  {
    seq(|cuts|, i requires 0 <= i < |cuts| => cuts[i] - 1)
  }

  lemma {:induction false} MatchIsLaid(pattern: string, text: string) returns (cuts: seq<nat>)
    requires Matches(pattern, text)
    ensures Laid(pattern, text, cuts)
    decreases |pattern| + |text|
  {
    if pattern == "" {
      cuts := [0];
    } else if pattern[0] == '*' && Matches(pattern[1..], text) {
      var rest := MatchIsLaid(pattern[1..], text);
      cuts := [0] + rest;
      assert forall i :: 0 < i < |pattern| ==> pattern[i] == pattern[1..][i - 1];
    } else if pattern[0] == '*' {
      var rest := MatchIsLaid(pattern, text[1..]);
      cuts := [0] + Moved(rest[1..]);
      forall i | 0 <= i < |pattern| ensures Covers(pattern[i], text, cuts[i], cuts[i + 1]) {
        assert Covers(pattern[i], text[1..], rest[i], rest[i + 1]);
      }
    } else {
      var rest := MatchIsLaid(pattern[1..], text[1..]);
      cuts := [0] + Moved(rest);
      forall i | 0 <= i < |pattern| ensures Covers(pattern[i], text, cuts[i], cuts[i + 1]) {
        if i > 0 { assert Covers(pattern[1..][i - 1], text[1..], rest[i - 1], rest[i]); }
      }
    }
  }

  lemma {:induction false} CutsGrow(pattern: string, text: string, cuts: seq<nat>, i: nat, j: nat)
    requires Laid(pattern, text, cuts) && i <= j < |cuts|
    ensures cuts[i] <= cuts[j]
    decreases j - i
  {
    if i < j {
      CutsGrow(pattern, text, cuts, i, j - 1);
      assert Covers(pattern[j - 1], text, cuts[j - 1], cuts[j]);
    }
  }

  lemma {:induction false} LaidMatches(pattern: string, text: string, cuts: seq<nat>)
    requires Laid(pattern, text, cuts)
    ensures Matches(pattern, text)
    decreases |pattern| + |text|
  {
    if pattern != "" {
      var n := |cuts|;
      assert Covers(pattern[0], text, cuts[0], cuts[1]);
      if cuts[1] == 0 {
        assert Laid(pattern[1..], text, cuts[1..]);
        LaidMatches(pattern[1..], text, cuts[1..]);
      } else {
        forall i | 1 <= i < n ensures cuts[i] > 0 { CutsGrow(pattern, text, cuts, 1, i); }
        var back := MovedBack(cuts[1..]);
        forall i | 1 <= i < |pattern| ensures Covers(pattern[i], text[1..], cuts[i] - 1, cuts[i + 1] - 1) {
          assert Covers(pattern[i], text, cuts[i], cuts[i + 1]);
        }
        if pattern[0] == '*' {
          var rest := [0] + back;
          assert Laid(pattern, text[1..], rest);
          LaidMatches(pattern, text[1..], rest);
        } else {
          assert Laid(pattern[1..], text[1..], back);
          LaidMatches(pattern[1..], text[1..], back);
        }
      }
    }
  }

  /** A pattern matches exactly the texts it can be laid along from end to end. */
  lemma MatchesExactly(pattern: string, text: string)
    ensures Matches(pattern, text) <==> exists cuts :: Laid(pattern, text, cuts)
  {
    if Matches(pattern, text) {
      var cuts := MatchIsLaid(pattern, text);
    }
    if cuts :| Laid(pattern, text, cuts) {
      LaidMatches(pattern, text, cuts);
    }
  }
}
