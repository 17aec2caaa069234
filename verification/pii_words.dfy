/** The words of an object key. */
module KeyWordLaws {
  import opened Common
  import opened WalkRules

  /** A word with the separators in front of it. */
  datatype Part = Part(gap: string, word: string)

  predicate Separators(s: string) {
    forall i :: 0 <= i < |s| ==> !Joins(s[i])
  }

  /** An ASCII letter or digit. */
  predicate Joins(c: char) {
    'a' <= FoldChar(c) <= 'z' || c in "0123456789"
  }

  predicate FitPart(part: Part) {
    Separators(part.gap) && part.word != "" && forall k :: 0 <= k < |part.word| ==> Joins(part.word[k])
  }

  /** Words are not empty, and separators stand between any two. */
  predicate FitParts(parts: seq<Part>) {
    && (forall i :: 0 <= i < |parts| ==> FitPart(parts[i]))
    && (forall i :: 0 < i < |parts| ==> parts[i].gap != "")
  }

  function PrintParts(parts: seq<Part>): string {
    if parts == [] then "" else parts[0].gap + (parts[0].word + PrintParts(parts[1..]))
  }

  function Lowered(parts: seq<Part>): seq<string> {
    if parts == [] then [] else [Fold(parts[0].word)] + Lowered(parts[1..])
  }

  lemma JoinsIs(c: char)
    ensures Joins(c) <==> IsAsciiAlphanumeric(c)
  {
  }

  /** Letters and digits extend the word at hand, in lower case. */
  lemma {:induction false} WordGrows(word: string, rest: string, buffer: string)
    requires forall k :: 0 <= k < |word| ==> Joins(word[k])
    ensures WordsFrom(word + rest, buffer) == WordsFrom(rest, buffer + Fold(word))
    decreases |word|
  {
    if word == "" {
      assert word + rest == rest && buffer + Fold("") == buffer;
    } else {
      var s := word + rest;
      assert s[0] == word[0] && s[1..] == word[1..] + rest;
      JoinsIs(word[0]);
      WordGrows(word[1..], rest, buffer + [FoldChar(word[0])]);
      assert (buffer + [FoldChar(word[0])]) + Fold(word[1..]) == buffer + Fold(word);
    }
  }

  /** Separators end the word at hand and add none. */
  lemma {:induction false} GapEnds(gap: string, rest: string, buffer: string)
    requires Separators(gap) && gap != ""
    ensures WordsFrom(gap + rest, buffer) == Word(buffer) + WordsFrom(rest, "")
    decreases |gap|
  {
    var s := gap + rest;
    assert s[0] == gap[0] && s[1..] == gap[1..] + rest;
    JoinsIs(gap[0]);
    if |gap| > 1 {
      GapEnds(gap[1..], rest, "");
      assert [] + WordsFrom(rest, "") == WordsFrom(rest, "");
    } else {
      assert s[1..] == rest;
    }
  }

  lemma {:induction false} PartsRead(parts: seq<Part>, tail: string, buffer: string)
    requires FitParts(parts) && Separators(tail) && (buffer != "" && parts != [] ==> parts[0].gap != "")
    ensures WordsFrom(PrintParts(parts) + tail, buffer) == Word(buffer) + Lowered(parts)
    decreases |parts|
  {
    if parts == [] {
      assert "" + tail == tail && Word(buffer) + [] == Word(buffer);
      if tail != "" {
        GapEnds(tail, "", buffer);
        assert tail + "" == tail;
      }
    } else {
      var gap, word := parts[0].gap, parts[0].word;
      var rest := PrintParts(parts[1..]) + tail;
      assert PrintParts(parts) + tail == gap + (word + rest);
      assert FitParts(parts[1..]) by {
        forall i | 0 <= i < |parts| - 1 ensures parts[1..][i] == parts[i + 1] {}
      }
      if gap == "" {
        assert gap + (word + rest) == word + rest && buffer == "";
      } else {
        GapEnds(gap, word + rest, buffer);
      }
      WordGrows(word, rest, "");
      assert "" + Fold(word) == Fold(word) != "";
      PartsRead(parts[1..], tail, Fold(word));
      assert Word(buffer) + ([Fold(word)] + Lowered(parts[1..])) == Word(buffer) + Lowered(parts);
      assert gap == "" ==> Word(buffer) == [] && [] + Lowered(parts) == Lowered(parts);
    }
  }

  /** The words of a key are its runs of ASCII letters and digits, in lower case and in order. */
  lemma KeyWordsAreParts(parts: seq<Part>, tail: string)
    requires FitParts(parts) && Separators(tail)
    ensures KeyWords(PrintParts(parts) + tail) == Lowered(parts)
  {
    PartsRead(parts, tail, "");
    assert Word("") + Lowered(parts) == Lowered(parts);
  }
}
