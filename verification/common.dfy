/** Value wrappers and ASCII case folding shared by the component models. */
module Common {
  datatype Option<+T> = None | Some(value: T) {
    function GetOr(default: T): T {
      if Some? then value else default
    }
  }

  /** A success value or an error; usable with `:-`. */
  datatype Result<+T, +E> = Ok(value: T) | Err(error: E) {
    predicate IsFailure() {
      Err?
    }

    function PropagateFailure<U>(): Result<U, E>
      requires Err?
    {
      Err(error)
    }

    function Extract(): T
      requires Ok?
    {
      value
    }
  }

  function FoldChar(c: char): char {
    if 'A' <= c <= 'Z' then (c as int + 32) as char else c
  }

  /** `str::to_ascii_lowercase`. */
  function Fold(s: string): string {
    seq(|s|, i requires 0 <= i < |s| => FoldChar(s[i]))
  }

  lemma FoldIdempotent(s: string)
    ensures Fold(Fold(s)) == Fold(s)
  {
    assert forall i :: 0 <= i < |s| ==> Fold(Fold(s))[i] == Fold(s)[i];
  }

  lemma SuffixAfter<T>(s: seq<T>, pos: nat, prefix: seq<T>, rest: seq<T>)
    requires pos <= |s| && s[pos..] == prefix + rest
    ensures pos + |prefix| <= |s| && s[pos..pos + |prefix|] == prefix && s[pos + |prefix|..] == rest
  {
    assert s[pos + |prefix|..] == s[pos..][|prefix|..];
    assert s[pos..pos + |prefix|] == s[pos..][..|prefix|];
  }

  // ----- text -----

  const BYTE_ORDER_MARK := '\U{FEFF}'

  /** Unicode white space, as in `char::is_whitespace`. */
  predicate IsWhitespace(c: char) {
    || '\t' <= c <= '\r' || c == ' ' || c == '\U{85}' || c == '\U{A0}' || c == '\U{1680}'
    || '\U{2000}' <= c <= '\U{200A}' || c == '\U{2028}' || c == '\U{2029}' || c == '\U{202F}'
    || c == '\U{205F}' || c == '\U{3000}'
  }

  function TrimStart(s: string): string {
    if s != "" && IsWhitespace(s[0]) then TrimStart(s[1..]) else s
  }

  function TrimEnd(s: string): string {
    if s != "" && IsWhitespace(s[|s| - 1]) then TrimEnd(s[..|s| - 1]) else s
  }

  function Trim(s: string): string {
    TrimEnd(TrimStart(s))
  }

  predicate White(s: string) {
    forall i :: 0 <= i < |s| ==> IsWhitespace(s[i])
  }

  lemma {:induction false} TrimsStart(lead: string, s: string)
    requires White(lead) && (s == "" || !IsWhitespace(s[0]))
    ensures TrimStart(lead + s) == s
    decreases |lead|
  {
    if lead == "" {
      assert lead + s == s;
    } else {
      assert (lead + s)[1..] == lead[1..] + s;
      TrimsStart(lead[1..], s);
    }
  }

  lemma {:induction false} TrailTrims(text: string, trail: string)
    requires text == "" || !IsWhitespace(text[|text| - 1])
    requires White(trail)
    ensures TrimEnd(text + trail) == text
    decreases |trail|
  {
    if trail == "" {
      assert text + trail == text;
    } else {
      var n := |trail| - 1;
      assert (text + trail)[..|text| + n] == text + trail[..n];
      assert (text + trail)[|text| + n] == trail[n];
      TrailTrims(text, trail[..n]);
    }
  }

  function WithoutMark(text: string): string {
    if text != "" && text[0] == BYTE_ORDER_MARK then text[1..] else text
  }
}
