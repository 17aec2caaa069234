/** The values of an env file in each form are read back. */
module DotenvValues {
  import opened Common
  import opened TemplateRules
  import opened DotenvRules
  import opened DotenvPrinting
  import TemplateLaws
  import TemplatePrinting

  // ----- double quotes -----

  /** What is left of a unit between the quotes: only a backslash before the quote disappears. */
  function Between(unit: Unit): string {
    if unit == Named('"') then "\"" else Spelt(unit)
  }

  function BetweenAll(units: seq<Unit>): string {
    if units == [] then "" else Between(units[0]) + BetweenAll(units[1..])
  }

  /** Text without the quote and without a backslash is read as it is. */
  lemma {:induction false} PlainQuoted(text: string, rest: string, quote: char, chars: string)
    requires quote !in text && '\\' !in text
    ensures Quoted(text + rest, quote, false, chars) == More(Quoted(rest, quote, false, chars + text), |text|)
    decreases |text|
  {
    if text == "" {
      assert text + rest == rest && chars + text == chars;
    } else {
      var s := text + rest;
      assert s[0] == text[0] && s[1..] == text[1..] + rest;
      PlainQuoted(text[1..], rest, quote, chars + "" + [text[0]]);
      assert (chars + "" + [text[0]]) + text[1..] == chars + text;
    }
  }

  /** A backslash and the character behind it are read together. */
  lemma PairQuoted(c: char, rest: string, quote: char, chars: string)
    requires quote != '\\'
    ensures Quoted(['\\', c] + rest, quote, false, chars)
            == More(Quoted(rest, quote, false, chars + if c == quote then [c] else ['\\', c]), 2)
  {
    var s := ['\\', c] + rest;
    assert s[0] == '\\' && s[1..] == [c] + rest && ([c] + rest)[1..] == rest;
    assert chars + "\\" + [c] == chars + ['\\', c];
  }

  lemma OwnLetter(c: char)
    ensures Letter(c) == Some('"') <==> c == '"'
    ensures Letter('"') == Some('"')
  {
  }

  lemma UnitQuoted(unit: Unit, next: seq<Unit>, rest: string, chars: string)
    requires FitUnit(unit, next)
    ensures Quoted(Spelt(unit) + rest, '"', false, chars)
            == More(Quoted(rest, '"', false, chars + Between(unit)), |Spelt(unit)|)
  {
    hide Quoted, Letter;
    match unit
    case AsIs(c) => PlainQuoted([c], rest, '"', chars);
    case Named(c) =>
      OwnLetter(c);
      PairQuoted(Letter(c).value, rest, '"', chars);
    case Zero(digits) =>
      assert Spelt(unit) + rest == ['\\', '0'] + (digits + rest);
      PairQuoted('0', digits + rest, '"', chars);
      PlainQuoted(digits, rest, '"', chars + ['\\', '0']);
      assert (chars + ['\\', '0']) + digits == chars + Spelt(unit);
    case Kept(c) => PairQuoted(c, rest, '"', chars);
  }

  lemma {:induction false} UnitsQuoted(units: seq<Unit>, tail: string, chars: string)
    requires FitUnits(units)
    ensures Quoted(SpeltAll(units) + ("\"" + tail), '"', false, chars)
            == Some((chars + BetweenAll(units), |SpeltAll(units)| + 1))
    decreases |units|
  {
    hide FitUnit, Spelt, Between;
    var rest := "\"" + tail;
    if units == [] {
      assert "" + rest == rest && chars + "" == chars;
    } else {
      hide Quoted;
      var more := SpeltAll(units[1..]) + rest;
      assert SpeltAll(units) + rest == Spelt(units[0]) + more;
      UnitQuoted(units[0], units[1..], more, chars);
      UnitsQuoted(units[1..], tail, chars + Between(units[0]));
      assert (chars + Between(units[0])) + BetweenAll(units[1..]) == chars + BetweenAll(units);
    }
  }

  lemma LetterEscapes(c: char, rest: string)
    requires Letter(c).Some? && c != '"'
    ensures Escape(['\\', Letter(c).value] + rest) == (if c == '$' then "$$" else [c], 2)
  {
  }

  lemma {:induction false} PlainExpands(text: string, rest: string)
    requires '\\' !in text
    ensures ExpandEscapes(text + rest) == text + ExpandEscapes(rest)
    decreases |text|
  {
    hide Escape;
    if text == "" {
      assert text + rest == rest;
    } else {
      var s := text + rest;
      assert s[0] == text[0] && s[..1] == text[..1] && s[1..] == text[1..] + rest;
      PlainExpands(text[1..], rest);
      assert text == text[..1] + text[1..];
    }
  }

  lemma {:induction false} DigitsCount(digits: string, rest: string, limit: nat)
    requires |digits| <= limit && forall i :: 0 <= i < |digits| ==> '0' <= digits[i] <= '9'
    requires |digits| == limit || rest == "" || !('0' <= rest[0] <= '9')
    ensures OctalDigits(digits + rest, limit) == |digits|
    decreases |digits|
  {
    var s := digits + rest;
    if digits == "" {
      assert s == rest;
    } else {
      assert s[0] == digits[0] && s[1..] == digits[1..] + rest;
      DigitsCount(digits[1..], rest, limit - 1);
    }
  }

  lemma Base8Of3(digits: string)
    requires IsOctal(digits)
    ensures Base8(digits) == 64 * DigitValue(digits[0]) + 8 * DigitValue(digits[1]) + DigitValue(digits[2])
    ensures Base8(digits) <= 0xff
  {
    assert digits[..2][..1] == digits[..1] && digits[..1][..0] == "";
    assert Base8(digits[..1]) == DigitValue(digits[0]);
    assert Base8(digits[..2]) == 8 * Base8(digits[..1]) + DigitValue(digits[1]);
  }

  lemma ZeroEscapes(digits: string, rest: string)
    requires |digits| <= 3 && forall i :: 0 <= i < |digits| ==> '0' <= digits[i] <= '9'
    requires |digits| == 3 || rest == "" || !('0' <= rest[0] <= '9')
    ensures Escape("\\0" + digits + rest) == (Stands(Zero(digits)), 2 + |digits|)
  {
    var s := "\\0" + digits + rest;
    assert s[2..] == digits + rest;
    DigitsCount(digits, rest, 3);
    assert s[..2 + |digits|] == "\\0" + digits;
    if |digits| == 3 {
      assert s[2] == digits[0] && s[3] == digits[1] && s[4] == digits[2];
      if IsOctal(digits) {
        Base8Of3(digits);
      } else {
        assert s[..5] == "\\0" + digits;
      }
    }
  }

  lemma UnitExpands(unit: Unit, next: seq<Unit>, rest: string)
    requires FitUnit(unit, next)
    requires unit.Zero? && |unit.digits| < 3 ==> rest == "" || !('0' <= rest[0] <= '9')
    ensures ExpandEscapes(Between(unit) + rest) == Stands(unit) + ExpandEscapes(rest)
  {
    hide Escape, ExpandEscapes, Letter, Base8;
    match unit
    case AsIs(c) => PlainExpands([c], rest);
    case Named(c) =>
      if c == '"' {
        PlainExpands("\"", rest);
      } else {
        LetterEscapes(c, rest);
        EscapeExpands(['\\', Letter(c).value], rest, Stands(unit), 2);
      }
    case Zero(digits) =>
      ZeroEscapes(digits, rest);
      assert "\\0" + digits + rest == Between(unit) + rest;
      EscapeExpands(Between(unit), rest, Stands(unit), 2 + |digits|);
    case Kept(c) =>
      KeptEscapes(c, rest);
      assert ['\\', c] + rest == "\\" + ([c] + rest);
      EscapeExpands("\\", [c] + rest, "\\", 1);
      PlainExpands([c], rest);
      assert "\\" + ([c] + ExpandEscapes(rest)) == ['\\', c] + ExpandEscapes(rest);
  }

  lemma EscapeExpands(front: string, rest: string, stands: string, n: nat)
    requires front != "" && front[0] == '\\' && |front| == n && Escape(front + rest) == (stands, n)
    ensures ExpandEscapes(front + rest) == stands + ExpandEscapes(rest)
  {
    hide Escape;
    assert (front + rest)[n..] == rest;
  }

  lemma KeptEscapes(c: char, rest: string)
    requires c !in "abfnrtv\"\\$0"
    ensures Escape(['\\', c] + rest) == ("\\", 1)
  {
    var known := "abfnrtv\"\\$0";
    assert forall i :: 0 <= i < |known| ==> known[i] != c;
    assert c != known[0] && c != known[1] && c != known[2] && c != known[3] && c != known[4] && c != known[5];
    assert c != known[6] && c != known[7] && c != known[8] && c != known[9] && c != known[10];
  }

  lemma {:induction false} UnitsExpand(units: seq<Unit>)
    requires FitUnits(units)
    ensures ExpandEscapes(BetweenAll(units)) == StandsAll(units)
    decreases |units|
  {
    hide Stands, ExpandEscapes;
    if units == [] {
      PlainExpands("", "");
      NothingExpands();
    } else {
      var rest := BetweenAll(units[1..]);
      if |units| > 1 { StartsWithUnit(units[1], BetweenAll(units[2..])); }
      assert |units| > 1 ==> units[1..][0] == units[1] && units[1..][1..] == units[2..];
      UnitExpands(units[0], units[1..], rest);
      UnitsExpand(units[1..]);
    }
  }

  lemma NothingExpands()
    ensures ExpandEscapes("") == ""
  {
  }

  lemma StartsWithUnit(unit: Unit, rest: string)
    ensures var s := Between(unit) + rest;
            s != "" && s[0] == if unit.AsIs? then unit.c else if unit == Named('"') then '"' else '\\'
  {
  }

  lemma DoubleExtracts(units: seq<Unit>, tail: string)
    requires FitUnits(units)
    ensures ExtractValue("\"" + SpeltAll(units) + "\"" + tail) == Raw(StandsAll(units), true, |SpeltAll(units)| + 2)
  {
    hide Quoted, ExpandEscapes;
    var src := "\"" + SpeltAll(units) + "\"" + tail;
    assert src[1..] == SpeltAll(units) + ("\"" + tail);
    UnitsQuoted(units, tail, "");
    UnitsExpand(units);
    assert "" + BetweenAll(units) == BetweenAll(units);
  }

  // ----- single quotes -----

  /** What is read in one go: a character, or a backslash and the one behind it. */
  function Piece(text: string): (n: nat)
    requires text != "" && FitSingle(text)
    ensures 0 < n <= |text|
  {
    if text[0] == '\\' then 2 else 1
  }

  lemma {:induction false} PieceSpelt(text: string)
    requires text != "" && FitSingle(text)
    ensures FitSingle(text[Piece(text)..])
    ensures SingleSpelt(text)
            == (if text[0] == '\'' then ['\\', '\''] else text[..Piece(text)]) + SingleSpelt(text[Piece(text)..])
  {
    if text[0] == '\\' {
      PairSpelt(text);
    } else if text[0] == '\'' {
      assert "\\'" == ['\\', '\''];
    }
  }

  lemma {:induction false} PairSpelt(text: string)
    requires |text| > 1 && text[0] == '\\' && text[1] != '\''
    ensures SingleSpelt(text) == text[..2] + SingleSpelt(text[2..])
  {
    var second := text[1..];
    assert second != "" && second[0] == text[1] && second[1..] == text[2..];
    assert SingleSpelt(second) == second[..1] + SingleSpelt(second[1..]);
    assert SingleSpelt(text) == text[..1] + SingleSpelt(second);
    assert text[..2] == text[..1] + second[..1];
    assert text[..1] + (second[..1] + SingleSpelt(text[2..])) == text[..1] + second[..1] + SingleSpelt(text[2..]);
  }

  lemma PieceQuoted(text: string, more: string, chars: string)
    requires text != "" && FitSingle(text)
    ensures var front := if text[0] == '\'' then ['\\', '\''] else text[..Piece(text)];
            Quoted(front + more, '\'', false, chars)
            == More(Quoted(more, '\'', false, chars + text[..Piece(text)]), |front|)
  {
    hide Quoted;
    if text[0] == '\\' {
      assert text[..2] == ['\\', text[1]];
      PairQuoted(text[1], more, '\'', chars);
    } else if text[0] == '\'' {
      assert text[..1] == ['\''];
      PairQuoted('\'', more, '\'', chars);
    } else {
      PlainQuoted(text[..1], more, '\'', chars);
    }
  }

  lemma {:induction false} SingleQuoted(text: string, tail: string, chars: string)
    requires FitSingle(text)
    ensures Quoted(SingleSpelt(text) + ("'" + tail), '\'', false, chars)
            == Some((chars + text, |SingleSpelt(text)| + 1))
    decreases |text|
  {
    var rest := "'" + tail;
    if text == "" {
      assert "" + rest == rest && chars + "" == chars;
    } else {
      hide Quoted, SingleSpelt, FitSingle;
      var n := Piece(text);
      var front := if text[0] == '\'' then ['\\', '\''] else text[..n];
      var more := SingleSpelt(text[n..]) + rest;
      PieceSpelt(text);
      assert SingleSpelt(text) + rest == front + more;
      PieceQuoted(text, more, chars);
      SingleQuoted(text[n..], tail, chars + text[..n]);
      assert (chars + text[..n]) + text[n..] == chars + text;
    }
  }

  lemma SingleExtracts(text: string, tail: string)
    requires FitSingle(text)
    ensures ExtractValue("'" + SingleSpelt(text) + "'" + tail) == Raw(text, false, |SingleSpelt(text)| + 2)
  {
    hide Quoted;
    var src := "'" + SingleSpelt(text) + "'" + tail;
    assert src[1..] == SingleSpelt(text) + ("'" + tail);
    SingleQuoted(text, tail, "");
    assert "" + text == text;
  }

  // ----- no quotes -----

  lemma {:induction false} CommentCut(text: string, comment: string)
    requires !HasComment(text)
    ensures BeforeComment(text) == text && BeforeComment(text + " #" + comment) == text
    decreases |text|
  {
    var s := text + " #" + comment;
    if text == "" {
      assert s[0] == ' ' && s[1] == '#';
    } else {
      assert s[..1] == text[..1] && s[1..] == text[1..] + " #" + comment;
      forall i | 0 < i < |text| - 1 ensures !(text[1..][i - 1] == ' ' && text[1..][i] == '#') {
        assert text[1..][i - 1] == text[i] && text[1..][i] == text[i + 1];
      }
      CommentCut(text[1..], comment);
      assert |text| > 1 ==> !(text[1 - 1] == ' ' && text[1] == '#');
      assert s[1] == if |text| > 1 then text[1] else ' ';
      assert text == text[..1] + text[1..];
    }
  }

  lemma NoCommentWithTrail(text: string, trail: string)
    requires !HasComment(text) && Gap(trail)
    ensures !HasComment(text + trail)
  {
    forall i | 0 < i < |text + trail| ensures !((text + trail)[i - 1] == ' ' && (text + trail)[i] == '#') {
      if i < |text| {
        assert (text + trail)[i - 1] == text[i - 1] && (text + trail)[i] == text[i];
      } else {
        assert (text + trail)[i] == trail[i - |text|];
      }
    }
  }

  /** An unquoted value ends before its trailing white space and comment; its line is consumed. */
  lemma UnquotedExtracts(text: string, trail: string, comment: Option<string>, rest: string)
    requires '\n' !in text && !HasComment(text) && Gap(trail) && FitComment(comment)
    requires rest == "" || rest[0] == '\n'
    requires text == "" || (text[0] != '\'' && text[0] != '"' && !IsWhitespace(text[|text| - 1]))
    requires text == "" ==> comment.None?
    ensures var line := text + (trail + PrintComment(comment));
            ExtractValue(line + rest) == Raw(text, true, |line| + if rest == "" then 0 else 1)
  {
    hide BeforeComment, TrimEnd, HasComment, Find;
    var line := text + (trail + PrintComment(comment));
    var src := line + rest;
    assert '\n' !in line;
    LineFound(line, rest);
    assert src[..|line|] == line;
    LineCut(text, trail, comment);
    assert src != "" ==> src[0] == if text != "" then text[0] else if trail != "" then trail[0] else rest[0];
  }

  lemma LineCut(text: string, trail: string, comment: Option<string>)
    requires !HasComment(text) && Gap(trail) && (text == "" || !IsWhitespace(text[|text| - 1]))
    ensures TrimEnd(BeforeComment(text + (trail + PrintComment(comment)))) == text
  {
    hide BeforeComment, TrimEnd, HasComment;
    NoCommentWithTrail(text, trail);
    CommentCut(text + trail, comment.GetOr(""));
    TrailTrims(text, trail);
    if comment.None? {
      assert trail + "" == trail;
    } else {
      assert text + (trail + (" #" + comment.value)) == text + trail + " #" + comment.value;
    }
  }

  lemma LineFound(line: string, rest: string)
    requires '\n' !in line && (rest == "" || rest[0] == '\n')
    ensures Find(line + rest, '\n') == |line|
  {
    TemplateLaws.FindUnique(line + rest, '\n', |line|);
  }

  /** Where an extracted value ends: behind a closing quote, or with the line. */
  function ConsumedBy(value: Value, trail: string, comment: Option<string>, rest: string): nat {
    |PrintValue(value)|
    + if value.Unquoted? then |trail| + |PrintComment(comment)| + (if rest == "" then 0 else 1) else 0
  }

  /** A printed value is extracted as the text it stands for, to be substituted unless it is in single quotes. */
  lemma ValueExtracts(value: Value, trail: string, comment: Option<string>, rest: string)
    requires FitValue(value, comment) && Gap(trail) && FitComment(comment) && (rest == "" || rest[0] == '\n')
    ensures var raw := match value
                       case Single(text) => text
                       case Unquoted(segments) => TemplatePrinting.Print(segments)
                       case Double(_, segments) => TemplatePrinting.Print(segments);
            ExtractValue(PrintValue(value) + (trail + (PrintComment(comment) + rest)))
            == Raw(raw, !value.Single?, ConsumedBy(value, trail, comment, rest))
  {
    hide ExtractValue, SpeltAll, SingleSpelt, FitSingle, FitUnits, HasComment;
    var tail := trail + (PrintComment(comment) + rest);
    match value
    case Single(text) =>
      SingleExtracts(text, tail);
      assert PrintValue(value) + tail == "'" + SingleSpelt(text) + "'" + tail;
    case Double(units, _) =>
      DoubleExtracts(units, tail);
      assert PrintValue(value) + tail == "\"" + SpeltAll(units) + "\"" + tail;
    case Unquoted(segments) =>
      var text := TemplatePrinting.Print(segments);
      UnquotedExtracts(text, trail, comment, rest);
      assert text + tail == text + (trail + PrintComment(comment)) + rest;
  }
}
