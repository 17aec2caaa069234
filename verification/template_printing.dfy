/** What templates mean, piece by piece, and that substitution computes just that from their text. */
module TemplatePrinting {
  import opened Common
  import opened TemplateRules
  import opened TemplateLaws

  datatype Kind = Default | Alternate | Required

  /** A piece of a template. */
  datatype Segment =
    | Plain(text: string)
    | Dollar
    | LoneDollar
    | Bare(name: string)
    | Braced(name: string)
    | Choice(name: string, colon: bool, kind: Kind, nested: seq<Segment>)
    | Unclosed(name: string, colon: bool, kind: Kind, nested: seq<Segment>)
    | Group(segments: seq<Segment>)
    | Broken(name: string)

  function Sign(colon: bool, kind: Kind): string {
    (if colon then ":" else "") + (match kind case Default => "-" case Alternate => "+" case Required => "?")
  }

  function Print(segments: seq<Segment>): string {
    if segments == [] then "" else PrintOne(segments[0]) + Print(segments[1..])
  }

  function PrintOne(segment: Segment): string {
    match segment
    case Plain(text) => text
    case Dollar => "$$"
    case LoneDollar => "$"
    case Bare(name) => "$" + name
    case Braced(name) => "${" + (name + "}")
    case Choice(name, colon, kind, nested) => "${" + (name + (Sign(colon, kind) + (Print(nested) + "}")))
    case Unclosed(name, colon, kind, nested) => "${" + (name + (Sign(colon, kind) + (Print(nested) + "}")))
    case Group(segments) => "{" + (Print(segments) + "}")
    case Broken(name) => "${" + name
  }

  // ----- which pieces can stand where -----

  predicate StartsName(c: char) {
    c == '_' || 'a' <= FoldChar(c) <= 'z'
  }

  predicate InName(c: char) {
    StartsName(c) || c in "0123456789"
  }

  predicate IsName(name: string) {
    name != "" && StartsName(name[0]) && forall i :: 0 <= i < |name| ==> InName(name[i])
  }

  predicate StartsIn(next: string, chars: string) {
    next != "" && next[0] in chars
  }

  /** Each piece can be told from what follows it. */
  predicate Proper(segments: seq<Segment>, next: string)
    decreases segments
  {
    segments != [] ==> ProperOne(segments[0], Print(segments[1..]) + next) && Proper(segments[1..], next)
  }

  predicate ProperOne(segment: Segment, next: string)
    decreases segment
  {
    match segment
    case Plain(text) => '$' !in text
    case Dollar => true
    case LoneDollar => !StartsIn(next, "${") && (next == "" || !StartsName(next[0]))
    case Bare(name) => IsName(name) && (next == "" || !InName(next[0]))
    case Braced(name) => IsName(name)
    case Choice(name, _, _, nested) => IsName(name) && Proper(nested, "") && Enclosed(nested)
    case Unclosed(name, _, _, nested) =>
      && IsName(name) && Proper(nested, "") && NoBraceOnLine(next)
      && '{' in Print(nested) && '}' !in Print(nested) && '\n' !in Print(nested)
    case Group(segments) => Proper(segments, "}" + next)
    case Broken(name) => NoReference(name, next)
  }

  /** Neither `}` nor an operator with a `}` later on its line follows the name, or there is no name. */
  predicate NoReference(name: string, next: string) {
    if name == "" then next == "" || !StartsName(next[0])
    else
      && IsName(name) && !StartsIn(next, "}") && (next == "" || !InName(next[0]))
      && var sign := if StartsIn(next, ":") then next[1..] else next;
         StartsIn(sign, "-+?") ==> NoBraceOnLine(sign)
  }

  /** The text of an operator stays on its line and closes what it opens; the character behind a `{` is no brace. */
  predicate Enclosed(segments: seq<Segment>)
    decreases segments
  {
    forall i :: 0 <= i < |segments| ==> EnclosedOne(segments[i])
  }

  predicate EnclosedOne(segment: Segment)
    decreases segment
  {
    match segment
    case Plain(text) => '{' !in text && '}' !in text && '\n' !in text
    case Group(segments) => Enclosed(segments) && Print(segments) != "" && !StartsIn(Print(segments), "{}")
    case Unclosed(_, _, _, _) => false
    case Broken(_) => false
    case _ => true
  }

  // ----- what they mean -----

  /** The pieces one after the other, up to the first error. */
  function Means(segments: seq<Segment>, lookup: Lookup): Outcome
    decreases segments
  {
    if segments == [] then Outcome(Ok(""), [])
    else
      var first := MeansOne(segments[0], lookup);
      match first.result
      case Err(_) => first
      case Ok(value) =>
        var rest := Means(segments[1..], lookup);
        match rest.result
        case Err(error) => Outcome(Err(error), first.unset + rest.unset)
        case Ok(more) => Outcome(Ok(value + more), first.unset + rest.unset)
  }

  /** A variable's value, with an unset one noted and empty; or the choice an operator makes. */
  function MeansOne(segment: Segment, lookup: Lookup): Outcome
    decreases segment
  {
    match segment
    case Plain(text) => Outcome(Ok(text), [])
    case Dollar => Outcome(Ok("$"), [])
    case LoneDollar => Outcome(Ok("$"), [])
    case Bare(name) => Reads(name, lookup(name))
    case Braced(name) => Reads(name, lookup(name))
    case Choice(name, colon, kind, nested) => Chosen(name, colon, kind, lookup(name), Means(nested, lookup))
    case Unclosed(name, colon, kind, nested) => Chosen(name, colon, kind, lookup(name), Means(nested, lookup))
    case Group(segments) =>
      var inner := Means(segments, lookup);
      (match inner.result
       case Err(_) => inner
       case Ok(value) => Outcome(Ok("{" + value + "}"), inner.unset))
    case Broken(_) => Outcome(Err(Invalid), [])
  }

  /** What an operator makes of a variable and of its own text; a colon counts an empty value as unset. */
  function Chosen(name: string, colon: bool, kind: Kind, value: Option<string>, text: Outcome): Outcome {
    match (kind, value)
    case (Default, None) => text
    case (Default, Some(v)) => if colon && v == "" then text else Outcome(Ok(v), [])
    case (Alternate, None) => Outcome(Ok(""), [])
    case (Alternate, Some(v)) => if colon && v == "" then Outcome(Ok(""), []) else text
    case (Required, None) => Demanded(name, text)
    case (Required, Some(v)) => if colon && v == "" then Demanded(name, text) else Outcome(Ok(v), [])
  }

  function Reads(name: string, value: Option<string>): Outcome {
    match value
    case Some(text) => Outcome(Ok(text), [])
    case None => Outcome(Ok(""), [name])
  }

  /** The error of a required variable, with its text substituted; an error in that text comes first. */
  function Demanded(name: string, reason: Outcome): Outcome {
    match reason.result
    case Err(_) => reason
    case Ok(text) => Outcome(Err(MissingRequired(name, text)), reason.unset)
  }

  // ----- names -----

  lemma NameChars(c: char)
    ensures StartsName(c) <==> IsNameStart(c)
    ensures InName(c) <==> IsNameChar(c)
  {
  }

  lemma {:induction false} NameEnds(name: string, next: string)
    requires forall i :: 0 <= i < |name| ==> IsNameChar(name[i])
    requires next == "" || !IsNameChar(next[0])
    ensures NameLength(name + next) == |name|
    decreases |name|
  {
    if name != "" {
      assert (name + next)[1..] == name[1..] + next;
      NameEnds(name[1..], next);
    } else {
      assert name + next == next;
    }
  }

  lemma NameReads(name: string, next: string)
    requires IsName(name) && (next == "" || !InName(next[0]))
    ensures NameLength(name + next) == |name| && IsNameStart((name + next)[0]) && name[0] != '$' && name[0] != '{'
    ensures forall i :: 0 <= i < |name| ==> IsNameChar(name[i])
  {
    NameChars(name[0]);
    forall i | 0 <= i < |name| ensures IsNameChar(name[i]) { NameChars(name[i]); }
    if next != "" { NameChars(next[0]); }
    NameEnds(name, next);
  }

  // ----- plain text -----

  lemma {:induction false} PlainScans(text: string, tail: string, lookup: Lookup)
    requires '$' !in text
    ensures Scan(text + tail, lookup) == Then(Literal(text), Scan(tail, lookup))
    decreases |text|
  {
    if text == "" {
      assert text + tail == tail;
      ThenUnits(Scan(tail, lookup));
    } else {
      var t := text + tail;
      assert t[0] == text[0] && t[..1] == text[..1] && t[1..] == text[1..] + tail;
      PlainScans(text[1..], tail, lookup);
      ThenAssociates(Literal(t[..1]), Literal(text[1..]), Scan(tail, lookup));
      assert text == text[..1] + text[1..];
    }
  }

  // ----- braces -----

  /** Searching the closing brace passes over enclosed pieces. */
  lemma {:induction false} PassesOver(s: string, i: nat, segments: seq<Segment>, next: string, open: nat)
    requires open > 0 && Proper(segments, next) && Enclosed(segments)
    requires i + |Print(segments)| <= |s| && s[i..i + |Print(segments)|] == Print(segments)
    ensures BraceClosing(s, i, open) == BraceClosing(s, i + |Print(segments)|, open)
    decreases segments, 0
  {
    if segments != [] {
      var n := |PrintOne(segments[0])|;
      assert s[i..i + n] == PrintOne(segments[0]) by { assert s[i..i + n] == s[i..i + |Print(segments)|][..n]; }
      assert s[i + n..i + |Print(segments)|] == Print(segments[1..]) by {
        assert s[i + n..i + |Print(segments)|] == s[i..i + |Print(segments)|][n..];
      }
      PassesOverOne(s, i, segments[0], Print(segments[1..]) + next, open);
      PassesOver(s, i + n, segments[1..], next, open);
    }
  }

  lemma Part(s: string, i: nat, a: string, b: string)
    requires i + |a| + |b| <= |s| && s[i..i + |a| + |b|] == a + b
    ensures s[i..i + |a|] == a && s[i + |a|..i + |a| + |b|] == b
  {
    assert s[i..i + |a|] == s[i..i + |a| + |b|][..|a|];
    assert s[i + |a|..i + |a| + |b|] == s[i..i + |a| + |b|][|a|..];
  }

  lemma NoBraceInName(s: string, i: nat, name: string)
    requires IsName(name) && i + |name| <= |s| && s[i..i + |name|] == name
    ensures forall k :: i <= k < i + |name| ==> s[k] != '{' && s[k] != '}'
  {
    forall k | i <= k < i + |name| ensures s[k] != '{' && s[k] != '}' {
      assert s[k] == name[k - i];
      NameChars(name[k - i]);
    }
  }

  lemma {:induction false} PassesOverOne(s: string, i: nat, segment: Segment, next: string, open: nat)
    requires open > 0 && ProperOne(segment, next) && EnclosedOne(segment)
    requires i + |PrintOne(segment)| <= |s| && s[i..i + |PrintOne(segment)|] == PrintOne(segment)
    ensures BraceClosing(s, i, open) == BraceClosing(s, i + |PrintOne(segment)|, open)
    decreases segment, 1
  {
    hide BraceClosing, IsName, Proper, Print;
    match segment
    case Plain(text) => TextPassed(s, i, text, open);
    case Dollar => TextPassed(s, i, "$$", open);
    case LoneDollar => TextPassed(s, i, "$", open);
    case Bare(name) => BarePassed(s, i, name, open);
    case Braced(name) =>
      assert name + "}" == name + ("" + ("" + "}"));
      BracesPassed(s, i, name, "", "", open);
    case Choice(name, colon, kind, nested) => ChoicePassed(s, i, segment, open);
    case Group(segments) => GroupPassed(s, i, segment, next, open);
  }

  lemma BarePassed(s: string, i: nat, name: string, open: nat)
    requires IsName(name) && i + 1 + |name| <= |s| && s[i..i + 1 + |name|] == "$" + name
    ensures BraceClosing(s, i, open) == BraceClosing(s, i + 1 + |name|, open)
  {
    Part(s, i, "$", name);
    TextPassed(s, i, "$", open);
    NoBraceInName(s, i + 1, name);
    NoBraceSkips(s, i + 1, i + 1 + |name|, open);
  }

  lemma {:induction false} ChoicePassed(s: string, i: nat, segment: Segment, open: nat)
    requires open > 0 && segment.Choice? && IsName(segment.name)
    requires Proper(segment.nested, "") && Enclosed(segment.nested)
    requires i + |PrintOne(segment)| <= |s| && s[i..i + |PrintOne(segment)|] == PrintOne(segment)
    ensures BraceClosing(s, i, open) == BraceClosing(s, i + |PrintOne(segment)|, open)
    decreases segment, 0
  {
    hide BraceClosing, IsName, Proper, Print, Enclosed;
    var name, sign, arg := segment.name, Sign(segment.colon, segment.kind), Print(segment.nested);
    ReferenceParts(s, i, name, sign, arg);
    PassesOver(s, i + 2 + |name| + |sign|, segment.nested, "", open + 1);
    BracesPassed(s, i, name, sign, arg, open);
  }

  lemma {:induction false} GroupPassed(s: string, i: nat, segment: Segment, next: string, open: nat)
    requires open > 0 && segment.Group? && Proper(segment.segments, "}" + next) && EnclosedOne(segment)
    requires i + |PrintOne(segment)| <= |s| && s[i..i + |PrintOne(segment)|] == PrintOne(segment)
    ensures BraceClosing(s, i, open) == BraceClosing(s, i + |PrintOne(segment)|, open)
    decreases segment, 0
  {
    hide Proper, Print;
    var inner := Print(segment.segments);
    Part(s, i, "{", inner + "}");
    Part(s, i + 1, inner, "}");
    PassesOver(s, i + 1, segment.segments, "}" + next, open + 1);
    assert s[i] == s[i..i + 1][0] == '{' && s[i + 1] == s[i + 1..i + 1 + |inner|][0] == inner[0];
    assert s[i + 1 + |inner|] == s[i + 1 + |inner|..i + 2 + |inner|][0] == '}';
    assert BraceClosing(s, i, open) == BraceClosing(s, i + 2, open + 1) == BraceClosing(s, i + 1, open + 1);
  }

  lemma TextPassed(s: string, i: nat, text: string, open: nat)
    requires i + |text| <= |s| && s[i..i + |text|] == text && '{' !in text && '}' !in text
    ensures BraceClosing(s, i, open) == BraceClosing(s, i + |text|, open)
  {
    assert forall k :: 0 <= k < |text| ==> s[i + k] == text[k];
    NoBraceSkips(s, i, i + |text|, open);
  }

  /** Where the parts of a reference stand. */
  lemma ReferenceParts(s: string, i: nat, name: string, sign: string, arg: string)
    requires var n := |name| + |sign| + |arg| + 3;
             i + n <= |s| && s[i..i + n] == "${" + (name + (sign + (arg + "}")))
    ensures var m := i + 2 + |name| + |sign|;
            && s[i] == '$' && s[i + 1] == '{' && s[i + 2..i + 2 + |name|] == name
            && s[i + 2 + |name|..m] == sign && s[m..m + |arg|] == arg && s[m + |arg|] == '}'
  {
    Part(s, i, "${", name + (sign + (arg + "}")));
    Part(s, i + 2, name, sign + (arg + "}"));
    Part(s, i + 2 + |name|, sign, arg + "}");
    Part(s, i + 2 + |name| + |sign|, arg, "}");
    assert s[i..i + 2][0] == '$' && s[i..i + 2][1] == '{';
  }

  /** A reference opens one brace and closes it. */
  lemma BracesPassed(s: string, i: nat, name: string, sign: string, arg: string, open: nat)
    requires open > 0 && IsName(name) && '{' !in sign && '}' !in sign
    requires var n := |name| + |sign| + |arg| + 3;
             i + n <= |s| && s[i..i + n] == "${" + (name + (sign + (arg + "}")))
    requires var m := i + 2 + |name| + |sign|;
             BraceClosing(s, m, open + 1) == BraceClosing(s, m + |arg|, open + 1)
    ensures BraceClosing(s, i, open) == BraceClosing(s, i + |name| + |sign| + |arg| + 3, open)
  {
    ReferenceParts(s, i, name, sign, arg);
    OpenedBefore(s, i, name, sign, open);
    assert BraceClosing(s, i + |name| + |sign| + |arg| + 2, open + 1)
           == BraceClosing(s, i + |name| + |sign| + |arg| + 3, open);
  }

  lemma OpenedBefore(s: string, i: nat, name: string, sign: string, open: nat)
    requires IsName(name) && '{' !in sign && '}' !in sign
    requires var m := i + 2 + |name| + |sign|;
             && m <= |s| && s[i] == '$' && s[i + 1] == '{'
             && s[i + 2..i + 2 + |name|] == name && s[i + 2 + |name|..m] == sign
    ensures BraceClosing(s, i, open) == BraceClosing(s, i + 2 + |name| + |sign|, open + 1)
  {
    NoBraceInName(s, i + 2, name);
    NoBraceSkips(s, i + 3, i + 2 + |name|, open + 1);
    TextPassed(s, i + 2 + |name|, sign, open + 1);
    assert BraceClosing(s, i, open) == BraceClosing(s, i + 1, open) == BraceClosing(s, i + 3, open + 1);
  }

  /** Enclosed pieces stay on one line. */
  lemma {:induction false} OnOneLine(segments: seq<Segment>, next: string)
    requires Proper(segments, next) && Enclosed(segments)
    ensures '\n' !in Print(segments)
    decreases segments, 0
  {
    if segments != [] {
      OneOnOneLine(segments[0], Print(segments[1..]) + next);
      OnOneLine(segments[1..], next);
    }
  }

  lemma {:induction false} OneOnOneLine(segment: Segment, next: string)
    requires ProperOne(segment, next) && EnclosedOne(segment)
    ensures '\n' !in PrintOne(segment)
    decreases segment, 1
  {
    match segment
    case Bare(name) => NoLineInName(name);
    case Braced(name) => NoLineInName(name);
    case Choice(name, _, _, nested) =>
      NoLineInName(name);
      OnOneLine(nested, "");
    case Group(segments) => OnOneLine(segments, "}" + next);
    case _ =>
  }

  lemma NoLineInName(name: string)
    requires IsName(name)
    ensures '\n' !in name
  {
    forall i | 0 <= i < |name| ensures name[i] != '\n' { NameChars(name[i]); }
  }

  // ----- operators -----

  lemma LineReaches(t: string, opStart: nat, close: nat)
    requires opStart < close < |t| && t[close] == '}' && '\n' !in t[opStart..close]
    ensures LastOnLine(t, opStart).Some? && LastOnLine(t, opStart).value >= close
  {
    var n := Find(t[opStart..], '\n');
    FindFirst(t[opStart..], '\n');
    assert forall k :: opStart <= k < close ==> t[k] == t[opStart..close][k - opStart];
    assert forall k :: 0 <= k <= close - opStart ==> t[opStart..][k] == t[opStart + k] && t[opStart + k] != '\n';
    assert n > close - opStart;
    var line := t[opStart + 1..opStart + n];
    FindLastIsLast(line, '}');
    assert line[close - opStart - 1] == '}';
  }

  /** What the text of an operator reference looks like to the scanner. */
  predicate Site(t: string, name: string, sign: string, arg: string) {
    var nameEnd, opStart := 2 + |name|, 1 + |name| + |sign|;
    var close := opStart + 1 + |arg|;
    && 1 <= |sign| <= 2 && (|sign| == 2 ==> sign[0] == ':') && IsOperator(sign[|sign| - 1])
    && close < |t| && t[0] == '$' && t[1] == '{' && t[2..nameEnd] == name && t[nameEnd..opStart + 1] == sign
    && t[opStart + 1..close] == arg && t[close] == '}'
  }

  lemma SiteFacts(t: string, name: string, sign: string, arg: string)
    requires Site(t, name, sign, arg) && IsName(name) && '\n' !in arg
    ensures var nameEnd, opStart := 2 + |name|, 1 + |name| + |sign|;
            && NameLength(t[2..]) == |name| && IsNameStart(t[2])
            && t[opStart] == sign[|sign| - 1] && (if |sign| == 2 then t[nameEnd] == ':' else t[nameEnd] != ':')
            && LastOnLine(t, opStart).Some? && LastOnLine(t, opStart).value >= opStart + 1 + |arg|
  {
    hide LastOnLine, NameLength;
    var nameEnd, opStart := 2 + |name|, 1 + |name| + |sign|;
    var close := opStart + 1 + |arg|;
    assert t[2..] == name + t[nameEnd..];
    assert t[nameEnd] == t[nameEnd..opStart + 1][0] == sign[0] && t[opStart] == t[nameEnd..opStart + 1][|sign| - 1];
    NameReads(name, t[nameEnd..]);
    assert t[2] == (name + t[nameEnd..])[0];
    assert t[opStart..close] == t[opStart..opStart + 1] + arg;
    LineReaches(t, opStart, close);
  }

  lemma ChoiceCloses(t: string, segment: Segment)
    requires segment.Choice? && ProperOne(segment, "") && '\n' !in Print(segment.nested)
    requires Site(t, segment.name, Sign(segment.colon, segment.kind), Print(segment.nested))
    ensures var name, sign, arg := segment.name, Sign(segment.colon, segment.kind), Print(segment.nested);
            ClosesAt(t, 1 + |name| + |sign|, 2 + |name| + |sign| + |arg|)
  {
    hide Proper, Print, Enclosed, BraceClosing, LastOnLine;
    var name, sign := segment.name, Sign(segment.colon, segment.kind);
    SiteFacts(t, name, sign, Print(segment.nested));
    TextEndsHere(t, segment, LastOnLine(t, 1 + |name| + |sign|).value);
  }

  /** The first balanced brace is the one behind the text. */
  lemma TextEndsHere(t: string, segment: Segment, last: nat)
    requires segment.Choice? && ProperOne(segment, "")
    requires var sign, arg := Sign(segment.colon, segment.kind), Print(segment.nested);
             Site(t, segment.name, sign, arg) && 2 + |segment.name| + |sign| + |arg| <= last < |t|
    ensures var sign, arg := Sign(segment.colon, segment.kind), Print(segment.nested);
            BraceClosing(t[..last + 1], 0, 0) == Some(2 + |segment.name| + |sign| + |arg|)
  {
    hide Proper, Print, Enclosed, BraceClosing;
    var name, sign, arg := segment.name, Sign(segment.colon, segment.kind), Print(segment.nested);
    var opStart, s := 1 + |name| + |sign|, t[..last + 1];
    var close := opStart + 1 + |arg|;
    assert s[opStart + 1..close] == arg;
    forall i | 2 <= i < 2 + |name| ensures IsNameChar(t[i]) {
      assert t[i] == name[i - 2];
      NameChars(t[i]);
    }
    assert t[opStart] == t[2 + |name|..opStart + 1][|sign| - 1];
    assert t[2 + |name|] == t[2 + |name|..opStart + 1][0];
    ClosesAfterOperator(t, last, 2 + |name|, opStart);
    PassesOver(s, opStart + 1, segment.nested, "", 1);
    ClosedHere(s, close);
  }

  lemma SiteIsOperator(t: string, name: string, sign: string, arg: string)
    requires Site(t, name, sign, arg) && name != "" && NameLength(t[2..]) == |name| && IsNameStart(t[2])
    requires var nameEnd, opStart := 2 + |name|, 1 + |name| + |sign|;
             && t[opStart] == sign[|sign| - 1] && (if |sign| == 2 then t[nameEnd] == ':' else t[nameEnd] != ':')
    ensures NextToken(t) == OperatorToken(t, 2 + |name|, 1 + |name| + |sign|)
  {
    hide OperatorToken, NameLength;
  }

  lemma SiteToken(t: string, name: string, sign: string, arg: string)
    requires Site(t, name, sign, arg) && name != "" && NameLength(t[2..]) == |name| && IsNameStart(t[2])
    requires var nameEnd, opStart := 2 + |name|, 1 + |name| + |sign|;
             && t[opStart] == sign[|sign| - 1] && (if |sign| == 2 then t[nameEnd] == ':' else t[nameEnd] != ':')
             && LastOnLine(t, opStart).Some?
             && ClosesAt(t, opStart, opStart + 1 + |arg|)
    ensures var opStart := 1 + |name| + |sign|;
            OperatorToken(t, 2 + |name|, opStart)
            == Operator(name, sign, arg, opStart + 1 + |arg|, LastOnLine(t, opStart).value)
  {
    hide LastOnLine, BraceClosing, NameLength;
  }

  /** The operator's text ends at `close`. */
  predicate ClosesAt(t: string, opStart: nat, close: nat)
    requires opStart < |t|
  {
    var last := LastOnLine(t, opStart);
    last.Some? && BraceClosing(t[..last.value + 1], 0, 0).GetOr(last.value) == close
  }

  lemma SiteReads(t: string, name: string, sign: string, arg: string)
    requires Site(t, name, sign, arg) && IsName(name) && '\n' !in arg && 1 + |name| + |sign| < |t|
    requires ClosesAt(t, 1 + |name| + |sign|, 2 + |name| + |sign| + |arg|)
    ensures var token := NextToken(t);
            && token.Operator? && token.name == name && token.op == sign && token.arg == arg
            && token.close == 2 + |name| + |sign| + |arg|
  {
    hide BraceClosing, LastOnLine, NameLength, OperatorToken, NextToken;
    SiteFacts(t, name, sign, arg);
    SiteIsOperator(t, name, sign, arg);
    SiteToken(t, name, sign, arg);
  }

  lemma SiteOf(t: string, segment: Segment, rest: string)
    requires (segment.Choice? || segment.Unclosed?) && t == PrintOne(segment) + rest
    ensures Site(t, segment.name, Sign(segment.colon, segment.kind), Print(segment.nested))
    ensures |PrintOne(segment)| == |segment.name| + |Sign(segment.colon, segment.kind)| + |Print(segment.nested)| + 3
    ensures t[|PrintOne(segment)|..] == rest
  {
    hide Print;
    assert t[0..0 + |PrintOne(segment)|] == PrintOne(segment);
    ReferenceParts(t, 0, segment.name, Sign(segment.colon, segment.kind), Print(segment.nested));
  }

  /** An operator reference is read with its own name, sign and text, whatever follows. */
  lemma ChoiceReads(t: string, segment: Segment, rest: string)
    requires (segment.Choice? || segment.Unclosed?) && ProperOne(segment, rest) && t == PrintOne(segment) + rest
    ensures var token := NextToken(t);
            && token.Operator? && token.name == segment.name && token.op == Sign(segment.colon, segment.kind)
            && token.arg == Print(segment.nested) && token.close == |PrintOne(segment)| - 1
  {
    hide ProperOne, Print, ClosesAt, NextToken, Site, PrintOne, Sign, IsName;
    SiteOf(t, segment, rest);
    SegmentCloses(t, segment, rest);
    SiteReads(t, segment.name, Sign(segment.colon, segment.kind), Print(segment.nested));
  }

  lemma SegmentCloses(t: string, segment: Segment, rest: string)
    requires (segment.Choice? || segment.Unclosed?) && ProperOne(segment, rest)
    requires Site(t, segment.name, Sign(segment.colon, segment.kind), Print(segment.nested))
    requires var n := |segment.name| + |Sign(segment.colon, segment.kind)| + |Print(segment.nested)| + 3;
             n <= |t| && t[n..] == rest
    ensures var name, sign, arg := segment.name, Sign(segment.colon, segment.kind), Print(segment.nested);
            IsName(name) && '\n' !in arg && 1 + |name| + |sign| < |t|
            && ClosesAt(t, 1 + |name| + |sign|, 2 + |name| + |sign| + |arg|)
  {
    hide Proper, Print, Enclosed, ClosesAt, Sign;
    if segment.Choice? {
      OnOneLine(segment.nested, "");
      ChoiceCloses(t, segment);
    } else {
      NoneBalances(t, segment.name, Sign(segment.colon, segment.kind), Print(segment.nested));
    }
  }

  /** With the last brace of the line behind the text and none balanced, the text ends there. */
  lemma NoneBalances(t: string, name: string, sign: string, arg: string)
    requires Site(t, name, sign, arg) && IsName(name) && '\n' !in arg && '{' in arg && '}' !in arg
    requires NoBraceOnLine(t[3 + |name| + |sign| + |arg|..])
    ensures ClosesAt(t, 1 + |name| + |sign|, 2 + |name| + |sign| + |arg|)
  {
    hide LastOnLine, BraceClosing, NoBraceOnLine;
    var nameEnd, opStart := 2 + |name|, 1 + |name| + |sign|;
    var close := opStart + 1 + |arg|;
    assert t[opStart] == t[nameEnd..opStart + 1][|sign| - 1] && t[nameEnd] == t[nameEnd..opStart + 1][0];
    assert t[opStart..close] == t[opStart..opStart + 1] + arg;
    LineStops(t, opStart, close);
    forall i | 2 <= i < nameEnd ensures IsNameChar(t[i]) {
      assert t[i] == name[i - 2];
      NameChars(t[i]);
    }
    ClosesAfterOperator(t, close, nameEnd, opStart);
    ArgNeverCloses(t, opStart, arg);
  }

  lemma ArgNeverCloses(t: string, opStart: nat, arg: string)
    requires opStart + 1 + |arg| < |t| && t[opStart + 1..opStart + 1 + |arg|] == arg && '{' in arg && '}' !in arg
    ensures BraceClosing(t[..opStart + 2 + |arg|], opStart + 1, 1).None?
  {
    var s := t[..opStart + 2 + |arg|];
    assert forall k :: 0 <= k < |arg| ==> s[opStart + 1 + k] == t[opStart + 1 + k] == arg[k];
    assert forall k :: opStart < k <= opStart + |arg| ==> s[k] == arg[k - opStart - 1];
    var b :| 0 <= b < |arg| && arg[b] == '{';
    assert s[opStart + 1 + b] == '{';
    NeverCloses(s, opStart + 1, 1);
  }

  lemma LineStops(t: string, opStart: nat, close: nat)
    requires opStart < close < |t| && t[close] == '}' && '\n' !in t[opStart..close] && NoBraceOnLine(t[close + 1..])
    ensures LastOnLine(t, opStart) == Some(close)
  {
    hide Find, FindLast, NoBraceOnLine;
    var front, rest := t[opStart..close], t[close + 1..];
    var u := t[opStart..];
    assert u == front + ("}" + rest);
    LineEnds(u, front, rest);
    Window(t, opStart, 1, Find(u, '\n'));
  }

  lemma LineEnds(u: string, front: string, rest: string)
    requires u == front + ("}" + rest) && front != "" && '\n' !in front && NoBraceOnLine(rest)
    ensures Find(u, '\n') > |front| && FindLast(u[1..Find(u, '\n')], '}') == Some(|front| - 1)
  {
    var n := Find(rest, '\n');
    FindFirst(rest, '\n');
    assert u[..|front|] == front && u[|front|] == '}' && u[|front| + 1..] == rest;
    forall k | 0 <= k < |front| + 1 + n ensures u[k] != '\n' {
      if k < |front| { assert u[k] == front[k]; }
      if k > |front| { assert u[k] == rest[k - |front| - 1]; }
    }
    if n < |rest| { assert u[|front| + 1 + n] == rest[n]; }
    FindUnique(u, '\n', |front| + 1 + n);
    var line := u[1..|front| + 1 + n];
    forall k | |front| - 1 < k < |line| ensures line[k] != '}' {
      assert line[k] == rest[..n][k - |front|];
    }
    FindLastUnique(line, '}', |front| - 1);
  }

  lemma {:induction false} NeverCloses(s: string, i: nat, open: nat)
    requires i < |s| && open > 0 && forall k :: i <= k < |s| - 1 ==> s[k] != '}'
    requires open > 1 || exists k :: i <= k < |s| - 1 && s[k] == '{'
    ensures BraceClosing(s, i, open).None?
    decreases |s| - i
  {
    if i < |s| - 1 && s[i] == '{' {
      if i + 2 < |s| { NeverCloses(s, i + 2, open + 1); }
    } else if i < |s| - 1 {
      NeverCloses(s, i + 1, open);
    } else {
      assert open > 1;
    }
  }

  lemma ClosedHere(s: string, close: nat)
    requires close < |s| && s[close] == '}'
    ensures BraceClosing(s, close, 1) == Some(close)
  {
  }

  lemma BrokenReads(t: string, name: string, next: string)
    requires t == "${" + name + next && NoReference(name, next)
    ensures NextToken(t) == Malformed
  {
    hide OperatorToken, LastOnLine, NoBraceOnLine, NameLength;
    if name == "" {
      assert t[2..] == next;
      if next != "" { NameChars(next[0]); }
      NamelessIsMalformed(t);
    } else {
      assert t[2..] == name + next;
      if next != "" { NameChars(next[0]); }
      NameReads(name, next);
      assert t[2] == name[0] && t[2 + |name|..] == next;
      UnsignedIsMalformed(t, name, next);
    }
  }

  lemma NamelessIsMalformed(t: string)
    requires |t| >= 2 && t[0] == '$' && t[1] == '{' && (|t| > 2 ==> !IsNameStart(t[2]))
    ensures NextToken(t) == Malformed
  {
  }

  lemma UnsignedIsMalformed(t: string, name: string, next: string)
    requires |t| > 2 && t[0] == '$' && t[1] == '{' && name != "" && NoReference(name, next)
    requires NameLength(t[2..]) == |name| && t[2 + |name|..] == next
    ensures NextToken(t) == Malformed
  {
    hide NameLength, LastOnLine;
    var nameEnd := 2 + |name|;
    assert nameEnd < |t| ==> t[nameEnd] == next[0];
    var opStart := if StartsIn(next, ":") then nameEnd + 1 else nameEnd;
    var sign := t[opStart..];
    assert sign == if StartsIn(next, ":") then next[1..] else next;
    if sign != "" {
      assert sign[0] == t[opStart];
      if IsOperator(sign[0]) {
        NoBraceAhead(t, opStart);
      }
    }
  }

  lemma NoBraceAhead(t: string, opStart: nat)
    requires opStart < |t| && NoBraceOnLine(t[opStart..])
    ensures LastOnLine(t, opStart).None?
  {
    var n := Find(t[opStart..], '\n');
    if n > 0 {
      var line := t[opStart + 1..opStart + n];
      assert forall k :: 0 <= k < |line| ==> line[k] == t[opStart..][..n][k + 1];
    }
  }

  // ----- the main result -----

  lemma MeansThen(segments: seq<Segment>, lookup: Lookup)
    requires segments != []
    ensures Means(segments, lookup) == Then(MeansOne(segments[0], lookup), Means(segments[1..], lookup))
  {
  }

  lemma ChoiceMeans(segment: Segment, lookup: Lookup)
    requires segment.Choice? || segment.Unclosed?
    ensures Apply(segment.name, Sign(segment.colon, segment.kind), Means(segment.nested, lookup), lookup)
            == MeansOne(segment, lookup)
  {
    hide Means;
    Signs(segment.colon, segment.kind);
  }

  lemma Signs(colon: bool, kind: Kind)
    ensures var sign := Sign(colon, kind);
            && (sign == ":-" <==> colon && kind.Default?) && (sign == "-" <==> !colon && kind.Default?)
            && (sign == ":+" <==> colon && kind.Alternate?) && (sign == "+" <==> !colon && kind.Alternate?)
            && (sign == ":?" <==> colon && kind.Required?) && (sign == "?" <==> !colon && kind.Required?)
  {
    var sign := Sign(colon, kind);
    assert |sign| == if colon then 2 else 1;
    assert sign[|sign| - 1] == match kind case Default => '-' case Alternate => '+' case Required => '?';
    assert colon ==> sign[0] == ':';
  }

  /** Scanning printed pieces gives what they mean, and goes on behind them. */
  lemma {:induction false} PrintedScans(segments: seq<Segment>, tail: string, lookup: Lookup)
    requires Proper(segments, tail)
    ensures Scan(Print(segments) + tail, lookup) == Then(Means(segments, lookup), Scan(tail, lookup))
    decreases segments, 0
  {
    hide ProperOne, PrintOne, MeansOne, Scan;
    if segments == [] {
      ThenUnits(Scan(tail, lookup));
      assert Print(segments) + tail == tail;
    } else {
      var next := Print(segments[1..]) + tail;
      assert Print(segments) + tail == PrintOne(segments[0]) + next;
      OneScans(segments[0], next, lookup);
      PrintedScans(segments[1..], tail, lookup);
      MeansThen(segments, lookup);
      ThenAssociates(MeansOne(segments[0], lookup), Means(segments[1..], lookup), Scan(tail, lookup));
    }
  }

  lemma {:induction false} OneScans(segment: Segment, next: string, lookup: Lookup)
    requires ProperOne(segment, next)
    ensures Scan(PrintOne(segment) + next, lookup) == Then(MeansOne(segment, lookup), Scan(next, lookup))
    decreases segment, 1
  {
    hide Proper, Print, Means, BracedToken, NameLength;
    var t := PrintOne(segment) + next;
    match segment
    case Plain(text) => PlainScans(text, next, lookup);
    case Dollar => assert t[0] == '$' && t[1] == '$' && t[2..] == next;
    case LoneDollar =>
      assert t[0] == '$' && t[1..] == next;
      if next != "" { NameChars(next[0]); }
    case Bare(name) => BareScans(name, next, lookup);
    case Braced(name) => BracedScans(name, next, lookup);
    case Choice(_, _, _, _) => ChoiceScans(segment, next, lookup);
    case Unclosed(_, _, _, _) => ChoiceScans(segment, next, lookup);
    case Group(segments) => GroupScans(segment, next, lookup);
    case Broken(name) => BrokenReads(t, name, next);
  }

  lemma {:induction false} ChoiceScans(segment: Segment, next: string, lookup: Lookup)
    requires (segment.Choice? || segment.Unclosed?) && ProperOne(segment, next)
    ensures Scan(PrintOne(segment) + next, lookup) == Then(MeansOne(segment, lookup), Scan(next, lookup))
    decreases segment, 0
  {
    hide Proper, Print, Means, MeansOne, NextToken;
    var t := PrintOne(segment) + next;
    ChoiceReads(t, segment, next);
    assert t[|PrintOne(segment)|..] == next;
    PrintedScans(segment.nested, "", lookup);
    assert Print(segment.nested) + "" == Print(segment.nested);
    ThenUnits(Means(segment.nested, lookup));
    ChoiceMeans(segment, lookup);
  }

  lemma BareScans(name: string, next: string, lookup: Lookup)
    requires IsName(name) && (next == "" || !InName(next[0]))
    ensures Scan("$" + name + next, lookup) == Then(Reads(name, lookup(name)), Scan(next, lookup))
  {
    var t := "$" + name + next;
    assert t[1..] == name + next;
    if next != "" { NameChars(next[0]); }
    NameReads(name, next);
    assert t[1] == name[0] && t[1..1 + |name|] == name && t[1 + |name|..] == next;
    assert NextToken(t) == Variable(name, 1 + |name|);
  }

  lemma BracedScans(name: string, next: string, lookup: Lookup)
    requires IsName(name)
    ensures Scan("${" + (name + "}") + next, lookup) == Then(Reads(name, lookup(name)), Scan(next, lookup))
  {
    var t := "${" + (name + "}") + next;
    assert t[2..] == name + ("}" + next);
    NameReads(name, "}" + next);
    assert t[2] == name[0] && t[2 + |name|] == '}' && t[2..2 + |name|] == name && t[3 + |name|..] == next;
    assert NextToken(t) == Variable(name, 3 + |name|);
  }

  lemma {:induction false} GroupScans(segment: Segment, next: string, lookup: Lookup)
    requires segment.Group? && ProperOne(segment, next)
    ensures Scan(PrintOne(segment) + next, lookup) == Then(MeansOne(segment, lookup), Scan(next, lookup))
    decreases segment, 0
  {
    hide Proper, Print, Means, Scan;
    var inner := segment.segments;
    var t := PrintOne(segment) + next;
    assert t == "{" + (Print(inner) + ("}" + next));
    PlainScans("{", Print(inner) + ("}" + next), lookup);
    PrintedScans(inner, "}" + next, lookup);
    PlainScans("}", next, lookup);
    Joined(Means(inner, lookup), Scan(next, lookup));
  }

  /** Substitution computes what the pieces of a template mean. */
  lemma PrintedMeans(segments: seq<Segment>, lookup: Lookup)
    requires Proper(segments, "")
    ensures Substitute(Print(segments), lookup) == Means(segments, lookup)
  {
    SubstituteIsScan(Print(segments), lookup);
    PrintedScans(segments, "", lookup);
    assert Print(segments) + "" == Print(segments);
    ThenUnits(Means(segments, lookup));
  }

  lemma Joined(a: Outcome, b: Outcome)
    ensures Then(Literal("{"), Then(a, Then(Literal("}"), b)))
            == Then(if a.result.Ok? then Outcome(Ok("{" + a.result.value + "}"), a.unset) else a, b)
  {
    if a.result.Ok? {
      assert [] + a.unset == a.unset && a.unset + ([] + b.unset) == a.unset + b.unset;
      if b.result.Ok? {
        var v, w := a.result.value, b.result.value;
        assert "{" + (v + ("}" + w)) == ("{" + v + "}") + w;
      }
    }
  }
}
