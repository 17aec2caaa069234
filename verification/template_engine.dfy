/**
 * Substitution as the program runs it: index loops over the text, an output buffer, and a shared list of unset names.
 */
module TemplateEngine {
  import opened Common
  import opened TemplateRules
  import TemplateLaws

  /** The names of unset variables read without an operator, in the order they were read. */
  class UnsetNames {
    var names: seq<string>

    constructor ()
      ensures names == []
    {
      names := [];
    }

    method Push(name: string)
      modifies this
      ensures names == old(names) + [name]
    {
      names := names + [name];
    }
  }

  /** The run ended with this outcome: its value or error, and its unset names appended. */
  ghost predicate Gives(r: Result<string, TemplateError>, before: seq<string>, after: seq<string>, outcome: Outcome) {
    r == outcome.result && after == before + outcome.unset
  }

  /** What one token contributes, leftover of an operator included. */
  ghost function StepOutcome(token: Token, t: string, lookup: Lookup): Outcome
    requires Fits(token, |t|)
  {
    match token
    case Text(text, _) => Literal(text)
    case Variable(name, _) => TemplateRules.ReadPlain(name, lookup)
    case Malformed => Fail(Invalid)
    case Operator(name, op, arg, close, last) =>
      Then(TemplateRules.Apply(name, op, TemplateRules.Substitute(arg, lookup), lookup),
           TemplateRules.Substitute(t[close + 1..last + 1], lookup))
  }

  ghost function StepLength(token: Token): nat {
    match token
    case Text(_, len) => len
    case Variable(_, len) => len
    case Malformed => 0
    case Operator(_, _, _, _, last) => last + 1
  }

  /** Substituting goes on behind the first token with what that token gave. */
  lemma StepForward(done: Outcome, template: string, i: nat, lookup: Lookup, whole: Outcome)
    requires i < |template| && Then(done, TemplateRules.Substitute(template[i..], lookup)) == whole
    ensures var t := template[i..];
            var token := NextToken(t);
            var end := i + StepLength(token);
            && end <= |template|
            && (StepOutcome(token, t, lookup).result.Ok? ==> i < end)
            && (if StepOutcome(token, t, lookup).result.Err? then whole == Then(done, StepOutcome(token, t, lookup))
                else whole == Then(Then(done, StepOutcome(token, t, lookup)),
                                   TemplateRules.Substitute(template[end..], lookup)))
  {
    var t := template[i..];
    var token := NextToken(t);
    var end := i + StepLength(token);
    assert template[end..] == t[end - i..];
    ThenAssociates(done, StepOutcome(token, t, lookup), TemplateRules.Substitute(template[end..], lookup));
  }

  /** The four kinds of text a token starts with. */
  lemma TokenAt(template: string, i: nat)
    requires i < |template|
    ensures var t := template[i..];
            && (template[i] != '$' ==> NextToken(t) == Text([template[i]], 1))
            && (template[i] == '$' ==>
                  var c := if i + 1 < |template| then template[i + 1] else ' ';
                  if c == '$' then NextToken(t) == Text("$", 2)
                  else if IsNameStart(c) then
                    var end := i + 1 + NameLength(template[i + 1..]);
                    NextToken(t) == Variable(template[i + 1..end], end - i)
                  else if c == '{' then |t| >= 2 && t[0] == '$' && t[1] == '{' && NextToken(t) == BracedToken(t)
                  else NextToken(t) == Text("$", 1))
  {
    var t := template[i..];
    if template[i] != '$' {
      assert t[..1] == [template[i]];
    } else if i + 1 < |template| && IsNameStart(template[i + 1]) {
      assert t[1..] == template[i + 1..];
      var end := i + 1 + NameLength(template[i + 1..]);
      assert t[1..end - i] == template[i + 1..end];
    }
  }

  method Substitute(template: string, lookup: Lookup, unset: UnsetNames) returns (r: Result<string, TemplateError>)
    modifies unset
    ensures Gives(r, old(unset.names), unset.names, TemplateRules.Substitute(template, lookup))
    decreases |template|, 3
  {
    hide NextToken, TemplateRules.Substitute, Then, StepOutcome, StepLength;
    var out := "";
    var literalStart := 0;
    var i := 0;
    ghost var whole := TemplateRules.Substitute(template, lookup);
    ghost var seen: seq<string> := [];
    ThenUnits(whole);
    assert template[0..] == template && out + template[0..0] == "";
    while i < |template|
      invariant 0 <= literalStart <= i <= |template|
      invariant unset.names == old(unset.names) + seen
      invariant whole
                == Then(Outcome(Ok(out + template[literalStart..i]), seen),
                        TemplateRules.Substitute(template[i..], lookup))
      decreases |template| - i
    {
      ghost var step := StepOutcome(NextToken(template[i..]), template[i..], lookup);
      StepForward(Outcome(Ok(out + template[literalStart..i]), seen), template, i, lookup, whole);
      ThenAfter(out + template[literalStart..i], seen, step);
      if template[i] != '$' {
        CopyStep(template, i, lookup);
        assert out + template[literalStart..i + 1] == (out + template[literalStart..i]) + [template[i]];
        assert seen + [] == seen;
        i := i + 1;
        continue;
      }
      out := out + template[literalStart..i];
      var value, end := AtDollar(template, i, lookup, unset);
      assert unset.names == old(unset.names) + (seen + step.unset);
      if value.Err? {
        return value;
      }
      out := out + value.value;
      seen := seen + step.unset;
      i := end;
      literalStart := i;
      assert out + template[i..i] == out;
    }
    out := out + template[literalStart..];
    ThenUnits(Outcome(Ok(out), seen));
    assert template[i..] == "" && template[literalStart..] == template[literalStart..i];
    SubstituteEmpty(lookup);
    r := Ok(out);
  }

  /** The arms for what follows a `$`: its value and the offset behind it. */
  method AtDollar(template: string, i: nat, lookup: Lookup, unset: UnsetNames)
    returns (r: Result<string, TemplateError>, end: nat)
    requires i < |template| && template[i] == '$'
    modifies unset
    ensures var t := template[i..];
            && Gives(r, old(unset.names), unset.names, StepOutcome(NextToken(t), t, lookup))
            && (r.Ok? ==> end == i + StepLength(NextToken(t)))
    decreases |template| - i, 2
  {
    hide NextToken, BracedToken;
    TokenAt(template, i);
    if i + 1 < |template| && template[i + 1] == '$' {
      return Ok("$"), i + 2;
    } else if i + 1 < |template| && IsNameStart(template[i + 1]) {
      end := i + 1 + NameLength(template[i + 1..]);
      var value := ReadPlain(template[i + 1..end], lookup, unset);
      return Ok(value), end;
    } else if i + 1 < |template| && template[i + 1] == '{' {
      r, end := Braced(template, i, lookup, unset);
    } else {
      return Ok("$"), i + 1;
    }
  }

  lemma ThenAfter(value: string, seen: seq<string>, step: Outcome)
    ensures Then(Outcome(Ok(value), seen), step)
            == Outcome(if step.result.Err? then step.result else Ok(value + step.result.value), seen + step.unset)
  {
  }

  lemma CopyStep(template: string, i: nat, lookup: Lookup)
    requires i < |template| && template[i] != '$'
    ensures StepOutcome(NextToken(template[i..]), template[i..], lookup) == Literal([template[i]])
    ensures StepLength(NextToken(template[i..])) == 1
  {
    TokenAt(template, i);
  }

  lemma SubstituteEmpty(lookup: Lookup)
    ensures TemplateRules.Substitute("", lookup) == Literal("")
  {
  }

  /** Resolves the `${` at `start`; returns its value and the offset behind it. */
  method Braced(template: string, start: nat, lookup: Lookup, unset: UnsetNames)
    returns (r: Result<string, TemplateError>, end: nat)
    requires start + 2 <= |template| && template[start] == '$' && template[start + 1] == '{'
    modifies unset
    ensures var t := template[start..];
            && Gives(r, old(unset.names), unset.names, StepOutcome(BracedToken(t), t, lookup))
            && (r.Ok? ==> !BracedToken(t).Malformed? && end == start + StepLength(BracedToken(t)))
    decreases |template| - start, 1
  {
    hide NameLength, OperatorToken, BracedToken, StepOutcome, StepLength, OperatorSite;
    end := 0;
    var nameStart := start + 2;
    BracedTokenAt(template, start);
    MalformedOutcome(template[start..], lookup);
    if nameStart >= |template| || !IsNameStart(template[nameStart]) {
      return Err(Invalid), 0;
    }
    var nameEnd := nameStart + NameLength(template[nameStart..]);
    var name := template[nameStart..nameEnd];
    var opStart := if nameEnd < |template| && template[nameEnd] == ':' then nameEnd + 1 else nameEnd;
    if opStart < |template| && template[opStart] == '}' && opStart == nameEnd {
      var value := ReadPlain(name, lookup, unset);
      VariableOutcome(name, nameEnd - start + 1, template[start..], lookup);
      return Ok(value), nameEnd + 1;
    }
    if opStart >= |template| || !IsOperator(template[opStart]) {
      return Err(Invalid), 0;
    }
    r, end := OperatorAt(template, start, nameEnd, opStart, lookup, unset);
  }

  lemma MalformedOutcome(t: string, lookup: Lookup)
    ensures StepOutcome(Malformed, t, lookup) == Fail(Invalid)
  {
  }

  lemma VariableOutcome(name: string, len: nat, t: string, lookup: Lookup)
    requires 0 < len <= |t|
    ensures StepOutcome(Variable(name, len), t, lookup) == TemplateRules.ReadPlain(name, lookup)
    ensures StepLength(Variable(name, len)) == len
  {
  }

  /** A braced token in offsets of the whole template. */
  lemma BracedTokenAt(template: string, start: nat)
    requires start + 2 <= |template| && template[start] == '$' && template[start + 1] == '{'
    ensures var nameEnd := start + 2 + NameLength(template[start + 2..]);
            var opStart := if nameEnd < |template| && template[nameEnd] == ':' then nameEnd + 1 else nameEnd;
            if nameEnd == start + 2 || !IsNameStart(template[start + 2]) || opStart >= |template|
            then BracedToken(template[start..]) == Malformed
            else if template[opStart] == '}' && opStart == nameEnd
            then BracedToken(template[start..]) == Variable(template[start + 2..nameEnd], nameEnd - start + 1)
            else if IsOperator(template[opStart])
            then OperatorSite(template, start, nameEnd, opStart)
                 && BracedToken(template[start..])
                    == OperatorToken(template[start..], nameEnd - start, opStart - start)
            else BracedToken(template[start..]) == Malformed
  {
    hide OperatorToken, NameLength;
    var t := template[start..];
    assert t[2..] == template[start + 2..];
    assert forall k :: 0 <= k < |t| ==> t[k] == template[start + k];
    TemplateLaws.Window(template, start, 2, 2 + NameLength(template[start + 2..]));
  }

  lemma FindPositive(s: string, c: char)
    requires s != "" && s[0] != c
    ensures Find(s, c) > 0
  {
  }

  /** A reference starts at `start`; its name ends at `nameEnd` and its operator sign is at `opStart`. */
  predicate OperatorSite(template: string, start: nat, nameEnd: nat, opStart: nat) {
    && start + 3 <= nameEnd <= opStart <= nameEnd + 1 && opStart < |template|
    && template[start] == '$' && template[start + 1] == '{'
    && NameLength(template[start..][2..]) == nameEnd - start - 2
    && (opStart > nameEnd ==> template[nameEnd] == ':')
    && IsOperator(template[opStart])
  }

  lemma LastOnLineAt(template: string, start: nat, k: nat)
    requires start <= k < |template| && template[k] != '\n'
    ensures var lineEnd := k + Find(template[k..], '\n');
            && k < lineEnd
            && var lastBrace := FindLast(template[k + 1..lineEnd], '}');
            LastOnLine(template[start..], k - start)
            == if lastBrace.None? then None else Some(k + 1 + lastBrace.value - start)
  {
    hide FindLast;
    FindPositive(template[k..], '\n');
    var lineEnd := k + Find(template[k..], '\n');
    TemplateLaws.Window(template, start, k - start, |template| - start);
    TemplateLaws.Window(template, start, k - start + 1, lineEnd - start);
  }

  /** The operator token of `template[start..]`, in offsets of `template`. */
  lemma OperatorTokenAt(template: string, start: nat, nameEnd: nat, opStart: nat, last: nat, close: nat)
    requires OperatorSite(template, start, nameEnd, opStart) && opStart < last < |template|
    requires LastOnLine(template[start..], opStart - start) == Some(last - start)
    requires close == start + BraceClosing(template[start..last + 1], 0, 0).GetOr(last - start)
    ensures opStart < close <= last
    ensures OperatorToken(template[start..], nameEnd - start, opStart - start)
            == Operator(template[start + 2..nameEnd], template[nameEnd..opStart + 1],
                        template[opStart + 1..close], close - start, last - start)
  {
    hide LastOnLine, BraceClosing, NameLength, TextEnd;
    TextEndAt(template, start, nameEnd, opStart, last);
    TemplateLaws.Window(template, start, 2, nameEnd - start);
    TemplateLaws.Window(template, start, nameEnd - start, opStart - start + 1);
    TemplateLaws.Window(template, start, opStart - start + 1, close - start);
  }

  lemma NoOperatorToken(t: string, nameEnd: nat, opStart: nat, lookup: Lookup)
    requires 3 <= nameEnd <= opStart <= nameEnd + 1 && opStart < |t| && t[0] == '$' && t[1] == '{'
    requires NameLength(t[2..]) == nameEnd - 2
    requires opStart > nameEnd ==> t[nameEnd] == ':'
    requires IsOperator(t[opStart]) && LastOnLine(t, opStart).None?
    ensures StepOutcome(OperatorToken(t, nameEnd, opStart), t, lookup) == Fail(Invalid)
  {
    hide LastOnLine, NameLength;
  }

  lemma TextEndAt(template: string, start: nat, nameEnd: nat, opStart: nat, last: nat)
    requires OperatorSite(template, start, nameEnd, opStart) && opStart < last < |template|
    ensures TextEnd(template[start..], nameEnd - start, opStart - start, last - start)
            == BraceClosing(template[start..last + 1], 0, 0).GetOr(last - start)
  {
    hide BraceClosing, NameLength;
    TemplateLaws.Window(template, start, 0, last + 1 - start);
  }

  /** Operator, text and leftover of a matched `${` with the name up to `nameEnd`. */
  method SplitMatched(matched: string, nameEnd: nat, balanced: Option<nat>)
    returns (op: string, arg: string, rest: string)
    requires nameEnd >= 2 && nameEnd + 1 < |matched|
    requires var close := balanced.GetOr(|matched| - 1);
             nameEnd + (if matched[nameEnd] == ':' then 2 else 1) <= close < |matched|
    ensures var close := balanced.GetOr(|matched| - 1);
            var textStart := nameEnd + if matched[nameEnd] == ':' then 2 else 1;
            op == matched[nameEnd..textStart] && arg == matched[textStart..close] && rest == matched[close + 1..]
  {
    var body;
    if balanced.Some? {
      body, rest := matched[2..balanced.value], matched[balanced.value + 1..];
    } else {
      body, rest := matched[2..|matched| - 1], "";
    }
    var operator := body[nameEnd - 2..];
    if operator[0] == ':' {
      op, arg := operator[..2], operator[2..];
    } else {
      op, arg := operator[..1], operator[1..];
    }
  }

  lemma MatchedParts(template: string, start: nat, nameEnd: nat, opStart: nat, close: nat, last: nat)
    requires start <= nameEnd <= opStart < close <= last < |template|
    ensures var matched := template[start..last + 1];
            && matched[nameEnd - start..opStart + 1 - start] == template[nameEnd..opStart + 1]
            && matched[opStart + 1 - start..close - start] == template[opStart + 1..close]
            && matched[close - start + 1..] == template[start..][close - start + 1..last - start + 1]
  {
    var matched := template[start..last + 1];
    assert forall i :: 0 <= i < |matched| ==> matched[i] == template[start + i];
  }

  /** What the operator contributes, from the parts of its match. */
  lemma OperatorStep(template: string, start: nat, nameEnd: nat, opStart: nat, last: nat, close: nat, op: string,
                     arg: string, rest: string, lookup: Lookup)
    requires OperatorSite(template, start, nameEnd, opStart) && opStart < close <= last < |template|
    requires LastOnLine(template[start..], opStart - start) == Some(last - start)
    requires close == start + BraceClosing(template[start..last + 1], 0, 0).GetOr(last - start)
    requires var matched := template[start..last + 1];
             && op == matched[nameEnd - start..opStart + 1 - start]
             && arg == matched[opStart + 1 - start..close - start]
             && rest == matched[close - start + 1..]
    ensures var t := template[start..];
            var token := OperatorToken(t, nameEnd - start, opStart - start);
            && token.Operator?
            && StepLength(token) == last + 1 - start
            && StepOutcome(token, t, lookup)
               == Then(TemplateRules.Apply(template[start + 2..nameEnd], op, TemplateRules.Substitute(arg, lookup),
                                           lookup),
                       TemplateRules.Substitute(rest, lookup))
  {
    hide OperatorToken, LastOnLine, TemplateRules.Substitute, TemplateRules.Apply, NameLength, BraceClosing, Then;
    OperatorTokenAt(template, start, nameEnd, opStart, last, close);
    MatchedParts(template, start, nameEnd, opStart, close, last);
  }

  lemma CloseInside(template: string, start: nat, nameEnd: nat, opStart: nat, last: nat, close: nat)
    requires OperatorSite(template, start, nameEnd, opStart) && opStart < last < |template|
    requires LastOnLine(template[start..], opStart - start) == Some(last - start)
    requires close == start + BraceClosing(template[start..last + 1], 0, 0).GetOr(last - start)
    ensures opStart < close <= last && template[start..last + 1][nameEnd - start] == template[nameEnd]
  {
    hide OperatorToken, LastOnLine, NameLength, BraceClosing;
    OperatorTokenAt(template, start, nameEnd, opStart, last, close);
  }

  /** The operator arm of `Braced`: greedy to the last `}` on the line. */
  method OperatorAt(template: string, start: nat, nameEnd: nat, opStart: nat, lookup: Lookup, unset: UnsetNames)
    returns (r: Result<string, TemplateError>, end: nat)
    requires OperatorSite(template, start, nameEnd, opStart)
    modifies unset
    ensures var t := template[start..];
            var token := OperatorToken(t, nameEnd - start, opStart - start);
            && Gives(r, old(unset.names), unset.names, StepOutcome(token, t, lookup))
            && (r.Ok? ==> token.Operator? && end == start + StepLength(token))
    decreases |template| - start, 0
  {
    hide OperatorToken, LastOnLine, StepOutcome, TemplateRules.Substitute, TemplateRules.Apply, NameLength, Find,
      FindLast, BraceClosing, Then;
    LastOnLineAt(template, start, opStart);
    var lineEnd := opStart + Find(template[opStart..], '\n');
    var lastBrace := FindLast(template[opStart + 1..lineEnd], '}');
    if lastBrace.None? {
      NoOperatorToken(template[start..], nameEnd - start, opStart - start, lookup);
      return Err(Invalid), 0;
    }
    var last := opStart + 1 + lastBrace.value;
    var matched := template[start..last + 1];
    var balanced := FirstBraceClosing(matched);
    var close := start + balanced.GetOr(last - start);
    CloseInside(template, start, nameEnd, opStart, last, close);
    var op, arg, rest := SplitMatched(matched, nameEnd - start, balanced);
    OperatorStep(template, start, nameEnd, opStart, last, close, op, arg, rest, lookup);
    r := ApplyThenLeftover(template[start + 2..nameEnd], op, arg, rest, lookup, unset);
    end := last + 1;
  }

  method ApplyThenLeftover(name: string, op: string, arg: string, rest: string, lookup: Lookup, unset: UnsetNames)
    returns (r: Result<string, TemplateError>)
    modifies unset
    ensures Gives(r, old(unset.names), unset.names,
                  Then(TemplateRules.Apply(name, op, TemplateRules.Substitute(arg, lookup), lookup),
                       TemplateRules.Substitute(rest, lookup)))
    decreases |arg| + |rest|, 5
  {
    hide TemplateRules.Substitute, TemplateRules.Apply;
    r := Apply(name, op, arg, lookup, unset);
    if r.Err? { return; }
    var leftover := Substitute(rest, lookup, unset);
    r := if leftover.Err? then leftover else Ok(r.value + leftover.value);
  }

  method Apply(name: string, op: string, arg: string, lookup: Lookup, unset: UnsetNames)
    returns (r: Result<string, TemplateError>)
    modifies unset
    ensures Gives(r, old(unset.names), unset.names,
                  TemplateRules.Apply(name, op, TemplateRules.Substitute(arg, lookup), lookup))
    decreases |arg|, 4
  {
    var value := lookup(name);
    if !UsesText(op, value) {
      r := Ok(value.GetOr(""));
    } else {
      r := Substitute(arg, lookup, unset);
      if r.Ok? && (op == ":?" || op == "?") {
        r := Err(MissingRequired(name, r.value));
      }
    }
  }

  method ReadPlain(name: string, lookup: Lookup, unset: UnsetNames) returns (value: string)
    modifies unset
    ensures Gives(Ok(value), old(unset.names), unset.names, TemplateRules.ReadPlain(name, lookup))
  {
    match lookup(name)
    case Some(found) => value := found;
    case None =>
      unset.Push(name);
      value := "";
  }

  /** Finds the `}` closing the first `{`; the character after each `{` is skipped. */
  method FirstBraceClosing(s: string) returns (r: Option<nat>)
    ensures r == BraceClosing(s, 0, 0)
  {
    var open: nat := 0;
    var i := 0;
    while i < |s|
      invariant 0 <= i
      invariant BraceClosing(s, 0, 0) == BraceClosing(s, i, open)
      decreases |s| - i
    {
      if s[i] == '}' {
        open := if open == 0 then 0 else open - 1;
        if open == 0 {
          return Some(i);
        }
      }
      if s[i] == '{' {
        open := open + 1;
        i := i + 1;
      }
      i := i + 1;
    }
    return None;
  }
}
