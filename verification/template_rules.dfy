/** `${}` substitution as the program does it, and the plain left-to-right scanner it amounts to. */
module TemplateRules {
  import opened Common

  datatype TemplateError = Invalid | MissingRequired(name: string, reason: string)

  /** A substitution's value or first error, and the unset names read on the way, in order. */
  datatype Outcome = Outcome(result: Result<string, TemplateError>, unset: seq<string>)

  type Lookup = string -> Option<string>

  function Literal(s: string): Outcome {
    Outcome(Ok(s), [])
  }

  function Fail(error: TemplateError): Outcome {
    Outcome(Err(error), [])
  }

  function Then(a: Outcome, b: Outcome): Outcome {
    if a.result.Err? then a
    else Outcome(if b.result.Err? then b.result else Ok(a.result.value + b.result.value), a.unset + b.unset)
  }

  lemma ThenAssociates(a: Outcome, b: Outcome, c: Outcome)
    ensures Then(Then(a, b), c) == Then(a, Then(b, c))
  {
    if a.result.Ok? && b.result.Ok? {
      assert (a.unset + b.unset) + c.unset == a.unset + (b.unset + c.unset);
      if c.result.Ok? {
        assert (a.result.value + b.result.value) + c.result.value == a.result.value + (b.result.value + c.result.value);
      }
    }
  }

  lemma ThenUnits(a: Outcome)
    ensures Then(Literal(""), a) == a == Then(a, Literal(""))
  {
    if a.result.Ok? {
      assert "" + a.result.value == a.result.value == a.result.value + "";
    }
    assert [] + a.unset == a.unset == a.unset + [];
  }

  predicate IsNameStart(c: char) {
    c == '_' || 'a' <= c <= 'z' || 'A' <= c <= 'Z'
  }

  predicate IsNameChar(c: char) {
    IsNameStart(c) || '0' <= c <= '9'
  }

  /** The length of the longest prefix of name characters. */
  function NameLength(s: string): (n: nat)
    ensures n <= |s|
  {
    if s == "" || !IsNameChar(s[0]) then 0 else 1 + NameLength(s[1..])
  }

  lemma NameLengthFacts(s: string)
    ensures forall i :: 0 <= i < NameLength(s) ==> IsNameChar(s[i])
    ensures NameLength(s) < |s| ==> !IsNameChar(s[NameLength(s)])
  {
  }

  /** The first position of `c`, or the length. */
  function Find(s: string, c: char): (n: nat)
    ensures n <= |s|
  {
    if s == "" || s[0] == c then 0 else 1 + Find(s[1..], c)
  }

  /** The last position of `c`. */
  function FindLast(s: string, c: char): (r: Option<nat>)
    ensures r.Some? ==> r.value < |s| && s[r.value] == c
  {
    if s == "" then None
    else if s[|s| - 1] == c then Some(|s| - 1)
    else FindLast(s[..|s| - 1], c)
  }

  /**
   * The `}` closing the first `{` from position `i` on with `open` braces open; the character after a `{` is skipped.
   */
  function BraceClosing(s: string, i: nat, open: nat): (r: Option<nat>)
    ensures r.Some? ==> i <= r.value < |s| && s[r.value] == '}'
    decreases |s| - i
  {
    if i >= |s| then None
    else if s[i] == '}' then (if open <= 1 then Some(i) else BraceClosing(s, i + 1, open - 1))
    else if s[i] == '{' then BraceClosing(s, i + 2, open + 1)
    else BraceClosing(s, i + 1, open)
  }

  /** What a template starts with, and how much of it that takes. */
  datatype Token =
    | Text(text: string, len: nat)
    | Variable(name: string, len: nat)
    | Malformed
    | Operator(name: string, op: string, arg: string, close: nat, last: nat)

  predicate IsOperator(c: char) {
    c == '-' || c == '+' || c == '?'
  }

  /** Where the operator's text ends: its first balanced `}`, else the last one. */
  function TextEnd(t: string, nameEnd: nat, opStart: nat, last: nat): (close: nat)
    requires 3 <= nameEnd <= opStart <= nameEnd + 1 && opStart < last < |t| && t[0] == '$' && t[1] == '{'
    requires NameLength(t[2..]) == nameEnd - 2
    requires opStart > nameEnd ==> t[nameEnd] == ':'
    requires IsOperator(t[opStart])
    ensures opStart < close <= last
  {
    NameLengthFacts(t[2..]);
    ClosesAfterOperator(t, last, nameEnd, opStart);
    BraceClosing(t[..last + 1], 0, 0).GetOr(last)
  }

  /** The last `}` after position `k`, on the line of `k`. */
  function LastOnLine(t: string, k: nat): (r: Option<nat>)
    requires k < |t|
    ensures r.Some? ==> k < r.value < |t| && t[r.value] == '}'
  {
    var lineEnd := k + Find(t[k..], '\n');
    if lineEnd == k then None
    else
      var n := FindLast(t[k + 1..lineEnd], '}');
      if n.None? then None else Some(k + 1 + n.value)
  }

  function BracedToken(t: string): (r: Token)
    requires |t| >= 2 && t[0] == '$' && t[1] == '{'
    ensures !r.Text?
    ensures r.Variable? ==> 2 < r.len <= |t|
    ensures r.Operator? ==> 3 < r.close <= r.last < |t| && t[r.last] == '}' && |r.arg| < r.close
  {
    var nameEnd := 2 + NameLength(t[2..]);
    var opStart := if nameEnd < |t| && t[nameEnd] == ':' then nameEnd + 1 else nameEnd;
    if nameEnd == 2 || !IsNameStart(t[2]) || opStart >= |t| then Malformed
    else if t[opStart] == '}' && opStart == nameEnd then Variable(t[2..nameEnd], nameEnd + 1)
    else if IsOperator(t[opStart]) then OperatorToken(t, nameEnd, opStart)
    else Malformed
  }

  /** The operator runs to the last `}` on its line; its text ends at the first balanced `}`, if one balances. */
  function OperatorToken(t: string, nameEnd: nat, opStart: nat): (r: Token)
    requires 3 <= nameEnd <= opStart <= nameEnd + 1 && opStart < |t| && t[0] == '$' && t[1] == '{'
    requires NameLength(t[2..]) == nameEnd - 2
    requires opStart > nameEnd ==> t[nameEnd] == ':'
    requires IsOperator(t[opStart])
    ensures r.Malformed? || r.Operator?
    ensures r.Operator? ==> 3 < r.close <= r.last < |t| && t[r.last] == '}' && |r.arg| < r.close
  {
    var last := LastOnLine(t, opStart);
    if last.None? then Malformed
    else
      var close := TextEnd(t, nameEnd, opStart, last.value);
      Operator(t[2..nameEnd], t[nameEnd..opStart + 1], t[opStart + 1..close], close, last.value)
  }

  /** The token takes part of a text of `n` characters, and its operator text still less. */
  predicate Fits(token: Token, n: nat) {
    match token
    case Text(_, len) => 0 < len <= n
    case Variable(_, len) => 0 < len <= n
    case Malformed => true
    case Operator(_, _, arg, close, last) => 3 < close <= last < n && |arg| < close
  }

  function NextToken(t: string): (r: Token)
    requires t != ""
    ensures Fits(r, |t|)
  {
    if t[0] != '$' then Text(t[..1], 1)
    else if |t| > 1 && t[1] == '$' then Text("$", 2)
    else if |t| > 1 && IsNameStart(t[1]) then
      var end := 1 + NameLength(t[1..]);
      Variable(t[1..end], end)
    else if |t| > 1 && t[1] == '{' then BracedToken(t)
    else Text("$", 1)
  }

  /** The name and operator hold no brace, so the balanced one comes after them. */
  lemma ClosesAfterOperator(t: string, last: nat, nameEnd: nat, opStart: nat)
    requires 3 <= nameEnd <= opStart <= nameEnd + 1 && opStart < last < |t| && t[0] == '$' && t[1] == '{'
    requires forall i :: 2 <= i < nameEnd ==> IsNameChar(t[i])
    requires opStart > nameEnd ==> t[nameEnd] == ':'
    requires IsOperator(t[opStart])
    ensures BraceClosing(t[..last + 1], 0, 0) == BraceClosing(t[..last + 1], opStart + 1, 1)
  {
    var s := t[..last + 1];
    assert BraceClosing(s, 0, 0) == BraceClosing(s, 1, 0) == BraceClosing(s, 3, 1);
    NoBraceSkips(s, 3, opStart + 1, 1);
  }

  lemma {:induction false} NoBraceSkips(s: string, i: nat, j: nat, open: nat)
    requires i <= j <= |s| && forall k :: i <= k < j ==> s[k] != '{' && s[k] != '}'
    ensures BraceClosing(s, i, open) == BraceClosing(s, j, open)
    decreases j - i
  {
    if i < j {
      NoBraceSkips(s, i + 1, j, open);
    }
  }

  function ReadPlain(name: string, lookup: Lookup): Outcome {
    match lookup(name)
    case Some(value) => Literal(value)
    case None => Outcome(Ok(""), [name])
  }

  predicate EmptyOrUnset(value: Option<string>) {
    value.GetOr("") == ""
  }

  /** Whether the operator uses its text instead of the variable's value. */
  predicate UsesText(op: string, value: Option<string>) {
    if op == ":-" || op == ":?" then EmptyOrUnset(value)
    else if op == "-" || op == "?" then value.None?
    else if op == ":+" then !EmptyOrUnset(value)
    else op == "+" && value.Some?
  }

  /** The operator's result, given what its text substitutes to. */
  function Apply(name: string, op: string, text: Outcome, lookup: Lookup): Outcome {
    var value := lookup(name);
    if !UsesText(op, value) then Literal(value.GetOr(""))
    else if op == ":?" || op == "?" then
      Outcome(if text.result.Err? then text.result else Err(MissingRequired(name, text.result.value)), text.unset)
    else text
  }

  /**
   * The program: the leftover between the first balanced `}` and the last one on the line is substituted on its own.
   */
  function Substitute(t: string, lookup: Lookup): Outcome
    decreases |t|, 1
  {
    if t == "" then Literal("") else SubstituteFrom(NextToken(t), t, lookup)
  }

  function SubstituteFrom(token: Token, t: string, lookup: Lookup): Outcome
    requires Fits(token, |t|)
    decreases |t|, 0
  {
    match token
    case Text(text, len) => Then(Literal(text), Substitute(t[len..], lookup))
    case Variable(name, len) => Then(ReadPlain(name, lookup), Substitute(t[len..], lookup))
    case Malformed => Fail(Invalid)
    case Operator(name, op, arg, close, last) =>
      Then(Then(Apply(name, op, Substitute(arg, lookup), lookup), Substitute(t[close + 1..last + 1], lookup)),
           Substitute(t[last + 1..], lookup))
  }

  /** The plain scanner: after an operator it goes on right behind the brace that closes its text. */
  function Scan(t: string, lookup: Lookup): Outcome
    decreases |t|, 1
  {
    if t == "" then Literal("") else ScanFrom(NextToken(t), t, lookup)
  }

  function ScanFrom(token: Token, t: string, lookup: Lookup): Outcome
    requires Fits(token, |t|)
    decreases |t|, 0
  {
    match token
    case Text(text, len) => Then(Literal(text), Scan(t[len..], lookup))
    case Variable(name, len) => Then(ReadPlain(name, lookup), Scan(t[len..], lookup))
    case Malformed => Fail(Invalid)
    case Operator(name, op, arg, close, _) =>
      Then(Apply(name, op, Scan(arg, lookup), lookup), Scan(t[close + 1..], lookup))
  }
}
