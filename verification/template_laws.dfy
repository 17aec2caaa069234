/** Laws of substitution: it is the plain scanner, it is local, and doubled dollars protect any text. */
module TemplateLaws {
  import opened Common
  import opened TemplateRules

  // ----- searching -----

  lemma {:induction false} NameLengthStable(x: string, y: string)
    requires NameLength(x) < |x|
    ensures NameLength(x + y) == NameLength(x)
    decreases |x|
  {
    assert (x + y)[0] == x[0];
    if IsNameChar(x[0]) {
      assert (x + y)[1..] == x[1..] + y;
      NameLengthStable(x[1..], y);
    }
  }

  /** `c` is found where it first is, or at the end. */
  lemma {:induction false} FindUnique(s: string, c: char, n: nat)
    requires n <= |s| && (forall i :: 0 <= i < n ==> s[i] != c) && (n < |s| ==> s[n] == c)
    ensures Find(s, c) == n
    decreases n
  {
    if n > 0 {
      FindUnique(s[1..], c, n - 1);
    }
  }

  lemma {:induction false} FindFirst(s: string, c: char)
    ensures forall i :: 0 <= i < Find(s, c) ==> s[i] != c
    ensures Find(s, c) < |s| ==> s[Find(s, c)] == c
  {
    if s != "" && s[0] != c {
      FindFirst(s[1..], c);
      assert forall i :: 0 < i < Find(s, c) ==> s[i] == s[1..][i - 1];
    }
  }

  lemma {:induction false} FindLastIsLast(s: string, c: char)
    ensures var r := FindLast(s, c);
            forall i :: (if r.Some? then r.value else -1) < i < |s| ==> s[i] != c
  {
    if s != "" && s[|s| - 1] != c {
      FindLastIsLast(s[..|s| - 1], c);
    }
  }

  lemma FindLastUnique(s: string, c: char, n: nat)
    requires n < |s| && s[n] == c && forall i :: n < i < |s| ==> s[i] != c
    ensures FindLast(s, c) == Some(n)
  {
    FindLastIsLast(s, c);
  }

  lemma Window(s: string, start: nat, i: nat, j: nat)
    requires start <= |s| && i <= j <= |s| - start
    ensures s[start..][i..j] == s[start + i..start + j]
    ensures s[start..][i..] == s[start + i..]
    ensures s[start..][..j] == s[start..start + j]
  {
    assert forall k :: 0 <= k < j - i ==> s[start..][i..j][k] == s[start + i..start + j][k];
  }

  // ----- boundaries -----

  /** The first line of `b` has no closing brace. */
  predicate NoBraceOnLine(b: string) {
    '}' !in b[..Find(b, '\n')]
  }

  /** A place where a template can be cut: after a line, or after the last `}` of a line. */
  predicate Boundary(a: string, b: string) {
    a == "" || a[|a| - 1] == '\n' || (a[|a| - 1] == '}' && NoBraceOnLine(b))
  }

  lemma LineWithin(a: string, b: string, k: nat)
    requires k < |a| && Find(a[k..], '\n') < |a| - k
    ensures Find((a + b)[k..], '\n') == Find(a[k..], '\n')
  {
    FindFirst(a[k..], '\n');
    assert (a + b)[k..] == a[k..] + b;
    FindUnique((a + b)[k..], '\n', Find(a[k..], '\n'));
  }

  lemma LineBeyond(a: string, b: string, k: nat)
    requires k < |a| && Find(a[k..], '\n') == |a| - k
    ensures Find((a + b)[k..], '\n') == |a| - k + Find(b, '\n')
  {
    FindFirst(a[k..], '\n');
    FindFirst(b, '\n');
    assert (a + b)[k..] == a[k..] + b;
    FindUnique(a[k..] + b, '\n', |a| - k + Find(b, '\n'));
  }

  lemma LastBeyond(a: string, b: string, k: nat)
    requires k + 1 < |a| && a[|a| - 1] == '}' && NoBraceOnLine(b)
    ensures FindLast((a + b)[k + 1..|a| + Find(b, '\n')], '}') == Some(|a| - k - 2) == FindLast(a[k + 1..|a|], '}')
  {
    var line := (a + b)[k + 1..|a| + Find(b, '\n')];
    assert line == a[k + 1..|a|] + b[..Find(b, '\n')];
    FindLastUnique(line, '}', |a| - k - 2);
    FindLastUnique(a[k + 1..|a|], '}', |a| - k - 2);
  }

  lemma LastOnLineStable(a: string, b: string, k: nat)
    requires k + 1 < |a| && a[k] != '\n' && Boundary(a, b)
    ensures LastOnLine(a + b, k) == LastOnLine(a, k)
  {
    var n := Find(a[k..], '\n');
    if n < |a| - k {
      LineWithin(a, b, k);
      assert (a + b)[k + 1..k + n] == a[k + 1..k + n];
    } else {
      LineBeyond(a, b, k);
      assert a[|a| - 1] == '}' by {
        FindFirst(a[k..], '\n');
        assert a[k..][|a| - k - 1] == a[|a| - 1];
      }
      LastBeyond(a, b, k);
    }
  }

  lemma OperatorTokenStable(a: string, b: string, nameEnd: nat, opStart: nat)
    requires 3 <= nameEnd <= opStart <= nameEnd + 1 && opStart < |a| && a[0] == '$' && a[1] == '{'
    requires NameLength(a[2..]) == nameEnd - 2 == NameLength((a + b)[2..])
    requires opStart > nameEnd ==> a[nameEnd] == ':'
    requires IsOperator(a[opStart]) && Boundary(a, b)
    ensures OperatorToken(a + b, nameEnd, opStart) == OperatorToken(a, nameEnd, opStart)
  {
    var t := a + b;
    LastOnLineStable(a, b, opStart);
    var last := LastOnLine(a, opStart);
    if last.Some? {
      assert t[..last.value + 1] == a[..last.value + 1];
      var close := TextEnd(a, nameEnd, opStart, last.value);
      assert TextEnd(t, nameEnd, opStart, last.value) == close;
      assert t[2..nameEnd] == a[2..nameEnd];
      assert t[nameEnd..opStart + 1] == a[nameEnd..opStart + 1];
      assert t[opStart + 1..close] == a[opStart + 1..close];
    }
  }

  lemma BracedTokenStable(a: string, b: string)
    requires |a| >= 3 && a[0] == '$' && a[1] == '{' && Boundary(a, b)
    ensures BracedToken(a + b) == BracedToken(a)
  {
    var t := a + b;
    assert t[2..] == a[2..] + b;
    var n := NameLength(a[2..]);
    NameLengthFacts(a[2..]);
    assert a[2..][|a| - 3] == a[|a| - 1];
    NameLengthStable(a[2..], b);
    var nameEnd := 2 + n;
    var opStart := if a[nameEnd] == ':' then nameEnd + 1 else nameEnd;
    assert opStart < |a| && t[nameEnd] == a[nameEnd] && t[opStart] == a[opStart] && t[2] == a[2];
    assert t[2..nameEnd] == a[2..nameEnd];
    if n > 0 && IsNameStart(a[2]) && IsOperator(a[opStart]) {
      OperatorTokenStable(a, b, nameEnd, opStart);
    }
  }

  /** A token that starts before a boundary ends before it. */
  lemma NextTokenStable(a: string, b: string)
    requires a != "" && Boundary(a, b)
    ensures NextToken(a + b) == NextToken(a)
  {
    var t := a + b;
    assert t[0] == a[0] && (|a| > 1 ==> t[1] == a[1]);
    if a[0] != '$' {
      assert t[..1] == a[..1];
    } else if a[1] == '{' {
      BracedTokenStable(a, b);
    } else if a[1] != '$' && IsNameStart(a[1]) {
      assert t[1..] == a[1..] + b;
      NameLengthFacts(a[1..]);
      assert a[1..][|a| - 2] == a[|a| - 1];
      NameLengthStable(a[1..], b);
      var end := 1 + NameLength(a[1..]);
      assert t[1..end] == a[1..end];
    }
  }

  lemma {:induction false} FindDrop(s: string, c: char, n: nat)
    requires n <= Find(s, c)
    ensures Find(s[n..], c) == Find(s, c) - n
    decreases n
  {
    if n > 0 {
      FindDrop(s[1..], c, n - 1);
      assert s[n..] == s[1..][n - 1..];
    } else {
      assert s[0..] == s;
    }
  }

  lemma LastIsLast(t: string, k: nat)
    requires k < |t| && LastOnLine(t, k).Some?
    ensures NoBraceOnLine(t[LastOnLine(t, k).value + 1..])
  {
    var length := Find(t[k..], '\n');
    var line := t[k + 1..k + length];
    var m := FindLast(line, '}').value;
    assert '}' !in line[m + 1..] by { FindLastIsLast(line, '}'); }
    var tail := t[k + m + 2..];
    assert Find(tail, '\n') == length - m - 2 by {
      FindDrop(t[k..], '\n', m + 2);
      assert t[k..][m + 2..] == tail;
    }
    assert tail[..length - m - 2] == line[m + 1..];
  }

  /** Past an operator's last brace there is none left on the line. */
  lemma NothingAfterLast(t: string)
    requires t != "" && NextToken(t).Operator?
    ensures NoBraceOnLine(t[NextToken(t).last + 1..])
  {
    var nameEnd := 2 + NameLength(t[2..]);
    var opStart := if t[nameEnd] == ':' then nameEnd + 1 else nameEnd;
    LastIsLast(t, opStart);
  }

  /** Cut at a boundary, a template can be substituted part by part. */
  lemma {:induction false} SubstituteSplits(a: string, b: string, lookup: Lookup)
    requires Boundary(a, b)
    ensures Substitute(a + b, lookup) == Then(Substitute(a, lookup), Substitute(b, lookup))
    decreases |a|, 3
  {
    if a == "" {
      assert a + b == b;
      ThenUnits(Substitute(b, lookup));
    } else {
      NextTokenStable(a, b);
      TokenSplits(NextToken(a), a, b, lookup);
    }
  }

  lemma {:induction false} TokenSplits(token: Token, a: string, b: string, lookup: Lookup)
    requires Fits(token, |a|) && Boundary(a, b)
    ensures SubstituteFrom(token, a + b, lookup) == Then(SubstituteFrom(token, a, lookup), Substitute(b, lookup))
    decreases |a|, 2
  {
    var after := Substitute(b, lookup);
    match token
    case Text(text, len) =>
      SplitAfter(a, b, len, lookup);
      ThenAssociates(Literal(text), Substitute(a[len..], lookup), after);
    case Variable(name, len) =>
      SplitAfter(a, b, len, lookup);
      ThenAssociates(ReadPlain(name, lookup), Substitute(a[len..], lookup), after);
    case Malformed =>
    case Operator(_, _, _, _, _) => OperatorSplits(token, a, b, lookup);
  }

  lemma {:induction false} OperatorSplits(token: Token, a: string, b: string, lookup: Lookup)
    requires Fits(token, |a|) && Boundary(a, b) && token.Operator?
    ensures SubstituteFrom(token, a + b, lookup) == Then(SubstituteFrom(token, a, lookup), Substitute(b, lookup))
    decreases |a|, 1
  {
    SplitAfter(a, b, token.last + 1, lookup);
    OperatorOutcome(token, a, a[token.close + 1..token.last + 1], a[token.last + 1..], lookup);
    assert (a + b)[token.close + 1..token.last + 1] == a[token.close + 1..token.last + 1];
    OperatorOutcome(token, a + b, a[token.close + 1..token.last + 1], (a + b)[token.last + 1..], lookup);
    var head := Then(Apply(token.name, token.op, Substitute(token.arg, lookup), lookup),
                     Substitute(a[token.close + 1..token.last + 1], lookup));
    ThenAssociates(head, Substitute(a[token.last + 1..], lookup), Substitute(b, lookup));
  }

  lemma OperatorOutcome(token: Token, t: string, rest: string, tail: string, lookup: Lookup)
    requires Fits(token, |t|) && token.Operator?
    requires rest == t[token.close + 1..token.last + 1] && tail == t[token.last + 1..]
    ensures SubstituteFrom(token, t, lookup)
            == Then(Then(Apply(token.name, token.op, Substitute(token.arg, lookup), lookup), Substitute(rest, lookup)),
                    Substitute(tail, lookup))
  {
  }

  lemma {:induction false} SplitAfter(a: string, b: string, n: nat, lookup: Lookup)
    requires Boundary(a, b) && 0 < n <= |a|
    ensures Substitute((a + b)[n..], lookup) == Then(Substitute(a[n..], lookup), Substitute(b, lookup))
    decreases |a|, 0
  {
    assert (a + b)[n..] == a[n..] + b;
    SubstituteSplits(a[n..], b, lookup);
  }

  /** The greedy match gives the value, the first error and the unset names of the plain scanner. */
  lemma {:induction false} SubstituteIsScan(t: string, lookup: Lookup)
    ensures Substitute(t, lookup) == Scan(t, lookup)
    decreases |t|, 1
  {
    if t != "" {
      if NextToken(t).Operator? {
        NothingAfterLast(t);
      }
      TokenIsScan(NextToken(t), t, lookup);
    }
  }

  lemma {:induction false} TokenIsScan(token: Token, t: string, lookup: Lookup)
    requires Fits(token, |t|)
    requires token.Operator? ==> t[token.last] == '}' && NoBraceOnLine(t[token.last + 1..])
    ensures SubstituteFrom(token, t, lookup) == ScanFrom(token, t, lookup)
    decreases |t|, 0
  {
    match token
    case Text(_, len) => SubstituteIsScan(t[len..], lookup);
    case Variable(_, len) => SubstituteIsScan(t[len..], lookup);
    case Malformed =>
    case Operator(_, _, arg, close, last) =>
      hide NoBraceOnLine, Substitute, Scan, Apply, Then;
      SubstituteIsScan(arg, lookup);
      SubstituteIsScan(t[close + 1..], lookup);
      OperatorIsScan(token, t, lookup);
  }

  lemma OperatorIsScan(token: Token, t: string, lookup: Lookup)
    requires token.Operator? && Fits(token, |t|) && t[token.last] == '}' && NoBraceOnLine(t[token.last + 1..])
    requires Substitute(token.arg, lookup) == Scan(token.arg, lookup)
    requires Substitute(t[token.close + 1..], lookup) == Scan(t[token.close + 1..], lookup)
    ensures SubstituteFrom(token, t, lookup) == ScanFrom(token, t, lookup)
  {
    hide NoBraceOnLine, Substitute, Scan, Apply, Then;
    var rest, tail := t[token.close + 1..token.last + 1], t[token.last + 1..];
    LeftoverSplits(t, token.close, token.last, lookup);
    ThenAssociates(Apply(token.name, token.op, Substitute(token.arg, lookup), lookup), Substitute(rest, lookup),
                   Substitute(tail, lookup));
  }

  lemma LeftoverSplits(t: string, close: nat, last: nat, lookup: Lookup)
    requires close <= last < |t| && t[last] == '}' && NoBraceOnLine(t[last + 1..])
    ensures Substitute(t[close + 1..], lookup)
            == Then(Substitute(t[close + 1..last + 1], lookup), Substitute(t[last + 1..], lookup))
  {
    var rest, tail := t[close + 1..last + 1], t[last + 1..];
    assert t[close + 1..] == rest + tail;
    SubstituteSplits(rest, tail, lookup);
  }

  function DoubleDollars(s: string): string {
    if s == "" then "" else (if s[0] == '$' then "$$" else s[..1]) + DoubleDollars(s[1..])
  }

  /** Doubling every dollar makes substitution the identity, whatever the lookup. */
  lemma {:induction false} DoubledIsLiteral(s: string, lookup: Lookup)
    ensures Substitute(DoubleDollars(s), lookup) == Literal(s)
  {
    if s != "" {
      var d := DoubleDollars(s);
      DoubledIsLiteral(s[1..], lookup);
      assert s == s[..1] + s[1..];
      if s[0] == '$' {
        assert s[..1] == "$";
        assert d[0] == '$' && d[1] == '$' && d[2..] == DoubleDollars(s[1..]);
        assert NextToken(d) == Text("$", 2);
      } else {
        assert d[0] == s[0] && d[..1] == s[..1] && d[1..] == DoubleDollars(s[1..]);
        assert NextToken(d) == Text(d[..1], 1);
      }
    }
  }

  // ----- locality -----

  /** The lookups agree on every name that occurs in `t`. */
  ghost predicate AgreeWithin(t: string, lookup: Lookup, lookup': Lookup) {
    forall name :: Occurs(name, t) ==> lookup(name) == lookup'(name)
  }

  ghost predicate Occurs(name: string, t: string) {
    exists i, j :: 0 <= i <= j <= |t| && name == t[i..j]
  }

  lemma PartOfPart(t: string, p: nat, q: nat, i: nat, j: nat)
    requires p <= q <= |t| && i <= j <= q - p
    ensures t[p..q][i..j] == t[p + i..p + j]
  {
    assert forall k :: 0 <= k < j - i ==> t[p..q][i..j][k] == t[p + i..p + j][k];
  }

  lemma AgreeInPart(t: string, p: nat, q: nat, lookup: Lookup, lookup': Lookup)
    requires AgreeWithin(t, lookup, lookup') && p <= q <= |t|
    ensures AgreeWithin(t[p..q], lookup, lookup')
  {
    forall name | Occurs(name, t[p..q])
      ensures lookup(name) == lookup'(name)
    {
      var i: nat, j: nat :| i <= j <= q - p && name == t[p..q][i..j];
      PartOfPart(t, p, q, i, j);
      assert Occurs(name, t);
    }
  }

  /** A token's name and text are parts of the template. */
  lemma TokenParts(t: string)
    requires t != ""
    ensures var r := NextToken(t);
            && (r.Variable? || r.Operator? ==> Occurs(r.name, t))
            && (r.Operator? ==> r.close >= |r.arg| && r.arg == t[r.close - |r.arg|..r.close])
  {
  }

  /** The outcome depends on the lookup only through names that occur in the template. */
  lemma {:induction false} SubstituteIsLocal(t: string, lookup: Lookup, lookup': Lookup)
    requires AgreeWithin(t, lookup, lookup')
    ensures Substitute(t, lookup) == Substitute(t, lookup')
    decreases |t|, 3
  {
    if t != "" {
      TokenParts(t);
      TokenIsLocal(NextToken(t), t, lookup, lookup');
    }
  }

  lemma {:induction false} TokenIsLocal(token: Token, t: string, lookup: Lookup, lookup': Lookup)
    requires Fits(token, |t|) && AgreeWithin(t, lookup, lookup')
    requires token.Variable? || token.Operator? ==> Occurs(token.name, t)
    requires token.Operator? ==> token.close >= |token.arg| && token.arg == t[token.close - |token.arg|..token.close]
    ensures SubstituteFrom(token, t, lookup) == SubstituteFrom(token, t, lookup')
    decreases |t|, 2
  {
    match token
    case Text(_, len) => LocalInPart(t, len, |t|, lookup, lookup');
    case Variable(_, len) => LocalInPart(t, len, |t|, lookup, lookup');
    case Malformed =>
    case Operator(_, _, _, _, _) => OperatorIsLocal(token, t, lookup, lookup');
  }

  lemma {:induction false} OperatorIsLocal(token: Token, t: string, lookup: Lookup, lookup': Lookup)
    requires Fits(token, |t|) && AgreeWithin(t, lookup, lookup')
    requires token.Operator? && lookup(token.name) == lookup'(token.name)
    requires token.close >= |token.arg| && token.arg == t[token.close - |token.arg|..token.close]
    ensures SubstituteFrom(token, t, lookup) == SubstituteFrom(token, t, lookup')
    decreases |t|, 1
  {
    LocalInPart(t, token.close - |token.arg|, token.close, lookup, lookup');
    LocalInPart(t, token.close + 1, token.last + 1, lookup, lookup');
    LocalInPart(t, token.last + 1, |t|, lookup, lookup');
    OperatorFromParts(token, t, t[token.close + 1..token.last + 1], t[token.last + 1..], lookup, lookup');
  }

  lemma OperatorFromParts(token: Token, t: string, rest: string, tail: string, lookup: Lookup, lookup': Lookup)
    requires Fits(token, |t|) && token.Operator? && lookup(token.name) == lookup'(token.name)
    requires rest == t[token.close + 1..token.last + 1] && tail == t[token.last + 1..]
    requires Substitute(token.arg, lookup) == Substitute(token.arg, lookup')
    requires Substitute(rest, lookup) == Substitute(rest, lookup')
    requires Substitute(tail, lookup) == Substitute(tail, lookup')
    ensures SubstituteFrom(token, t, lookup) == SubstituteFrom(token, t, lookup')
  {
  }

  lemma {:induction false} LocalInPart(t: string, p: nat, q: nat, lookup: Lookup, lookup': Lookup)
    requires AgreeWithin(t, lookup, lookup') && p <= q <= |t| && q - p < |t|
    ensures Substitute(t[p..q], lookup) == Substitute(t[p..q], lookup')
    ensures q == |t| ==> Substitute(t[p..], lookup) == Substitute(t[p..], lookup')
    decreases |t|, 0
  {
    AgreeInPart(t, p, q, lookup, lookup');
    SubstituteIsLocal(t[p..q], lookup, lookup');
    if q == |t| { assert t[p..] == t[p..q]; }
  }
}
