/** Both evaluators against the recursive reference semantics: on the fully parenthesised
    text of any expression with integer literals, each computes what `Reference.Eval`
    computes, and fails with its division-by-zero error when the reference does. */
module Agreement {
  import opened Chars
  import opened Results
  import opened SeqStack
  import opened Reference
  import OnePass = CommandLineCalculator
  import TwoStage = Calculator

  // ---------------------------------------------------------------------------------
  // Where the parts of a printed expression are

  /** A slice of a slice. */
  lemma SliceWithin(s: string, i: nat, t: string, a: nat, b: nat)
    requires i + |t| <= |s| && s[i..i + |t|] == t && a <= b <= |t|
    ensures s[i + a..i + b] == t[a..b]
  {
    forall k | 0 <= k < b - a
      ensures s[i + a..i + b][k] == t[a..b][k]
    {
      assert s[i + a..i + b][k] == s[i + a + k] == s[i..i + |t|][a + k];
    }
  }

  /** `(`, the left operand, the operator, the right operand, `)`. */
  lemma ShowLayout(e: Expr)
    requires e.Bin?
    ensures var t, m, n := Show(e), |Show(e.left)|, |Show(e.right)|;
      && |t| == m + n + 3
      && t[0] == '(' && t[m + 1] == Symbol(e.op) && t[m + n + 2] == ')'
      && t[1..m + 1] == Show(e.left)
      && t[m + 2..m + n + 2] == Show(e.right)
  {
    var t, l, r := Show(e), Show(e.left), Show(e.right);
    var m, n := |l|, |r|;
    assert t == "(" + l + [Symbol(e.op)] + r + ")";
    assert t[1..m + 1] == l;
    assert t[m + 2..m + n + 2] == r;
  }

  /** How the first evaluator reports a failure of the reference. */
  function OnePassResult(r: Result<real, Fault>): Result<real, OnePass.Error> {
    if r.Ok? then Ok(r.value) else Err(OnePass.DivisionByZero)
  }

  /** How the second evaluator reports a failure of the reference. */
  function TwoStageResult(r: Result<real, Fault>): Result<real, TwoStage.Error> {
    if r.Ok? then Ok(r.value) else Err(TwoStage.DivisionByZero)
  }

  /** The operator characters are the four the evaluators know. */
  lemma SymbolIsOperator(op: Op)
    ensures OnePass.IsOperator(Symbol(op)) && TwoStage.OperatorLike(Symbol(op))
    ensures OnePass.GetPriority(Symbol(op)) >= 1 && TwoStage.Precedence(Symbol(op)) >= 1
    ensures Symbol(op) == '/' <==> op == Div
  {
  }

  /** Conversely, every character either evaluator treats as an operator prints a reference
      operator. */
  lemma OperatorIsSymbol(c: char)
    ensures OnePass.IsOperator(c) <==> exists op :: Symbol(op) == c
    ensures TwoStage.Precedence(c) >= 1 <==> exists op :: Symbol(op) == c
  {
    if c == '+' {
      assert Symbol(Add) == c;
    } else if c == '-' {
      assert Symbol(Sub) == c;
    } else if c == '*' {
      assert Symbol(Mul) == c;
    } else if c == '/' {
      assert Symbol(Div) == c;
    }
  }

  // ---------------------------------------------------------------------------------
  // The one-pass evaluator

  /** `(` is on top of the operator stack: an operator pushes without applying anything. */
  lemma OpenGroupOperator(operands: seq<real>, ops: seq<char>, op: Op)
    ensures OnePass.Reduce(OnePass.GetPriority(Symbol(op)), OnePass.Stacks(operands, ops + ['('])) ==
      Ok(OnePass.Stacks(operands, ops + ['(']))
  {
    SymbolIsOperator(op);
  }

  /** The `)` of a group `(a op b)`: apply `op`, then drop the `(`. */
  lemma CloseGroup(operands: seq<real>, ops: seq<char>, a: real, b: real, op: Op)
    ensures Apply(op, a, b).Err? ==>
      OnePass.CloseParen(OnePass.Stacks(operands + [a, b], ops + ['(', Symbol(op)])) == Err(OnePass.DivisionByZero)
    ensures Apply(op, a, b).Ok? ==>
      OnePass.CloseParen(OnePass.Stacks(operands + [a, b], ops + ['(', Symbol(op)])) ==
        Ok(OnePass.Stacks(operands + [Apply(op, a, b).value], ops))
  {
    SymbolIsOperator(op);
    var sym := Symbol(op);
    var st := OnePass.Stacks(operands + [a, b], ops + ['(', sym]);
    assert ops + ['(', sym] == (ops + ['(']) + [sym];
    if Apply(op, a, b).Ok? {
      OnePass.CalcPair(operands, a, b, ops + ['('], sym);
      var v := Arith(sym, a, b);
      assert v == Apply(op, a, b).value;
      var st' := OnePass.Stacks(operands + [v], ops + ['(']);
      assert OnePass.Unwind(st') == Ok(st');
      assert OnePass.Unwind(st) == Ok(st');
      assert Below(ops + ['(']) == ops;
    } else {
      assert Below(Below(st.operands)) == operands && Top(st.operands) == b;
      assert OnePass.Calc(st) == Err(OnePass.DivisionByZero);
    }
  }

  /** The parts of a group `(l op r)` at position `i` of `s`. */
  lemma GroupAt(s: string, i: nat, e: Expr)
    requires e.Bin? && i + |Show(e)| <= |s| && s[i..i + |Show(e)|] == Show(e)
    ensures var m, n := |Show(e.left)|, |Show(e.right)|;
      && |Show(e)| == m + n + 3
      && s[i] == '(' && s[i + m + 1] == Symbol(e.op) && s[i + m + n + 2] == ')'
      && s[i + 1..i + 1 + m] == Show(e.left)
      && s[i + m + 2..i + m + 2 + n] == Show(e.right)
      && !OnePass.IsNumberChar(s[i + 1 + m]) && !OnePass.IsNumberChar(s[i + m + 2 + n])
  {
    SymbolIsOperator(e.op);
    var t, m, n := Show(e), |Show(e.left)|, |Show(e.right)|;
    ShowLayout(e);
    assert s[i] == s[i..i + |t|][0];
    assert s[i + m + 1] == s[i..i + |t|][m + 1];
    assert s[i + m + n + 2] == s[i..i + |t|][m + n + 2];
    SliceWithin(s, i, t, 1, m + 1);
    SliceWithin(s, i, t, m + 2, m + n + 2);
  }

  /** What scanning the printed form of `e` at position `i` does: push the value of `e`
      and continue after it, or fail as the reference does. */
  predicate ScanPushes(s: string, i: nat, e: Expr, st: OnePass.Stacks)
    requires i + |Show(e)| <= |s|
  {
    && (Eval(e).Err? ==> OnePass.Scan(s, i, st) == Err(OnePass.DivisionByZero))
    && (Eval(e).Ok? ==>
          OnePass.Scan(s, i, st) == OnePass.Scan(s, i + |Show(e)|, OnePass.Stacks(st.operands + [Eval(e).value], st.operators)))
  }

  /** The `(` and the operator of a group around the scan of its left operand. */
  lemma ScanGroupOpening(s: string, i: nat, m: nat, op: Op, a: real, st: OnePass.Stacks)
    requires i + m + 2 <= |s| && s[i] == '(' && s[i + m + 1] == Symbol(op)
    requires OnePass.Scan(s, i + 1, OnePass.Stacks(st.operands, st.operators + ['('])) ==
      OnePass.Scan(s, i + 1 + m, OnePass.Stacks(st.operands + [a], st.operators + ['(']))
    ensures OnePass.Scan(s, i, st) ==
      OnePass.Scan(s, i + m + 2, OnePass.Stacks(st.operands + [a], st.operators + ['(', Symbol(op)]))
  {
    SymbolIsOperator(op);
    var st2 := OnePass.Stacks(st.operands + [a], st.operators + ['(']);
    OpenGroupOperator(st.operands + [a], st.operators, op);
    OnePass.OperatorStep(s, i + m + 1, st2, st2);
    PushTwice(st.operators, '(', Symbol(op));
  }

  /** The `)` that closes a group whose operands have both been pushed. */
  lemma ScanGroupClosing(s: string, i: nat, e: Expr, st: OnePass.Stacks, a: real, b: real)
    requires e.Bin? && Eval(e.left) == Ok(a) && Eval(e.right) == Ok(b)
    requires var k := i + |Show(e)| - 1;
      && |Show(e)| >= 3 && i + |Show(e)| <= |s| && s[k] == ')'
      && OnePass.Scan(s, i, st) ==
           OnePass.Scan(s, k, OnePass.Stacks(st.operands + [a, b], st.operators + ['(', Symbol(e.op)]))
    ensures ScanPushes(s, i, e, st)
  {
    var k := i + |Show(e)| - 1;
    var st4 := OnePass.Stacks(st.operands + [a, b], st.operators + ['(', Symbol(e.op)]);
    CloseGroup(st.operands, st.operators, a, b, e.op);
    ScanCloseGroup(s, k, st4, OnePass.CloseParen(st4));
    assert Eval(e) == Apply(e.op, a, b);
  }

  /** A group `(l op r)` whose left operand has a value, given what scanning `l` and `r` does. */
  lemma ScanGroup(s: string, i: nat, e: Expr, st: OnePass.Stacks, a: real,
                  st1: OnePass.Stacks, j: nat, st2: OnePass.Stacks)
    requires e.Bin? && Eval(e.left) == Ok(a)
    requires var m, n := |Show(e.left)|, |Show(e.right)|;
      && |Show(e)| == m + n + 3 && i + m + n + 3 <= |s| && j == i + m + 2
      && s[i] == '(' && s[i + m + 1] == Symbol(e.op) && s[i + m + n + 2] == ')'
    requires st1 == OnePass.Stacks(st.operands, st.operators + ['('])
    requires st2 == OnePass.Stacks(st.operands + [a], st.operators + ['(', Symbol(e.op)])
    requires ScanPushes(s, i + 1, e.left, st1)
    requires ScanPushes(s, j, e.right, st2)
    ensures ScanPushes(s, i, e, st)
  {
    var op, r := e.op, e.right;
    var m, n := |Show(e.left)|, |Show(r)|;
    ScanGroupOpening(s, i, m, op, a, st);
    if Eval(r).Ok? {
      var b := Eval(r).value;
      var st4 := OnePass.Stacks(st.operands + [a, b], st.operators + ['(', Symbol(op)]);
      PushTwice(st.operands, a, b);
      assert OnePass.Scan(s, i, st) == OnePass.Scan(s, i + m + n + 2, st4);
      ScanGroupClosing(s, i, e, st, a, b);
    } else {
      assert Eval(e).Err?;
    }
  }

  /** A group `(l op r)` whose left operand fails fails with it. */
  lemma ScanGroupLeftFails(s: string, i: nat, e: Expr, st: OnePass.Stacks)
    requires e.Bin? && Eval(e.left).Err?
    requires |Show(e)| == |Show(e.left)| + |Show(e.right)| + 3 && i + |Show(e)| <= |s| && s[i] == '('
    requires ScanPushes(s, i + 1, e.left, OnePass.Stacks(st.operands, st.operators + ['(']))
    ensures ScanPushes(s, i, e, st)
  {
    assert OnePass.Scan(s, i, st) == OnePass.Scan(s, i + 1, OnePass.Stacks(st.operands, st.operators + ['(']));
    assert Eval(e).Err?;
  }

  /** The one-pass scan over the printed form of `e`, followed by a character that cannot
      extend a literal, pushes the value of `e`, or fails as the reference does. */
  lemma {:induction false} ScanSegment(s: string, i: nat, e: Expr, st: OnePass.Stacks)
    requires WellFormed(e)
    requires i + |Show(e)| <= |s| && s[i..i + |Show(e)|] == Show(e)
    requires i + |Show(e)| == |s| || !OnePass.IsNumberChar(s[i + |Show(e)|])
    ensures ScanPushes(s, i, e, st)
    decreases e, 1
  {
    if e.Lit? {
      ScanLiteral(s, i, e, st);
    } else {
      var st1 := OnePass.Stacks(st.operands, st.operators + ['(']);
      GroupAt(s, i, e);
      ScanSegment(s, i + 1, e.left, st1);
      if Eval(e.left).Ok? {
        ScanRightOperand(s, i, e, st, Eval(e.left).value, st1);
      } else {
        ScanGroupLeftFails(s, i, e, st);
      }
    }
  }

  /** The second half of `ScanSegment` for a group whose left operand has a value. */
  lemma {:induction false} ScanRightOperand(s: string, i: nat, e: Expr, st: OnePass.Stacks, a: real, st1: OnePass.Stacks)
    requires e.Bin? && WellFormed(e) && Eval(e.left) == Ok(a)
    requires i + |Show(e)| <= |s| && s[i..i + |Show(e)|] == Show(e)
    requires st1 == OnePass.Stacks(st.operands, st.operators + ['('])
    requires ScanPushes(s, i + 1, e.left, st1)
    ensures ScanPushes(s, i, e, st)
    decreases e, 0
  {
    var m := |Show(e.left)|;
    GroupAt(s, i, e);
    var j := i + m + 2;
    var st2 := OnePass.Stacks(st.operands + [a], st.operators + ['(', Symbol(e.op)]);
    ScanSegment(s, j, e.right, st2);
    ScanGroup(s, i, e, st, a, st1, j, st2);
  }

  /** A literal pushes its integer value. */
  lemma ScanLiteral(s: string, i: nat, e: Expr, st: OnePass.Stacks)
    requires e.Lit? && WellFormed(e)
    requires i + |Show(e)| <= |s| && s[i..i + |Show(e)|] == Show(e)
    requires i + |Show(e)| == |s| || !OnePass.IsNumberChar(s[i + |Show(e)|])
    ensures ScanPushes(s, i, e, st)
  {
    OnePass.IntegerLiteral(s, i, i + |e.digits|, st);
  }

  /** A `)` that closes with `r` continues the scan from `r`, or stops with its error. */
  lemma ScanCloseGroup(s: string, i: nat, st: OnePass.Stacks, r: Result<OnePass.Stacks, OnePass.Error>)
    requires i < |s| && s[i] == ')' && OnePass.CloseParen(st) == r
    ensures r.Err? ==> OnePass.Scan(s, i, st) == Err(r.error)
    ensures r.Ok? ==> OnePass.Scan(s, i, st) == OnePass.Scan(s, i + 1, r.value)
  {
  }

  /** The one-pass evaluator computes the reference value of every well-formed expression
      from its fully parenthesised text. */
  lemma OnePassAgrees(e: Expr)
    requires WellFormed(e)
    ensures OnePass.Evaluate(Show(e)) == OnePassResult(Eval(e))
  {
    var s := Show(e);
    assert s[0..|s|] == s;
    ScanSegment(s, 0, e, OnePass.Stacks([], []));
    if Eval(e).Ok? {
      var v := Eval(e).value;
      assert [] + [v] == [v];
      assert OnePass.Drain(OnePass.Stacks([v], [])) == Ok(OnePass.Stacks([v], []));
    }
  }

  // ---------------------------------------------------------------------------------
  // The two-stage evaluator

  /** The postfix text the conversion produces for `e`. */
  function Post(e: Expr): string {
    match e
    case Lit(ds) => ds
    case Bin(op, l, r) => Post(l) + " " + Post(r) + " " + [Symbol(op)]
  }

  /** A run of digits is copied to the output. */
  lemma {:induction false} PostfixDigits(ds: string, rest: string, out: string, stack: seq<char>)
    requires AllDigits(ds)
    ensures TwoStage.PostfixFrom(ds + rest, out, stack) == TwoStage.PostfixFrom(rest, out + ds, stack)
    decreases |ds|
  {
    if |ds| == 0 {
      assert ds + rest == rest && out + ds == out;
    } else {
      assert IsDigit(ds[0]);
      assert ds + rest == [ds[0]] + (ds[1..] + rest);
      TwoStage.PostfixLiteralStep(ds[0], ds[1..] + rest, out, stack);
      assert AllDigits(ds[1..]) by {
        forall k | 0 <= k < |ds[1..]| ensures IsDigit(ds[1..][k]) { assert ds[1..][k] == ds[k + 1]; }
      }
      PostfixDigits(ds[1..], rest, out + [ds[0]], stack);
      assert out + [ds[0]] + ds[1..] == out + ds;
    }
  }

  /** The `)` of a group whose operator waits above its `(`. */
  lemma PostfixCloseGroup(rest: string, out: string, stack: seq<char>, op: Op)
    ensures TwoStage.PostfixFrom(")" + rest, out, stack + ['(', Symbol(op)]) ==
      TwoStage.PostfixFrom(rest, out + " " + [Symbol(op)], stack)
  {
    var sym := Symbol(op);
    assert (")" + rest)[0] == ')' && (")" + rest)[1..] == rest;
    SymbolIsOperator(op);
    assert Top(stack + ['(', sym]) == sym && Below(stack + ['(', sym]) == stack + ['('];
    assert TwoStage.PopToParen(out + " " + [sym], stack + ['(']) == (out + " " + [sym], stack + ['(']);
    assert Below(stack + ['(']) == stack;
  }

  /** Converting the printed form of `e` appends `Post(e)` and leaves the stack as it was. */
  predicate PostfixAppends(e: Expr, rest: string, out: string, stack: seq<char>) {
    TwoStage.PostfixFrom(Show(e) + rest, out, stack) == TwoStage.PostfixFrom(rest, out + Post(e), stack)
  }

  /** The `(` and the left operand of a group. */
  lemma PostfixGroupLeft(e: Expr, rest: string, out: string, stack: seq<char>)
    requires e.Bin?
    requires PostfixAppends(e.left, [Symbol(e.op)] + (Show(e.right) + (")" + rest)), out, stack + ['('])
    ensures TwoStage.PostfixFrom(Show(e) + rest, out, stack) ==
      TwoStage.PostfixFrom([Symbol(e.op)] + (Show(e.right) + (")" + rest)), out + Post(e.left), stack + ['('])
  {
    var tail := [Symbol(e.op)] + (Show(e.right) + (")" + rest));
    var t := Show(e.left) + tail;
    var sl, sym, sr := Show(e.left), [Symbol(e.op)], Show(e.right);
    Regroup("(" + sl + sym + sr, ")", rest);
    Regroup("(" + sl + sym, sr, ")" + rest);
    Regroup("(" + sl, sym, sr + (")" + rest));
    Regroup("(", sl, tail);
    assert ("(" + t)[0] == '(' && ("(" + t)[1..] == t;
  }

  /** The operator of a group: it stays above the `(`. */
  lemma PostfixGroupOperator(op: Op, rest: string, out: string, stack: seq<char>)
    ensures TwoStage.PostfixFrom([Symbol(op)] + rest, out, stack + ['(']) ==
      TwoStage.PostfixFrom(rest, out + " ", stack + ['(', Symbol(op)])
  {
    var sym := Symbol(op);
    SymbolIsOperator(op);
    TwoStage.PostfixOperatorStep(sym, rest, out, stack + ['(']);
    assert TwoStage.PopNotLower(sym, out + " ", stack + ['(']) == (out + " ", stack + ['(']);
    assert stack + ['('] + [sym] == stack + ['(', sym];
  }

  /** A group `(l op r)`, given what converting `l` and `r` does. */
  lemma PostfixGroup(e: Expr, rest: string, out: string, stack: seq<char>)
    requires e.Bin?
    requires PostfixAppends(e.left, [Symbol(e.op)] + (Show(e.right) + (")" + rest)), out, stack + ['('])
    requires PostfixAppends(e.right, ")" + rest, out + Post(e.left) + " ", stack + ['(', Symbol(e.op)])
    ensures PostfixAppends(e, rest, out, stack)
  {
    PostfixGroupLeft(e, rest, out, stack);
    PostfixGroupOperator(e.op, Show(e.right) + (")" + rest), out + Post(e.left), stack);
    var o := out + Post(e.left) + " " + Post(e.right);
    PostfixCloseGroup(rest, o, stack, e.op);
    var pl, pr := Post(e.left), Post(e.right);
    Regroup(out, pl, " ");
    Regroup(out, pl + " ", pr);
    Regroup(out, pl + " " + pr, " ");
    Regroup(out, pl + " " + pr + " ", [Symbol(e.op)]);
  }

  lemma {:induction false} PostfixSegment(e: Expr, rest: string, out: string, stack: seq<char>)
    requires WellFormed(e)
    ensures PostfixAppends(e, rest, out, stack)
    decreases e
  {
    match e
    case Lit(ds) =>
      PostfixDigits(ds, rest, out, stack);
    case Bin(op, l, r) =>
      PostfixSegment(l, [Symbol(op)] + (Show(r) + (")" + rest)), out, stack + ['(']);
      PostfixSegment(r, ")" + rest, out + Post(l) + " ", stack + ['(', Symbol(op)]);
      PostfixGroup(e, rest, out, stack);
  }

  /** Evaluating `Post(e)` followed by a space pushes the value of `e`, or fails as the
      reference does. */
  lemma {:induction false} EvalSegment(e: Expr, rest: string, stack: seq<real>)
    requires WellFormed(e)
    ensures Eval(e).Err? ==> TwoStage.EvalFrom(Post(e) + " " + rest, stack, "") == Err(TwoStage.DivisionByZero)
    ensures Eval(e).Ok? ==>
      TwoStage.EvalFrom(Post(e) + " " + rest, stack, "") == TwoStage.EvalFrom(rest, stack + [Eval(e).value], "")
    decreases e
  {
    match e
    case Lit(ds) =>
      TwoStage.ParseInteger(ds);
      assert ds + " " + rest == ds + [' '] + rest;
      TwoStage.LiteralPushedAtWhitespace(ds, ' ', rest, stack);
    case Bin(op, l, r) =>
      var sym := Symbol(op);
      var tail := [sym] + " " + rest;
      assert Post(e) + " " + rest == Post(l) + " " + (Post(r) + " " + tail);
      EvalSegment(l, Post(r) + " " + tail, stack);
      if Eval(l).Ok? {
        var a := Eval(l).value;
        EvalSegment(r, tail, stack + [a]);
        if Eval(r).Ok? {
          var b := Eval(r).value;
          PushTwice(stack, a, b);
          PostfixOperatorApplies(rest, stack, a, b, op);
        }
      }
  }

  /** The operator of a group, after its two operands, then a space. */
  lemma PostfixOperatorApplies(rest: string, stack: seq<real>, a: real, b: real, op: Op)
    ensures Apply(op, a, b).Err? ==>
      TwoStage.EvalFrom([Symbol(op)] + " " + rest, stack + [a, b], "") == Err(TwoStage.DivisionByZero)
    ensures Apply(op, a, b).Ok? ==>
      TwoStage.EvalFrom([Symbol(op)] + " " + rest, stack + [a, b], "") ==
        TwoStage.EvalFrom(rest, stack + [Apply(op, a, b).value], "")
  {
    var sym := Symbol(op);
    var t := [sym] + " " + rest;
    assert t[0] == sym && t[1..] == " " + rest;
    assert (" " + rest)[0] == ' ' && (" " + rest)[1..] == rest;
    assert IsJavaWhitespace(' ') && !IsDigit(' ') && !IsDigit(sym) && sym != '.';
    var p := TwoStage.PopApply(sym, stack + [a, b]);
    assert (stack + [a, b])[..|stack|] == stack;
    if Apply(op, a, b).Ok? {
      assert p.Ok? && |p.value| == |stack| + 1 && p.value[..|stack|] == stack;
      assert p.value[|stack|] == Apply(op, a, b).value;
      assert p.value == stack + [Apply(op, a, b).value];
    }
  }

  /** The operator of the outermost group, at the end of the text. */
  lemma PostfixOperatorLast(a: real, b: real, op: Op)
    ensures Apply(op, a, b).Err? ==> TwoStage.EvalFrom([Symbol(op)], [a, b], "") == Err(TwoStage.DivisionByZero)
    ensures Apply(op, a, b).Ok? ==> TwoStage.EvalFrom([Symbol(op)], [a, b], "") == Ok(Apply(op, a, b).value)
  {
    var sym := Symbol(op);
    assert [sym][0] == sym && [sym][1..] == [];
    assert !IsDigit(sym) && sym != '.' && !IsJavaWhitespace(sym);
    var p := TwoStage.PopApply(sym, [a, b]);
    if Apply(op, a, b).Ok? {
      assert p.Ok? && |p.value| == 1 && p.value[0] == Apply(op, a, b).value;
      assert p.value == [Apply(op, a, b).value];
    }
  }

  /** Printed expressions pass validation. */
  lemma {:induction false} ShowPermitted(e: Expr)
    requires WellFormed(e)
    ensures |Show(e)| > 0 && forall k :: 0 <= k < |Show(e)| ==> TwoStage.Permitted(Show(e)[k])
    decreases e
  {
    match e
    case Lit(ds) =>
      assert forall k :: 0 <= k < |ds| ==> IsDigit(ds[k]);
    case Bin(op, l, r) =>
      ShowPermitted(l);
      ShowPermitted(r);
      ShowLayout(e);
      var t, m, n := Show(e), |Show(l)|, |Show(r)|;
      forall k | 0 <= k < |t|
        ensures TwoStage.Permitted(t[k])
      {
        if 1 <= k < m + 1 {
          assert t[k] == t[1..m + 1][k - 1];
        } else if m + 2 <= k < m + n + 2 {
          assert t[k] == t[m + 2..m + n + 2][k - m - 2];
        }
      }
  }

  /** The two-stage evaluator computes the reference value of every well-formed compound
      expression from its fully parenthesised text; a lone literal is never pushed, so it
      ends on the empty-stack error. */
  lemma TwoStageAgrees(e: Expr)
    requires WellFormed(e)
    ensures TwoStage.Postfix(Show(e)) == Ok(Post(e))
    ensures TwoStage.Process(Show(e)) == if e.Lit? then Err(TwoStage.EmptyStack) else TwoStageResult(Eval(e))
  {
    ShowPermitted(e);
    TwoStage.ValidateInputExactly(Show(e));
    OntoEmpty(Show(e));
    OntoEmpty(Post(e));
    PostfixSegment(e, "", "", []);
    match e
    case Lit(ds) =>
      TwoStage.TrailingLiteralNeverPushed(ds, [], "");
    case Bin(op, l, r) =>
      var tail := [Symbol(op)];
      Regroup(Post(l) + " ", Post(r), " ");
      Regroup(Post(l) + " ", Post(r) + " ", tail);
      EvalSegment(l, Post(r) + " " + tail, []);
      if Eval(l).Ok? {
        var a := Eval(l).value;
        EvalSegment(r, tail, [] + [a]);
        if Eval(r).Ok? {
          var b := Eval(r).value;
          OntoEmpty([a]);
          JoinSmall(a, b, b);
          PostfixOperatorLast(a, b, op);
        }
      }
  }

  /** Hence the two evaluators agree on every fully parenthesised compound expression. */
  lemma EvaluatorsAgree(e: Expr)
    requires WellFormed(e) && e.Bin?
    ensures OnePass.Evaluate(Show(e)).Ok? <==> TwoStage.Process(Show(e)).Ok?
    ensures OnePass.Evaluate(Show(e)).Ok? ==> OnePass.Evaluate(Show(e)).value == TwoStage.Process(Show(e)).value
  {
    OnePassAgrees(e);
    TwoStageAgrees(e);
  }
  /** Outside fully parenthesised expressions the two calculators can both succeed and
      still disagree: in `1 2+3` the one-pass literal loop stops at the space, so `+`
      adds 2 and 3 and the 1 is ignored, while the conversion to postfix drops the space
      before copying digits and reads the literal `12`. */
  lemma SpacedDigitsDiffer(s: string)
    requires s == "1 2+3"
    ensures OnePass.Evaluate(s) == Ok(5.0)
    ensures TwoStage.Process(s) == Ok(15.0)
  {
    assert s[0] == '1' && s[1] == ' ' && s[2] == '2' && s[3] == '+' && s[4] == '3';
    OnePass.SpaceSeparatedDigits(s);
    TwoStage.ProcessSpacedDigits(s);
    var d := [s[0], s[2]];
    assert DigitsValue(d) == 12.0 by {
      DigitsValueLast(d, 0, 2);
      DigitsValueLast(d, 0, 1);
      assert d[0..2] == d && d[0..1] == [d[0]] && d[0..0] == [];
    }
  }

}
