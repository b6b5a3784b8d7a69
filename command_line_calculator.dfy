/** The one-pass evaluator: a left-to-right scan over the expression text that keeps an
    operand stack and an operator stack and applies an operator as soon as a later operator
    of no higher priority, a `)` or the end of the text shows that it is due. */
module CommandLineCalculator {
  import opened Chars
  import opened Results
  import opened SeqStack

  // The priority table.
  const ADD: int := 1
  const SUB: int := 1
  const MUL: int := 2
  const DIV: int := 2
  const LEFT_PAREN: int := 0
  const RIGHT_PAREN: int := -1

  /** The runtime exceptions of the evaluator, one kind per throw site. */
  datatype Error =
    | MalformedExpression        // fewer than two operands when an operator is applied
    | DivisionByZero
    | UnknownOperator(op: char)  // a `(` that reaches the arithmetic
    | EmptyStack                 // the final pop finds no operand

  /** `isOperator`: one of the four arithmetic operators. */
  predicate IsOperator(c: char) {
    IsArithOperator(c)
  }

  function GetPriority(op: char): int {
    match op
    case '+' => ADD
    case '-' => SUB
    case '*' => MUL
    case '/' => DIV
    case '(' => LEFT_PAREN
    case ')' => RIGHT_PAREN
    case _ => -1
  }

  /** `*` and `/` bind tighter than `+` and `-`; a `(` ranks below every operator, and
      exactly the four operators have a positive priority. */
  lemma PriorityOrder(c: char)
    ensures GetPriority(c) >= 1 <==> IsOperator(c)
    ensures GetPriority(c) == 2 <==> c == '*' || c == '/'
    ensures GetPriority(c) == 1 <==> c == '+' || c == '-'
    ensures GetPriority('(') == 0 && GetPriority(')') == -1
  {
  }

  predicate IsNumberChar(c: char) {
    IsDigit(c) || c == '.'
  }

  /** Both stacks; the top of each is its last element. */
  datatype Stacks = Stacks(operands: seq<real>, operators: seq<char>)

  /** One application of the top operator to the two top operands. */
  function Calc(st: Stacks): (r: Result<Stacks, Error>)
    requires |st.operators| > 0
    // Too few operands: an error before anything is popped.
    ensures |st.operands| < 2 ==> r == Err(MalformedExpression)
    ensures |st.operands| >= 2 ==>
      var n, op, b := |st.operands|, Top(st.operators), Top(st.operands);
      && (op == '/' && b == 0.0 ==> r == Err(DivisionByZero))
      && (!IsOperator(op) ==> r == Err(UnknownOperator(op)))
      && (r.Ok? <==> IsOperator(op) && !(op == '/' && b == 0.0))
      // b was popped first and is the right operand; exactly one operator is consumed;
      // everything beneath is untouched.
      && (r.Ok? ==>
            && |r.value.operands| == n - 1
            && r.value.operands[..n - 2] == st.operands[..n - 2]
            && r.value.operands[n - 2] == Arith(op, st.operands[n - 2], b)
            && r.value.operators == Below(st.operators))
  {
    if |st.operands| < 2 then Err(MalformedExpression)
    else
      var b, a := Top(st.operands), Top(Below(st.operands));
      var rest := Below(Below(st.operands));
      var op := Top(st.operators);
      if op == '/' && b == 0.0 then Err(DivisionByZero)
      else if IsOperator(op) then Ok(Stacks(rest + [Arith(op, a, b)], Below(st.operators)))
      else Err(UnknownOperator(op))
  }

  /** Before an operator of priority `prio` is pushed: apply every stacked operator whose
      priority is at least `prio`, stopping at the first one that ranks lower. */
  function Reduce(prio: int, st: Stacks): Result<Stacks, Error>
    decreases |st.operators|
  {
    if |st.operators| > 0 && prio <= GetPriority(Top(st.operators)) then
      match Calc(st)
      case Err(e) => Err(e)
      case Ok(st') => Reduce(prio, st')
    else
      Ok(st)
  }

  /** Reducing pops a top segment of the operator stack, every operator of which ranks at
      least `prio`, applying each to two operands; the operator left on top ranks lower. */
  lemma {:induction false} ReduceShape(prio: int, st: Stacks)
    requires Reduce(prio, st).Ok?
    ensures var r := Reduce(prio, st).value;
      var n, m := |r.operators|, |st.operators| - |r.operators|;
      && n <= |st.operators| && r.operators == st.operators[..n]
      && (n > 0 ==> GetPriority(Top(r.operators)) < prio)
      && (forall k :: n <= k < |st.operators| ==> prio <= GetPriority(st.operators[k]))
      && |r.operands| + m == |st.operands|
      && (m == 0 ==> r == st)
    decreases |st.operators|
  {
    if |st.operators| > 0 && prio <= GetPriority(Top(st.operators)) {
      var st' := Calc(st).value;
      ReduceShape(prio, st');
      var n, last := |Reduce(prio, st').value.operators|, |st.operators| - 1;
      assert st'.operators == st.operators[..last];
      assert st'.operators[..n] == st.operators[..n];
      forall k | n <= k < |st.operators|
        ensures prio <= GetPriority(st.operators[k])
      {
        if k < last {
          assert st.operators[k] == st'.operators[k];
        }
      }
    }
  }

  /** Reducing only replaces the operands it consumes by their combined value: all operands
      beneath the new top are those that were there before. */
  lemma {:induction false} ReduceKeepsLowerOperands(prio: int, st: Stacks)
    requires Reduce(prio, st).Ok?
    ensures var ops := Reduce(prio, st).value.operands;
      |ops| > 0 ==> Below(ops) <= st.operands
    decreases |st.operators|
  {
    if |st.operators| > 0 && prio <= GetPriority(Top(st.operators)) {
      var st' := Calc(st).value;
      ReduceShape(prio, st');
      ReduceKeepsLowerOperands(prio, st');
      var ops := Reduce(prio, st').value.operands;
      if |ops| > 0 {
        assert |ops| <= |st'.operands|;
        assert st'.operands[..|st'.operands| - 1] == st.operands[..|st.operands| - 2];
      }
    }
  }

  /** The loop run by `)`: apply operators until a `(` is on top or the stack is empty. */
  function Unwind(st: Stacks): Result<Stacks, Error>
    decreases |st.operators|
  {
    if |st.operators| > 0 && Top(st.operators) != '(' then
      match Calc(st)
      case Err(e) => Err(e)
      case Ok(st') => Unwind(st')
    else
      Ok(st)
  }

  /** Unwinding pops the operators above the topmost `(`, applying each, and stops with
      that `(` on top, or with an empty stack when there is none. */
  lemma {:induction false} UnwindShape(st: Stacks)
    requires Unwind(st).Ok?
    ensures var r := Unwind(st).value;
      var n := |r.operators|;
      && n <= |st.operators| && r.operators == st.operators[..n]
      && (n > 0 ==> Top(r.operators) == '(')
      && (forall k :: n <= k < |st.operators| ==> st.operators[k] != '(')
      && |r.operands| + (|st.operators| - n) == |st.operands|
    decreases |st.operators|
  {
    if |st.operators| > 0 && Top(st.operators) != '(' {
      var st' := Calc(st).value;
      UnwindShape(st');
      var n, last := |Unwind(st').value.operators|, |st.operators| - 1;
      assert st'.operators == st.operators[..last];
      assert st'.operators[..n] == st.operators[..n];
      forall k | n <= k < |st.operators|
        ensures st.operators[k] != '('
      {
        if k < last {
          assert st.operators[k] == st'.operators[k];
        }
      }
    }
  }

  /** `)`: unwind, then discard the `(` if one was reached. The operator stack is cut back to
      just below its topmost `(`; with no `(` on it, it ends empty and no error is raised. */
  function CloseParen(st: Stacks): Result<Stacks, Error> {
    match Unwind(st)
    case Err(e) => Err(e)
    case Ok(st') =>
      if |st'.operators| > 0 then Ok(Stacks(st'.operands, Below(st'.operators))) else Ok(st')
  }

  /** The operator stack is cut back to just below its topmost `(`; with no `(` on it, it
      ends empty and no error is raised. The only errors are those of the operators
      applied on the way. */
  lemma CloseParenShape(st: Stacks)
    ensures CloseParen(st).Err? <==> Unwind(st).Err?
    ensures CloseParen(st).Err? ==> CloseParen(st) == Err(Unwind(st).error)
    ensures CloseParen(st).Ok? ==> var r := CloseParen(st).value;
      var n := |r.operators|;
      && n <= |st.operators| && r.operators == st.operators[..n]
      && ('(' in st.operators ==> n < |st.operators| && st.operators[n] == '(' && '(' !in st.operators[n + 1..])
      && ('(' !in st.operators ==> n == 0)
  {
    if Unwind(st).Err? {
      return;
    }
    UnwindShape(st);
    var st' := Unwind(st).value;
    var n := |st'.operators|;
    if n > 0 {
      assert st.operators[n - 1] == '(' && st.operators[n..] == st.operators[n - 1 + 1..];
    } else {
      assert st.operators == st.operators[0..];
    }
  }

  /** An operator never applies a `(` while it reduces: `(` ranks below every operator. */
  lemma ReduceStopsAtParen(c: char, st: Stacks)
    requires IsOperator(c) && Reduce(GetPriority(c), st).Ok?
    ensures var n := |Reduce(GetPriority(c), st).value.operators|;
      forall k :: n <= k < |st.operators| ==> st.operators[k] != '('
  {
    ReduceShape(GetPriority(c), st);
  }

  /** After the scan: apply operators until the operator stack is empty. */
  function Drain(st: Stacks): (r: Result<Stacks, Error>)
    decreases |st.operators|
    ensures r.Ok? ==> r.value.operators == [] && |r.value.operands| + |st.operators| == |st.operands|
    ensures r.Ok? && |st.operators| > 0 ==> |r.value.operands| > 0
  {
    if |st.operators| > 0 then
      match Calc(st)
      case Err(e) => Err(e)
      case Ok(st') => Drain(st')
    else
      Ok(st)
  }

  /** Drain, then pop the result. */
  function Finish(st: Stacks): Result<real, Error> {
    match Drain(st)
    case Err(e) => Err(e)
    case Ok(st') => if |st'.operands| == 0 then Err(EmptyStack) else Ok(Top(st'.operands))
  }

  /** The inner literal loop: from position `i`, with the literal's state so far, consume
      digits and points; the result is the literal's value and the first position after it. */
  function ScanNumber(s: string, i: nat, number: real, isDecimal: bool, decimalCount: nat): (r: (real, nat))
    requires i <= |s|
    decreases |s| - i
    ensures i <= r.1 <= |s|
    ensures i < |s| && IsNumberChar(s[i]) ==> i < r.1
  {
    if i < |s| && IsNumberChar(s[i]) then
      if s[i] == '.' then
        ScanNumber(s, i + 1, number, true, decimalCount)
      else if isDecimal then
        ScanNumber(s, i + 1, (number * 10.0 + DigitValue(s[i]) as real) / Pow10(decimalCount + 1), true, decimalCount + 1)
      else
        ScanNumber(s, i + 1, number * 10.0 + DigitValue(s[i]) as real, false, decimalCount)
    else
      (number, i)
  }

  /** A literal is a maximal run of digits and points. */
  lemma {:induction false} ScanNumberShape(s: string, i: nat, number: real, isDecimal: bool, decimalCount: nat)
    requires i <= |s|
    ensures var j := ScanNumber(s, i, number, isDecimal, decimalCount).1;
      && (j == |s| || !IsNumberChar(s[j]))
      && (forall k :: i <= k < j ==> IsNumberChar(s[k]))
    decreases |s| - i
  {
    if i < |s| && IsNumberChar(s[i]) {
      if s[i] == '.' {
        ScanNumberShape(s, i + 1, number, true, decimalCount);
      } else if isDecimal {
        ScanNumberShape(s, i + 1, (number * 10.0 + DigitValue(s[i]) as real) / Pow10(decimalCount + 1), true, decimalCount + 1);
      } else {
        ScanNumberShape(s, i + 1, number * 10.0 + DigitValue(s[i]) as real, false, decimalCount);
      }
    }
  }

  /** The outer loop from position `i` to the end of the text, followed by the final drain. */
  function Scan(s: string, i: nat, st: Stacks): Result<real, Error>
    requires i <= |s|
    decreases |s| - i
  {
    if i == |s| then Finish(st)
    else
      var c := s[i];
      if IsNumberChar(c) then
        var (v, j) := ScanNumber(s, i, 0.0, false, 0);
        Scan(s, j, Stacks(st.operands + [v], st.operators))
      else if c == '(' then
        Scan(s, i + 1, Stacks(st.operands, st.operators + ['(']))
      else if c == ')' then
        match CloseParen(st)
        case Err(e) => Err(e)
        case Ok(st') => Scan(s, i + 1, st')
      else if IsOperator(c) then
        match Reduce(GetPriority(c), st)
        case Err(e) => Err(e)
        case Ok(st') => Scan(s, i + 1, Stacks(st'.operands, st'.operators + [c]))
      else
        Scan(s, i + 1, st)
  }

  /** The value of an expression, or the error the evaluation raises. */
  function Evaluate(s: string): Result<real, Error> {
    Scan(s, 0, Stacks([], []))
  }

  // ---------------------------------------------------------------------------------
  // Number literals

  /** Through a run of digits before any `.`, the literal loop is Horner's rule: it
      accumulates the base-10 value of the run. */
  lemma {:induction false} IntegerPrefix(s: string, i: nat, j: nat)
    requires i <= j <= |s|
    requires AllDigits(s[i..j])
    ensures ScanNumber(s, i, 0.0, false, 0) == ScanNumber(s, j, DigitsValue(s[i..j]), false, 0)
    decreases j
  {
    if i == j {
      assert s[i..j] == [];
    } else {
      AllDigitsShorter(s, i, j);
      assert s[i..j][j - 1 - i] == s[j - 1];
      IntegerPrefix(s, i, j - 1);
      IntegerDigit(s, j - 1, DigitsValue(s[i..j - 1]));
      DigitsValueLast(s, i, j);
    }
  }

  /** A digit before any point: the value so far times ten, plus the digit. */
  lemma IntegerDigit(s: string, i: nat, acc: real)
    requires i < |s| && IsDigit(s[i])
    ensures ScanNumber(s, i, acc, false, 0) == ScanNumber(s, i + 1, 10.0 * acc + DigitValue(s[i]) as real, false, 0)
  {
  }

  /** A maximal run of digits without a point yields its base-10 value, is pushed, and the
      scan resumes at the first character after the run. */
  lemma IntegerLiteral(s: string, i: nat, j: nat, st: Stacks)
    requires i < j <= |s|
    requires AllDigits(s[i..j])
    requires j == |s| || !IsNumberChar(s[j])
    ensures ScanNumber(s, i, 0.0, false, 0) == (DigitsValue(s[i..j]), j)
    ensures Scan(s, i, st) == Scan(s, j, Stacks(st.operands + [DigitsValue(s[i..j])], st.operators))
  {
    IntegerPrefix(s, i, j);
    assert s[i..j][0] == s[i];
  }

  /** One digit after the point gives the exact decimal value. */
  lemma OneFractionalDigit(s: string, i: nat, k: nat)
    requires i <= k && k + 2 <= |s|
    requires AllDigits(s[i..k]) && s[k] == '.' && IsDigit(s[k + 1])
    requires k + 2 == |s| || !IsNumberChar(s[k + 2])
    ensures ScanNumber(s, i, 0.0, false, 0) == (DigitsValue(s[i..k]) + DigitValue(s[k + 1]) as real / 10.0, k + 2)
  {
    IntegerPrefix(s, i, k);
    var v, d := DigitsValue(s[i..k]), DigitValue(s[k + 1]) as real;
    var w := (v * 10.0 + d) / Pow10(1);
    assert ScanNumber(s, k, v, false, 0) == ScanNumber(s, k + 1, v, true, 0);
    assert ScanNumber(s, k + 1, v, true, 0) == ScanNumber(s, k + 2, w, true, 1);
    assert ScanNumber(s, k + 2, w, true, 1) == (w, k + 2);
    assert Pow10(1) == 10.0;
    assert w == v + d / 10.0;
  }

  /** Each further fractional digit divides the whole value again: `1.25` scans to 0.17,
      not 1.25. `1.5` is exact. */
  lemma FractionExamples()
    ensures ScanNumber("1.5", 0, 0.0, false, 0) == (1.5, 3)
    ensures ScanNumber("1.25", 0, 0.0, false, 0) == (0.17, 4)
  {
    OneFractionalDigit("1.5", 0, 1);
    assert "1.5"[0..1] == "1";
    assert DigitsValue("1") == 1.0 by { assert "1"[..0] == ""; }
    calc {
      ScanNumber("1.25", 0, 0.0, false, 0);
      ScanNumber("1.25", 1, 1.0, false, 0);
      ScanNumber("1.25", 2, 1.0, true, 0);
      { assert Pow10(1) == 10.0; }
      ScanNumber("1.25", 3, 1.2, true, 1);
      { assert Pow10(2) == 100.0; }
      ScanNumber("1.25", 4, 0.17, true, 2);
    }
  }

  /** A second point is accepted without complaint, and a lone point is the number 0. */
  lemma PointQuirks()
    ensures ScanNumber("1.2.3", 0, 0.0, false, 0) == (0.15, 5)
    ensures ScanNumber(".", 0, 0.0, false, 0) == (0.0, 1)
    ensures Evaluate(".") == Ok(0.0)
  {
    calc {
      ScanNumber("1.2.3", 0, 0.0, false, 0);
      ScanNumber("1.2.3", 1, 1.0, false, 0);
      ScanNumber("1.2.3", 2, 1.0, true, 0);
      { assert Pow10(1) == 10.0; }
      ScanNumber("1.2.3", 3, 1.2, true, 1);
      ScanNumber("1.2.3", 4, 1.2, true, 1);
      { assert Pow10(2) == 100.0; }
      ScanNumber("1.2.3", 5, 0.15, true, 2);
    }
  }

  // ---------------------------------------------------------------------------------
  // The scan

  /** Characters that are neither literal characters, parentheses nor operators (spaces,
      letters) leave both stacks unchanged. */
  lemma SkipsOtherCharacters(s: string, i: nat, st: Stacks)
    requires i < |s|
    requires !IsNumberChar(s[i]) && s[i] != '(' && s[i] != ')' && !IsOperator(s[i])
    ensures Scan(s, i, st) == Scan(s, i + 1, st)
  {
  }

  /** A literal: push the value that the literal loop computed and continue after it. */
  lemma LiteralStep(s: string, i: nat, st: Stacks, v: real, j: nat)
    requires i < |s| && IsNumberChar(s[i]) && ScanNumber(s, i, 0.0, false, 0) == (v, j)
    ensures Scan(s, i, st) == Scan(s, j, Stacks(st.operands + [v], st.operators))
  {
  }

  /** A one-digit literal pushes its digit's value. */
  lemma DigitLiteral(s: string, i: nat, st: Stacks)
    requires i < |s| && IsDigit(s[i])
    requires i + 1 == |s| || !IsNumberChar(s[i + 1])
    ensures Scan(s, i, st) == Scan(s, i + 1, Stacks(st.operands + [DigitValue(s[i]) as real], st.operators))
  {
    IntegerLiteral(s, i, i + 1, st);
    assert s[i..i + 1] == [s[i]];
    assert [s[i]][..0] == [];
  }

  /** An operator: reduce, then push it. */
  lemma OperatorStep(s: string, i: nat, st: Stacks, st': Stacks)
    requires i < |s| && IsOperator(s[i]) && Reduce(GetPriority(s[i]), st) == Ok(st')
    ensures Scan(s, i, st) == Scan(s, i + 1, Stacks(st'.operands, st'.operators + [s[i]]))
  {
  }

  /** Applying `op` to the two top operands `a` and `b`. */
  lemma CalcPair(rest: seq<real>, a: real, b: real, ops: seq<char>, op: char)
    requires IsOperator(op) && (op == '/' ==> b != 0.0)
    ensures Calc(Stacks(rest + [a, b], ops + [op])) == Ok(Stacks(rest + [Arith(op, a, b)], ops))
  {
    var st := Stacks(rest + [a, b], ops + [op]);
    assert Below(Below(st.operands)) == rest && Top(Below(st.operands)) == a;
    assert Below(st.operators) == ops;
  }

  /** The end of the text with one pending operator and two operands. */
  lemma FinishPair(a: real, b: real, op: char)
    requires IsOperator(op) && (op == '/' ==> b != 0.0)
    ensures Finish(Stacks([a, b], [op])) == Ok(Arith(op, a, b))
  {
    CalcPair([], a, b, [], op);
    OntoEmpty([a, b]);
    OntoEmpty([op]);
    OntoEmpty([Arith(op, a, b)]);
    assert Drain(Stacks([Arith(op, a, b)], [])) == Ok(Stacks([Arith(op, a, b)], []));
  }

  /** A `)`: close the parenthesis and continue. */
  lemma CloseStep(s: string, i: nat, st: Stacks, st': Stacks)
    requires i < |s| && s[i] == ')' && CloseParen(st) == Ok(st')
    ensures Scan(s, i, st) == Scan(s, i + 1, st')
  {
  }

  /** A `(`: push it and continue. */
  lemma OpenStep(s: string, i: nat, st: Stacks)
    requires i < |s| && s[i] == '('
    ensures Scan(s, i, st) == Scan(s, i + 1, Stacks(st.operands, st.operators + ['(']))
  {
  }

  /** The end of the text with two pending operators, the upper one applied first. */
  lemma FinishTriple(a: real, b: real, c: real, p: char, q: char)
    requires IsOperator(p) && IsOperator(q) && (q == '/' ==> c != 0.0)
    requires p == '/' ==> Arith(q, b, c) != 0.0
    ensures Finish(Stacks([a, b, c], [p, q])) == Ok(Arith(p, a, Arith(q, b, c)))
  {
    var bc := Arith(q, b, c);
    var abc := Arith(p, a, bc);
    CalcPair([a], b, c, [p], q);
    JoinSmall(a, b, c);
    JoinSmall(p, q, q);
    JoinSmall(a, bc, bc);
    CalcPair([], a, bc, [], p);
    OntoEmpty([a, bc]);
    OntoEmpty([p]);
    OntoEmpty([abc]);
    assert Drain(Stacks([abc], [])) == Ok(Stacks([abc], []));
    assert Drain(Stacks([a, bc], [p])) == Ok(Stacks([abc], []));
    assert Drain(Stacks([a, b, c], [p, q])) == Ok(Stacks([abc], []));
  }

  /** A one-digit operand followed by an operator that does not outrank the stacked one:
      the operand is pushed, then the operator. */
  lemma DigitOperator(s: string, i: nat, st: Stacks)
    requires i + 1 < |s| && IsDigit(s[i]) && IsOperator(s[i + 1])
    requires |st.operators| == 0 || GetPriority(Top(st.operators)) < GetPriority(s[i + 1])
    ensures Scan(s, i, st) == Scan(s, i + 2, Stacks(st.operands + [DigitValue(s[i]) as real], st.operators + [s[i + 1]]))
  {
    var st1 := Stacks(st.operands + [DigitValue(s[i]) as real], st.operators);
    DigitLiteral(s, i, st);
    assert Reduce(GetPriority(s[i + 1]), st1) == Ok(st1);
    OperatorStep(s, i + 1, st1, st1);
  }

  /** A one-digit operand, an operator that does not outrank the stacked one, and another
      operand: both operands are pushed above the stack and the operator above them. */
  lemma BinaryPrefix(s: string, i: nat, st: Stacks)
    requires i + 3 <= |s| && IsDigit(s[i]) && IsOperator(s[i + 1]) && IsDigit(s[i + 2])
    requires i + 3 == |s| || !IsNumberChar(s[i + 3])
    requires |st.operators| == 0 || GetPriority(Top(st.operators)) < GetPriority(s[i + 1])
    ensures var x, y := DigitValue(s[i]) as real, DigitValue(s[i + 2]) as real;
      Scan(s, i, st) == Scan(s, i + 3, Stacks(st.operands + [x, y], st.operators + [s[i + 1]]))
  {
    var x, y := DigitValue(s[i]) as real, DigitValue(s[i + 2]) as real;
    DigitOperator(s, i, st);
    DigitLiteral(s, i + 2, Stacks(st.operands + [x], st.operators + [s[i + 1]]));
    PushTwice(st.operands, x, y);
  }

  /** The last operator and operand of the text, over a single operand `a`. */
  lemma LastOperation(s: string, i: nat, a: real)
    requires i + 2 == |s| && IsOperator(s[i]) && IsDigit(s[i + 1]) && (s[i] == '/' ==> s[i + 1] != '0')
    ensures Scan(s, i, Stacks([a], [])) == Ok(Arith(s[i], a, DigitValue(s[i + 1]) as real))
  {
    OperatorStep(s, i, Stacks([a], []), Stacks([a], []));
    OntoEmpty([s[i]]);
    FinalOperand(s, i + 1, a, s[i]);
  }

  /** The last character is a digit, with one operator pending over one operand `a`. */
  lemma FinalOperand(s: string, i: nat, a: real, op: char)
    requires i + 1 == |s| && IsDigit(s[i]) && IsOperator(op) && (op == '/' ==> s[i] != '0')
    ensures Scan(s, i, Stacks([a], [op])) == Ok(Arith(op, a, DigitValue(s[i]) as real))
  {
    var z := DigitValue(s[i]) as real;
    DigitLiteral(s, i, Stacks([a], [op]));
    JoinSmall(a, z, z);
    FinishPair(a, z, op);
  }

  /** Three one-digit operands and two operators: the first operator is applied first
      exactly when the second does not outrank it, so `*` and `/` bind tighter than `+` and
      `-`, and operators of equal priority associate to the left. */
  lemma ThreeOperands(s: string)
    requires |s| == 5 && IsDigit(s[0]) && IsOperator(s[1]) && IsDigit(s[2]) && IsOperator(s[3]) && IsDigit(s[4])
    requires s[1] == '/' ==> s[2] != '0'
    requires s[3] == '/' ==> s[4] != '0'
    ensures var x, y, z := DigitValue(s[0]) as real, DigitValue(s[2]) as real, DigitValue(s[4]) as real;
      var p, q := s[1], s[3];
      Evaluate(s) == Ok(if GetPriority(q) <= GetPriority(p) then Arith(q, Arith(p, x, y), z)
                        else Arith(p, x, Arith(q, y, z)))
  {
    var x, y := DigitValue(s[0]) as real, DigitValue(s[2]) as real;
    BinaryPrefix(s, 0, Stacks([], []));
    OntoEmpty([x, y]);
    OntoEmpty([s[1]]);
    if GetPriority(s[3]) <= GetPriority(s[1]) {
      LeftFirst(s, x, y);
    } else {
      RightFirst(s, x, y);
    }
  }

  lemma LeftFirst(s: string, x: real, y: real)
    requires |s| == 5 && IsOperator(s[1]) && IsOperator(s[3]) && IsDigit(s[4])
    requires s[1] == '/' ==> y != 0.0
    requires s[3] == '/' ==> s[4] != '0'
    requires GetPriority(s[3]) <= GetPriority(s[1])
    ensures Scan(s, 3, Stacks([x, y], [s[1]])) == Ok(Arith(s[3], Arith(s[1], x, y), DigitValue(s[4]) as real))
  {
    var a := Arith(s[1], x, y);
    CalcPair([], x, y, [], s[1]);
    OntoEmpty([x, y]);
    OntoEmpty([s[1]]);
    OntoEmpty([a]);
    assert Reduce(GetPriority(s[3]), Stacks([a], [])) == Ok(Stacks([a], []));
    OperatorStep(s, 3, Stacks([x, y], [s[1]]), Stacks([a], []));
    OperatorStep(s, 3, Stacks([a], []), Stacks([a], []));
    LastOperation(s, 3, a);
  }

  lemma RightFirst(s: string, x: real, y: real)
    requires |s| == 5 && IsOperator(s[1]) && IsOperator(s[3]) && IsDigit(s[4])
    requires s[3] == '/' ==> s[4] != '0'
    requires GetPriority(s[1]) < GetPriority(s[3])
    ensures Scan(s, 3, Stacks([x, y], [s[1]])) == Ok(Arith(s[1], x, Arith(s[3], y, DigitValue(s[4]) as real)))
  {
    var z := DigitValue(s[4]) as real;
    assert s[1] == '+' || s[1] == '-';
    assert s[3] == '/' ==> z != 0.0;
    RightOperandStacked(s, x, y);
    FinishTriple(x, y, z, s[1], s[3]);
    assert Scan(s, 5, Stacks([x, y, z], [s[1], s[3]])) == Finish(Stacks([x, y, z], [s[1], s[3]]));
  }

  /** An operator that outranks the one stacked is pushed above it, and so is its operand. */
  lemma RightOperandStacked(s: string, x: real, y: real)
    requires |s| == 5 && IsOperator(s[1]) && IsOperator(s[3]) && IsDigit(s[4])
    requires GetPriority(s[1]) < GetPriority(s[3])
    ensures Scan(s, 3, Stacks([x, y], [s[1]])) == Scan(s, 5, Stacks([x, y, DigitValue(s[4]) as real], [s[1], s[3]]))
  {
    var st := Stacks([x, y], [s[1]]);
    assert Reduce(GetPriority(s[3]), st) == Ok(st);
    OperatorStep(s, 3, st, st);
    JoinSmall(s[1], s[3], s[3]);
    DigitLiteral(s, 4, Stacks([x, y], [s[1], s[3]]));
    JoinSmall(x, y, DigitValue(s[4]) as real);
  }

  /** A parenthesised pair is applied at its `)`, whatever the operator after it. */
  lemma Parenthesised(s: string)
    requires |s| == 7 && s[0] == '(' && IsDigit(s[1]) && IsOperator(s[2]) && IsDigit(s[3]) && s[4] == ')'
    requires IsOperator(s[5]) && IsDigit(s[6])
    requires s[2] == '/' ==> s[3] != '0'
    requires s[5] == '/' ==> s[6] != '0'
    ensures var x, y, z := DigitValue(s[1]) as real, DigitValue(s[3]) as real, DigitValue(s[6]) as real;
      Evaluate(s) == Ok(Arith(s[5], Arith(s[2], x, y), z))
  {
    GroupFirst(s);
    LastOperation(s, 5, Arith(s[2], DigitValue(s[1]) as real, DigitValue(s[3]) as real));
  }

  /** A leading group `(x p y)` leaves just `x p y` on the operand stack. */
  lemma GroupFirst(s: string)
    requires |s| >= 5 && s[0] == '(' && IsDigit(s[1]) && IsOperator(s[2]) && IsDigit(s[3]) && s[4] == ')'
    requires s[2] == '/' ==> s[3] != '0'
    ensures var x, y := DigitValue(s[1]) as real, DigitValue(s[3]) as real;
      Evaluate(s) == Scan(s, 5, Stacks([Arith(s[2], x, y)], []))
  {
    var x, y := DigitValue(s[1]) as real, DigitValue(s[3]) as real;
    OpenStep(s, 0, Stacks([], []));
    OntoEmpty(['(']);
    BinaryPrefix(s, 1, Stacks([], ['(']));
    OntoEmpty([x, y]);
    JoinSmall('(', s[2], s[2]);
    CloseParenPair(x, y, s[2], ['(']);
    CloseStep(s, 4, Stacks([x, y], ['('] + [s[2]]), Stacks([Arith(s[2], x, y)], []));
  }

  /** A `)` over `x p y` applies `p`, then pops a `(` if there is one. */
  lemma CloseParenPair(x: real, y: real, p: char, ops: seq<char>)
    requires IsOperator(p) && (p == '/' ==> y != 0.0)
    requires ops == [] || ops == ['(']
    ensures CloseParen(Stacks([x, y], ops + [p])) == Ok(Stacks([Arith(p, x, y)], []))
  {
    UnwindPair([], x, y, p, ops);
    OntoEmpty([x, y]);
    OntoEmpty([Arith(p, x, y)]);
    assert ops == [] || Below(ops) == [];
  }

  /** Unwinding `x p y` down to a `(` or the bottom applies `p` once. */
  lemma UnwindPair(rest: seq<real>, x: real, y: real, p: char, ops: seq<char>)
    requires IsOperator(p) && (p == '/' ==> y != 0.0)
    requires |ops| == 0 || Top(ops) == '('
    ensures Unwind(Stacks(rest + [x, y], ops + [p])) == Ok(Stacks(rest + [Arith(p, x, y)], ops))
  {
    CalcPair(rest, x, y, ops, p);
    assert Unwind(Stacks(rest + [Arith(p, x, y)], ops)) == Ok(Stacks(rest + [Arith(p, x, y)], ops));
  }

  /** A `)` without a matching `(` applies what is pending and is otherwise ignored. */
  lemma UnmatchedClose(s: string)
    requires |s| == 6 && IsDigit(s[0]) && IsOperator(s[1]) && IsDigit(s[2]) && s[3] == ')'
    requires IsOperator(s[4]) && IsDigit(s[5])
    requires s[1] == '/' ==> s[2] != '0'
    requires s[4] == '/' ==> s[5] != '0'
    ensures var x, y, z := DigitValue(s[0]) as real, DigitValue(s[2]) as real, DigitValue(s[5]) as real;
      Evaluate(s) == Ok(Arith(s[4], Arith(s[1], x, y), z))
  {
    var x, y := DigitValue(s[0]) as real, DigitValue(s[2]) as real;
    BinaryPrefix(s, 0, Stacks([], []));
    OntoEmpty([x, y]);
    OntoEmpty([s[1]]);
    CloseParenPair(x, y, s[1], []);
    OntoEmpty([s[1]]);
    CloseStep(s, 3, Stacks([x, y], [] + [s[1]]), Stacks([Arith(s[1], x, y)], []));
    LastOperation(s, 4, Arith(s[1], x, y));
  }

  /** `*` binds tighter than `+`. */
  lemma ExamplePrecedence()
    ensures Evaluate("2+3*4") == Ok(14.0)
  {
    var s := "2+3*4";
    assert s[0] == '2' && s[1] == '+' && s[2] == '3' && s[3] == '*' && s[4] == '4';
    ThreeOperands(s);
    assert Arith('+', 2.0, Arith('*', 3.0, 4.0)) == 14.0;
  }

  /** `-` associates to the left. */
  lemma ExampleLeftAssociative()
    ensures Evaluate("9-2-3") == Ok(4.0)
  {
    var s := "9-2-3";
    assert s[0] == '9' && s[1] == '-' && s[2] == '2' && s[3] == '-' && s[4] == '3';
    assert DigitValue(s[0]) as real == 9.0 && DigitValue(s[2]) as real == 2.0 && DigitValue(s[4]) as real == 3.0;
    ThreeOperands(s);
    assert GetPriority(s[3]) <= GetPriority(s[1]);
    assert Arith('-', Arith('-', 9.0, 2.0), 3.0) == 4.0;
  }

  /** `/` associates to the left. */
  lemma ExampleLeftAssociativeDivision()
    ensures Evaluate("8/2/2") == Ok(2.0)
  {
    var s := "8/2/2";
    assert s[0] == '8' && s[1] == '/' && s[2] == '2' && s[3] == '/' && s[4] == '2';
    ThreeOperands(s);
    assert Arith('/', Arith('/', 8.0, 2.0), 2.0) == 2.0;
  }

  /** A parenthesised sum is applied before the product. */
  lemma ExampleParens()
    ensures Evaluate("(2+3)*4") == Ok(20.0)
  {
    var s := "(2+3)*4";
    assert s[1] == '2' && s[2] == '+' && s[3] == '3' && s[5] == '*' && s[6] == '4';
    Parenthesised(s);
    assert Arith('*', Arith('+', 2.0, 3.0), 4.0) == 20.0;
  }

  /** An unmatched `)` applies what is pending and is otherwise ignored. */
  lemma ExampleUnmatchedClose()
    ensures Evaluate("1+2)*3") == Ok(9.0)
  {
    var s := "1+2)*3";
    assert s[0] == '1' && s[1] == '+' && s[2] == '2' && s[3] == ')' && s[4] == '*' && s[5] == '3';
    UnmatchedClose(s);
    assert Arith('*', Arith('+', 1.0, 2.0), 3.0) == 9.0;
  }

  /** A literal of one digit, a point and one digit is exact. */
  lemma DigitPointDigit(s: string, i: nat)
    requires i + 3 <= |s| && IsDigit(s[i]) && s[i + 1] == '.' && IsDigit(s[i + 2])
    requires i + 3 == |s| || !IsNumberChar(s[i + 3])
    ensures ScanNumber(s, i, 0.0, false, 0) == (DigitValue(s[i]) as real + DigitValue(s[i + 2]) as real / 10.0, i + 3)
  {
    var d, e := DigitValue(s[i]) as real, DigitValue(s[i + 2]) as real;
    assert ScanNumber(s, i, 0.0, false, 0) == ScanNumber(s, i + 1, d, false, 0);
    assert ScanNumber(s, i + 1, d, false, 0) == ScanNumber(s, i + 2, d, true, 0);
    assert Pow10(1) == 10.0;
    assert ScanNumber(s, i + 2, d, true, 0) == ScanNumber(s, i + 3, (d * 10.0 + e) / 10.0, true, 1);
    assert (d * 10.0 + e) / 10.0 == d + e / 10.0;
  }

  /** Two literals with one fractional digit each, and an operator between them. */
  lemma FractionalOperands(s: string)
    requires |s| == 7 && IsDigit(s[0]) && s[1] == '.' && IsDigit(s[2]) && IsOperator(s[3])
    requires IsDigit(s[4]) && s[5] == '.' && IsDigit(s[6])
    requires s[3] != '/'
    ensures var v := DigitValue(s[0]) as real + DigitValue(s[2]) as real / 10.0;
      var w := DigitValue(s[4]) as real + DigitValue(s[6]) as real / 10.0;
      Evaluate(s) == Ok(Arith(s[3], v, w))
  {
    var v := DigitValue(s[0]) as real + DigitValue(s[2]) as real / 10.0;
    var w := DigitValue(s[4]) as real + DigitValue(s[6]) as real / 10.0;
    DigitPointDigit(s, 0);
    LiteralStep(s, 0, Stacks([], []), v, 3);
    OntoEmpty([v]);
    OperatorStep(s, 3, Stacks([v], []), Stacks([v], []));
    OntoEmpty([s[3]]);
    DigitPointDigit(s, 4);
    LiteralStep(s, 4, Stacks([v], [s[3]]), w, 7);
    JoinSmall(v, w, w);
    FinishPair(v, w, s[3]);
  }

  /** Literals with one fractional digit are exact. */
  lemma ExampleDecimals()
    ensures Evaluate("1.5+2.5") == Ok(4.0)
  {
    var s := "1.5+2.5";
    assert s[0] == '1' && s[1] == '.' && s[2] == '5' && s[3] == '+' && s[4] == '2' && s[5] == '.' && s[6] == '5';
    FractionalOperands(s);
    assert Arith('+', 1.0 + 5.0 / 10.0, 2.0 + 5.0 / 10.0) == 4.0;
  }

  /** Spaces only separate: `2 + 3` and `2+3` agree. */
  lemma ExampleSpaces()
    ensures Evaluate("2 + 3") == Evaluate("2+3") == Ok(5.0)
  {
    SpacedLeft("2 + 3");
    SpacedRight("2 + 3");
    ExampleUnspaced("2+3");
  }

  lemma SpacedLeft(s: string)
    requires s == "2 + 3"
    ensures Evaluate(s) == Scan(s, 3, Stacks([2.0], ['+']))
  {
    assert |s| == 5 && s[0] == '2' && s[1] == ' ' && s[2] == '+' && s[3] == ' ';
    DigitLiteral(s, 0, Stacks([], []));
    OntoEmpty([2.0]);
    SkipsOtherCharacters(s, 1, Stacks([2.0], []));
    OperatorStep(s, 2, Stacks([2.0], []), Stacks([2.0], []));
    OntoEmpty(['+']);
  }

  lemma SpacedRight(s: string)
    requires s == "2 + 3"
    ensures Scan(s, 3, Stacks([2.0], ['+'])) == Ok(5.0)
  {
    assert |s| == 5 && s[3] == ' ' && s[4] == '3';
    SkipsOtherCharacters(s, 3, Stacks([2.0], ['+']));
    DigitLiteral(s, 4, Stacks([2.0], ['+']));
    JoinSmall(2.0, 3.0, 3.0);
    FinishPair(2.0, 3.0, '+');
  }

  lemma ExampleUnspaced(s: string)
    requires s == "2+3"
    ensures Evaluate(s) == Ok(5.0)
  {
    assert |s| == 3 && s[0] == '2' && s[1] == '+' && s[2] == '3';
    BinaryPrefix(s, 0, Stacks([], []));
    OntoEmpty([2.0, 3.0]);
    OntoEmpty(['+']);
    FinishPair(2.0, 3.0, '+');
  }

  /** Extra operands are ignored: the result is the top one. */
  lemma ExampleExtraOperand()
    ensures Evaluate("2 3") == Ok(3.0)
  {
    var s := "2 3";
    assert |s| == 3 && s[0] == '2' && s[1] == ' ' && s[2] == '3';
    DigitLiteral(s, 0, Stacks([], []));
    OntoEmpty([2.0]);
    SkipsOtherCharacters(s, 1, Stacks([2.0], []));
    DigitLiteral(s, 2, Stacks([2.0], []));
    JoinSmall(2.0, 3.0, 3.0);
  }

  /** A space ends a literal: in `x y p z` the operator applies to `y` and `z`, and `x`
      stays below them, unused. */
  lemma SpaceSeparatedDigits(s: string)
    requires |s| == 5 && IsDigit(s[0]) && s[1] == ' ' && IsDigit(s[2]) && IsOperator(s[3]) && IsDigit(s[4])
    requires s[3] == '/' ==> s[4] != '0'
    ensures Evaluate(s) == Ok(Arith(s[3], DigitValue(s[2]) as real, DigitValue(s[4]) as real))
  {
    var x, y, z := DigitValue(s[0]) as real, DigitValue(s[2]) as real, DigitValue(s[4]) as real;
    DigitLiteral(s, 0, Stacks([], []));
    OntoEmpty([x]);
    SkipsOtherCharacters(s, 1, Stacks([x], []));
    BinaryPrefix(s, 2, Stacks([x], []));
    JoinSmall(x, y, z);
    OntoEmpty([s[3]]);
    var r := Arith(s[3], y, z);
    CalcPair([x], y, z, [], s[3]);
    JoinSmall(x, r, r);
    assert Drain(Stacks([x, r], [])) == Ok(Stacks([x, r], []));
    assert Drain(Stacks([x, y, z], [s[3]])) == Ok(Stacks([x, r], []));
    assert Scan(s, 5, Stacks([x, y, z], [s[3]])) == Ok(r);
  }

  /** A zero divisor is reported when the division is applied. */
  lemma ZeroDivisor(s: string)
    requires |s| == 3 && IsDigit(s[0]) && s[1] == '/' && s[2] == '0'
    ensures Evaluate(s) == Err(DivisionByZero)
  {
    BinaryPrefix(s, 0, Stacks([], []));
    OntoEmpty([DigitValue(s[0]) as real, 0.0]);
    OntoEmpty(['/']);
  }

  /** An operator without operands fails when the end of the text applies it. */
  lemma LoneOperator(s: string)
    requires |s| == 1 && IsOperator(s[0])
    ensures Evaluate(s) == Err(MalformedExpression)
  {
    OperatorStep(s, 0, Stacks([], []), Stacks([], []));
    OntoEmpty([s[0]]);
  }

  /** A `(` that is never closed reaches the arithmetic, which rejects it. */
  lemma UnclosedParen(s: string)
    requires |s| == 3 && IsDigit(s[0]) && s[1] == '(' && IsDigit(s[2])
    ensures Evaluate(s) == Err(UnknownOperator('('))
  {
    var x, y := DigitValue(s[0]) as real, DigitValue(s[2]) as real;
    DigitLiteral(s, 0, Stacks([], []));
    OntoEmpty([x]);
    OpenStep(s, 1, Stacks([x], []));
    OntoEmpty(['(']);
    DigitLiteral(s, 2, Stacks([x], ['(']));
    JoinSmall(x, y, y);
    FinishStrayParen(x, y);
    assert Scan(s, 3, Stacks([x, y], ['('])) == Finish(Stacks([x, y], ['(']));
  }

  /** The final drain applies a stacked `(` as if it were an operator. */
  lemma FinishStrayParen(x: real, y: real)
    ensures Finish(Stacks([x, y], ['('])) == Err(UnknownOperator('('))
  {
    assert Calc(Stacks([x, y], ['('])) == Err(UnknownOperator('('));
  }

  /** A `(` that is never closed, over a single pair: the final loop applies the pair and
      then finds one operand for the `(`, which is a malformed expression. */
  lemma UnclosedGroup(s: string)
    requires |s| == 4 && s[0] == '(' && IsDigit(s[1]) && IsOperator(s[2]) && IsDigit(s[3])
    requires s[2] == '/' ==> s[3] != '0'
    ensures Evaluate(s) == Err(MalformedExpression)
  {
    var x, y := DigitValue(s[1]) as real, DigitValue(s[3]) as real;
    OpenStep(s, 0, Stacks([], []));
    OntoEmpty(['(']);
    BinaryPrefix(s, 1, Stacks([], ['(']));
    OntoEmpty([x, y]);
    assert ['('] + [s[2]] == ['(', s[2]];
    assert Scan(s, 4, Stacks([x, y], ['(', s[2]])) == Finish(Stacks([x, y], ['(', s[2]]));
    FinishStrayGroup(x, y, s[2]);
  }

  /** The final loop over `( x p y`: `p` is applied, and the `(` then has one operand. */
  lemma FinishStrayGroup(x: real, y: real, p: char)
    requires IsOperator(p) && (p == '/' ==> y != 0.0)
    ensures Finish(Stacks([x, y], ['(', p])) == Err(MalformedExpression)
  {
    CalcPair([], x, y, ['('], p);
    OntoEmpty([x, y]);
    OntoEmpty([Arith(p, x, y)]);
    assert ['('] + [p] == ['(', p];
    assert Drain(Stacks([x, y], ['(', p])) == Drain(Stacks([Arith(p, x, y)], ['(']));
  }

  /** A two-digit operand, an operator that does not outrank the first, and two more
      one-digit operands: the first operator is applied first. */
  lemma TwoDigitLeft(s: string)
    requires |s| == 6 && IsDigit(s[0]) && IsDigit(s[1]) && IsOperator(s[2]) && IsDigit(s[3])
    requires IsOperator(s[4]) && IsDigit(s[5]) && GetPriority(s[4]) <= GetPriority(s[2])
    requires s[2] == '/' ==> s[3] != '0'
    requires s[4] == '/' ==> s[5] != '0'
    ensures var v, y, z := DigitsValue(s[0..2]), DigitValue(s[3]) as real, DigitValue(s[5]) as real;
      Evaluate(s) == Ok(Arith(s[4], Arith(s[2], v, y), z))
  {
    var v, y := DigitsValue(s[0..2]), DigitValue(s[3]) as real;
    TwoDigitPrefix(s);
    TwoDigitTail(s, v, y);
  }

  /** The scan of `dd p d` pushes both operands and `p`. */
  lemma TwoDigitPrefix(s: string)
    requires |s| == 6 && IsDigit(s[0]) && IsDigit(s[1]) && IsOperator(s[2]) && IsDigit(s[3])
    requires !IsNumberChar(s[4])
    ensures Evaluate(s) == Scan(s, 4, Stacks([DigitsValue(s[0..2]), DigitValue(s[3]) as real], [s[2]]))
  {
    var v := DigitsValue(s[0..2]);
    assert AllDigits(s[0..2]) by { assert s[0..2][0] == s[0] && s[0..2][1] == s[1]; }
    IntegerLiteral(s, 0, 2, Stacks([], []));
    OntoEmpty([v]);
    OperatorStep(s, 2, Stacks([v], []), Stacks([v], []));
    OntoEmpty([s[2]]);
    DigitLiteral(s, 3, Stacks([v], [s[2]]));
    assert [v] + [DigitValue(s[3]) as real] == [v, DigitValue(s[3]) as real];
  }

  /** The end `q d` of `dd p d q d`: `q` does not outrank `p`, so `p` is applied first. */
  lemma TwoDigitTail(s: string, v: real, y: real)
    requires |s| == 6 && IsOperator(s[2]) && IsOperator(s[4]) && IsDigit(s[5])
    requires GetPriority(s[4]) <= GetPriority(s[2])
    requires s[2] == '/' ==> y != 0.0
    requires s[4] == '/' ==> s[5] != '0'
    ensures Scan(s, 4, Stacks([v, y], [s[2]])) == Ok(Arith(s[4], Arith(s[2], v, y), DigitValue(s[5]) as real))
  {
    var w := Arith(s[2], v, y);
    ReducePair(GetPriority(s[4]), v, y, s[2]);
    OperatorStep(s, 4, Stacks([v, y], [s[2]]), Stacks([w], []));
    OntoEmpty([s[4]]);
    FinalOperand(s, 5, w, s[4]);
  }

  /** Reducing for an operator that does not outrank `p` applies `p` to the only pair. */
  lemma ReducePair(prio: int, v: real, y: real, p: char)
    requires IsOperator(p) && prio <= GetPriority(p) && (p == '/' ==> y != 0.0)
    ensures Reduce(prio, Stacks([v, y], [p])) == Ok(Stacks([Arith(p, v, y)], []))
  {
    CalcPair([], v, y, [], p);
    OntoEmpty([v, y]);
    OntoEmpty([p]);
    OntoEmpty([Arith(p, v, y)]);
  }

  /** `10-2-3` is 5. */
  lemma ExampleLeftAssociativeTwoDigits()
    ensures Evaluate("10-2-3") == Ok(5.0)
  {
    var s := "10-2-3";
    assert s[0] == '1' && s[1] == '0' && s[2] == '-' && s[3] == '2' && s[4] == '-' && s[5] == '3';
    TwoDigitLeft(s);
    assert DigitsValue(s[0..2]) == 10.0 by {
      DigitsValueLast(s, 0, 2);
      DigitsValueLast(s, 0, 1);
      assert s[0..0] == [];
    }
    assert DigitValue(s[3]) as real == 2.0 && DigitValue(s[5]) as real == 3.0;
    assert Arith('-', Arith('-', 10.0, 2.0), 3.0) == 5.0;
  }

  /** The error cases: empty input, division by zero, an operator without operands, and an
      unclosed `(` that reaches the arithmetic with two operands or with one. */
  lemma ExampleErrors()
    ensures Evaluate("") == Err(EmptyStack)
    ensures Evaluate("5/0") == Err(DivisionByZero)
    ensures Evaluate("+") == Err(MalformedExpression)
    ensures Evaluate("1(2") == Err(UnknownOperator('('))
    ensures Evaluate("(1+2") == Err(MalformedExpression)
  {
    ZeroDivisor("5/0");
    LoneOperator("+");
    UnclosedParen("1(2");
    UnclosedGroup("(1+2");
  }

  // ---------------------------------------------------------------------------------
  // The imperative evaluator

  /** `calculate`: pop b, pop a, pop the operator, push `a op b`. */
  method Calculate(operands: seq<real>, operators: seq<char>) returns (r: Result<Stacks, Error>)
    requires |operators| > 0
    ensures r == Calc(Stacks(operands, operators))
  {
    if |operands| < 2 {
      return Err(MalformedExpression);
    }
    var values := operands;
    var b := values[|values| - 1];
    values := values[..|values| - 1];
    var a := values[|values| - 1];
    values := values[..|values| - 1];
    var op := operators[|operators| - 1];
    var ops := operators[..|operators| - 1];
    assert values == Below(Below(operands)) && a == Top(Below(operands));
    assert b == Top(operands) && op == Top(operators) && ops == Below(operators);
    if op == '+' {
      r := Ok(Stacks(values + [a + b], ops));
    } else if op == '-' {
      r := Ok(Stacks(values + [a - b], ops));
    } else if op == '*' {
      assert Arith(op, a, b) == a * b;
      r := Ok(Stacks(values + [a * b], ops));
    } else if op == '/' {
      if b == 0.0 {
        return Err(DivisionByZero);
      }
      r := Ok(Stacks(values + [a / b], ops));
    } else {
      r := Err(UnknownOperator(op));
    }
  }

  /** The literal loop: consume digits and points from position `i`, building the value
      digit by digit. `i` must be the position of a literal character. */
  method ReadNumber(expression: string, start: nat) returns (number: real, i: nat)
    requires start < |expression| && IsNumberChar(expression[start])
    ensures (number, i) == ScanNumber(expression, start, 0.0, false, 0)
  {
    number := 0.0;
    var isDecimal := false;
    var decimalCount: nat := 0;
    i := start;
    while i < |expression| && (IsDigit(expression[i]) || expression[i] == '.')
      invariant start <= i <= |expression|
      invariant ScanNumber(expression, i, number, isDecimal, decimalCount)
             == ScanNumber(expression, start, 0.0, false, 0)
      decreases |expression| - i
    {
      if expression[i] == '.' {
        isDecimal := true;
      } else {
        if isDecimal {
          number := number * 10.0 + DigitValue(expression[i]) as real;
          decimalCount := decimalCount + 1;
          number := number / Pow10(decimalCount);
        } else {
          number := number * 10.0 + DigitValue(expression[i]) as real;
        }
      }
      i := i + 1;
    }
  }

  /** The loop run by `)`: apply operators until a `(` is on top or none is left. */
  method ApplyUntilParen(operands: seq<real>, operators: seq<char>) returns (r: Result<Stacks, Error>)
    ensures r == Unwind(Stacks(operands, operators))
  {
    var values, ops := operands, operators;
    while |ops| > 0 && ops[|ops| - 1] != '('
      invariant Unwind(Stacks(values, ops)) == Unwind(Stacks(operands, operators))
      decreases |ops|
    {
      var res := Calculate(values, ops);
      if res.Err? {
        return Err(res.error);
      }
      values, ops := res.value.operands, res.value.operators;
    }
    r := Ok(Stacks(values, ops));
  }

  /** The loop run before operator `c` is pushed: apply every stacked operator whose
      priority is at least that of `c`. */
  method ApplyWhileNotLower(c: char, operands: seq<real>, operators: seq<char>) returns (r: Result<Stacks, Error>)
    ensures r == Reduce(GetPriority(c), Stacks(operands, operators))
  {
    var values, ops := operands, operators;
    while |ops| > 0 && GetPriority(c) <= GetPriority(ops[|ops| - 1])
      invariant Reduce(GetPriority(c), Stacks(values, ops)) == Reduce(GetPriority(c), Stacks(operands, operators))
      decreases |ops|
    {
      var res := Calculate(values, ops);
      if res.Err? {
        return Err(res.error);
      }
      values, ops := res.value.operands, res.value.operators;
    }
    r := Ok(Stacks(values, ops));
  }

  /** The loop after the scan: apply operators until none is left. */
  method ApplyRemaining(operands: seq<real>, operators: seq<char>) returns (r: Result<Stacks, Error>)
    ensures r == Drain(Stacks(operands, operators))
  {
    var values, ops := operands, operators;
    while |ops| > 0
      invariant Drain(Stacks(values, ops)) == Drain(Stacks(operands, operators))
      decreases |ops|
    {
      var res := Calculate(values, ops);
      if res.Err? {
        return Err(res.error);
      }
      values, ops := res.value.operands, res.value.operators;
    }
    r := Ok(Stacks(values, ops));
  }

  /** `evaluateExpression`: one pass over the text; after a literal the index is stepped
      back by one so that the loop's own increment lands on the character after it. */
  method EvaluateExpression(expression: string) returns (r: Result<real, Error>)
    ensures r == Evaluate(expression)
  {
    var operands: seq<real> := [];
    var operators: seq<char> := [];
    var i: int := 0;
    while i < |expression|
      invariant 0 <= i <= |expression|
      invariant Scan(expression, i, Stacks(operands, operators)) == Evaluate(expression)
      decreases |expression| - i
    {
      var c := expression[i];
      if IsDigit(c) || c == '.' {
        var number, next := ReadNumber(expression, i);
        i := next - 1;
        operands := operands + [number];
      } else if c == '(' {
        operators := operators + [c];
      } else if c == ')' {
        var res := ApplyUntilParen(operands, operators);
        if res.Err? {
          return Err(res.error);
        }
        operands, operators := res.value.operands, res.value.operators;
        if |operators| > 0 {
          operators := operators[..|operators| - 1];
        }
      } else if IsOperator(c) {
        var res := ApplyWhileNotLower(c, operands, operators);
        if res.Err? {
          return Err(res.error);
        }
        operands, operators := res.value.operands, res.value.operators + [c];
      }
      i := i + 1;
    }
    var res := ApplyRemaining(operands, operators);
    if res.Err? {
      return Err(res.error);
    }
    operands := res.value.operands;
    if |operands| == 0 {
      return Err(EmptyStack);
    }
    r := Ok(operands[|operands| - 1]);
  }
}
