/** The two-stage evaluator: the infix text is first rewritten as space-separated postfix
    text with one operator stack (shunting-yard), and the postfix text is then evaluated
    with one operand stack. */
module Calculator {
  import opened Chars
  import opened Results
  import opened SeqStack

  /** The exceptions of the two stages, one kind per cause. */
  datatype Error =
    | EmptyStack        // `pop()` on an empty stack
    | DivisionByZero
    | NumberFormat      // a buffered literal that is not a number
    | IllegalCharacter  // the validation that precedes both stages fails

  function Precedence(op: char): int {
    if op == '+' || op == '-' then 1
    else if op == '*' || op == '/' then 2
    else -1
  }

  /** `*` and `/` rank above `+` and `-`; everything else, `(` included, ranks lowest. */
  lemma PrecedenceTable(c: char)
    ensures Precedence(c) == 1 <==> c == '+' || c == '-'
    ensures Precedence(c) == 2 <==> c == '*' || c == '/'
    ensures Precedence(c) == -1 <==> !(c == '+' || c == '-' || c == '*' || c == '/')
    ensures Precedence('(') == -1
  {
  }

  // ---------------------------------------------------------------------------------
  // Input validation

  /** The regex character class `[\d+\-*\/().\s]`. */
  predicate Permitted(c: char) {
    IsDigit(c) || c == '+' || c == '-' || c == '*' || c == '/' || c == '(' || c == ')' || c == '.' || IsRegexSpace(c)
  }

  /** `input.matches("^[…]+$")`: one permitted character, then possibly more. */
  predicate ValidateInput(input: string)
    decreases |input|
  {
    |input| >= 1 && Permitted(input[0]) && (|input| == 1 || ValidateInput(input[1..]))
  }

  /** The check holds exactly for non-empty text made only of permitted characters. */
  lemma {:induction false} ValidateInputExactly(input: string)
    ensures ValidateInput(input) <==> |input| > 0 && forall k :: 0 <= k < |input| ==> Permitted(input[k])
    decreases |input|
  {
    if |input| > 1 {
      ValidateInputExactly(input[1..]);
      assert forall k :: 1 <= k < |input| ==> input[k] == input[1..][k - 1];
    }
  }

  // ---------------------------------------------------------------------------------
  // Infix to postfix

  predicate IsLiteralChar(c: char) {
    IsDigit(c) || c == '.'
  }

  /** The loop before an operator `c` is pushed: emit every stacked operator whose
      precedence is at least that of `c`, each followed by a space. */
  function PopNotLower(c: char, out: string, stack: seq<char>): (string, seq<char>)
    decreases |stack|
  {
    if |stack| > 0 && Precedence(c) <= Precedence(Top(stack)) then
      PopNotLower(c, out + [Top(stack)] + " ", Below(stack))
    else
      (out, stack)
  }

  /** What is left is the bottom of the stack; its top, if any, ranks below `c`; every
      operator popped ranks at least as high as `c`. */
  lemma {:induction false} PopNotLowerShape(c: char, out: string, stack: seq<char>)
    ensures var r := PopNotLower(c, out, stack).1;
      && |r| <= |stack| && r == stack[..|r|]
      && (|r| > 0 ==> Precedence(Top(r)) < Precedence(c))
      && (forall k :: |r| <= k < |stack| ==> Precedence(c) <= Precedence(stack[k]))
    decreases |stack|
  {
    if |stack| > 0 && Precedence(c) <= Precedence(Top(stack)) {
      PopNotLowerShape(c, out + [Top(stack)] + " ", Below(stack));
      var r := PopNotLower(c, out, stack).1;
      assert Below(stack)[..|r|] == stack[..|r|];
    }
  }

  /** The loop run by `)`: emit operators, each after a space, until a `(` is on top. */
  function PopToParen(out: string, stack: seq<char>): (string, seq<char>)
    decreases |stack|
  {
    if |stack| > 0 && Top(stack) != '(' then
      PopToParen(out + " " + [Top(stack)], Below(stack))
    else
      (out, stack)
  }

  /** What is left is the bottom of the stack up to and including its topmost `(`, or
      nothing when there is no `(`. */
  lemma {:induction false} PopToParenShape(out: string, stack: seq<char>)
    ensures var r := PopToParen(out, stack).1;
      && |r| <= |stack| && r == stack[..|r|]
      && (|r| > 0 ==> Top(r) == '(')
      && (forall k :: |r| <= k < |stack| ==> stack[k] != '(')
    decreases |stack|
  {
    if |stack| > 0 && Top(stack) != '(' {
      PopToParenShape(out + " " + [Top(stack)], Below(stack));
      var r := PopToParen(out, stack).1;
      assert Below(stack)[..|r|] == stack[..|r|];
    }
  }

  /** After the input: emit what is left on the stack, top first, each after a space. */
  function Flush(out: string, stack: seq<char>): string
    decreases |stack|
  {
    if |stack| > 0 then Flush(out + " " + [Top(stack)], Below(stack)) else out
  }

  /** The conversion of the remaining input `rest`, given the output and the stack so far. */
  function PostfixFrom(rest: string, out: string, stack: seq<char>): (r: Result<string, Error>)
    decreases |rest|
    ensures r.Err? ==> r.error == EmptyStack
  {
    if |rest| == 0 then Ok(Flush(out, stack))
    else
      var c := rest[0];
      if IsJavaWhitespace(c) then PostfixFrom(rest[1..], out, stack)
      else if IsLiteralChar(c) then PostfixFrom(rest[1..], out + [c], stack)
      else if c == '(' then PostfixFrom(rest[1..], out, stack + [c])
      else if c == ')' then
        var (out', stack') := PopToParen(out, stack);
        if |stack'| == 0 then Err(EmptyStack)
        else PostfixFrom(rest[1..], out', Below(stack'))
      else
        var (out', stack') := PopNotLower(c, out + " ", stack);
        PostfixFrom(rest[1..], out', stack' + [c])
  }

  /** The postfix form of an expression, or the error the conversion raises. */
  function Postfix(expr: string): Result<string, Error> {
    PostfixFrom(expr, "", [])
  }

  // ---------------------------------------------------------------------------------
  // Evaluating postfix text

  predicate AllLiteralChars(s: string) {
    forall k :: 0 <= k < |s| ==> IsLiteralChar(s[k])
  }

  predicate HasDigit(s: string) {
    exists k :: 0 <= k < |s| && IsDigit(s[k])
  }

  /** Position of the first `.` in `s`. */
  function PointIndex(s: string): (k: nat)
    requires '.' in s
    ensures k < |s| && s[k] == '.' && '.' !in s[..k]
  {
    if s[0] == '.' then 0 else
      var k := 1 + PointIndex(s[1..]);
      assert s[..k] == [s[0]] + s[1..][..k - 1];
      k
  }

  /** `Double.parseDouble` on text made of digits and points: a number needs at least one
      digit and at most one point; its value is the integer part plus the fraction. */
  function ParseDouble(buf: string): (r: Result<real, Error>)
    requires AllLiteralChars(buf)
    ensures r.Ok? <==> HasDigit(buf) && Count('.', buf) <= 1
    ensures r.Err? ==> r.error == NumberFormat
    ensures r.Ok? && '.' !in buf ==> r.value == DigitsValue(buf)
  {
    if !HasDigit(buf) || Count('.', buf) > 1 then Err(NumberFormat)
    else if '.' !in buf then Ok(DigitsValue(buf))
    else
      var k := PointIndex(buf);
      Ok(DecimalValue(buf[..k], buf[k + 1..]))
  }

  /** The value of `whole.fraction`. */
  function DecimalValue(whole: string, fraction: string): real {
    DigitsValue(whole) + DigitsValue(fraction) / Pow10(|fraction|)
  }

  /** A postfix operator: pop b, pop a, and push `a op b`; an unknown character pushes
      nothing. */
  function PopApply(c: char, stack: seq<real>): (r: Result<seq<real>, Error>)
    ensures |stack| < 2 ==> r == Err(EmptyStack)
    ensures |stack| >= 2 ==>
      var n, a, b := |stack|, stack[|stack| - 2], stack[|stack| - 1];
      && (c == '/' && b == 0.0 ==> r == Err(DivisionByZero))
      && (r.Ok? <==> !(c == '/' && b == 0.0))
      && (r.Ok? && (c == '+' || c == '-' || c == '*' || c == '/') ==>
            |r.value| == n - 1 && r.value[..n - 2] == stack[..n - 2]
            && r.value[n - 2] == (if c == '+' then a + b else if c == '-' then a - b
                                  else if c == '*' then a * b else a / b))
      && (r.Ok? && !(c == '+' || c == '-' || c == '*' || c == '/') ==> r.value == stack[..n - 2])
  {
    if |stack| < 2 then Err(EmptyStack)
    else
      var b := Top(stack);
      var a := Top(Below(stack));
      var rest := Below(Below(stack));
      match c
      case '+' => Ok(rest + [a + b])
      case '-' => Ok(rest + [a - b])
      case '*' => Ok(rest + [a * b])
      case '/' => if b == 0.0 then Err(DivisionByZero) else Ok(rest + [a / b])
      case _ => Ok(rest)
  }

  /** The evaluation of the remaining postfix text `rest`, given the stack and the literal
      buffer so far. */
  function EvalFrom(rest: string, stack: seq<real>, buf: string): Result<real, Error>
    requires AllLiteralChars(buf)
    decreases |rest|
  {
    if |rest| == 0 then
      if |stack| == 0 then Err(EmptyStack) else Ok(Top(stack))
    else
      var c := rest[0];
      if IsDigit(c) then EvalFrom(rest[1..], stack, buf + [c])
      else if c == '.' then EvalFrom(rest[1..], stack, buf + [c])
      else if IsJavaWhitespace(c) then
        if |buf| > 0 then
          match ParseDouble(buf)
          case Err(e) => Err(e)
          case Ok(v) => EvalFrom(rest[1..], stack + [v], "")
        else EvalFrom(rest[1..], stack, buf)
      else
        match PopApply(c, stack)
        case Err(e) => Err(e)
        case Ok(stack') => EvalFrom(rest[1..], stack', buf)
  }

  /** The value of postfix text, or the error the evaluation raises. */
  function EvalPostfix(p: string): Result<real, Error> {
    EvalFrom(p, [], "")
  }

  /** What one line of input yields: validation, conversion, evaluation. */
  function Process(input: string): Result<real, Error> {
    if !ValidateInput(input) then Err(IllegalCharacter)
    else
      match Postfix(input)
      case Err(e) => Err(e)
      case Ok(p) => EvalPostfix(p)
  }

  // ---------------------------------------------------------------------------------
  // Properties of the conversion

  /** The digits and points of `s`, in order. */
  function Literals(s: string): string {
    if |s| == 0 then [] else Literals(s[..|s| - 1]) + (if IsLiteralChar(s[|s| - 1]) then [s[|s| - 1]] else [])
  }

  lemma {:induction false} LiteralsAppend(s: string, t: string)
    ensures Literals(s + t) == Literals(s) + Literals(t)
    decreases |t|
  {
    if |t| > 0 {
      assert (s + t)[..|s + t| - 1] == s + t[..|t| - 1];
      LiteralsAppend(s, t[..|t| - 1]);
    } else {
      assert s + t == s;
    }
  }

  lemma LiteralsPush(s: string, c: char)
    ensures Literals(s + [c]) == Literals(s) + (if IsLiteralChar(c) then [c] else [])
  {
    assert (s + [c])[..|s|] == s;
  }

  /** No digit or point is on the operator stack. */
  predicate NoLiterals(stack: seq<char>) {
    Literals(stack) == []
  }

  lemma NoLiteralsPrefix(stack: seq<char>, n: nat)
    requires NoLiterals(stack) && n <= |stack|
    ensures NoLiterals(stack[..n])
  {
    assert stack == stack[..n] + stack[n..];
    LiteralsAppend(stack[..n], stack[n..]);
  }

  /** Emitting an operator followed by a space keeps counts other than spaces, and the
      literals, of output plus stack. */
  lemma EmitThenSpace(x: char, out: string, t: char)
    requires x != ' '
    ensures Count(x, out + [t] + " ") == Count(x, out) + (if t == x then 1 else 0)
    ensures !IsLiteralChar(t) ==> Literals(out + [t] + " ") == Literals(out)
  {
    assert out + [t] + " " == (out + [t]) + [' '];
    CountPush(x, out + [t], ' ');
    CountPush(x, out, t);
    LiteralsPush(out + [t], ' ');
    LiteralsPush(out, t);
  }

  lemma SpaceThenEmit(x: char, out: string, t: char)
    requires x != ' '
    ensures Count(x, out + " " + [t]) == Count(x, out) + (if t == x then 1 else 0)
    ensures !IsLiteralChar(t) ==> Literals(out + " " + [t]) == Literals(out)
  {
    assert out + " " + [t] == (out + [' ']) + [t];
    CountPush(x, out + [' '], t);
    CountPush(x, out, ' ');
    LiteralsPush(out + [' '], t);
    LiteralsPush(out, ' ');
  }

  /** Popping before an operator moves characters from the stack to the output: nothing
      but spaces is created or lost. */
  lemma {:induction false} PopNotLowerConserves(c: char, out: string, stack: seq<char>, x: char)
    requires x != ' '
    ensures var r := PopNotLower(c, out, stack);
      Count(x, r.0) + Count(x, r.1) == Count(x, out) + Count(x, stack)
    ensures NoLiterals(stack) ==> Literals(PopNotLower(c, out, stack).0) == Literals(out)
    decreases |stack|
  {
    if |stack| > 0 && Precedence(c) <= Precedence(Top(stack)) {
      EmitThenSpace(x, out, Top(stack));
      PopNotLowerConserves(c, out + [Top(stack)] + " ", Below(stack), x);
    }
  }

  lemma {:induction false} PopToParenConserves(out: string, stack: seq<char>, x: char)
    requires x != ' '
    ensures var r := PopToParen(out, stack);
      Count(x, r.0) + Count(x, r.1) == Count(x, out) + Count(x, stack)
    ensures NoLiterals(stack) ==> Literals(PopToParen(out, stack).0) == Literals(out)
    decreases |stack|
  {
    if |stack| > 0 && Top(stack) != '(' {
      SpaceThenEmit(x, out, Top(stack));
      PopToParenConserves(out + " " + [Top(stack)], Below(stack), x);
    }
  }

  lemma {:induction false} FlushConserves(out: string, stack: seq<char>, x: char)
    requires x != ' '
    ensures Count(x, Flush(out, stack)) == Count(x, out) + Count(x, stack)
    ensures NoLiterals(stack) ==> Literals(Flush(out, stack)) == Literals(out)
    decreases |stack|
  {
    if |stack| > 0 {
      SpaceThenEmit(x, out, Top(stack));
      FlushConserves(out + " " + [Top(stack)], Below(stack), x);
    }
  }

  lemma CountFront(x: char, s: string)
    requires |s| > 0
    ensures Count(x, s) == (if s[0] == x then 1 else 0) + Count(x, s[1..])
  {
    assert s == [s[0]] + s[1..];
    CountAppend(x, [s[0]], s[1..]);
    assert [s[0]][..0] == [];
  }

  lemma LiteralsFront(s: string)
    requires |s| > 0
    ensures Literals(s) == (if IsLiteralChar(s[0]) then [s[0]] else []) + Literals(s[1..])
  {
    SplitFirst(s);
    LiteralsAppend([s[0]], s[1..]);
    LiteralsPush([], s[0]);
    OntoEmpty([s[0]]);
  }

  /** The conversion copies every digit and point, in input order, and nothing else of
      that kind appears in the output. */
  lemma {:induction false} PostfixFromKeepsLiterals(rest: string, out: string, stack: seq<char>)
    requires NoLiterals(stack)
    requires PostfixFrom(rest, out, stack).Ok?
    ensures Literals(PostfixFrom(rest, out, stack).value) == Literals(out) + Literals(rest)
    decreases |rest|
  {
    if |rest| == 0 {
      FlushConserves(out, stack, '0');
    } else {
      var c := rest[0];
      LiteralsFront(rest);
      if IsJavaWhitespace(c) {
        PostfixFromKeepsLiterals(rest[1..], out, stack);
      } else if IsLiteralChar(c) {
        PostfixFromKeepsLiterals(rest[1..], out + [c], stack);
        LiteralsPush(out, c);
      } else if c == '(' {
        LiteralsPush(stack, c);
        PostfixFromKeepsLiterals(rest[1..], out, stack + [c]);
      } else if c == ')' {
        var (out', stack') := PopToParen(out, stack);
        PopToParenShape(out, stack);
        PopToParenConserves(out, stack, '0');
        if |stack'| > 0 {
          NoLiteralsPrefix(stack, |stack'| - 1);
          assert Below(stack') == stack[..|stack'| - 1];
          PostfixFromKeepsLiterals(rest[1..], out', Below(stack'));
        }
      } else {
        var (out', stack') := PopNotLower(c, out + " ", stack);
        PopNotLowerShape(c, out + " ", stack);
        PopNotLowerConserves(c, out + " ", stack, '0');
        LiteralsPush(out, ' ');
        NoLiteralsPrefix(stack, |stack'|);
        LiteralsPush(stack', c);
        PostfixFromKeepsLiterals(rest[1..], out', stack' + [c]);
      }
    }
  }

  lemma PostfixKeepsLiterals(expr: string)
    requires Postfix(expr).Ok?
    ensures Literals(Postfix(expr).value) == Literals(expr)
  {
    PostfixFromKeepsLiterals(expr, "", []);
  }

  /** An operator character: what the conversion neither skips, copies nor treats as a
      parenthesis. */
  predicate OperatorLike(x: char) {
    !IsJavaWhitespace(x) && !IsLiteralChar(x) && x != '(' && x != ')'
  }

  /** Every operator of the input reaches the output exactly once. */
  lemma {:induction false} PostfixFromKeepsOperators(rest: string, out: string, stack: seq<char>, x: char)
    requires OperatorLike(x)
    requires PostfixFrom(rest, out, stack).Ok?
    ensures Count(x, PostfixFrom(rest, out, stack).value) == Count(x, out) + Count(x, stack) + Count(x, rest)
    decreases |rest|
  {
    if |rest| == 0 {
      FlushConserves(out, stack, x);
    } else {
      var c := rest[0];
      CountFront(x, rest);
      if IsJavaWhitespace(c) {
        PostfixFromKeepsOperators(rest[1..], out, stack, x);
      } else if IsLiteralChar(c) {
        PostfixFromKeepsOperators(rest[1..], out + [c], stack, x);
        CountPush(x, out, c);
      } else if c == '(' {
        PostfixFromKeepsOperators(rest[1..], out, stack + [c], x);
        CountPush(x, stack, c);
      } else if c == ')' {
        var (out', stack') := PopToParen(out, stack);
        PopToParenShape(out, stack);
        PopToParenConserves(out, stack, x);
        PostfixFromKeepsOperators(rest[1..], out', Below(stack'), x);
      } else {
        var (out', stack') := PopNotLower(c, out + " ", stack);
        PopNotLowerShape(c, out + " ", stack);
        PopNotLowerConserves(c, out + " ", stack, x);
        CountPush(x, out, ' ');
        CountPush(x, stack', c);
        PostfixFromKeepsOperators(rest[1..], out', stack' + [c], x);
      }
    }
  }

  /** A `(` leaves the output only by being matched: the output holds exactly the
      unmatched ones. */
  lemma {:induction false} PostfixFromOpenParens(rest: string, out: string, stack: seq<char>)
    requires PostfixFrom(rest, out, stack).Ok?
    ensures Count('(', PostfixFrom(rest, out, stack).value) + Count(')', rest)
         == Count('(', out) + Count('(', stack) + Count('(', rest)
    decreases |rest|
  {
    if |rest| == 0 {
      FlushConserves(out, stack, '(');
    } else {
      var c := rest[0];
      CountFront('(', rest);
      CountFront(')', rest);
      if IsJavaWhitespace(c) {
        PostfixFromOpenParens(rest[1..], out, stack);
      } else if IsLiteralChar(c) {
        PostfixFromOpenParens(rest[1..], out + [c], stack);
        CountPush('(', out, c);
      } else if c == '(' {
        PostfixFromOpenParens(rest[1..], out, stack + [c]);
        CountPush('(', stack, c);
      } else if c == ')' {
        var (out', stack') := PopToParen(out, stack);
        PopToParenShape(out, stack);
        PopToParenConserves(out, stack, '(');
        BelowTop(stack');
        CountPush('(', Below(stack'), Top(stack'));
        PostfixFromOpenParens(rest[1..], out', Below(stack'));
      } else {
        var (out', stack') := PopNotLower(c, out + " ", stack);
        PopNotLowerShape(c, out + " ", stack);
        PopNotLowerConserves(c, out + " ", stack, '(');
        CountPush('(', out, ' ');
        CountPush('(', stack', c);
        PostfixFromOpenParens(rest[1..], out', stack' + [c]);
      }
    }
  }

  /** A `)` is never copied to the output. */
  lemma {:induction false} PostfixFromNoCloseParen(rest: string, out: string, stack: seq<char>)
    requires ')' !in out && ')' !in stack
    requires PostfixFrom(rest, out, stack).Ok?
    ensures ')' !in PostfixFrom(rest, out, stack).value
    decreases |rest|
  {
    CountPositive(')', out);
    CountPositive(')', stack);
    if |rest| == 0 {
      FlushConserves(out, stack, ')');
      CountPositive(')', Flush(out, stack));
    } else {
      var c := rest[0];
      if IsJavaWhitespace(c) {
        PostfixFromNoCloseParen(rest[1..], out, stack);
      } else if IsLiteralChar(c) {
        PostfixFromNoCloseParen(rest[1..], out + [c], stack);
      } else if c == '(' {
        PostfixFromNoCloseParen(rest[1..], out, stack + [c]);
      } else if c == ')' {
        var (out', stack') := PopToParen(out, stack);
        PopToParenShape(out, stack);
        PopToParenConserves(out, stack, ')');
        CountPositive(')', out');
        CountPositive(')', stack');
        assert Below(stack') == stack'[..|stack'| - 1];
        PostfixFromNoCloseParen(rest[1..], out', Below(stack'));
      } else {
        var (out', stack') := PopNotLower(c, out + " ", stack);
        PopNotLowerShape(c, out + " ", stack);
        PopNotLowerConserves(c, out + " ", stack, ')');
        CountPush(')', out, ' ');
        CountPositive(')', out + " ");
        CountPositive(')', out');
        CountPositive(')', stack');
        PostfixFromNoCloseParen(rest[1..], out', stack' + [c]);
      }
    }
  }

  /** What the conversion produces: the input's digits and points in order, each of its
      operators once, the `(` it leaves unclosed, and no `)`. */
  lemma PostfixContents(expr: string, x: char)
    requires Postfix(expr).Ok?
    ensures Literals(Postfix(expr).value) == Literals(expr)
    ensures OperatorLike(x) ==> Count(x, Postfix(expr).value) == Count(x, expr)
    ensures Count('(', Postfix(expr).value) == Count('(', expr) - Count(')', expr)
    ensures ')' !in Postfix(expr).value
  {
    PostfixFromKeepsLiterals(expr, "", []);
    if OperatorLike(x) {
      PostfixFromKeepsOperators(expr, "", [], x);
    }
    PostfixFromOpenParens(expr, "", []);
    PostfixFromNoCloseParen(expr, "", []);
  }

  /** `s` without its whitespace. */
  function Unspaced(s: string): (r: string)
    decreases |s|
  {
    if |s| == 0 then [] else (if IsJavaWhitespace(s[0]) then [] else [s[0]]) + Unspaced(s[1..])
  }

  /** Whitespace has no effect on the conversion. */
  lemma {:induction false} PostfixFromIgnoresWhitespace(rest: string, out: string, stack: seq<char>)
    ensures PostfixFrom(rest, out, stack) == PostfixFrom(Unspaced(rest), out, stack)
    decreases |rest|
  {
    if |rest| > 0 {
      var c, t := rest[0], Unspaced(rest[1..]);
      if IsJavaWhitespace(c) {
        assert Unspaced(rest) == t;
        PostfixFromIgnoresWhitespace(rest[1..], out, stack);
      } else {
        assert Unspaced(rest) == [c] + t;
        assert ([c] + t)[0] == c && ([c] + t)[1..] == t;
        if IsLiteralChar(c) {
          PostfixFromIgnoresWhitespace(rest[1..], out + [c], stack);
        } else if c == '(' {
          PostfixFromIgnoresWhitespace(rest[1..], out, stack + [c]);
        } else if c == ')' {
          var (out', stack') := PopToParen(out, stack);
          if |stack'| > 0 {
            PostfixFromIgnoresWhitespace(rest[1..], out', Below(stack'));
          }
        } else {
          var (out', stack') := PopNotLower(c, out + " ", stack);
          PostfixFromIgnoresWhitespace(rest[1..], out', stack' + [c]);
        }
      }
    }
  }

  lemma PostfixIgnoresWhitespace(expr: string)
    ensures Postfix(expr) == Postfix(Unspaced(expr))
  {
    PostfixFromIgnoresWhitespace(expr, "", []);
  }

  /** Characters of expressions: whitespace, literals, parentheses and operators. */
  predicate ExpressionChars(s: string) {
    forall k :: 0 <= k < |s| ==> IsJavaWhitespace(s[k]) || IsLiteralChar(s[k]) || s[k] in "()+-*/"
  }

  /** Whether, starting `depth` parentheses deep, some `)` of `s` closes nothing. */
  predicate HasUnmatchedClose(s: string, depth: nat)
    decreases |s|
  {
    if |s| == 0 then false
    else if s[0] == '(' then HasUnmatchedClose(s[1..], depth + 1)
    else if s[0] == ')' then depth == 0 || HasUnmatchedClose(s[1..], depth - 1)
    else HasUnmatchedClose(s[1..], depth)
  }

  predicate StackChars(stack: seq<char>) {
    forall k :: 0 <= k < |stack| ==> stack[k] in "(+-*/"
  }

  /** The operators a `)` pops include no `(`. */
  lemma PoppedNoParen(out: string, stack: seq<char>)
    ensures var n := |PopToParen(out, stack).1|;
      n <= |stack| && Count('(', stack[n..]) == 0
  {
    var st := PopToParen(out, stack).1;
    PopToParenShape(out, stack);
    var popped := stack[|st|..];
    forall k | 0 <= k < |popped| ensures popped[k] != '(' {
      assert popped[k] == stack[|st| + k];
    }
    CountPositive('(', popped);
  }

  /** A `)` empties the stack exactly when no `(` is on it, and otherwise removes one. */
  lemma CloseParenDepth(out: string, stack: seq<char>)
    requires StackChars(stack)
    ensures var st := PopToParen(out, stack).1;
      && (|st| == 0 <==> Count('(', stack) == 0)
      && (|st| > 0 ==> Count('(', Below(st)) + 1 == Count('(', stack) && StackChars(Below(st)))
  {
    var st := PopToParen(out, stack).1;
    PopToParenShape(out, stack);
    var popped := stack[|st|..];
    PoppedNoParen(out, stack);
    CountSplit('(', stack, |st|);
    if |st| > 0 {
      BelowTop(st);
      CountPush('(', Below(st), Top(st));
      forall k | 0 <= k < |Below(st)| ensures Below(st)[k] in "(+-*/" {
        assert Below(st)[k] == stack[k];
      }
    } else {
      assert Count('(', stack[..0]) == 0;
      assert popped == stack;
    }
  }

  /** An operator never pops a `(`. */
  lemma OperatorDepth(c: char, out: string, stack: seq<char>)
    requires c in "+-*/" && StackChars(stack)
    ensures var st := PopNotLower(c, out, stack).1;
      Count('(', st + [c]) == Count('(', stack) && StackChars(st + [c])
  {
    var st := PopNotLower(c, out, stack).1;
    PopNotLowerShape(c, out, stack);
    CountSplit('(', stack, |st|);
    assert '(' !in stack[|st|..] by {
      forall k | 0 <= k < |stack| - |st| ensures stack[|st|..][k] != '(' {
        assert Precedence(c) <= Precedence(stack[|st| + k]);
      }
    }
    CountPositive('(', stack[|st|..]);
    CountPush('(', st, c);
  }

  /** On expression characters the conversion fails exactly when a `)` finds no `(`. */
  lemma {:induction false} PostfixFromFailsExactly(rest: string, out: string, stack: seq<char>)
    requires ExpressionChars(rest) && StackChars(stack)
    ensures PostfixFrom(rest, out, stack).Err? <==> HasUnmatchedClose(rest, Count('(', stack))
    decreases |rest|
  {
    if |rest| > 0 {
      var c := rest[0];
      assert ExpressionChars(rest[1..]) by {
        forall k | 0 <= k < |rest[1..]| ensures rest[1..][k] == rest[k + 1] { }
      }
      var d := Count('(', stack);
      if IsJavaWhitespace(c) {
        assert c != '(' && c != ')';
        assert HasUnmatchedClose(rest, d) == HasUnmatchedClose(rest[1..], d);
        PostfixFromFailsExactly(rest[1..], out, stack);
      } else if IsLiteralChar(c) {
        assert HasUnmatchedClose(rest, d) == HasUnmatchedClose(rest[1..], d);
        PostfixFromFailsExactly(rest[1..], out + [c], stack);
      } else if c == '(' {
        CountPush('(', stack, c);
        assert PostfixFrom(rest, out, stack) == PostfixFrom(rest[1..], out, stack + [c]);
        PostfixFromFailsExactly(rest[1..], out, stack + [c]);
      } else if c == ')' {
        var (out', stack') := PopToParen(out, stack);
        CloseParenDepth(out, stack);
        if |stack'| > 0 {
          assert PostfixFrom(rest, out, stack) == PostfixFrom(rest[1..], out', Below(stack'));
          PostfixFromFailsExactly(rest[1..], out', Below(stack'));
        }
      } else {
        var (out', stack') := PopNotLower(c, out + " ", stack);
        OperatorDepth(c, out + " ", stack);
        assert PostfixFrom(rest, out, stack) == PostfixFrom(rest[1..], out', stack' + [c]);
        assert HasUnmatchedClose(rest, d) == HasUnmatchedClose(rest[1..], d);
        PostfixFromFailsExactly(rest[1..], out', stack' + [c]);
      }
    }
  }

  /** Validated input fails to convert exactly when it has an unmatched `)`; that
      failure is the pop of an empty stack. */
  lemma PostfixFailsExactly(expr: string)
    requires ValidateInput(expr)
    ensures Postfix(expr).Err? <==> HasUnmatchedClose(expr, 0)
    ensures Postfix(expr).Err? ==> Postfix(expr).error == EmptyStack
  {
    ValidateInputExactly(expr);
    PostfixFromFailsExactly(expr, "", []);
  }

  // ---------------------------------------------------------------------------------
  // Properties of the evaluation

  /** Digits and points only go to the buffer: nothing is pushed while they are read. */
  lemma {:induction false} LiteralBuffered(lit: string, rest: string, stack: seq<real>, buf: string)
    requires AllLiteralChars(lit) && AllLiteralChars(buf)
    ensures AllLiteralChars(buf + lit)
    ensures EvalFrom(lit + rest, stack, buf) == EvalFrom(rest, stack, buf + lit)
    decreases |lit|
  {
    if |lit| == 0 {
      assert lit + rest == rest && buf + lit == buf;
    } else {
      var c := lit[0];
      assert (lit + rest)[0] == c && (lit + rest)[1..] == lit[1..] + rest;
      assert buf + lit == (buf + [c]) + lit[1..];
      LiteralBuffered(lit[1..], rest, stack, buf + [c]);
    }
  }

  /** A buffered literal is parsed and pushed when whitespace follows it. */
  lemma LiteralPushedAtWhitespace(lit: string, w: char, rest: string, stack: seq<real>)
    requires AllLiteralChars(lit) && |lit| > 0 && IsJavaWhitespace(w)
    ensures ParseDouble(lit).Err? ==> EvalFrom(lit + [w] + rest, stack, "") == Err(NumberFormat)
    ensures ParseDouble(lit).Ok? ==>
      EvalFrom(lit + [w] + rest, stack, "") == EvalFrom(rest, stack + [ParseDouble(lit).value], "")
  {
    assert lit + [w] + rest == lit + ([w] + rest);
    LiteralBuffered(lit, [w] + rest, stack, "");
    assert "" + lit == lit;
    assert ([w] + rest)[0] == w && ([w] + rest)[1..] == rest;
  }

  /** A literal at the very end is never pushed: the result is whatever was on top. */
  lemma TrailingLiteralNeverPushed(lit: string, stack: seq<real>, buf: string)
    requires AllLiteralChars(lit) && AllLiteralChars(buf)
    ensures EvalFrom(lit, stack, buf) == if |stack| == 0 then Err(EmptyStack) else Ok(Top(stack))
  {
    assert lit + [] == lit;
    LiteralBuffered(lit, [], stack, buf);
  }

  /** The literal grammar that parses: digits, a point, digits, not both parts empty. */
  lemma ParseDoubleDecimal(whole: string, fraction: string)
    requires AllDigits(whole) && AllDigits(fraction) && |whole| + |fraction| > 0
    ensures AllLiteralChars(whole + "." + fraction)
    ensures ParseDouble(whole + "." + fraction) == Ok(DecimalValue(whole, fraction))
  {
    var s := whole + "." + fraction;
    assert s[|whole|] == '.';
    assert HasDigit(s) by {
      if |whole| > 0 { assert IsDigit(s[0]); } else { assert IsDigit(s[|whole| + 1]); }
    }
    assert '.' !in whole by {
      forall k | 0 <= k < |whole| ensures whole[k] != '.' { assert IsDigit(whole[k]); }
    }
    assert '.' !in fraction by {
      forall k | 0 <= k < |fraction| ensures fraction[k] != '.' { assert IsDigit(fraction[k]); }
    }
    CountPositive('.', whole);
    CountPositive('.', fraction);
    CountAppend('.', whole + ".", fraction);
    CountPush('.', whole, '.');
    assert whole + "." == whole + ['.'];
    var k := PointIndex(s);
    assert forall j :: 0 <= j < |whole| ==> s[j] == whole[j];
    assert forall j :: 0 <= j < k ==> s[..k][j] == s[j];
    assert k == |whole|;
    assert s[..k] == whole && s[k + 1..] == fraction;
  }

  /** A literal without a digit, or with two points, is rejected when the space after it
      hands it to the parser. */
  lemma MalformedLiteral(lit: string)
    requires AllLiteralChars(lit) && |lit| > 0 && (!HasDigit(lit) || Count('.', lit) > 1)
    ensures ParseDouble(lit) == Err(NumberFormat)
    ensures EvalPostfix(lit + " ") == Err(NumberFormat)
  {
    LiteralPushedAtWhitespace(lit, ' ', "", []);
    assert lit + [' '] + "" == lit + " ";
  }

  /** A lone point has no digit. */
  lemma LonePoint()
    ensures ParseDouble(".") == Err(NumberFormat)
    ensures EvalPostfix(". ") == Err(NumberFormat)
  {
    assert !HasDigit(".");
    MalformedLiteral(".");
  }

  /** `1.2.3` has two points. */
  lemma TwoPoints()
    ensures ParseDouble("1.2.3") == Err(NumberFormat)
    ensures EvalPostfix("1.2.3 ") == Err(NumberFormat)
  {
    var t := "1.2.3";
    assert t[1] == '.' && t[3] == '.';
    TwoOccurrences('.', t, 1, 3);
    MalformedLiteral(t);
    assert t + " " == "1.2.3 ";
  }

  /** `5` alone never reaches the stack. */
  lemma SingleLiteralFails()
    ensures EvalPostfix("5") == Err(EmptyStack)
    ensures Process("5") == Err(EmptyStack)
  {
    TrailingLiteralNeverPushed("5", [], "");
    assert ValidateInput("5");
    assert Postfix("5") == Ok("5") by {
      assert "5"[1..] == [];
      assert "" + ['5'] == "5";
    }
  }

  // ---------------------------------------------------------------------------------
  // Examples

  lemma PostfixLiteralStep(c: char, rest: string, out: string, stack: seq<char>)
    requires IsLiteralChar(c)
    ensures PostfixFrom([c] + rest, out, stack) == PostfixFrom(rest, out + [c], stack)
  {
    assert ([c] + rest)[0] == c && ([c] + rest)[1..] == rest;
  }

  lemma PostfixOperatorStep(c: char, rest: string, out: string, stack: seq<char>)
    requires OperatorLike(c)
    ensures PostfixFrom([c] + rest, out, stack) ==
      PostfixFrom(rest, PopNotLower(c, out + " ", stack).0, PopNotLower(c, out + " ", stack).1 + [c])
  {
    assert ([c] + rest)[0] == c && ([c] + rest)[1..] == rest;
  }

  /** A digit string parses to its integer value. */
  lemma ParseInteger(lit: string)
    requires |lit| > 0 && AllDigits(lit)
    ensures AllLiteralChars(lit) && ParseDouble(lit) == Ok(DigitsValue(lit))
  {
    assert IsDigit(lit[0]);
    assert '.' !in lit by {
      forall k | 0 <= k < |lit| ensures lit[k] != '.' { assert IsDigit(lit[k]); }
    }
    CountPositive('.', lit);
  }

  /** The conversion of a digit at position `k`. */
  lemma LiteralAt(s: string, k: nat, out: string, stack: seq<char>)
    requires k < |s| && IsLiteralChar(s[k])
    ensures PostfixFrom(s[k..], out, stack) == PostfixFrom(s[k + 1..], out + [s[k]], stack)
  {
    assert s[k..][0] == s[k] && s[k..][1..] == s[k + 1..];
  }

  /** The conversion of an operator at position `k`. */
  lemma OperatorAt(s: string, k: nat, out: string, stack: seq<char>)
    requires k < |s| && IsArithOperator(s[k])
    ensures PostfixFrom(s[k..], out, stack) ==
      PostfixFrom(s[k + 1..], PopNotLower(s[k], out + " ", stack).0, PopNotLower(s[k], out + " ", stack).1 + [s[k]])
  {
    assert s[k..][0] == s[k] && s[k..][1..] == s[k + 1..];
  }

  /** `x p y q z` converts to `x y p z q` when `q` does not outrank `p`, and to
      `x y z q p` when it does. */
  lemma PostfixThree(s: string)
    requires |s| == 5 && IsDigit(s[0]) && IsArithOperator(s[1]) && IsDigit(s[2]) && IsArithOperator(s[3]) && IsDigit(s[4])
    ensures Postfix(s) == Ok(if Precedence(s[3]) <= Precedence(s[1])
                             then [s[0], ' ', s[2], ' ', s[1], ' ', s[4], ' ', s[3]]
                             else [s[0], ' ', s[2], ' ', s[4], ' ', s[3], ' ', s[1]])
  {
    var x, p, y := s[0], s[1], s[2];
    assert s[0..] == s;
    LiteralAt(s, 0, "", []);
    OntoEmpty([x]);
    OperatorAt(s, 1, [x], []);
    assert PopNotLower(p, [x] + " ", []) == ([x] + " ", []);
    OntoEmpty([p]);
    LiteralAt(s, 2, [x] + " ", [p]);
    if Precedence(s[3]) <= Precedence(p) {
      PostfixThreeLeft(s, [x] + " " + [y]);
      SpacedFive(x, y, p, s[4], s[3]);
    } else {
      PostfixThreeRight(s, [x] + " " + [y]);
      SpacedFive(x, y, s[4], s[3], p);
    }
  }

  lemma PostfixThreeLeft(s: string, out: string)
    requires |s| == 5 && IsArithOperator(s[1]) && IsArithOperator(s[3]) && IsDigit(s[4])
    requires Precedence(s[3]) <= Precedence(s[1])
    ensures PostfixFrom(s[3..], out, [s[1]]) == Ok(out + " " + [s[1]] + " " + [s[4]] + " " + [s[3]])
  {
    var p, q, z := s[1], s[3], s[4];
    OperatorAt(s, 3, out, [p]);
    assert PopNotLower(q, out + " " + [p] + " ", []) == (out + " " + [p] + " ", []);
    assert PopNotLower(q, out + " ", [p]) == (out + " " + [p] + " ", []);
    OntoEmpty([q]);
    LiteralAt(s, 4, out + " " + [p] + " ", [q]);
    assert s[5..] == [];
    assert Flush(out + " " + [p] + " " + [z], [q]) == out + " " + [p] + " " + [z] + " " + [q];
  }

  lemma PostfixThreeRight(s: string, out: string)
    requires |s| == 5 && IsArithOperator(s[1]) && IsArithOperator(s[3]) && IsDigit(s[4])
    requires Precedence(s[1]) < Precedence(s[3])
    ensures PostfixFrom(s[3..], out, [s[1]]) == Ok(out + " " + [s[4]] + " " + [s[3]] + " " + [s[1]])
  {
    var p, q, z := s[1], s[3], s[4];
    OperatorAt(s, 3, out, [p]);
    assert PopNotLower(q, out + " ", [p]) == (out + " ", [p]);
    JoinSmall(p, q, q);
    LiteralAt(s, 4, out + " ", [p, q]);
    assert s[5..] == [];
    assert Flush(out + " " + [z] + " " + [q], [p]) == out + " " + [z] + " " + [q] + " " + [p];
    assert Flush(out + " " + [z], [p, q]) == out + " " + [z] + " " + [q] + " " + [p];
  }

  /** A one-digit literal followed by a space is pushed. */
  lemma DigitPushedAt(p: string, k: nat, stack: seq<real>)
    requires k + 1 < |p| && IsDigit(p[k]) && p[k + 1] == ' '
    ensures EvalFrom(p[k..], stack, "") == EvalFrom(p[k + 2..], stack + [DigitValue(p[k]) as real], "")
  {
    assert p[k..][0] == p[k] && p[k..][1..] == p[k + 1..];
    OntoEmpty([p[k]]);
    ParseInteger([p[k]]);
    assert [p[k]][..0] == [];
    assert p[k + 1..][0] == ' ' && p[k + 1..][1..] == p[k + 2..];
    assert IsJavaWhitespace(' ') && !IsDigit(' ');
  }

  /** A space with an empty literal buffer is skipped. */
  lemma SpaceAt(p: string, k: nat, stack: seq<real>)
    requires k < |p| && p[k] == ' '
    ensures EvalFrom(p[k..], stack, "") == EvalFrom(p[k + 1..], stack, "")
  {
    assert p[k..][0] == ' ' && p[k..][1..] == p[k + 1..];
    assert IsJavaWhitespace(' ') && !IsDigit(' ');
  }

  /** A binary operator applied to the two top values. */
  lemma ApplyAt(p: string, k: nat, below: seq<real>, a: real, b: real)
    requires k < |p| && IsArithOperator(p[k]) && (p[k] == '/' ==> b != 0.0)
    ensures EvalFrom(p[k..], below + [a, b], "") == EvalFrom(p[k + 1..], below + [Arith(p[k], a, b)], "")
  {
    assert p[k..][0] == p[k] && p[k..][1..] == p[k + 1..];
    var st := below + [a, b];
    assert Top(st) == b && Top(Below(st)) == a && Below(Below(st)) == below;
    EvalOperatorStep(p[k..], st, "");
  }

  /** Five characters joined by single spaces. */
  lemma SpacedFive(a: char, b: char, c: char, d: char, e: char)
    ensures [a] + " " + [b] + " " + [c] + " " + [d] + " " + [e] == [a, ' ', b, ' ', c, ' ', d, ' ', e]
  {
  }

  /** A character that is neither part of a literal nor whitespace: too few values is an
      error, a zero divisor is an error, and otherwise the two top values are replaced by
      `a c b` for an operator and dropped for any other character. */
  lemma EvalOperatorStep(rest: string, stack: seq<real>, buf: string)
    requires AllLiteralChars(buf) && |rest| > 0
    requires !IsDigit(rest[0]) && rest[0] != '.' && !IsJavaWhitespace(rest[0])
    ensures |stack| < 2 ==> EvalFrom(rest, stack, buf) == Err(EmptyStack)
    ensures |stack| >= 2 && rest[0] == '/' && Top(stack) == 0.0 ==> EvalFrom(rest, stack, buf) == Err(DivisionByZero)
    ensures |stack| >= 2 && !(rest[0] == '/' && Top(stack) == 0.0) ==>
      EvalFrom(rest, stack, buf) ==
      EvalFrom(rest[1..], Below(Below(stack)) + (if IsArithOperator(rest[0]) then [Arith(rest[0], Top(Below(stack)), Top(stack))] else []), buf)
  {
    if |stack| >= 2 && !(rest[0] == '/' && Top(stack) == 0.0) {
      var c, a, b, below := rest[0], Top(Below(stack)), Top(stack), Below(Below(stack));
      var n := |stack|;
      assert stack[n - 2] == a && stack[n - 1] == b && stack[..n - 2] == below;
      var r := PopApply(c, stack).value;
      if IsArithOperator(c) {
        assert |r| == n - 1 && r[..n - 2] == below && r[n - 2] == Arith(c, a, b);
        assert r == below + [Arith(c, a, b)];
      } else {
        assert r == below;
        assert below + [] == below;
      }
    }
  }

  /** The postfix text `x y p z q`: `p` is applied first. */
  lemma EvalThreeLeft(x: char, y: char, p: char, z: char, q: char)
    requires IsDigit(x) && IsDigit(y) && IsDigit(z) && IsArithOperator(p) && IsArithOperator(q)
    requires p == '/' ==> y != '0'
    requires q == '/' ==> z != '0'
    ensures var a, b, c := DigitValue(x) as real, DigitValue(y) as real, DigitValue(z) as real;
      EvalPostfix([x, ' ', y, ' ', p, ' ', z, ' ', q]) == Ok(Arith(q, Arith(p, a, b), c))
  {
    var a, b := DigitValue(x) as real, DigitValue(y) as real;
    var t := [x, ' ', y, ' ', p, ' ', z, ' ', q];
    TwoOperandsPushed(t);
    OntoEmpty([a, b]);
    ApplyAt(t, 4, [], a, b);
    OntoEmpty([Arith(p, a, b)]);
    SpaceAt(t, 5, [Arith(p, a, b)]);
    LastOperand(t, 6, Arith(p, a, b));
  }

  /** The start of postfix text: two one-digit operands, each followed by a space. */
  lemma TwoOperandsPushed(t: string)
    requires |t| >= 4 && IsDigit(t[0]) && t[1] == ' ' && IsDigit(t[2]) && t[3] == ' '
    ensures EvalPostfix(t) == EvalFrom(t[4..], [DigitValue(t[0]) as real, DigitValue(t[2]) as real], "")
  {
    var a, b := DigitValue(t[0]) as real, DigitValue(t[2]) as real;
    assert t[0..] == t;
    DigitPushedAt(t, 0, []);
    OntoEmpty([a]);
    DigitPushedAt(t, 2, [a]);
    JoinSmall(a, b, b);
  }

  /** The end of postfix text: one more one-digit operand and the operator applied to it. */
  lemma LastOperand(t: string, k: nat, v: real)
    requires k + 3 == |t| && IsDigit(t[k]) && t[k + 1] == ' ' && IsArithOperator(t[k + 2])
    requires t[k + 2] == '/' ==> t[k] != '0'
    ensures EvalFrom(t[k..], [v], "") == Ok(Arith(t[k + 2], v, DigitValue(t[k]) as real))
  {
    var c := DigitValue(t[k]) as real;
    DigitPushedAt(t, k, [v]);
    JoinSmall(v, c, c);
    OntoEmpty([v, c]);
    ApplyAt(t, k + 2, [], v, c);
    assert t[k + 3..] == [];
  }

  /** The postfix text `x y z q p`: `q` is applied first. */
  lemma EvalThreeRight(x: char, y: char, z: char, q: char, p: char)
    requires IsDigit(x) && IsDigit(y) && IsDigit(z) && IsArithOperator(p) && IsArithOperator(q)
    requires q == '/' ==> z != '0'
    requires p == '/' ==> Arith(q, DigitValue(y) as real, DigitValue(z) as real) != 0.0
    ensures var a, b, c := DigitValue(x) as real, DigitValue(y) as real, DigitValue(z) as real;
      EvalPostfix([x, ' ', y, ' ', z, ' ', q, ' ', p]) == Ok(Arith(p, a, Arith(q, b, c)))
  {
    var a, b, c := DigitValue(x) as real, DigitValue(y) as real, DigitValue(z) as real;
    var t := [x, ' ', y, ' ', z, ' ', q, ' ', p];
    TwoOperandsPushed(t);
    DigitPushedAt(t, 4, [a, b]);
    JoinSmall(a, b, c);
    ApplyAt(t, 6, [a], b, c);
    SpaceAt(t, 7, [a] + [Arith(q, b, c)]);
    JoinSmall(a, Arith(q, b, c), Arith(q, b, c));
    OntoEmpty([a, Arith(q, b, c)]);
    ApplyAt(t, 8, [], a, Arith(q, b, c));
    assert t[9..] == [];
  }

  /** Three one-digit operands and two operators, through validation, conversion and
      evaluation: the first operator is applied first exactly when the second does not
      outrank it. */
  lemma ProcessThree(s: string)
    requires |s| == 5 && IsDigit(s[0]) && IsArithOperator(s[1]) && IsDigit(s[2]) && IsArithOperator(s[3]) && IsDigit(s[4])
    requires s[1] == '/' ==> s[2] != '0'
    requires s[3] == '/' ==> s[4] != '0'
    ensures var x, y, z := DigitValue(s[0]) as real, DigitValue(s[2]) as real, DigitValue(s[4]) as real;
      var p, q := s[1], s[3];
      Process(s) == Ok(if Precedence(q) <= Precedence(p) then Arith(q, Arith(p, x, y), z)
                       else Arith(p, x, Arith(q, y, z)))
  {
    ValidateInputExactly(s);
    assert forall k :: 0 <= k < |s| ==> Permitted(s[k]);
    PostfixThree(s);
    if Precedence(s[3]) <= Precedence(s[1]) {
      EvalThreeLeft(s[0], s[2], s[1], s[4], s[3]);
    } else {
      EvalThreeRight(s[0], s[2], s[4], s[3], s[1]);
    }
  }

  /** `dd p d q d` converts to `dd d p d q` when `q` does not outrank `p`: a literal of two
      digits is copied as a whole. */
  lemma PostfixTwoDigitLeft(s: string)
    requires |s| == 6 && IsDigit(s[0]) && IsDigit(s[1]) && IsArithOperator(s[2]) && IsDigit(s[3])
    requires IsArithOperator(s[4]) && IsDigit(s[5]) && Precedence(s[4]) <= Precedence(s[2])
    ensures Postfix(s) == Ok([s[0], s[1], ' ', s[3], ' ', s[2], ' ', s[5], ' ', s[4]])
  {
    var x0, x1, p, y := s[0], s[1], s[2], s[3];
    assert s[0..] == s;
    LiteralAt(s, 0, "", []);
    OntoEmpty([x0]);
    LiteralAt(s, 1, [x0], []);
    assert [x0] + [x1] == [x0, x1];
    OperatorAt(s, 2, [x0, x1], []);
    assert PopNotLower(p, [x0, x1] + " ", []) == ([x0, x1] + " ", []);
    OntoEmpty([p]);
    LiteralAt(s, 3, [x0, x1] + " ", [p]);
    var u := s[1..];
    assert u[3..] == s[4..] && u[1] == p && u[3] == s[4] && u[4] == s[5];
    PostfixThreeLeft(u, [x0, x1] + " " + [y]);
    SpacedTwoDigits(x0, x1, y, p, s[5], s[4]);
  }

  /** A two-digit literal and four more characters joined by single spaces. */
  lemma SpacedTwoDigits(a: char, b: char, c: char, d: char, e: char, f: char)
    ensures [a, b] + " " + [c] + " " + [d] + " " + [e] + " " + [f] == [a, b, ' ', c, ' ', d, ' ', e, ' ', f]
  {
  }

  /** The start of postfix text: a two-digit literal followed by a space. */
  lemma TwoDigitsPushed(t: string)
    requires |t| >= 3 && IsDigit(t[0]) && IsDigit(t[1]) && t[2] == ' '
    ensures EvalPostfix(t) == EvalFrom(t[3..], [DigitsValue(t[0..2])], "")
  {
    var lit := t[0..2];
    assert AllDigits(lit) by { assert lit[0] == t[0] && lit[1] == t[1]; }
    ParseInteger(lit);
    assert t == lit + [' '] + t[3..];
    LiteralPushedAtWhitespace(lit, ' ', t[3..], []);
    OntoEmpty([DigitsValue(lit)]);
  }

  /** The postfix text `dd y p z q`: `p` is applied first, to the two-digit value. */
  lemma EvalTwoDigitLeft(x0: char, x1: char, y: char, p: char, z: char, q: char)
    requires IsDigit(x0) && IsDigit(x1) && IsDigit(y) && IsDigit(z) && IsArithOperator(p) && IsArithOperator(q)
    requires p == '/' ==> y != '0'
    requires q == '/' ==> z != '0'
    ensures var a, b, c := DigitsValue([x0, x1]), DigitValue(y) as real, DigitValue(z) as real;
      EvalPostfix([x0, x1, ' ', y, ' ', p, ' ', z, ' ', q]) == Ok(Arith(q, Arith(p, a, b), c))
  {
    var t := [x0, x1, ' ', y, ' ', p, ' ', z, ' ', q];
    var a, b := DigitsValue([x0, x1]), DigitValue(y) as real;
    assert t[0..2] == [x0, x1];
    TwoDigitsPushed(t);
    DigitPushedAt(t, 3, [a]);
    JoinSmall(a, b, b);
    OntoEmpty([a, b]);
    ApplyAt(t, 5, [], a, b);
    OntoEmpty([Arith(p, a, b)]);
    SpaceAt(t, 6, [Arith(p, a, b)]);
    LastOperand(t, 7, Arith(p, a, b));
  }

  /** `dd p d q d` through validation, conversion and evaluation, when `q` does not outrank
      `p`: the two-digit value is the first operand of `p`. */
  lemma ProcessTwoDigitLeft(s: string)
    requires |s| == 6 && IsDigit(s[0]) && IsDigit(s[1]) && IsArithOperator(s[2]) && IsDigit(s[3])
    requires IsArithOperator(s[4]) && IsDigit(s[5]) && Precedence(s[4]) <= Precedence(s[2])
    requires s[2] == '/' ==> s[3] != '0'
    requires s[4] == '/' ==> s[5] != '0'
    ensures var v, y, z := DigitsValue(s[0..2]), DigitValue(s[3]) as real, DigitValue(s[5]) as real;
      Process(s) == Ok(Arith(s[4], Arith(s[2], v, y), z))
  {
    ValidateInputExactly(s);
    assert forall k :: 0 <= k < |s| ==> Permitted(s[k]);
    PostfixTwoDigitLeft(s);
    assert s[0..2] == [s[0], s[1]];
    EvalTwoDigitLeft(s[0], s[1], s[3], s[2], s[5], s[4]);
  }

  /** Whitespace is dropped before literal characters are copied, so the digits of
      `x y p z` join into the one literal `xy`: the postfix text is `xy z p`. */
  lemma PostfixSpacedDigits(s: string)
    requires |s| == 5 && IsDigit(s[0]) && s[1] == ' ' && IsDigit(s[2]) && IsArithOperator(s[3]) && IsDigit(s[4])
    ensures Postfix(s) == Ok([s[0], s[2], ' ', s[4], ' ', s[3]])
  {
    var x0, x1, p, z := s[0], s[2], s[3], s[4];
    assert s[0..] == s;
    LiteralAt(s, 0, "", []);
    OntoEmpty([x0]);
    assert s[1..][0] == ' ' && s[1..][1..] == s[2..];
    LiteralAt(s, 2, [x0], []);
    assert [x0] + [x1] == [x0, x1];
    OperatorAt(s, 3, [x0, x1], []);
    assert PopNotLower(p, [x0, x1] + " ", []) == ([x0, x1] + " ", []);
    OntoEmpty([p]);
    LiteralAt(s, 4, [x0, x1] + " ", [p]);
    assert s[5..] == [];
    assert Flush([x0, x1] + " " + [z], [p]) == [x0, x1, ' ', z, ' ', p];
  }

  /** The postfix text `xy z p`: `p` applies to the two-digit value and `z`. */
  lemma EvalTwoDigitPair(x0: char, x1: char, z: char, p: char)
    requires IsDigit(x0) && IsDigit(x1) && IsDigit(z) && IsArithOperator(p)
    requires p == '/' ==> z != '0'
    ensures EvalPostfix([x0, x1, ' ', z, ' ', p]) == Ok(Arith(p, DigitsValue([x0, x1]), DigitValue(z) as real))
  {
    var t := [x0, x1, ' ', z, ' ', p];
    var a, b := DigitsValue([x0, x1]), DigitValue(z) as real;
    assert t[0..2] == [x0, x1];
    TwoDigitsPushed(t);
    DigitPushedAt(t, 3, [a]);
    JoinSmall(a, b, b);
    OntoEmpty([a, b]);
    ApplyAt(t, 5, [], a, b);
    OntoEmpty([Arith(p, a, b)]);
    assert t[6..] == [];
  }

  /** `x y p z` through validation, conversion and evaluation: the digits on either side
      of the space form one literal. */
  lemma ProcessSpacedDigits(s: string)
    requires |s| == 5 && IsDigit(s[0]) && s[1] == ' ' && IsDigit(s[2]) && IsArithOperator(s[3]) && IsDigit(s[4])
    requires s[3] == '/' ==> s[4] != '0'
    ensures Process(s) == Ok(Arith(s[3], DigitsValue([s[0], s[2]]), DigitValue(s[4]) as real))
  {
    ValidateInputExactly(s);
    assert forall k :: 0 <= k < |s| ==> Permitted(s[k]);
    PostfixSpacedDigits(s);
    EvalTwoDigitPair(s[0], s[2], s[4], s[3]);
  }

  /** `10-2-3` converts to `10 2 - 3 -`. */
  lemma ExamplePostfixTwoDigits()
    ensures Postfix("10-2-3") == Ok("10 2 - 3 -")
  {
    var s := "10-2-3";
    assert s[0] == '1' && s[1] == '0' && s[2] == '-' && s[3] == '2' && s[4] == '-' && s[5] == '3';
    PostfixTwoDigitLeft(s);
    assert [s[0], s[1], ' ', s[3], ' ', s[2], ' ', s[5], ' ', s[4]] == "10 2 - 3 -";
  }

  /** `10-2-3` evaluates to 5. */
  lemma ExampleLeftAssociativeTwoDigits()
    ensures Process("10-2-3") == Ok(5.0)
  {
    var s := "10-2-3";
    assert s[0] == '1' && s[1] == '0' && s[2] == '-' && s[3] == '2' && s[4] == '-' && s[5] == '3';
    ProcessTwoDigitLeft(s);
    assert DigitsValue(s[0..2]) == 10.0 by {
      DigitsValueLast(s, 0, 2);
      DigitsValueLast(s, 0, 1);
      assert s[0..0] == [];
    }
    assert DigitValue(s[3]) as real == 2.0 && DigitValue(s[5]) as real == 3.0;
    assert Arith('-', Arith('-', 10.0, 2.0), 3.0) == 5.0;
  }

  /** `-` is left associative: `9-2-3` is `(9-2)-3`. */
  lemma ExampleLeftAssociative()
    ensures Postfix("9-2-3") == Ok("9 2 - 3 -")
    ensures Process("9-2-3") == Ok(4.0)
  {
    var s := "9-2-3";
    assert s[0] == '9' && s[1] == '-' && s[2] == '2' && s[3] == '-' && s[4] == '3';
    assert DigitValue(s[0]) as real == 9.0 && DigitValue(s[2]) as real == 2.0 && DigitValue(s[4]) as real == 3.0;
    PostfixThree(s);
    ProcessThree(s);
    assert Precedence(s[3]) <= Precedence(s[1]);
    assert Arith('-', Arith('-', 9.0, 2.0), 3.0) == 4.0;
  }

  /** `*` binds tighter than `+`: `2+3*4` is `2+(3*4)`. */
  lemma ExamplePrecedence()
    ensures Postfix("2+3*4") == Ok("2 3 4 * +")
    ensures Process("2+3*4") == Ok(14.0)
  {
    var s := "2+3*4";
    assert s[0] == '2' && s[1] == '+' && s[2] == '3' && s[3] == '*' && s[4] == '4';
    assert DigitValue(s[0]) as real == 2.0 && DigitValue(s[2]) as real == 3.0 && DigitValue(s[4]) as real == 4.0;
    PostfixThree(s);
    ProcessThree(s);
    assert Precedence(s[1]) < Precedence(s[3]);
    assert Arith('+', 2.0, Arith('*', 3.0, 4.0)) == 14.0;
  }

  // ---------------------------------------------------------------------------------
  // The two stages as loops over the characters

  /** `infixToPostfix`: one pass with an output buffer and an operator stack. */
  method InfixToPostfix(expr: string) returns (r: Result<string, Error>)
    ensures r == Postfix(expr)
  {
    var output: string := "";
    var stack: seq<char> := [];
    var i := 0;
    while i < |expr|
      invariant 0 <= i <= |expr|
      invariant PostfixFrom(expr[i..], output, stack) == Postfix(expr)
    {
      var c := expr[i];
      assert expr[i..][0] == c && expr[i..][1..] == expr[i + 1..];
      if IsJavaWhitespace(c) {
      } else if IsDigit(c) || c == '.' {
        output := output + [c];
      } else if c == '(' {
        stack := stack + [c];
      } else if c == ')' {
        ghost var output0, stack0 := output, stack;
        while |stack| > 0 && Top(stack) != '('
          invariant PopToParen(output, stack) == PopToParen(output0, stack0)
          decreases |stack|
        {
          output := output + " " + [Top(stack)];
          stack := Below(stack);
        }
        if |stack| == 0 {
          return Err(EmptyStack);
        }
        stack := Below(stack);
      } else {
        output := output + " ";
        ghost var output0, stack0 := output, stack;
        while |stack| > 0 && Precedence(c) <= Precedence(Top(stack))
          invariant PopNotLower(c, output, stack) == PopNotLower(c, output0, stack0)
          decreases |stack|
        {
          output := output + [Top(stack)] + " ";
          stack := Below(stack);
        }
        stack := stack + [c];
      }
      i := i + 1;
    }
    assert expr[i..] == [];
    ghost var output0, stack0 := output, stack;
    while |stack| > 0
      invariant Flush(output, stack) == Flush(output0, stack0)
      decreases |stack|
    {
      output := output + " " + [Top(stack)];
      stack := Below(stack);
    }
    return Ok(output);
  }

  /** The operator branch of the evaluation loop: pop `b`, pop `a`, push `a c b`. */
  method ApplyOperator(c: char, stack: seq<real>) returns (r: Result<seq<real>, Error>)
    ensures r == PopApply(c, stack)
  {
    var st := stack;
    if |st| == 0 {
      return Err(EmptyStack);
    }
    var b := Top(st);
    st := Below(st);
    if |st| == 0 {
      return Err(EmptyStack);
    }
    var a := Top(st);
    st := Below(st);
    assert b == Top(stack) && a == Top(Below(stack)) && st == Below(Below(stack));
    if c == '+' {
      st := st + [a + b];
    } else if c == '-' {
      st := st + [a - b];
    } else if c == '*' {
      assert a * b == Top(Below(stack)) * Top(stack);
      st := st + [a * b];
    } else if c == '/' {
      if b == 0.0 {
        return Err(DivisionByZero);
      }
      st := st + [a / b];
    }
    return Ok(st);
  }

  /** `evaluatePostfix`: one pass with an operand stack and a literal buffer. */
  method EvaluatePostfix(p: string) returns (r: Result<real, Error>)
    ensures r == EvalPostfix(p)
  {
    var stack: seq<real> := [];
    var numBuffer: string := "";
    var i := 0;
    while i < |p|
      invariant 0 <= i <= |p|
      invariant AllLiteralChars(numBuffer)
      invariant EvalFrom(p[i..], stack, numBuffer) == EvalPostfix(p)
    {
      var c := p[i];
      assert p[i..][0] == c && p[i..][1..] == p[i + 1..];
      if IsDigit(c) {
        numBuffer := numBuffer + [c];
      } else if c == '.' {
        numBuffer := numBuffer + [c];
      } else if IsJavaWhitespace(c) {
        if |numBuffer| > 0 {
          var parsed := ParseDouble(numBuffer);
          if parsed.Err? {
            return Err(parsed.error);
          }
          stack := stack + [parsed.value];
          numBuffer := "";
        }
      } else {
        var applied := ApplyOperator(c, stack);
        if applied.Err? {
          return Err(applied.error);
        }
        stack := applied.value;
      }
      i := i + 1;
    }
    assert p[i..] == [];
    if |stack| == 0 {
      return Err(EmptyStack);
    }
    return Ok(Top(stack));
  }
}
