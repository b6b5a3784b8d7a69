/** A recursive reference semantics for fully parenthesised arithmetic with integer literals,
    against which both stack evaluators are compared. */
module Reference {
  import opened Chars
  import opened Results

  datatype Op = Add | Sub | Mul | Div

  datatype Expr = Lit(digits: string) | Bin(op: Op, left: Expr, right: Expr)

  /** Every literal is a non-empty run of digits. */
  predicate WellFormed(e: Expr) {
    match e
    case Lit(ds) => |ds| > 0 && AllDigits(ds)
    case Bin(_, l, r) => WellFormed(l) && WellFormed(r)
  }

  datatype Fault = DivideByZero

  function Apply(op: Op, a: real, b: real): Result<real, Fault> {
    match op
    case Add => Ok(a + b)
    case Sub => Ok(a - b)
    case Mul => Ok(a * b)
    case Div => if b == 0.0 then Err(DivideByZero) else Ok(a / b)
  }

  /** Left operand first, then right operand, then the operator. */
  function Eval(e: Expr): Result<real, Fault> {
    match e
    case Lit(ds) => Ok(DigitsValue(ds))
    case Bin(op, l, r) =>
      match Eval(l)
      case Err(f) => Err(f)
      case Ok(a) =>
        match Eval(r)
        case Err(f) => Err(f)
        case Ok(b) => Apply(op, a, b)
  }

  function Symbol(op: Op): char {
    match op
    case Add => '+'
    case Sub => '-'
    case Mul => '*'
    case Div => '/'
  }

  /** The expression as infix text, every binary operation in its own parentheses. */
  function Show(e: Expr): string {
    match e
    case Lit(ds) => ds
    case Bin(op, l, r) => "(" + Show(l) + [Symbol(op)] + Show(r) + ")"
  }
}
