/** What the values of formulas are: the printed text of any tree, its names replaced by numbers, evaluated under exact
    arithmetic. */
module FormulaLaws {
  import opened Common
  import opened Formula
  import opened FormulaGrammar

  /** These two numbers are added, subtracted, multiplied and divided without rounding, and only dividing by zero fails. */
  predicate ExactAt(ar: Arithmetic, x: real, y: real) {
    && ar.add(x, y) == Some(x + y)
    && ar.sub(x, y) == Some(x - y)
    && ar.mul(x, y).Some? && ar.mul(x, y).value == x * y
    && (if y == 0.0 then ar.div(x, y).None? else ar.div(x, y).Some? && ar.div(x, y).value * y == x)
  }

  ghost predicate IsExact(ar: Arithmetic) {
    forall x, y :: ExactAt(ar, x, y)
  }

  function RealArithmetic(): Arithmetic {
    Arithmetic((x: real, y: real) => Some(x + y), (x: real, y: real) => Some(x - y), (x: real, y: real) => Some(x * y),
               (x: real, y: real) => if y == 0.0 then None else Some(x / y))
  }

  lemma RealsAreExact()
    ensures IsExact(RealArithmetic())
  {
    forall x, y ensures ExactAt(RealArithmetic(), x, y) {
    }
  }

  /** What the program makes of the printed tree. */
  function Value(ar: Arithmetic, e: Expr, env: Env): Result<real, Error> {
    Meaning(ar, Substituted(Show(e, 0), env), map[])
  }

  lemma ValueIsWalk(ar: Arithmetic, e: Expr, env: Env)
    requires InGrammar(e)
    ensures Value(ar, e, env) == Walk(ar, e, env)
  {
    ShownTreeKeepsItsValue(ar, e, env);
  }

  lemma ValuesAreWalks(ar: Arithmetic, env: Env)
    ensures forall e :: InGrammar(e) ==> Value(ar, e, env) == Walk(ar, e, env)
  {
    forall e | InGrammar(e) ensures Value(ar, e, env) == Walk(ar, e, env) {
      ValueIsWalk(ar, e, env);
    }
  }

  // ---- Operands and failures, in any arithmetic ----

  /** A literal is worth itself and a name the number it stands for; an unknown name fails. */
  lemma OperandsAreTheirNumbers(ar: Arithmetic, v: real, x: string, env: Env)
    ensures Value(ar, Const(v), env) == Ok(v)
    ensures Value(ar, Var(x), env) == if x in env then Ok(env[x]) else Err(UnsafeNode)
  {
    ValuesAreWalks(ar, env);
  }

  /** The left operand fails first, then the right one, then the operator: only the four basic ones are supported. Of the prefixes
      only minus is, and it fails only with its operand. */
  lemma FailuresComeInOrder(ar: Arithmetic, op: Op, l: Expr, r: Expr, env: Env)
    requires InGrammar(Binary(op, l, r))
    ensures var whole, left, right := Value(ar, Binary(op, l, r), env), Value(ar, l, env), Value(ar, r, env);
            && (left.Err? ==> whole == left)
            && (left.Ok? && right.Err? ==> whole == right)
            && (left.Ok? && right.Ok? ==>
                  (whole == Err(UnsupportedOperator) <==> op.FloorDivide? || op.Modulo? || op.MatMul? || op.Power?))
    ensures Value(ar, Unary(Op.Plus, l), env) == Value(ar, Unary(Tilde, l), env) == Err(UnsafeNode)
    ensures Value(ar, Unary(Minus, l), env).Ok? <==> Value(ar, l, env).Ok?
  {
    ValuesAreWalks(ar, env);
  }

  // ---- Laws of exact arithmetic ----

  function Answer(r: Option<real>): Result<real, Error> {
    if r.Some? then Ok(r.value) else Err(ArithmeticFails)
  }

  /** One operator on two operands that have values. */
  lemma OneOperator(ar: Arithmetic, l: Expr, r: Expr, env: Env, x: real, y: real)
    requires Walk(ar, l, env) == Ok(x) && Walk(ar, r, env) == Ok(y)
    ensures Walk(ar, Binary(Op.Plus, l, r), env) == Answer(ar.add(x, y))
    ensures Walk(ar, Binary(Minus, l, r), env) == Answer(ar.sub(x, y))
    ensures Walk(ar, Binary(Times, l, r), env) == Answer(ar.mul(x, y))
    ensures Walk(ar, Binary(Divide, l, r), env) == Answer(ar.div(x, y))
  {
  }

  lemma ExactSums(ar: Arithmetic, x: real, y: real)
    requires IsExact(ar)
    ensures ar.sub(x, y) == Some(x - y) && ar.add(x - y, y) == Some(x) && ar.add(-x, x) == Some(0.0)
  {
    assert ExactAt(ar, x, y) && ExactAt(ar, x - y, y) && ExactAt(ar, -x, x);
  }

  /** Adding undoes subtracting. */
  lemma AddingUndoesSubtracting(ar: Arithmetic, l: Expr, r: Expr, env: Env)
    requires IsExact(ar) && InGrammar(l) && InGrammar(r) && Value(ar, l, env).Ok? && Value(ar, r, env).Ok?
    ensures Value(ar, Binary(Op.Plus, Binary(Minus, l, r), r), env) == Value(ar, l, env)
  {
    ValueIsWalk(ar, l, env);
    ValueIsWalk(ar, r, env);
    ValueIsWalk(ar, Binary(Op.Plus, Binary(Minus, l, r), r), env);
    var x, y := Walk(ar, l, env).value, Walk(ar, r, env).value;
    ExactSums(ar, x, y);
    OneOperator(ar, l, r, env, x, y);
    OneOperator(ar, Binary(Minus, l, r), r, env, x - y, y);
  }

  /** A formula added to its negative is nothing. */
  lemma NegativeCancels(ar: Arithmetic, l: Expr, env: Env)
    requires IsExact(ar) && InGrammar(l) && Value(ar, l, env).Ok?
    ensures Value(ar, Binary(Op.Plus, Unary(Minus, l), l), env) == Ok(0.0)
  {
    ValueIsWalk(ar, l, env);
    ValueIsWalk(ar, Binary(Op.Plus, Unary(Minus, l), l), env);
    var x := Walk(ar, l, env).value;
    ExactSums(ar, x, 0.0);
    OneOperator(ar, Unary(Minus, l), l, env, -x, x);
  }

  /** Multiplying undoes dividing by anything but zero. */
  lemma MultiplyingUndoesDividing(ar: Arithmetic, l: Expr, r: Expr, env: Env)
    requires IsExact(ar) && InGrammar(l) && InGrammar(r) && Value(ar, l, env).Ok? && Value(ar, r, env).Ok?
    ensures Value(ar, Binary(Times, Binary(Divide, l, r), r), env) ==
              if Value(ar, r, env).value == 0.0 then Err(ArithmeticFails) else Value(ar, l, env)
  {
    ValueIsWalk(ar, l, env);
    ValueIsWalk(ar, r, env);
    ValueIsWalk(ar, Binary(Times, Binary(Divide, l, r), r), env);
    var x, y := Walk(ar, l, env).value, Walk(ar, r, env).value;
    OneOperator(ar, l, r, env, x, y);
    ExactQuotient(ar, x, y);
    if y != 0.0 {
      OneOperator(ar, Binary(Divide, l, r), r, env, ar.div(x, y).value, y);
    }
  }

  lemma ExactQuotient(ar: Arithmetic, x: real, y: real)
    requires IsExact(ar)
    ensures if y == 0.0 then ar.div(x, y).None? else ar.div(x, y).Some? && ar.mul(ar.div(x, y).value, y) == Some(x)
  {
    assert ExactAt(ar, x, y);
    if y != 0.0 {
      var q := ar.div(x, y).value;
      assert q * y == x;
      assert ExactAt(ar, q, y);
      assert ar.mul(q, y).value == q * y;
    }
  }

  /** Adding a formula to itself doubles it. */
  lemma AddedToItselfIsDoubled(ar: Arithmetic, l: Expr, env: Env)
    requires IsExact(ar) && InGrammar(l)
    ensures Value(ar, Binary(Op.Plus, l, l), env) == Value(ar, Binary(Times, Const(2.0), l), env)
  {
    ValueIsWalk(ar, Binary(Op.Plus, l, l), env);
    ValueIsWalk(ar, Binary(Times, Const(2.0), l), env);
    var v := Walk(ar, l, env);
    if v.Ok? {
      OneOperator(ar, l, l, env, v.value, v.value);
      OneOperator(ar, Const(2.0), l, env, 2.0, v.value);
      assert ar.add(v.value, v.value) == ar.mul(2.0, v.value) by {
        assert ExactAt(ar, v.value, v.value) && ExactAt(ar, 2.0, v.value);
      }
    }
  }

  // ---- Formulas are fractions ----

  /** Numerator over denominator. */
  datatype Fraction = Fraction(num: real, den: real)

  /** Only the supported operators, and only names that stand for numbers. */
  predicate Supported(e: Expr, env: Env) {
    match e
    case Const(_) => true
    case Var(x) => x in env
    case Binary(op, l, r) => (op.Plus? || op.Minus? || op.Times? || op.Divide?) && Supported(l, env) && Supported(r, env)
    case Unary(op, operand) => op.Minus? && Supported(operand, env)
  }

  /** The fraction a formula stands for, by the rules for fractions; it never divides, and once a denominator is zero it stays
      so. */
  function AsFraction(e: Expr, env: Env): Fraction
    requires Supported(e, env)
  {
    match e
    case Const(v) => Fraction(v, 1.0)
    case Var(x) => Fraction(env[x], 1.0)
    case Unary(_, operand) => var f := AsFraction(operand, env); Fraction(0.0 - f.num, f.den)
    case Binary(op, l, r) => Combined(op, AsFraction(l, env), AsFraction(r, env))
  }

  function Combined(op: Op, f: Fraction, g: Fraction): Fraction {
    match op
    case Plus => Fraction(f.num * g.den + g.num * f.den, f.den * g.den)
    case Minus => Fraction(f.num * g.den - g.num * f.den, f.den * g.den)
    case Times => Fraction(f.num * g.num, f.den * g.den)
    case _ => Fraction(f.num * (g.den * g.den), f.den * (g.num * g.den))
  }

  /** The outcome is what the fraction says: a failure if its denominator is zero, and otherwise its quotient. */
  predicate IsFraction(v: Result<real, Error>, f: Fraction) {
    if f.den == 0.0 then v == Err(ArithmeticFails) else v.Ok? && v.value * f.den == f.num
  }

  lemma ProductIsZeroIff(x: real, y: real)
    ensures x * y == 0.0 <==> x == 0.0 || y == 0.0
  {
  }

  lemma Swap(a: real, b: real, c: real, d: real)
    ensures (a * b) * (c * d) == (a * c) * (b * d)
  {
    assert (a * b) * (c * d) == ((a * b) * c) * d;
    assert (a * b) * c == (a * c) * b;
    assert ((a * c) * b) * d == (a * c) * (b * d);
  }

  lemma SumIsFraction(x: real, f: Fraction, y: real, g: Fraction)
    requires f.den != 0.0 && g.den != 0.0 && x * f.den == f.num && y * g.den == g.num
    ensures IsFraction(Ok(x + y), Combined(Op.Plus, f, g))
    ensures IsFraction(Ok(x - y), Combined(Minus, f, g))
  {
    ProductIsZeroIff(f.den, g.den);
    var d := f.den * g.den;
    assert x * d == f.num * g.den;
    assert y * d == g.num * f.den;
    assert (x + y) * d == x * d + y * d;
    assert (x - y) * d == x * d - y * d;
  }

  lemma ProductIsFraction(p: real, x: real, f: Fraction, y: real, g: Fraction)
    requires f.den != 0.0 && g.den != 0.0 && x * f.den == f.num && y * g.den == g.num
    requires p == x * y
    ensures IsFraction(Ok(p), Combined(Times, f, g))
  {
    ProductIsZeroIff(f.den, g.den);
    Swap(x, y, f.den, g.den);
  }

  lemma QuotientIsFraction(q: real, x: real, f: Fraction, y: real, g: Fraction)
    requires f.den != 0.0 && g.den != 0.0 && x * f.den == f.num && y * g.den == g.num
    requires y != 0.0 ==> q * y == x
    ensures IsFraction(if y == 0.0 then Err(ArithmeticFails) else Ok(q), Combined(Divide, f, g))
  {
    ProductIsZeroIff(y, g.den);
    ProductIsZeroIff(g.num, g.den);
    ProductIsZeroIff(f.den, g.num * g.den);
    if y != 0.0 {
      assert g.num * g.den == y * (g.den * g.den);
      QuotientRegroups(q, f.den, y, g.den * g.den);
    }
  }

  lemma QuotientRegroups(q: real, d: real, y: real, e: real)
    ensures q * (d * (y * e)) == ((q * y) * d) * e
  {
    assert d * (y * e) == y * (d * e);
    assert q * (y * (d * e)) == (q * y) * (d * e);
  }

  lemma ZeroDenominator(op: Op, f: Fraction, g: Fraction)
    requires f.den == 0.0 || g.den == 0.0
    ensures Combined(op, f, g).den == 0.0
  {
    ProductIsZeroIff(f.den, g.den);
    ProductIsZeroIff(g.num, g.den);
    ProductIsZeroIff(f.den, g.num * g.den);
  }

  /** In exact arithmetic every operator does what it does to fractions. */
  lemma AnswerIsFraction(ar: Arithmetic, x: real, f: Fraction, y: real, g: Fraction)
    requires IsExact(ar) && f.den != 0.0 && g.den != 0.0 && IsFraction(Ok(x), f) && IsFraction(Ok(y), g)
    ensures IsFraction(Answer(ar.add(x, y)), Combined(Op.Plus, f, g))
    ensures IsFraction(Answer(ar.sub(x, y)), Combined(Minus, f, g))
    ensures IsFraction(Answer(ar.mul(x, y)), Combined(Times, f, g))
    ensures IsFraction(Answer(ar.div(x, y)), Combined(Divide, f, g))
  {
    assert ExactAt(ar, x, y);
    SumIsFraction(x, f, y, g);
    ProductIsFraction(ar.mul(x, y).value, x, f, y, g);
    QuotientIsFraction(if y == 0.0 then 0.0 else ar.div(x, y).value, x, f, y, g);
  }

  lemma BinaryIsFraction(ar: Arithmetic, op: Op, l: Expr, r: Expr, env: Env, f: Fraction, g: Fraction)
    requires IsExact(ar) && (op.Plus? || op.Minus? || op.Times? || op.Divide?)
    requires IsFraction(Walk(ar, l, env), f) && IsFraction(Walk(ar, r, env), g)
    ensures IsFraction(Walk(ar, Binary(op, l, r), env), Combined(op, f, g))
  {
    if f.den == 0.0 || g.den == 0.0 {
      ZeroDenominator(op, f, g);
    } else {
      var x, y := Walk(ar, l, env).value, Walk(ar, r, env).value;
      OneOperator(ar, l, r, env, x, y);
      AnswerIsFraction(ar, x, f, y, g);
    }
  }

  lemma NegativeIsFraction(v: Result<real, Error>, f: Fraction)
    requires IsFraction(v, f)
    ensures IsFraction(if v.Err? then v else Ok(-v.value), Fraction(0.0 - f.num, f.den))
  {
    if v.Ok? {
      assert (-v.value) * f.den == 0.0 - v.value * f.den;
    }
  }

  lemma {:induction false} WalkIsFraction(ar: Arithmetic, e: Expr, env: Env)
    requires IsExact(ar) && Supported(e, env)
    ensures InGrammar(e) && IsFraction(Walk(ar, e, env), AsFraction(e, env))
  {
    match e {
      case Const(_) =>
      case Var(_) =>
      case Unary(_, operand) =>
        WalkIsFraction(ar, operand, env);
        NegativeIsFraction(Walk(ar, operand, env), AsFraction(operand, env));
      case Binary(op, l, r) =>
        WalkIsFraction(ar, l, env);
        WalkIsFraction(ar, r, env);
        BinaryIsFraction(ar, op, l, r, env, AsFraction(l, env), AsFraction(r, env));
    }
  }

  /** A printed formula of supported operators is worth the fraction it stands for. It fails only by dividing by zero, and does so
      exactly when the denominator of its fraction is zero. */
  lemma FormulasAreFractions(ar: Arithmetic, e: Expr, env: Env)
    requires IsExact(ar) && Supported(e, env)
    ensures IsFraction(Value(ar, e, env), AsFraction(e, env))
  {
    WalkIsFraction(ar, e, env);
    ValueIsWalk(ar, e, env);
  }

  /** One name divided by another. */
  lemma NamesDivided(ar: Arithmetic, a: string, b: string, env: Env)
    requires IsExact(ar) && a in env && b in env && env[b] != 0.0
    ensures var e := Binary(Divide, Var(a), Var(b));
            && InGrammar(e) && Show(e, 0) == [Name(a), Sign(Divide), Name(b)]
            && Value(ar, e, env).Ok? && Value(ar, e, env).value * env[b] == env[a]
  {
    var e := Binary(Divide, Var(a), Var(b));
    assert Show(Var(a), 1) == [Name(a)] && Show(Var(b), 2) == [Name(b)];
    ValueIsWalk(ar, e, env);
    OneOperator(ar, Var(a), Var(b), env, env[a], env[b]);
    assert ExactAt(ar, env[a], env[b]);
  }
}
