/** The parser against the grammar it implements: it undoes printing with no more parentheses than precedence asks for. */
module FormulaGrammar {
  import opened Common
  import opened Formula

  /** Trees of the grammar: binary operators between operands, prefix operators before one. */
  predicate InGrammar(e: Expr) {
    match e
    case Const(_) => true
    case Var(_) => true
    case Binary(op, l, r) => !op.Tilde? && InGrammar(l) && InGrammar(r)
    case Unary(op, operand) => (op.Plus? || op.Minus? || op.Tilde?) && InGrammar(operand)
  }

  /** How tightly a tree binds: sums 0, products 1, prefixes 2, powers 3, operands 4. */
  function Level(e: Expr): nat {
    match e
    case Const(_) => 4
    case Var(_) => 4
    case Unary(_, _) => 2
    case Binary(op, _, _) =>
      match op
      case Plus => 0
      case Minus => 0
      case Power => 3
      case _ => 1
  }

  function Show(e: Expr, level: nat): seq<Token>
    decreases e, 1
  {
    if Level(e) >= level then Bare(e) else [Open] + Bare(e) + [Close]
  }

  /** Sums and products group to the left; a power groups to the right and binds tighter than a prefix on its left only. */
  function Bare(e: Expr): (r: seq<Token>)
    ensures r != []
    decreases e, 0
  {
    match e
    case Const(v) => [Number(v)]
    case Var(x) => [Name(x)]
    case Unary(op, operand) => [Sign(op)] + Show(operand, 2)
    case Binary(op, l, r) =>
      if Level(e) == 0 then Show(l, 0) + ([Sign(op)] + Show(r, 1))
      else if Level(e) == 1 then Show(l, 1) + ([Sign(op)] + Show(r, 2))
      else Show(l, 4) + ([Sign(op)] + Show(r, 2))
  }

  lemma {:induction false} SumBack(e: Expr, rest: seq<Token>)
    requires InGrammar(e) && !Starts(rest, IsProduct) && !Starts(rest, IsPower)
    ensures ParseSum(Show(e, 0) + rest) == MoreSum(e, rest)
    decreases e, 3
  {
    if Level(e) > 0 {
      ProductBack(e, rest);
    } else {
      var tail := Show(e.right, 1) + rest;
      SumBack(e.left, [Sign(e.op)] + tail);
      ProductBack(e.right, rest);
      assert Show(e, 0) + rest == Show(e.left, 0) + ([Sign(e.op)] + tail);
      assert ([Sign(e.op)] + tail)[1..] == tail;
    }
  }

  lemma {:induction false} ProductBack(e: Expr, rest: seq<Token>)
    requires InGrammar(e) && !Starts(rest, IsPower)
    ensures ParseProduct(Show(e, 1) + rest) == MoreProduct(e, rest)
    decreases e, if Level(e) >= 1 then 2 else 7
  {
    if Level(e) != 1 {
      SignedBack(e, rest);
    } else {
      var tail := Show(e.right, 2) + rest;
      ProductBack(e.left, [Sign(e.op)] + tail);
      SignedBack(e.right, rest);
      assert Show(e, 1) + rest == Show(e.left, 1) + ([Sign(e.op)] + tail);
      assert ([Sign(e.op)] + tail)[1..] == tail;
    }
  }

  lemma {:induction false} SignedBack(e: Expr, rest: seq<Token>)
    requires InGrammar(e) && !Starts(rest, IsPower)
    ensures ParseSigned(Show(e, 2) + rest) == Parsed(e, rest)
    decreases e, if Level(e) >= 2 then 1 else 6
  {
    if e.Unary? {
      SignedBack(e.operand, rest);
      assert (Show(e, 2) + rest)[1..] == Show(e.operand, 2) + rest;
    } else if Level(e) == 3 {
      PowerBack(e, rest);
    } else {
      AtomBack(e, rest);
      assert Show(e, 2) == Show(e, 4);
      assert ParsePower(Show(e, 4) + rest) == MorePower(e, rest);
    }
  }

  lemma {:induction false} PowerBack(e: Expr, rest: seq<Token>)
    requires InGrammar(e) && Level(e) == 3 && !Starts(rest, IsPower)
    ensures ParseSigned(Show(e, 2) + rest) == Parsed(e, rest)
    decreases e, 0
  {
    var tail := Show(e.right, 2) + rest;
    var ts := Show(e.left, 4) + ([Sign(Power)] + tail);
    assert e.op == Power && Show(e, 2) + rest == ts;
    AtomBack(e.left, [Sign(Power)] + tail);
    assert ParseSigned(ts) == MorePower(e.left, [Sign(Power)] + tail);
    SignedBack(e.right, rest);
    assert ([Sign(Power)] + tail)[1..] == tail;
  }

  lemma {:induction false} AtomBack(e: Expr, rest: seq<Token>)
    requires InGrammar(e)
    ensures ParseAtom(Show(e, 4) + rest) == Parsed(e, rest) && !Starts(Show(e, 4) + rest, IsPrefix)
    decreases e, if Level(e) == 4 then 0 else 5
  {
    var ts := Show(e, 4) + rest;
    if Level(e) < 4 {
      var tail := [Close] + rest;
      assert ts[0] == Open && ts[1..] == Show(e, 0) + tail;
      SumBack(e, tail);
      assert ParseSum(ts[1..]) == Parsed(e, tail);
      assert tail[1..] == rest;
    } else {
      assert |Show(e, 4)| == 1 by {
        assert e.Const? || e.Var?;
        assert Show(e, 4) == Bare(e);
      }
      assert ts[1..] == rest;
    }
  }

  /** Parsing undoes printing, for every tree of the grammar. */
  lemma ParseShow(e: Expr)
    requires InGrammar(e)
    ensures Parse(Show(e, 0)) == Some(e)
  {
    SumBack(e, []);
    assert Show(e, 0) + [] == Show(e, 0);
  }

  /** So replacing numbers in a printed tree evaluates the tree itself. */
  lemma ShownTreeKeepsItsValue(ar: Arithmetic, e: Expr, env: Env)
    requires InGrammar(e)
    ensures Meaning(ar, Substituted(Show(e, 0), env), map[]) == Walk(ar, e, env)
  {
    ParseShow(e);
    ResultIsMeaningIff(ar, Show(e, 0), env);
  }

  /** The exceptional case exists: two operands side by side mean nothing, but are subtracted once the second prints negative. */
  lemma GapIsSubtracted(ar: Arithmetic, a: real, x: string, v: real)
    requires v > 0.0
    ensures Meaning(ar, [Number(a), Name(x)], map[x := -v]) == Err(SyntaxError)
    ensures Meaning(ar, Substituted([Number(a), Name(x)], map[x := -v]), map[]) ==
              if ar.sub(a, v).Some? then Ok(ar.sub(a, v).value) else Err(ArithmeticFails)
  {
    var ts, env := [Number(a), Name(x)], map[x := -v];
    assert EndsOperand(ts[0]) && PrintsNegative(ts[1], env);
    AsWrittenIff(ts, env, false);
    if Parse(ts).Some? {
      ParsedIsReadAsWritten(ts, env);
    }
    var difference := Binary(Minus, Const(a), Const(v));
    ParseShow(difference);
    assert Show(Const(a), 0) == [Number(a)] && Show(Const(v), 1) == [Number(v)];
    assert ts[1..] == [Name(x)] && [Name(x)][1..] == [];
    assert Substituted([Name(x)], env) == [Sign(Minus), Number(v)];
    assert Substituted(ts, env) == Show(difference, 0);
    assert Walk(ar, Const(a), map[]) == Ok(a) && Walk(ar, Const(v), map[]) == Ok(v);
  }
}
