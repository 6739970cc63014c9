/** Qualification formulas: variables are replaced in the text by printed numbers, the text is parsed, the tree is walked. */
module Formula {
  import opened Common

  datatype Op = Plus | Minus | Times | Divide | FloorDivide | Modulo | MatMul | Power | Tilde

  datatype Token = Number(value: real) | Name(name: string) | Sign(op: Op) | Open | Close

  datatype Expr = Const(value: real) | Var(name: string) | Binary(op: Op, left: Expr, right: Expr) | Unary(op: Op, operand: Expr)

  datatype Error = SyntaxError | UnsupportedOperator | UnsafeNode | ArithmeticFails

  /** The machine's arithmetic: nothing is assumed of it, and any operation may raise. */
  datatype Arithmetic = Arithmetic(
    add: (real, real) -> Option<real>,
    sub: (real, real) -> Option<real>,
    mul: (real, real) -> Option<real>,
    div: (real, real) -> Option<real>)

  type Env = map<string, real>

  // ---- The walker ----

  function Operate(ar: Arithmetic, op: Op, x: real, y: real): Result<real, Error> {
    if !(op.Plus? || op.Minus? || op.Times? || op.Divide?) then Err(UnsupportedOperator)
    else
      var r := match op
        case Plus => ar.add(x, y)
        case Minus => ar.sub(x, y)
        case Times => ar.mul(x, y)
        case _ => ar.div(x, y);
      if r.Some? then Ok(r.value) else Err(ArithmeticFails)
  }

  /** The value of a tree when names stand for these numbers. The program walks trees with no names left: the empty
      environment. */
  function Walk(ar: Arithmetic, e: Expr, env: Env): Result<real, Error> {
    match e
    case Const(v) => Ok(v)
    case Var(x) => if x in env then Ok(env[x]) else Err(UnsafeNode)
    case Binary(op, l, r) =>
      var left := Walk(ar, l, env);
      if left.Err? then left
      else
        var right := Walk(ar, r, env);
        if right.Err? then right else Operate(ar, op, left.value, right.value)
    case Unary(op, operand) =>
      if !op.Minus? then Err(UnsafeNode)
      else
        var v := Walk(ar, operand, env);
        if v.Err? then v else Ok(-v.value)
  }

  // ---- The parser: sums of products of signed powers ----

  datatype Parsed = Fail | Parsed(expr: Expr, rest: seq<Token>)

  predicate IsSum(t: Token) {
    t.Sign? && (t.op.Plus? || t.op.Minus?)
  }

  predicate IsProduct(t: Token) {
    t.Sign? && (t.op.Times? || t.op.Divide? || t.op.FloorDivide? || t.op.Modulo? || t.op.MatMul?)
  }

  predicate IsPrefix(t: Token) {
    t.Sign? && (t.op.Plus? || t.op.Minus? || t.op.Tilde?)
  }

  predicate IsPower(t: Token) {
    t.Sign? && t.op.Power?
  }

  predicate Starts(ts: seq<Token>, kind: Token -> bool) {
    ts != [] && kind(ts[0])
  }

  function ParseSum(ts: seq<Token>): (p: Parsed)
    ensures p.Parsed? ==> |p.rest| < |ts|
    decreases |ts|, 5
  {
    var p := ParseProduct(ts);
    if p.Fail? then Fail else MoreSum(p.expr, p.rest)
  }

  function MoreSum(left: Expr, ts: seq<Token>): (p: Parsed)
    ensures p.Parsed? ==> |p.rest| <= |ts|
    decreases |ts|, 6
  {
    if !Starts(ts, IsSum) then Parsed(left, ts)
    else
      var p := ParseProduct(ts[1..]);
      if p.Fail? then Fail else MoreSum(Binary(ts[0].op, left, p.expr), p.rest)
  }

  function ParseProduct(ts: seq<Token>): (p: Parsed)
    ensures p.Parsed? ==> |p.rest| < |ts|
    decreases |ts|, 4
  {
    var p := ParseSigned(ts);
    if p.Fail? then Fail else MoreProduct(p.expr, p.rest)
  }

  function MoreProduct(left: Expr, ts: seq<Token>): (p: Parsed)
    ensures p.Parsed? ==> |p.rest| <= |ts|
    decreases |ts|, 5
  {
    if !Starts(ts, IsProduct) then Parsed(left, ts)
    else
      var p := ParseSigned(ts[1..]);
      if p.Fail? then Fail else MoreProduct(Binary(ts[0].op, left, p.expr), p.rest)
  }

  function ParseSigned(ts: seq<Token>): (p: Parsed)
    ensures p.Parsed? ==> |p.rest| < |ts|
    decreases |ts|, 3
  {
    if Starts(ts, IsPrefix) then
      var p := ParseSigned(ts[1..]);
      if p.Fail? then Fail else Parsed(Unary(ts[0].op, p.expr), p.rest)
    else ParsePower(ts)
  }

  function ParsePower(ts: seq<Token>): (p: Parsed)
    ensures p.Parsed? ==> |p.rest| < |ts|
    decreases |ts|, 2
  {
    var p := ParseAtom(ts);
    if p.Fail? then Fail else MorePower(p.expr, p.rest)
  }

  function MorePower(base: Expr, ts: seq<Token>): (p: Parsed)
    ensures p.Parsed? ==> |p.rest| <= |ts|
    decreases |ts|, 4
  {
    if !Starts(ts, IsPower) then Parsed(base, ts)
    else
      var p := ParseSigned(ts[1..]);
      if p.Fail? then Fail else Parsed(Binary(Power, base, p.expr), p.rest)
  }

  function ParseAtom(ts: seq<Token>): (p: Parsed)
    ensures p.Parsed? ==> |p.rest| < |ts|
    decreases |ts|, 1
  {
    if ts == [] then Fail
    else
      match ts[0]
      case Number(v) => Parsed(Const(v), ts[1..])
      case Name(x) => Parsed(Var(x), ts[1..])
      case Open =>
        var p := ParseSum(ts[1..]);
        if p.Fail? || p.rest == [] || !p.rest[0].Close? then Fail else Parsed(p.expr, p.rest[1..])
      case _ => Fail
  }

  function Parse(ts: seq<Token>): Option<Expr> {
    var p := ParseSum(ts);
    if p.Parsed? && p.rest == [] then Some(p.expr) else None
  }

  /** What a formula means: parse the text as written, then evaluate it where names stand for the team's numbers. */
  function Meaning(ar: Arithmetic, ts: seq<Token>, env: Env): Result<real, Error> {
    var e := Parse(ts);
    if e.None? then Err(SyntaxError) else Walk(ar, e.value, env)
  }

  // ---- Replacing names by numbers ----

  /** How a number is printed: a negative one as a minus and a literal. */
  function Printed(v: real): seq<Token> {
    if v < 0.0 then [Sign(Minus), Number(-v)] else [Number(v)]
  }

  function Image(t: Token, env: Env): (r: seq<Token>)
    ensures r != []
  {
    if t.Name? && t.name in env then Printed(env[t.name]) else [t]
  }

  /** Every name of the environment replaced at once. */
  function Substituted(ts: seq<Token>, env: Env): seq<Token> {
    if ts == [] then [] else Image(ts[0], env) + Substituted(ts[1..], env)
  }

  predicate PrintsNegative(t: Token, env: Env) {
    t.Name? && t.name in env && env[t.name] < 0.0
  }

  predicate EndsOperand(t: Token) {
    t.Number? || t.Name? || t.Close?
  }

  /** The formula the parser really sees. A minus printed right behind an operand is read as a subtraction, so there the text
      has two tokens, minus and literal, where a name was written; every other name still stands for one operand. */
  function AsRead(ts: seq<Token>, env: Env, afterOperand: bool): seq<Token> {
    if ts == [] then []
    else
      (if afterOperand && PrintsNegative(ts[0], env) then Image(ts[0], env) else [ts[0]]) + AsRead(ts[1..], env, EndsOperand(ts[0]))
  }

  // ---- Parsing the replaced text is parsing the formula as read ----

  ghost predicate SameValue(ar: Arithmetic, env: Env, e: Expr, e': Expr) {
    Walk(ar, e, env) == Walk(ar, e', map[])
  }

  /** Two outcomes of parsing agree: both fail, or the trees have the same value or failure and the rests come from the same r. */
  ghost predicate Agree(ar: Arithmetic, env: Env, p: Parsed, p': Parsed, r: seq<Token>) {
    if p.Fail? then p'.Fail?
    else p'.Parsed? && p.rest == AsRead(r, env, true) && p'.rest == Substituted(r, env) && SameValue(ar, env, p.expr, p'.expr)
  }

  lemma Heads(ts: seq<Token>, env: Env, c: bool)
    requires ts != [] && !PrintsNegative(ts[0], env)
    ensures AsRead(ts, env, c) == [ts[0]] + AsRead(ts[1..], env, EndsOperand(ts[0]))
    ensures Substituted(ts, env) == Image(ts[0], env) + Substituted(ts[1..], env) && |Image(ts[0], env)| == 1
    ensures !ts[0].Name? ==> Image(ts[0], env) == [ts[0]]
  {
  }

  lemma NegativeHeads(ts: seq<Token>, env: Env)
    requires ts != [] && PrintsNegative(ts[0], env)
    ensures var v := -env[ts[0].name];
            && AsRead(ts, env, true) == [Sign(Minus), Number(v)] + AsRead(ts[1..], env, true)
            && AsRead(ts, env, false) == [ts[0]] + AsRead(ts[1..], env, true)
            && Substituted(ts, env) == [Sign(Minus), Number(v)] + Substituted(ts[1..], env)
  {
  }

  lemma SumAgrees(ar: Arithmetic, ts: seq<Token>, env: Env) returns (r: seq<Token>)
    ensures Agree(ar, env, ParseSum(AsRead(ts, env, false)), ParseSum(Substituted(ts, env)), r)
    decreases |Substituted(ts, env)|, 5
  {
    r := ProductAgrees(ar, ts, env);
    var p, p' := ParseProduct(AsRead(ts, env, false)), ParseProduct(Substituted(ts, env));
    if p.Parsed? {
      r := MoreSumAgrees(ar, r, env, p.expr, p'.expr);
    }
  }

  lemma MoreSumAgrees(ar: Arithmetic, ts: seq<Token>, env: Env, left: Expr, left': Expr) returns (r: seq<Token>)
    requires SameValue(ar, env, left, left')
    ensures Agree(ar, env, MoreSum(left, AsRead(ts, env, true)), MoreSum(left', Substituted(ts, env)), r)
    decreases |Substituted(ts, env)|, 6
  {
    r := ts;
    if ts != [] && PrintsNegative(ts[0], env) {
      var us := PrintedMinus(ts, env);
      r := MoreSumStep(ar, us, env, Minus, left, left');
    } else if ts != [] {
      Heads(ts, env, true);
      if IsSum(ts[0]) {
        assert AsRead(ts, env, true) == [Sign(ts[0].op)] + AsRead(ts[1..], env, false);
        assert Substituted(ts, env) == [Sign(ts[0].op)] + Substituted(ts[1..], env);
        r := MoreSumStep(ar, ts[1..], env, ts[0].op, left, left');
      }
    }
  }

  /** Behind an operand, a name that prints negative reads as a minus in front of a literal. */
  lemma PrintedMinus(ts: seq<Token>, env: Env) returns (us: seq<Token>)
    requires ts != [] && PrintsNegative(ts[0], env)
    ensures AsRead(ts, env, true) == [Sign(Minus)] + AsRead(us, env, false)
    ensures Substituted(ts, env) == [Sign(Minus)] + Substituted(us, env)
  {
    NegativeHeads(ts, env);
    us := [Number(-env[ts[0].name])] + ts[1..];
    assert us[1..] == ts[1..];
    Heads(us, env, false);
  }

  lemma MoreSumStep(ar: Arithmetic, ts: seq<Token>, env: Env, op: Op, left: Expr, left': Expr) returns (r: seq<Token>)
    requires SameValue(ar, env, left, left') && IsSum(Sign(op))
    ensures Agree(ar, env, MoreSum(left, [Sign(op)] + AsRead(ts, env, false)), MoreSum(left', [Sign(op)] + Substituted(ts, env)), r)
    decreases |Substituted(ts, env)|, 7
  {
    r := ProductAgrees(ar, ts, env);
    var p, p' := ParseProduct(AsRead(ts, env, false)), ParseProduct(Substituted(ts, env));
    assert ([Sign(op)] + AsRead(ts, env, false))[1..] == AsRead(ts, env, false);
    assert ([Sign(op)] + Substituted(ts, env))[1..] == Substituted(ts, env);
    if p.Parsed? {
      r := MoreSumAgrees(ar, r, env, Binary(op, left, p.expr), Binary(op, left', p'.expr));
    }
  }

  lemma ProductAgrees(ar: Arithmetic, ts: seq<Token>, env: Env) returns (r: seq<Token>)
    ensures Agree(ar, env, ParseProduct(AsRead(ts, env, false)), ParseProduct(Substituted(ts, env)), r)
    decreases |Substituted(ts, env)|, 4
  {
    r := SignedAgrees(ar, ts, env);
    var p, p' := ParseSigned(AsRead(ts, env, false)), ParseSigned(Substituted(ts, env));
    if p.Parsed? {
      r := MoreProductAgrees(ar, r, env, p.expr, p'.expr);
    }
  }

  lemma MoreProductAgrees(ar: Arithmetic, ts: seq<Token>, env: Env, left: Expr, left': Expr) returns (r: seq<Token>)
    requires SameValue(ar, env, left, left')
    ensures Agree(ar, env, MoreProduct(left, AsRead(ts, env, true)), MoreProduct(left', Substituted(ts, env)), r)
    decreases |Substituted(ts, env)|, 5
  {
    r := ts;
    if ts != [] && PrintsNegative(ts[0], env) {
      NegativeHeads(ts, env);
    } else if ts != [] {
      Heads(ts, env, true);
      if IsProduct(ts[0]) {
        assert AsRead(ts, env, true) == [Sign(ts[0].op)] + AsRead(ts[1..], env, false);
        assert Substituted(ts, env) == [Sign(ts[0].op)] + Substituted(ts[1..], env);
        r := MoreProductStep(ar, ts[1..], env, ts[0].op, left, left');
      }
    }
  }

  lemma MoreProductStep(ar: Arithmetic, ts: seq<Token>, env: Env, op: Op, left: Expr, left': Expr) returns (r: seq<Token>)
    requires SameValue(ar, env, left, left') && IsProduct(Sign(op))
    ensures Agree(ar, env, MoreProduct(left, [Sign(op)] + AsRead(ts, env, false)),
                  MoreProduct(left', [Sign(op)] + Substituted(ts, env)), r)
    decreases |Substituted(ts, env)|, 6
  {
    r := SignedAgrees(ar, ts, env);
    var p, p' := ParseSigned(AsRead(ts, env, false)), ParseSigned(Substituted(ts, env));
    assert ([Sign(op)] + AsRead(ts, env, false))[1..] == AsRead(ts, env, false);
    assert ([Sign(op)] + Substituted(ts, env))[1..] == Substituted(ts, env);
    if p.Parsed? {
      r := MoreProductAgrees(ar, r, env, Binary(op, left, p.expr), Binary(op, left', p'.expr));
    }
  }

  lemma SignedAgrees(ar: Arithmetic, ts: seq<Token>, env: Env) returns (r: seq<Token>)
    ensures Agree(ar, env, ParseSigned(AsRead(ts, env, false)), ParseSigned(Substituted(ts, env)), r)
    decreases |Substituted(ts, env)|, 3
  {
    if ts != [] && PrintsNegative(ts[0], env) {
      r := NegativeAgrees(ar, ts, env);
    } else {
      if ts != [] {
        Heads(ts, env, false);
      }
      if Starts(ts, IsPrefix) {
        r := SignedAgrees(ar, ts[1..], env);
        assert AsRead(ts, env, false)[1..] == AsRead(ts[1..], env, false);
        assert Substituted(ts, env)[1..] == Substituted(ts[1..], env);
      } else {
        r := PowerAgrees(ar, ts, env);
      }
    }
  }

  /** Behind a base, an exponent is read in both texts or in neither. */
  lemma ExponentAgrees(ar: Arithmetic, ts: seq<Token>, env: Env) returns (r: seq<Token>)
    ensures Starts(AsRead(ts, env, true), IsPower) <==> Starts(Substituted(ts, env), IsPower)
    ensures Starts(AsRead(ts, env, true), IsPower) ==>
              Agree(ar, env, ParseSigned(AsRead(ts, env, true)[1..]), ParseSigned(Substituted(ts, env)[1..]), r)
    decreases |Substituted(ts, env)|, 4
  {
    r := ts;
    if ts != [] && PrintsNegative(ts[0], env) {
      NegativeHeads(ts, env);
    } else if ts != [] {
      Heads(ts, env, true);
      if IsPower(ts[0]) {
        r := SignedAgrees(ar, ts[1..], env);
        assert AsRead(ts, env, true)[1..] == AsRead(ts[1..], env, false);
        assert Substituted(ts, env)[1..] == Substituted(ts[1..], env);
      }
    }
  }

  lemma NegatedLiteral(ar: Arithmetic, env: Env, x: string)
    requires x in env
    ensures SameValue(ar, env, Var(x), Unary(Minus, Const(-env[x])))
  {
    assert Walk(ar, Const(-env[x]), map[]) == Ok(-env[x]);
  }

  lemma NegatedPower(ar: Arithmetic, env: Env, x: string, e: Expr, e': Expr)
    requires x in env && SameValue(ar, env, e, e')
    ensures SameValue(ar, env, Binary(Power, Var(x), e), Unary(Minus, Binary(Power, Const(-env[x]), e')))
  {
    assert Walk(ar, Var(x), env) == Ok(env[x]);
    assert Walk(ar, Const(-env[x]), map[]) == Ok(-env[x]);
  }

  /** A negative number is one operand where a name was, and a signed literal in the text: a power of it fails either way. */
  lemma NegativeAgrees(ar: Arithmetic, ts: seq<Token>, env: Env) returns (r: seq<Token>)
    requires ts != [] && PrintsNegative(ts[0], env)
    ensures Agree(ar, env, ParseSigned(AsRead(ts, env, false)), ParseSigned(Substituted(ts, env)), r)
    decreases |Substituted(ts, env)|, 2
  {
    NegativeHeads(ts, env);
    var x, v := ts[0].name, -env[ts[0].name];
    var us, us' := AsRead(ts[1..], env, true), Substituted(ts[1..], env);
    var literal := [Number(v)] + us';
    assert AsRead(ts, env, false)[1..] == us && literal[1..] == us';
    assert Substituted(ts, env)[1..] == literal;
    r := ExponentAgrees(ar, ts[1..], env);
    assert ParseSigned(AsRead(ts, env, false)) == MorePower(Var(x), us) by {
      assert ParseAtom(AsRead(ts, env, false)) == Parsed(Var(x), us);
    }
    assert ParseSigned(literal) == MorePower(Const(v), us') by {
      assert ParseAtom(literal) == Parsed(Const(v), us');
    }
    if !Starts(us, IsPower) {
      NegatedLiteral(ar, env, x);
      r := ts[1..];
    } else {
      var q, q' := ParseSigned(us[1..]), ParseSigned(us'[1..]);
      if q.Parsed? {
        NegatedPower(ar, env, x, q.expr, q'.expr);
      }
    }
  }

  lemma PowerAgrees(ar: Arithmetic, ts: seq<Token>, env: Env) returns (r: seq<Token>)
    requires ts != [] ==> !PrintsNegative(ts[0], env)
    ensures Agree(ar, env, ParsePower(AsRead(ts, env, false)), ParsePower(Substituted(ts, env)), r)
    decreases |Substituted(ts, env)|, 2
  {
    r := AtomAgrees(ar, ts, env);
    var p, p' := ParseAtom(AsRead(ts, env, false)), ParseAtom(Substituted(ts, env));
    if p.Parsed? {
      assert ParsePower(AsRead(ts, env, false)) == MorePower(p.expr, p.rest);
      assert ParsePower(Substituted(ts, env)) == MorePower(p'.expr, p'.rest);
      var q := ExponentAgrees(ar, r, env);
      if Starts(p.rest, IsPower) {
        r := q;
      }
    }
  }

  lemma AtomAgrees(ar: Arithmetic, ts: seq<Token>, env: Env) returns (r: seq<Token>)
    requires ts != [] ==> !PrintsNegative(ts[0], env)
    ensures Agree(ar, env, ParseAtom(AsRead(ts, env, false)), ParseAtom(Substituted(ts, env)), r)
    decreases |Substituted(ts, env)|, 1
  {
    r := ts;
    if ts != [] {
      Heads(ts, env, false);
      r := ts[1..];
      assert AsRead(ts, env, false)[1..] == AsRead(r, env, EndsOperand(ts[0]));
      assert Substituted(ts, env)[1..] == Substituted(r, env);
      if ts[0].Open? {
        r := SumAgrees(ar, ts[1..], env);
        r := CloseAgrees(env, r);
      }
    }
  }

  /** A closing parenthesis comes next in both texts or in neither. */
  lemma CloseAgrees(env: Env, ts: seq<Token>) returns (r: seq<Token>)
    ensures Starts(AsRead(ts, env, true), (t: Token) => t.Close?) <==> Starts(Substituted(ts, env), (t: Token) => t.Close?)
    ensures Starts(AsRead(ts, env, true), (t: Token) => t.Close?) ==>
              AsRead(ts, env, true)[1..] == AsRead(r, env, true) && Substituted(ts, env)[1..] == Substituted(r, env)
  {
    r := ts;
    if ts != [] && PrintsNegative(ts[0], env) {
      NegativeHeads(ts, env);
    } else if ts != [] {
      Heads(ts, env, true);
      r := ts[1..];
      assert AsRead(ts, env, true)[1..] == AsRead(r, env, EndsOperand(ts[0]));
      assert Substituted(ts, env)[1..] == Substituted(r, env);
    }
  }

  /** For every formula and all numbers: evaluating the replaced text is evaluating the formula as read. */
  lemma TextMeaning(ar: Arithmetic, ts: seq<Token>, env: Env)
    ensures Meaning(ar, Substituted(ts, env), map[]) == Meaning(ar, AsRead(ts, env, false), env)
  {
    var r := SumAgrees(ar, ts, env);
    assert AsRead(r, env, true) == [] <==> r == [];
    assert Substituted(r, env) == [] <==> r == [];
  }

  // ---- When the formula as read is the formula as written ----

  /** A name that prints negative stands right behind an operand. */
  ghost predicate Juxtaposed(ts: seq<Token>, env: Env) {
    exists i :: 0 < i < |ts| && EndsOperand(ts[i - 1]) && PrintsNegative(ts[i], env)
  }

  lemma {:induction false} AsReadLonger(ts: seq<Token>, env: Env, c: bool)
    ensures |AsRead(ts, env, c)| >= |ts|
  {
    if ts != [] {
      AsReadLonger(ts[1..], env, EndsOperand(ts[0]));
    }
  }

  lemma {:induction false} AsWrittenIff(ts: seq<Token>, env: Env, c: bool)
    ensures AsRead(ts, env, c) == ts <==> !Juxtaposed(ts, env) && !(c && ts != [] && PrintsNegative(ts[0], env))
  {
    if ts != [] {
      var ends := EndsOperand(ts[0]);
      AsWrittenIff(ts[1..], env, ends);
      AsReadLonger(ts[1..], env, ends);
      assert ts == [ts[0]] + ts[1..];
      if c && PrintsNegative(ts[0], env) {
      } else {
        assert AsRead(ts, env, c)[1..] == AsRead(ts[1..], env, ends);
        GapInTail(ts, env);
      }
    }
  }

  lemma GapInTail(ts: seq<Token>, env: Env)
    requires ts != []
    ensures Juxtaposed(ts, env) <==>
              Juxtaposed(ts[1..], env) || (|ts| > 1 && EndsOperand(ts[0]) && PrintsNegative(ts[1], env))
  {
    if Juxtaposed(ts[1..], env) {
      var i :| 0 < i < |ts| - 1 && EndsOperand(ts[1..][i - 1]) && PrintsNegative(ts[1..][i], env);
      assert EndsOperand(ts[i]) && PrintsNegative(ts[i + 1], env);
    }
    if Juxtaposed(ts, env) {
      var i :| 0 < i < |ts| && EndsOperand(ts[i - 1]) && PrintsNegative(ts[i], env);
      if i > 1 {
        assert EndsOperand(ts[1..][i - 2]) && PrintsNegative(ts[1..][i - 1], env);
      }
    }
  }

  // ---- A formula that parses has an operator between any two operands ----

  ghost predicate NoGap(ts: seq<Token>) {
    forall i :: 0 < i < |ts| ==> !(EndsOperand(ts[i - 1]) && ts[i].Name?)
  }

  ghost predicate SmoothUpTo(ts: seq<Token>, rest: seq<Token>) {
    |rest| <= |ts| && ts[|ts| - |rest|..] == rest && NoGap(ts[..|ts| - |rest|])
  }

  /** What a parse consumed has no gap. */
  ghost predicate Smooth(ts: seq<Token>, p: Parsed) {
    p.Parsed? ==> SmoothUpTo(ts, p.rest)
  }

  lemma Join(ts: seq<Token>, i: nat, k: nat)
    requires i < k <= |ts| && NoGap(ts[..i]) && NoGap(ts[i + 1..k])
    requires ts[i].Sign? || (i == 0 && ts[i].Open?) || (k == i + 1 && ts[i].Close?)
    ensures NoGap(ts[..k])
  {
    var all := ts[..k];
    forall j | 0 < j < k ensures !(EndsOperand(all[j - 1]) && all[j].Name?) {
      if j < i {
        assert all[j - 1] == ts[..i][j - 1] && all[j] == ts[..i][j];
      } else if j > i + 1 {
        assert all[j - 1] == ts[i + 1..k][j - i - 2] && all[j] == ts[i + 1..k][j - i - 1];
      }
    }
  }

  lemma SumIsSmooth(ts: seq<Token>)
    ensures Smooth(ts, ParseSum(ts))
    decreases |ts|, 5
  {
    ProductIsSmooth(ts);
    var p := ParseProduct(ts);
    if p.Parsed? {
      MoreSumIsSmooth(ts, p.expr, p.rest);
    }
  }

  lemma MoreSumIsSmooth(all: seq<Token>, left: Expr, ts: seq<Token>)
    requires SmoothUpTo(all, ts)
    ensures Smooth(all, MoreSum(left, ts))
    decreases |ts|, 6
  {
    if Starts(ts, IsSum) {
      ProductIsSmooth(ts[1..]);
      var p := ParseProduct(ts[1..]);
      if p.Parsed? {
        Extend(all, ts, p);
        MoreSumIsSmooth(all, Binary(ts[0].op, left, p.expr), p.rest);
      }
    }
  }

  lemma ProductIsSmooth(ts: seq<Token>)
    ensures Smooth(ts, ParseProduct(ts))
    decreases |ts|, 4
  {
    SignedIsSmooth(ts);
    var p := ParseSigned(ts);
    if p.Parsed? {
      MoreProductIsSmooth(ts, p.expr, p.rest);
    }
  }

  lemma MoreProductIsSmooth(all: seq<Token>, left: Expr, ts: seq<Token>)
    requires SmoothUpTo(all, ts)
    ensures Smooth(all, MoreProduct(left, ts))
    decreases |ts|, 5
  {
    if Starts(ts, IsProduct) {
      SignedIsSmooth(ts[1..]);
      var p := ParseSigned(ts[1..]);
      if p.Parsed? {
        Extend(all, ts, p);
        MoreProductIsSmooth(all, Binary(ts[0].op, left, p.expr), p.rest);
      }
    }
  }

  /** An operator and a smooth operand extend what was consumed before. */
  lemma Extend(all: seq<Token>, ts: seq<Token>, p: Parsed)
    requires ts != [] && ts[0].Sign? && p.Parsed? && SmoothUpTo(all, ts) && Smooth(ts[1..], p)
    ensures SmoothUpTo(all, p.rest)
  {
    var i, k := |all| - |ts|, |all| - |p.rest|;
    assert all[i] == ts[0];
    assert all[i + 1..k] == ts[1..][..|ts| - 1 - |p.rest|];
    assert all[k..] == ts[1..][|ts| - 1 - |p.rest|..];
    Join(all, i, k);
  }

  lemma SmoothStart(ts: seq<Token>)
    ensures SmoothUpTo(ts, ts)
  {
  }

  lemma SignedIsSmooth(ts: seq<Token>)
    ensures Smooth(ts, ParseSigned(ts))
    decreases |ts|, 3
  {
    if Starts(ts, IsPrefix) {
      SignedIsSmooth(ts[1..]);
      var p := ParseSigned(ts[1..]);
      if p.Parsed? {
        SmoothStart(ts);
        Extend(ts, ts, p);
      }
    } else {
      PowerIsSmooth(ts);
    }
  }

  lemma PowerIsSmooth(ts: seq<Token>)
    ensures Smooth(ts, ParsePower(ts))
    decreases |ts|, 2
  {
    AtomIsSmooth(ts);
    var p := ParseAtom(ts);
    if p.Parsed? {
      assert ParsePower(ts) == MorePower(p.expr, p.rest);
      MorePowerIsSmooth(ts, p.expr, p.rest);
    }
  }

  lemma MorePowerIsSmooth(all: seq<Token>, base: Expr, ts: seq<Token>)
    requires SmoothUpTo(all, ts)
    ensures Smooth(all, MorePower(base, ts))
    decreases |ts|, 4
  {
    if Starts(ts, IsPower) {
      SignedIsSmooth(ts[1..]);
      var p := ParseSigned(ts[1..]);
      if p.Parsed? {
        Extend(all, ts, p);
      }
    }
  }

  lemma Parenthesised(ts: seq<Token>, rest: seq<Token>)
    requires ts != [] && ts[0].Open? && SmoothUpTo(ts[1..], rest) && rest != [] && rest[0].Close?
    ensures SmoothUpTo(ts, rest[1..])
  {
    var k := |ts| - |rest|;
    assert ts[1..][|ts| - 1 - |rest|..] == ts[k..];
    assert ts[1..k] == ts[1..][..k - 1];
    Join(ts, 0, k);
    assert ts[k] == rest[0] && ts[k + 1..k + 1] == [];
    Join(ts, k, k + 1);
  }

  lemma OneToken(ts: seq<Token>)
    requires ts != []
    ensures SmoothUpTo(ts, ts[1..])
  {
  }

  lemma AtomIsSmooth(ts: seq<Token>)
    ensures Smooth(ts, ParseAtom(ts))
    decreases |ts|, 1
  {
    if ts != [] {
      if ts[0].Open? {
        SumIsSmooth(ts[1..]);
        var p := ParseSum(ts[1..]);
        if p.Parsed? && p.rest != [] && p.rest[0].Close? {
          Parenthesised(ts, p.rest);
        }
      } else {
        OneToken(ts);
      }
    }
  }

  /** So whatever the numbers are, a formula that parses is read as it is written. */
  lemma ParsedIsReadAsWritten(ts: seq<Token>, env: Env)
    requires Parse(ts).Some?
    ensures AsRead(ts, env, false) == ts
  {
    SumIsSmooth(ts);
    assert ts[..|ts|] == ts;
    assert !Juxtaposed(ts, env);
    AsWrittenIff(ts, env, false);
  }

  /** The program's result is the formula's meaning in all but one case: the formula does not parse as written, because a name
      that prints negative stands right behind an operand, and does parse once that minus is read as a subtraction. */
  lemma ResultIsMeaningIff(ar: Arithmetic, ts: seq<Token>, env: Env)
    ensures Meaning(ar, Substituted(ts, env), map[]) == Meaning(ar, ts, env) <==>
              !(Juxtaposed(ts, env) && Parse(AsRead(ts, env, false)).Some?)
    ensures Parse(ts).Some? ==> Meaning(ar, Substituted(ts, env), map[]) == Meaning(ar, ts, env)
  {
    TextMeaning(ar, ts, env);
    AsWrittenIff(ts, env, false);
    if Parse(ts).Some? {
      ParsedIsReadAsWritten(ts, env);
    }
    var e := Parse(AsRead(ts, env, false));
    if e.Some? {
      WalkIsNoSyntaxError(ar, e.value, env);
    }
  }

  lemma {:induction false} WalkIsNoSyntaxError(ar: Arithmetic, e: Expr, env: Env)
    ensures Walk(ar, e, env) != Err(SyntaxError)
  {
    match e {
      case Const(_) =>
      case Var(_) =>
      case Binary(_, l, r) =>
        WalkIsNoSyntaxError(ar, l, env);
        WalkIsNoSyntaxError(ar, r, env);
      case Unary(_, operand) =>
        WalkIsNoSyntaxError(ar, operand, env);
    }
  }

  // ---- The order of the replacements ----

  function Restricted(env: Env, names: seq<string>): Env {
    map x | x in env && x in names :: env[x]
  }

  lemma {:induction false} SubstitutedAppend(a: seq<Token>, b: seq<Token>, env: Env)
    ensures Substituted(a + b, env) == Substituted(a, env) + Substituted(b, env)
  {
    if a == [] {
      assert a + b == b;
    } else {
      SubstitutedAppend(a[1..], b, env);
      assert (a + b)[1..] == a[1..] + b;
    }
  }

  lemma {:induction false} PrintedHasNoNames(ts: seq<Token>, env: Env)
    requires forall t :: t in ts ==> !t.Name?
    ensures Substituted(ts, env) == ts
  {
    if ts != [] {
      PrintedHasNoNames(ts[1..], env);
    }
  }

  /** Replacing one more name. */
  lemma {:induction false} ReplaceOneMore(ts: seq<Token>, env: Env, names: seq<string>, x: string)
    requires x in env
    ensures Substituted(Substituted(ts, Restricted(env, names)), map[x := env[x]]) == Substituted(ts, Restricted(env, names + [x]))
  {
    if ts != [] {
      var before, after, one := Restricted(env, names), Restricted(env, names + [x]), map[x := env[x]];
      ReplaceOneMore(ts[1..], env, names, x);
      SubstitutedAppend(Image(ts[0], before), Substituted(ts[1..], before), one);
      assert Substituted(Image(ts[0], before), one) == Image(ts[0], after) by {
        if ts[0].Name? && ts[0].name in before {
          PrintedHasNoNames(Image(ts[0], before), one);
        } else {
          assert Image(ts[0], before) == [ts[0]];
          assert [ts[0]][1..] == [];
        }
      }
    }
  }

  lemma {:induction false} PrintedNothing(ts: seq<Token>, env: Env)
    ensures Substituted(ts, Restricted(env, [])) == ts
  {
    if ts != [] {
      PrintedNothing(ts[1..], env);
    }
  }

  /** Replacing the names one after another, in any order, is replacing them all at once. */
  method ReplaceNames(ts: seq<Token>, names: seq<string>, env: Env) returns (resolved: seq<Token>)
    requires forall x :: x in names <==> x in env
    ensures resolved == Substituted(ts, env)
  {
    resolved := ts;
    PrintedNothing(ts, env);
    for i := 0 to |names|
      invariant resolved == Substituted(ts, Restricted(env, names[..i]))
    {
      ReplaceOneMore(ts, env, names[..i], names[i]);
      assert names[..i + 1] == names[..i] + [names[i]];
      resolved := Substituted(resolved, map[names[i] := env[names[i]]]);
    }
    assert names[..|names|] == names;
    assert Restricted(env, names) == env;
  }

  /** The program: the names are replaced, the text is parsed, its tree is walked. */
  method SafeEval(ar: Arithmetic, ts: seq<Token>, names: seq<string>, env: Env) returns (r: Result<real, Error>)
    requires forall x :: x in names <==> x in env
    ensures r == Meaning(ar, AsRead(ts, env, false), env)
    ensures Parse(ts).Some? ==> r == Meaning(ar, ts, env)
  {
    var resolved := ReplaceNames(ts, names, env);
    TextMeaning(ar, ts, env);
    ResultIsMeaningIff(ar, ts, env);
    var tree := Parse(resolved);
    if tree.None? {
      return Err(SyntaxError);
    }
    r := Walk(ar, tree.value, map[]);
  }
}
