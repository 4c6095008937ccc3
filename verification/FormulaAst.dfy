/** The scoring-formula language: a recursive evaluator, a compiler to postfix code, and the stack
    machine that runs the code. */
module FormulaAst {
  import opened SsamTypes
  import opened Aggregation

  // ----- syntax -----

  datatype Op =
    | OpConst | OpRef | OpWeightedSum | OpProductChain
    | OpMultiply | OpDivide | OpAdd | OpMin | OpMax
    | OpUnknown(name: string)

  datatype FormulaAST = FormulaAST(
    op: Op, left: Option<FormulaAST>, right: Option<FormulaAST>, ref: string, constVal: real)

  datatype EvalContext = EvalContext(
    domainScores: seq<DomainScore>, weights: seq<WeightConfig>,
    risk: RiskContext, edgeFactors: seq<EdgeFactorResult>)

  predicate IsBinary(op: Op) {
    op.OpMultiply? || op.OpDivide? || op.OpAdd? || op.OpMin? || op.OpMax?
  }

  function Combine(op: Op, l: real, r: real): real
    requires IsBinary(op)
  {
    match op
    case OpMultiply => l * r
    case OpAdd => l + r
    case OpDivide => if Abs(r) < 0.000000000001 then 0.0 else l / r
    case OpMin => if l < r then l else r
    case OpMax => if l > r then l else r
  }

  /** What the operators mean: the quotient times the divisor is the dividend, unless the divisor is within 1e-12 of
      zero, which gives 0; least and greatest are one of the operands and bound both. */
  lemma CombineMeans(l: real, r: real)
    ensures Combine(OpMultiply, l, r) == l * r && Combine(OpAdd, l, r) == l + r
    ensures r >= 0.000000000001 || r <= -0.000000000001 ==> Combine(OpDivide, l, r) * r == l
    ensures -0.000000000001 < r < 0.000000000001 ==> Combine(OpDivide, l, r) == 0.0
    ensures Combine(OpMin, l, r) in {l, r} && Combine(OpMin, l, r) <= l && Combine(OpMin, l, r) <= r
    ensures Combine(OpMax, l, r) in {l, r} && Combine(OpMax, l, r) >= l && Combine(OpMax, l, r) >= r
  {
  }

  // ----- references -----

  const SCORE_PREFIX := "domain_score:"
  const WEIGHT_PREFIX := "weight:"

  function FirstScore(ds: seq<DomainScore>, domain: string): Option<real> {
    if ds == [] then None
    else if ds[0].domain == domain then Some(ds[0].score)
    else FirstScore(ds[1..], domain)
  }

  function FirstWeight(ws: seq<WeightConfig>, domain: string): Option<real> {
    if ws == [] then None
    else if ws[0].domain == domain then Some(ws[0].weight)
    else FirstWeight(ws[1..], domain)
  }

  /** A domain's score is that of its first entry, and its weight that of its first configured one. */
  lemma {:induction false} FirstScoreIs(ds: seq<DomainScore>, domain: string, i: nat)
    requires i < |ds| && ds[i].domain == domain && forall j :: 0 <= j < i ==> ds[j].domain != domain
    ensures FirstScore(ds, domain) == Some(ds[i].score)
  {
    if i > 0 { FirstScoreIs(ds[1..], domain, i - 1); }
  }

  lemma {:induction false} FirstWeightIs(ws: seq<WeightConfig>, domain: string, i: nat)
    requires i < |ws| && ws[i].domain == domain && forall j :: 0 <= j < i ==> ws[j].domain != domain
    ensures FirstWeight(ws, domain) == Some(ws[i].weight)
  {
    if i > 0 { FirstWeightIs(ws[1..], domain, i - 1); }
  }

  datatype EvalResult =
    | Value(v: real)
    | NilOperand(op: Op, isLeft: bool)
    | ScoreNotFound(domain: string)
    | WeightNotFound(domain: string)
    | UnknownRef(ref: string)
    | UnknownOp(op: Op)

  function EvalRef(ref: string, ctx: EvalContext): EvalResult {
    if ref == "exposure" then Value(ctx.risk.exposure)
    else if ref == "threat" then Value(ctx.risk.threat)
    else if ref == "intrinsic" then Value(ctx.risk.intrinsic)
    else if SCORE_PREFIX <= ref then
      var domain := ref[|SCORE_PREFIX|..];
      match FirstScore(ctx.domainScores, domain)
      case Some(v) => Value(v)
      case None => ScoreNotFound(domain)
    else if WEIGHT_PREFIX <= ref then
      var domain := ref[|WEIGHT_PREFIX|..];
      match FirstWeight(ctx.weights, domain)
      case Some(v) => Value(v)
      case None => WeightNotFound(domain)
    else UnknownRef(ref)
  }

  // ----- evaluator -----

  function WeightedSumValue(ctx: EvalContext, hooks: Hooks): real {
    WeightedMean(ApplyDomainAdjust(ctx.domainScores, ctx.edgeFactors, hooks), WeightMap(ctx.weights))
  }

  /** `evalWeightedSum`, which the stack machine repeats in line. */
  method EvalWeightedSum(ctx: EvalContext, hooks: Hooks) returns (r: real)
    ensures r == WeightedSumValue(ctx, hooks)
  {
    var wMap := BuildWeightMap(ctx.weights);
    var sum, totalWeight := AccumulateWeighted(ApplyDomainAdjust(ctx.domainScores, ctx.edgeFactors, hooks), wMap);
    r := if totalWeight == 0.0 then 0.0 else sum / totalWeight;
  }

  /** Evaluates operands left to right and stops at the first error. */
  function EvalAST(ast: FormulaAST, ctx: EvalContext, hooks: Hooks): EvalResult {
    match ast.op
    case OpConst => Value(ast.constVal)
    case OpRef => EvalRef(ast.ref, ctx)
    case OpWeightedSum => Value(WeightedSumValue(ctx, hooks))
    case OpProductChain => Value(StrategyValue(ctx.edgeFactors, hooks))
    case OpUnknown(_) => UnknownOp(ast.op)
    case _ =>
      if ast.left.None? then NilOperand(ast.op, true)
      else if ast.right.None? then NilOperand(ast.op, false)
      else
        var l := EvalAST(ast.left.value, ctx, hooks);
        if !l.Value? then l
        else
          var r := EvalAST(ast.right.value, ctx, hooks);
          if !r.Value? then r
          else Value(Combine(ast.op, l.v, r.v))
  }

  // ----- compiler -----

  datatype CompiledOp = CompiledOp(op: Op, ref: string, constVal: real)

  function CompileAST(ast: FormulaAST): seq<CompiledOp> {
    match ast.op
    case OpConst => [CompiledOp(OpConst, "", ast.constVal)]
    case OpRef => [CompiledOp(OpRef, ast.ref, 0.0)]
    case OpWeightedSum => [CompiledOp(OpWeightedSum, "", 0.0)]
    case OpProductChain => [CompiledOp(OpProductChain, "", 0.0)]
    case OpUnknown(_) => [CompiledOp(OpConst, "", 0.0)]
    case _ =>
      (if ast.left.Some? then CompileAST(ast.left.value) else [])
      + (if ast.right.Some? then CompileAST(ast.right.value) else [])
      + [CompiledOp(ast.op, "", 0.0)]
  }

  // ----- stack machine -----

  /** What the compiled code pushes for a reference: the intrinsic coefficient is fixed at one, a
      weight is read from the map (last entry wins), anything unresolved is zero. */
  function PushedRef(ref: string, ctx: EvalContext): real {
    if ref == "exposure" then ctx.risk.exposure
    else if ref == "threat" then ctx.risk.threat
    else if ref == "intrinsic" then 1.0
    else if SCORE_PREFIX <= ref then
      match FirstScore(ctx.domainScores, ref[|SCORE_PREFIX|..])
      case Some(v) => v
      case None => 0.0
    else if WEIGHT_PREFIX <= ref then
      var domain := ref[|WEIGHT_PREFIX|..];
      if domain in WeightMap(ctx.weights) then WeightMap(ctx.weights)[domain] else 0.0
    else 0.0
  }

  function Top(s: seq<real>): real {
    if s == [] then 0.0 else s[|s| - 1]
  }

  function Drop(s: seq<real>): seq<real> {
    if s == [] then [] else s[..|s| - 1]
  }

  function Step(c: CompiledOp, s: seq<real>, ctx: EvalContext, hooks: Hooks): seq<real> {
    match c.op
    case OpConst => s + [c.constVal]
    case OpRef => s + [PushedRef(c.ref, ctx)]
    case OpWeightedSum => s + [WeightedSumValue(ctx, hooks)]
    case OpProductChain => s + [StrategyValue(ctx.edgeFactors, hooks)]
    case OpUnknown(_) => s + [0.0]
    case _ => Drop(Drop(s)) + [Combine(c.op, Top(Drop(s)), Top(s))]
  }

  function Exec(code: seq<CompiledOp>, s: seq<real>, ctx: EvalContext, hooks: Hooks): seq<real> {
    if code == [] then s
    else Step(code[|code| - 1], Exec(code[..|code| - 1], s, ctx, hooks), ctx, hooks)
  }

  method Pop(stack: seq<real>) returns (v: real, rest: seq<real>)
    ensures v == Top(stack) && rest == Drop(stack)
  {
    if |stack| == 0 {
      return 0.0, stack;
    }
    return stack[|stack| - 1], stack[..|stack| - 1];
  }

  method FindScore(ds: seq<DomainScore>, domain: string) returns (found: bool, score: real)
    ensures found <==> FirstScore(ds, domain).Some?
    ensures found ==> score == FirstScore(ds, domain).value
  {
    score := 0.0;
    for i := 0 to |ds|
      invariant FirstScore(ds, domain) == FirstScore(ds[i..], domain)
    {
      if ds[i].domain == domain {
        return true, ds[i].score;
      }
    }
    found := false;
  }

  method ResolveRef(ref: string, ctx: EvalContext, wMap: map<string, real>) returns (v: real)
    requires wMap == WeightMap(ctx.weights)
    ensures v == PushedRef(ref, ctx)
  {
    if ref == "exposure" {
      v := ctx.risk.exposure;
    } else if ref == "threat" {
      v := ctx.risk.threat;
    } else if ref == "intrinsic" {
      v := 1.0;
    } else if SCORE_PREFIX <= ref {
      var found, score := FindScore(ctx.domainScores, ref[|SCORE_PREFIX|..]);
      v := if found then score else 0.0;
    } else if WEIGHT_PREFIX <= ref {
      var domain := ref[|WEIGHT_PREFIX|..];
      v := if domain in wMap then wMap[domain] else 0.0;
    } else {
      v := 0.0;
    }
  }

  /** The value an operation without operands pushes. */
  method PushedValue(c: CompiledOp, ctx: EvalContext, wMap: map<string, real>, hooks: Hooks) returns (v: real)
    requires wMap == WeightMap(ctx.weights) && !IsBinary(c.op)
    ensures forall s :: Step(c, s, ctx, hooks) == s + [v]
  {
    match c.op {
      case OpConst => v := c.constVal;
      case OpRef => v := ResolveRef(c.ref, ctx, wMap);
      case OpWeightedSum => v := EvalWeightedSum(ctx, hooks);
      case OpProductChain => v := ApplyEdgeFactorStrategy(ctx.edgeFactors, hooks);
      case _ => v := 0.0;
    }
  }

  /** Pops two operands and pushes their combination. */
  method ApplyBinary(c: CompiledOp, stack: seq<real>, ghost ctx: EvalContext, ghost hooks: Hooks) returns (r: seq<real>)
    requires IsBinary(c.op)
    ensures r == Step(c, stack, ctx, hooks)
  {
    var right, rest := Pop(stack);
    var left, rest' := Pop(rest);
    r := rest' + [Combine(c.op, left, right)];
  }

  lemma ExecSnoc(ops: seq<CompiledOp>, i: nat, ctx: EvalContext, hooks: Hooks)
    requires i < |ops|
    ensures Exec(ops[..i + 1], [], ctx, hooks) == Step(ops[i], Exec(ops[..i], [], ctx, hooks), ctx, hooks)
  {
    hide Step;
    assert ops[..i + 1][..i] == ops[..i];
  }

  /** The closure returned by `ASTToFormula`: a loop over the code that pushes and pops a slice. */
  method RunFormula(ops: seq<CompiledOp>, ctx: EvalContext, hooks: Hooks) returns (r: real)
    ensures r == Top(Exec(ops, [], ctx, hooks))
  {
    var wMap := BuildWeightMap(ctx.weights);
    var stack: seq<real> := [];
    assert stack == Exec(ops[..0], [], ctx, hooks);
    hide Exec, Step, WeightMap;
    for i := 0 to |ops|
      invariant stack == Exec(ops[..i], [], ctx, hooks)
    {
      var c := ops[i];
      ExecSnoc(ops, i, ctx, hooks);
      if IsBinary(c.op) {
        stack := ApplyBinary(c, stack, ctx, hooks);
      } else {
        var v := PushedValue(c, ctx, wMap, hooks);
        stack := stack + [v];
      }
    }
    assert ops[..|ops|] == ops;
    r := if |stack| == 0 then 0.0 else stack[|stack| - 1];
  }

  // ----- properties of the code -----

  /** Every binary node has both children. */
  predicate WellFormed(ast: FormulaAST) {
    IsBinary(ast.op) ==>
      && ast.left.Some? && ast.right.Some?
      && WellFormed(ast.left.value) && WellFormed(ast.right.value)
  }

  /** The value of a tree when unknown operators and unresolved references are read as zero. */
  function LenientValue(ast: FormulaAST, ctx: EvalContext, hooks: Hooks): real
    requires WellFormed(ast)
  {
    match ast.op
    case OpConst => ast.constVal
    case OpRef => PushedRef(ast.ref, ctx)
    case OpWeightedSum => WeightedSumValue(ctx, hooks)
    case OpProductChain => StrategyValue(ctx.edgeFactors, hooks)
    case OpUnknown(_) => 0.0
    case _ => Combine(ast.op, LenientValue(ast.left.value, ctx, hooks), LenientValue(ast.right.value, ctx, hooks))
  }

  lemma {:induction false} ExecAppend(a: seq<CompiledOp>, b: seq<CompiledOp>, s: seq<real>, ctx: EvalContext,
                                      hooks: Hooks)
    ensures Exec(a + b, s, ctx, hooks) == Exec(b, Exec(a, s, ctx, hooks), ctx, hooks)
  {
    hide Step;
    if b == [] {
      assert a + b == a;
    } else {
      var n := |b| - 1;
      ExecAppend(a, b[..n], s, ctx, hooks);
      assert (a + b)[..|a + b| - 1] == a + b[..n];
    }
  }

  lemma ExecOne(c: CompiledOp, s: seq<real>, ctx: EvalContext, hooks: Hooks)
    ensures Exec([c], s, ctx, hooks) == Step(c, s, ctx, hooks)
  {
    assert [c][..0] == [];
    assert Exec([], s, ctx, hooks) == s;
  }

  lemma StepBinary(c: CompiledOp, s: seq<real>, l: real, r: real, ctx: EvalContext, hooks: Hooks)
    requires IsBinary(c.op)
    ensures Step(c, s + [l] + [r], ctx, hooks) == s + [Combine(c.op, l, r)]
  {
    assert Drop(s + [l] + [r]) == s + [l];
    assert Drop(s + [l]) == s;
  }

  /** Compiler correctness: from any stack the code of a well-formed tree adds exactly its value. */
  lemma {:induction false} CompiledCodePushesValue(ast: FormulaAST, s: seq<real>, ctx: EvalContext, hooks: Hooks)
    requires WellFormed(ast)
    ensures Exec(CompileAST(ast), s, ctx, hooks) == s + [LenientValue(ast, ctx, hooks)]
  {
    if IsBinary(ast.op) {
      hide Combine;
      var a, b := ast.left.value, ast.right.value;
      var last := CompiledOp(ast.op, "", 0.0);
      assert CompileAST(ast) == CompileAST(a) + CompileAST(b) + [last];
      CompiledCodePushesValue(a, s, ctx, hooks);
      var l := LenientValue(a, ctx, hooks);
      CompiledCodePushesValue(b, s + [l], ctx, hooks);
      ExecAppend(CompileAST(a), CompileAST(b), s, ctx, hooks);
      ExecAppend(CompileAST(a) + CompileAST(b), [last], s, ctx, hooks);
      ExecOne(last, s + [l] + [LenientValue(b, ctx, hooks)], ctx, hooks);
      StepBinary(last, s, l, LenientValue(b, ctx, hooks), ctx, hooks);
    } else {
      ExecOne(CompileAST(ast)[0], s, ctx, hooks);
    }
  }

  /** After `k` operations the original stack is still in place, and a binary operation about to run
      finds both of its operands above it. */
  ghost predicate Guarded(code: seq<CompiledOp>, k: nat, s: seq<real>, ctx: EvalContext, hooks: Hooks)
    requires k <= |code|
  {
    var now := Exec(code[..k], s, ctx, hooks);
    && s <= now
    && (k < |code| && IsBinary(code[k].op) ==> |now| >= |s| + 2)
  }

  /** The code of a well-formed tree never pops below the stack it was started on. */
  lemma {:induction false} NeverPopsBelow(ast: FormulaAST, s: seq<real>, k: nat, ctx: EvalContext, hooks: Hooks)
    requires WellFormed(ast) && k <= |CompileAST(ast)|
    ensures Guarded(CompileAST(ast), k, s, ctx, hooks)
  {
    hide Exec, Step, Combine, LenientValue;
    ExecNothing(s, ctx, hooks);
    var code := CompileAST(ast);
    if IsBinary(ast.op) {
      var ca, cb := CompileAST(ast.left.value), CompileAST(ast.right.value);
      var last := [CompiledOp(ast.op, "", 0.0)];
      assert code == ca + cb + last;
      CompiledCodePushesValue(ast.left.value, s, ctx, hooks);
      var s' := s + [LenientValue(ast.left.value, ctx, hooks)];
      if k < |ca| {
        assert code[..k] == ca[..k] && code[k] == ca[k];
        NeverPopsBelow(ast.left.value, s, k, ctx, hooks);
      } else if k < |code| {
        var j := k - |ca|;
        assert code[..k] == ca + cb[..j];
        ExecAppend(ca, cb[..j], s, ctx, hooks);
        NeverPopsBelow(ast.right.value, s', j, ctx, hooks);
        if j < |cb| {
          assert code[k] == cb[j];
        } else {
          assert cb[..j] == cb;
          CompiledCodePushesValue(ast.right.value, s', ctx, hooks);
        }
      } else {
        assert code[..k] == code;
        CompiledCodePushesValue(ast, s, ctx, hooks);
      }
    } else if k == 1 {
      assert code[..1] == code;
      CompiledCodePushesValue(ast, s, ctx, hooks);
    } else {
      assert code[..k] == [];
    }
  }

  /** What the machine makes of nothing: an unresolved reference and an unknown operator push 0, an operand that is not
      there is read as 0, and so is the result of an empty stack. */
  lemma NothingIsZero(ctx: EvalContext, hooks: Hooks, ref: string, op: Op, name: string)
    requires IsBinary(op)
    ensures !EvalRef(ref, ctx).Value? ==>
              Exec(CompileAST(FormulaAST(OpRef, None, None, ref, 0.0)), [], ctx, hooks) == [0.0]
    ensures Exec(CompileAST(FormulaAST(OpUnknown(name), None, None, "", 0.0)), [], ctx, hooks) == [0.0]
    ensures Exec(CompileAST(FormulaAST(op, None, None, "", 0.0)), [], ctx, hooks) == [Combine(op, 0.0, 0.0)]
    ensures Top([]) == 0.0
  {
    var r, u, b := CompiledOp(OpRef, ref, 0.0), CompiledOp(OpConst, "", 0.0), CompiledOp(op, "", 0.0);
    ExecOne(r, [], ctx, hooks);
    ExecOne(u, [], ctx, hooks);
    ExecOne(b, [], ctx, hooks);
    hide Exec, Combine;
    NotConfigured(ctx.weights, ref);
    assert CompileAST(FormulaAST(op, None, None, "", 0.0)) == [b];
  }

  /** A reference to the weight of a domain that is not configured: the map has none either. */
  lemma NotConfigured(ws: seq<WeightConfig>, ref: string)
    ensures WEIGHT_PREFIX <= ref && FirstWeight(ws, ref[|WEIGHT_PREFIX|..]).None? ==>
              ref[|WEIGHT_PREFIX|..] !in WeightMap(ws)
  {
    if WEIGHT_PREFIX <= ref && FirstWeight(ws, ref[|WEIGHT_PREFIX|..]).None? {
      NoFirstWeight(ws, ref[|WEIGHT_PREFIX|..]);
      WeightMapLastWins(ws, ref[|WEIGHT_PREFIX|..]);
    }
  }

  lemma {:induction false} NoFirstWeight(ws: seq<WeightConfig>, d: string)
    requires FirstWeight(ws, d).None?
    ensures forall w :: w in ws ==> w.domain != d
  {
    if ws != [] { NoFirstWeight(ws[1..], d); }
  }

  // ----- trees with missing children -----

  function MissingChildren(ast: FormulaAST): nat {
    if !IsBinary(ast.op) then 0
    else
      (if ast.left.Some? then MissingChildren(ast.left.value) else 1)
      + (if ast.right.Some? then MissingChildren(ast.right.value) else 1)
  }

  lemma {:induction false} MissingIffIllFormed(ast: FormulaAST)
    ensures MissingChildren(ast) == 0 <==> WellFormed(ast)
  {
    if IsBinary(ast.op) {
      if ast.left.Some? { MissingIffIllFormed(ast.left.value); }
      if ast.right.Some? { MissingIffIllFormed(ast.right.value); }
    }
  }

  lemma StepBinaryLength(c: CompiledOp, s: seq<real>, ctx: EvalContext, hooks: Hooks)
    requires IsBinary(c.op) && |s| >= 2
    ensures |Step(c, s, ctx, hooks)| == |s| - 1
  {
  }

  lemma StepPushes(c: CompiledOp, s: seq<real>, ctx: EvalContext, hooks: Hooks)
    requires !IsBinary(c.op)
    ensures |Step(c, s, ctx, hooks)| == |s| + 1
  {
  }

  lemma ExecNothing(s: seq<real>, ctx: EvalContext, hooks: Hooks)
    ensures Exec([], s, ctx, hooks) == s
  {
  }

  /** Each missing child makes the code consume one operand that belongs to the surrounding formula. */
  lemma {:induction false} MissingChildrenStealOperands(ast: FormulaAST, s: seq<real>, ctx: EvalContext, hooks: Hooks)
    requires |s| >= MissingChildren(ast)
    ensures |Exec(CompileAST(ast), s, ctx, hooks)| == |s| + 1 - MissingChildren(ast)
  {
    hide Exec, Step;
    if IsBinary(ast.op) {
      var ca := if ast.left.Some? then CompileAST(ast.left.value) else [];
      var cb := if ast.right.Some? then CompileAST(ast.right.value) else [];
      var last := CompiledOp(ast.op, "", 0.0);
      ExecNothing(s, ctx, hooks);
      if ast.left.Some? { MissingChildrenStealOperands(ast.left.value, s, ctx, hooks); }
      var s1 := Exec(ca, s, ctx, hooks);
      ExecNothing(s1, ctx, hooks);
      if ast.right.Some? { MissingChildrenStealOperands(ast.right.value, s1, ctx, hooks); }
      var s2 := Exec(cb, s1, ctx, hooks);
      ExecAppend(ca, cb, s, ctx, hooks);
      ExecAppend(ca + cb, [last], s, ctx, hooks);
      ExecOne(last, s2, ctx, hooks);
      StepBinaryLength(last, s2, ctx, hooks);
      assert CompileAST(ast) == ca + cb + [last];
    } else {
      ExecOne(CompileAST(ast)[0], s, ctx, hooks);
      StepPushes(CompileAST(ast)[0], s, ctx, hooks);
    }
  }

  /** The code leaves one more value on every stack exactly when the tree is well formed. */
  lemma BalancedIffWellFormed(ast: FormulaAST, ctx: EvalContext, hooks: Hooks)
    ensures WellFormed(ast) <==>
      forall s: seq<real> :: |Exec(CompileAST(ast), s, ctx, hooks)| == |s| + 1
  {
    MissingIffIllFormed(ast);
    if WellFormed(ast) {
      forall s: seq<real> ensures |Exec(CompileAST(ast), s, ctx, hooks)| == |s| + 1 {
        CompiledCodePushesValue(ast, s, ctx, hooks);
      }
    } else {
      var s := seq(MissingChildren(ast), i => 0.0);
      MissingChildrenStealOperands(ast, s, ctx, hooks);
    }
  }

  // ----- compiled code against the evaluator -----

  /** Every operator is known and every reference resolves. */
  predicate Supported(ast: FormulaAST, ctx: EvalContext)
    requires WellFormed(ast)
  {
    match ast.op
    case OpUnknown(_) => false
    case OpRef => EvalRef(ast.ref, ctx).Value?
    case OpConst => true
    case OpWeightedSum => true
    case OpProductChain => true
    case _ => Supported(ast.left.value, ctx) && Supported(ast.right.value, ctx)
  }

  /** The evaluator succeeds exactly on well-formed trees whose operators and references are known. */
  lemma {:induction false} EvaluatorSucceedsIff(ast: FormulaAST, ctx: EvalContext, hooks: Hooks)
    ensures EvalAST(ast, ctx, hooks).Value? <==> WellFormed(ast) && Supported(ast, ctx)
  {
    if IsBinary(ast.op) && ast.left.Some? && ast.right.Some? {
      EvaluatorSucceedsIff(ast.left.value, ctx, hooks);
      EvaluatorSucceedsIff(ast.right.value, ctx, hooks);
    }
  }

  /** What stands in the way is reported in this order: a missing left operand, a missing right one, the left operand's
      own failure, the right one's. */
  lemma FailureOrder(ast: FormulaAST, ctx: EvalContext, hooks: Hooks)
    requires IsBinary(ast.op)
    ensures var r := EvalAST(ast, ctx, hooks);
            && (ast.left.None? ==> r == NilOperand(ast.op, true))
            && (ast.left.Some? && ast.right.None? ==> r == NilOperand(ast.op, false))
            && (ast.left.Some? && ast.right.Some? ==>
                  var a, b := EvalAST(ast.left.value, ctx, hooks), EvalAST(ast.right.value, ctx, hooks);
                  && (!a.Value? ==> r == a)
                  && (a.Value? && !b.Value? ==> r == b)
                  && (a.Value? && b.Value? ==> r == Value(Combine(ast.op, a.v, b.v))))
  {
  }

  /** What a reference reads: a coefficient, the score of a domain's first entry, the weight of its first
      configured one; a domain that is not there and a name of no kind fail under their own names. */
  lemma ReferenceReads(ctx: EvalContext, domain: string, ref: string)
    ensures EvalRef("exposure", ctx) == Value(ctx.risk.exposure) && EvalRef("threat", ctx) == Value(ctx.risk.threat)
    ensures EvalRef("intrinsic", ctx) == Value(ctx.risk.intrinsic)
    ensures EvalRef("domain_score:" + domain, ctx)
            == match FirstScore(ctx.domainScores, domain) case Some(v) => Value(v) case None => ScoreNotFound(domain)
    ensures EvalRef("weight:" + domain, ctx)
            == match FirstWeight(ctx.weights, domain) case Some(v) => Value(v) case None => WeightNotFound(domain)
    ensures ref !in {"exposure", "threat", "intrinsic"} && !("domain_score:" <= ref) && !("weight:" <= ref) ==>
              EvalRef(ref, ctx) == UnknownRef(ref)
  {
    var a, b := "domain_score:" + domain, "weight:" + domain;
    assert a[|SCORE_PREFIX|..] == domain && b[|WEIGHT_PREFIX|..] == domain;
    assert a[0] == 'd' && a[1] == 'o' && b[0] == 'w';
    hide FirstScore, FirstWeight;
  }

  /** The references whose two readings can differ: the intrinsic coefficient, which compiled code
      fixes at one, and a weight configured twice, where evaluator and map pick different entries. */
  predicate RefAgrees(ref: string, ctx: EvalContext) {
    if ref == "exposure" || ref == "threat" || SCORE_PREFIX <= ref then true
    else if ref == "intrinsic" then ctx.risk.intrinsic == 1.0
    else if WEIGHT_PREFIX <= ref then
      var d := ref[|WEIGHT_PREFIX|..];
      match FirstWeight(ctx.weights, d)
      case None => true
      case Some(w) => d in WeightMap(ctx.weights) && WeightMap(ctx.weights)[d] == w
    else true
  }

  lemma RefReadingsEqualIff(ref: string, ctx: EvalContext)
    requires EvalRef(ref, ctx).Value?
    ensures EvalRef(ref, ctx) == Value(PushedRef(ref, ctx)) <==> RefAgrees(ref, ctx)
  {
    if WEIGHT_PREFIX <= ref && !(SCORE_PREFIX <= ref) {
      FirstWeightIsMapped(ctx.weights, ref[|WEIGHT_PREFIX|..]);
    }
  }

  lemma {:induction false} FirstWeightIsMapped(ws: seq<WeightConfig>, d: string)
    ensures FirstWeight(ws, d).Some? <==> exists i :: 0 <= i < |ws| && ws[i].domain == d
    ensures FirstWeight(ws, d).Some? <==> d in WeightMap(ws)
  {
    FirstWeightOccurs(ws, d);
    DomainIsMapped(ws, d);
  }

  lemma {:induction false} FirstWeightOccurs(ws: seq<WeightConfig>, d: string)
    ensures FirstWeight(ws, d).Some? <==> exists i :: 0 <= i < |ws| && ws[i].domain == d
    ensures FirstWeight(ws, d).Some? ==>
            exists i :: 0 <= i < |ws| && ws[i].domain == d && ws[i].weight == FirstWeight(ws, d).value
  {
    if ws != [] && ws[0].domain != d {
      FirstWeightOccurs(ws[1..], d);
      assert forall i :: 0 <= i < |ws| - 1 ==> ws[1..][i] == ws[i + 1];
      if i :| 0 <= i < |ws| && ws[i].domain == d {
        assert ws[1..][i - 1].domain == d;
      }
    }
  }

  lemma {:induction false} DomainIsMapped(ws: seq<WeightConfig>, d: string)
    ensures d in WeightMap(ws) <==> exists i :: 0 <= i < |ws| && ws[i].domain == d
  {
    if ws != [] {
      var n := |ws| - 1;
      DomainIsMapped(ws[..n], d);
      assert (exists i :: 0 <= i < |ws| && ws[i].domain == d) <==>
        ws[n].domain == d || exists i :: 0 <= i < n && ws[..n][i].domain == d;
    }
  }

  predicate AllRefsAgree(ast: FormulaAST, ctx: EvalContext)
    requires WellFormed(ast)
  {
    if IsBinary(ast.op) then AllRefsAgree(ast.left.value, ctx) && AllRefsAgree(ast.right.value, ctx)
    else ast.op.OpRef? ==> RefAgrees(ast.ref, ctx)
  }

  lemma {:induction false} EvaluatorIsLenientValue(ast: FormulaAST, ctx: EvalContext, hooks: Hooks)
    requires WellFormed(ast) && Supported(ast, ctx) && AllRefsAgree(ast, ctx)
    ensures EvalAST(ast, ctx, hooks) == Value(LenientValue(ast, ctx, hooks))
  {
    if IsBinary(ast.op) {
      EvaluatorIsLenientValue(ast.left.value, ctx, hooks);
      EvaluatorIsLenientValue(ast.right.value, ctx, hooks);
    } else if ast.op.OpRef? {
      RefReadingsEqualIff(ast.ref, ctx);
    }
  }

  /** Main theorem: whenever the evaluator succeeds and its references read alike, running the
      compiled code gives the evaluator's value; on any well-formed tree it gives the lenient value. */
  lemma CompiledAgreesWithEvaluator(ast: FormulaAST, ctx: EvalContext, hooks: Hooks)
    ensures WellFormed(ast) ==> Top(Exec(CompileAST(ast), [], ctx, hooks)) == LenientValue(ast, ctx, hooks)
    ensures EvalAST(ast, ctx, hooks).Value? ==> WellFormed(ast)
    ensures EvalAST(ast, ctx, hooks).Value? && AllRefsAgree(ast, ctx) ==>
      EvalAST(ast, ctx, hooks) == Value(Top(Exec(CompileAST(ast), [], ctx, hooks)))
  {
    EvaluatorSucceedsIff(ast, ctx, hooks);
    if WellFormed(ast) {
      CompiledCodePushesValue(ast, [], ctx, hooks);
      if Supported(ast, ctx) && AllRefsAgree(ast, ctx) {
        EvaluatorIsLenientValue(ast, ctx, hooks);
      }
    }
  }

  predicate DistinctWeightDomains(ws: seq<WeightConfig>) {
    forall i, j :: 0 <= i < j < |ws| ==> ws[i].domain != ws[j].domain
  }

  lemma DistinctDomainsReadAlike(ws: seq<WeightConfig>, d: string)
    requires DistinctWeightDomains(ws) && FirstWeight(ws, d).Some?
    ensures d in WeightMap(ws) && WeightMap(ws)[d] == FirstWeight(ws, d).value
  {
    FirstWeightOccurs(ws, d);
    WeightMapLastWins(ws, d);
    var i: nat :| i < |ws| && ws[i].domain == d && ws[i].weight == FirstWeight(ws, d).value;
    assert IsLastFor(ws, i, d);
  }

  /** With intrinsic at one and no domain configured twice, every reference reads alike. */
  lemma {:induction false} OrdinaryContextsAgree(ast: FormulaAST, ctx: EvalContext)
    requires WellFormed(ast) && ctx.risk.intrinsic == 1.0 && DistinctWeightDomains(ctx.weights)
    ensures AllRefsAgree(ast, ctx)
  {
    if IsBinary(ast.op) {
      OrdinaryContextsAgree(ast.left.value, ctx);
      OrdinaryContextsAgree(ast.right.value, ctx);
    } else if ast.op.OpRef? && WEIGHT_PREFIX <= ast.ref {
      var d := ast.ref[|WEIGHT_PREFIX|..];
      if FirstWeight(ctx.weights, d).Some? {
        DistinctDomainsReadAlike(ctx.weights, d);
      }
    }
  }

  lemma CompilerCorrect(ast: FormulaAST, ctx: EvalContext, hooks: Hooks)
    requires ctx.risk.intrinsic == 1.0 && DistinctWeightDomains(ctx.weights)
    requires EvalAST(ast, ctx, hooks).Value?
    ensures EvalAST(ast, ctx, hooks) == Value(Top(Exec(CompileAST(ast), [], ctx, hooks)))
  {
    CompiledAgreesWithEvaluator(ast, ctx, hooks);
    OrdinaryContextsAgree(ast, ctx);
  }

  /** Intrinsic is one, and the first and the last entry of each configured domain carry the same weight. */
  predicate ReadsAlike(ctx: EvalContext) {
    && ctx.risk.intrinsic == 1.0
    && forall w :: w in ctx.weights ==>
         w.domain in WeightMap(ctx.weights)
         && FirstWeight(ctx.weights, w.domain) == Some(WeightMap(ctx.weights)[w.domain])
  }

  lemma {:induction false} AlikeContextsAgree(ast: FormulaAST, ctx: EvalContext)
    requires WellFormed(ast) && ReadsAlike(ctx)
    ensures AllRefsAgree(ast, ctx)
  {
    if IsBinary(ast.op) {
      AlikeContextsAgree(ast.left.value, ctx);
      AlikeContextsAgree(ast.right.value, ctx);
    } else if ast.op.OpRef? && WEIGHT_PREFIX <= ast.ref {
      var d := ast.ref[|WEIGHT_PREFIX|..];
      FirstWeightOccurs(ctx.weights, d);
      if i :| 0 <= i < |ctx.weights| && ctx.weights[i].domain == d {
        assert ctx.weights[i] in ctx.weights;
      }
    }
  }

  function RefTree(ref: string): FormulaAST {
    FormulaAST(OpRef, None, None, ref, 0.0)
  }

  lemma RefTreeAgreesIff(ref: string, ctx: EvalContext, hooks: Hooks)
    requires EvalRef(ref, ctx).Value?
    ensures EvalAST(RefTree(ref), ctx, hooks).Value?
    ensures EvalAST(RefTree(ref), ctx, hooks) == Value(Top(Exec(CompileAST(RefTree(ref)), [], ctx, hooks)))
            <==> RefAgrees(ref, ctx)
  {
    RefReadingsEqualIff(ref, ctx);
    hide EvalRef, RefAgrees;
    CompiledCodePushesValue(RefTree(ref), [], ctx, hooks);
  }

  lemma WeightRef(d: string, ctx: EvalContext)
    requires FirstWeight(ctx.weights, d).Some?
    ensures EvalRef(WEIGHT_PREFIX + d, ctx) == Value(FirstWeight(ctx.weights, d).value)
    ensures RefAgrees(WEIGHT_PREFIX + d, ctx) <==>
              d in WeightMap(ctx.weights) && FirstWeight(ctx.weights, d) == Some(WeightMap(ctx.weights)[d])
  {
    var ref := WEIGHT_PREFIX + d;
    assert ref[|WEIGHT_PREFIX|..] == d && ref[0] == 'w';
    assert !(SCORE_PREFIX <= ref) by { assert SCORE_PREFIX[0] != ref[0]; }
  }

  /** Evaluator and compiled code agree on every tree the evaluator accepts if and only if the context reads alike. */
  lemma CompilerCorrectIff(ctx: EvalContext, hooks: Hooks)
    ensures ReadsAlike(ctx) <==>
      forall ast :: EvalAST(ast, ctx, hooks).Value? ==>
        EvalAST(ast, ctx, hooks) == Value(Top(Exec(CompileAST(ast), [], ctx, hooks)))
  {
    hide EvalAST, Exec, CompileAST, RefTree;
    if ReadsAlike(ctx) {
      forall ast | EvalAST(ast, ctx, hooks).Value?
        ensures EvalAST(ast, ctx, hooks) == Value(Top(Exec(CompileAST(ast), [], ctx, hooks)))
      {
        CompiledAgreesWithEvaluator(ast, ctx, hooks);
        AlikeContextsAgree(ast, ctx);
      }
    } else if ctx.risk.intrinsic != 1.0 {
      RefTreeAgreesIff("intrinsic", ctx, hooks);
    } else {
      var w :| w in ctx.weights && !(w.domain in WeightMap(ctx.weights)
                                     && FirstWeight(ctx.weights, w.domain) == Some(WeightMap(ctx.weights)[w.domain]));
      FirstWeightOccurs(ctx.weights, w.domain);
      WeightRef(w.domain, ctx);
      RefTreeAgreesIff(WEIGHT_PREFIX + w.domain, ctx, hooks);
    }
  }

  /** Two entries for one domain: the evaluator reads the first, compiled code the last. */
  lemma DuplicateWeightReadsDiffer(ctx: EvalContext, hooks: Hooks)
    requires ctx.weights == [WeightConfig("d", 1.0), WeightConfig("d", 2.0)]
    ensures var ast := FormulaAST(OpRef, None, None, WEIGHT_PREFIX + "d", 0.0);
            && EvalAST(ast, ctx, hooks) == Value(1.0)
            && Top(Exec(CompileAST(ast), [], ctx, hooks)) == 2.0
  {
    var ast := FormulaAST(OpRef, None, None, WEIGHT_PREFIX + "d", 0.0);
    assert ast.ref[|WEIGHT_PREFIX|..] == "d";
    assert !(SCORE_PREFIX <= ast.ref) by { assert SCORE_PREFIX[0] != ast.ref[0]; }
    assert ast.ref[0] == 'w';
    WeightMapLastWins(ctx.weights, "d");
    assert IsLastFor(ctx.weights, 1, "d");
    CompiledCodePushesValue(ast, [], ctx, hooks);
  }
}
