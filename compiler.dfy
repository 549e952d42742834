/**
 * What evaluating a compiled specification does, as functions. `Compile` is the
 * visitor's own behaviour: one left-to-right traversal that threads the
 * visitor's fieldStack through every leaf. `Direct` is a stateless reference
 * that hands each field's original name straight to its own value transform.
 * The lemmas relate the two and state what the compiled predicate means.
 */
module Compiler {
  import opened Wrappers
  import opened Ast
  import opened JavaText
  import opened Criteria
  import opened FieldMapping

  /** The exceptions a leaf can raise on a malformed IN or BETWEEN operand. */
  datatype Failure = ClassCast | IndexOutOfBounds | NullPointer

  /** The outcome of evaluating a subtree and the fieldStack it leaves (top first). */
  datatype Step = Step(result: Result<Pred, Failure>, stack: seq<string>)

  /** The operator switch of visitBinaryExpression, given the resolved path and the paired value. */
  function LeafPredicate(op: Operator, path: string, v: Value): Result<Pred, Failure>
  {
    match op
    case STARTS => Ok(Like(path, Text(v) + "%"))
    case ENDS => Ok(Like(path, "%" + Text(v)))
    case CONTAINS => Ok(Like(path, "%" + Text(v) + "%"))
    case EQUALS => Ok(Equal(path, v))
    case LT => Ok(LessThan(path, v))
    case LTE => Ok(LessThanOrEqualTo(path, v))
    case EQ => if v == Null then Ok(IsNull(path)) else Ok(Equal(path, v))
    case GT => Ok(GreaterThan(path, v))
    case GTE => Ok(GreaterThanOrEqualTo(path, v))
    case IN =>
      (match v
       case List(xs) => Ok(In(path, xs))
       case Null => Ok(InNull(path))
       case _ => Err(ClassCast))
    case BETWEEN =>
      (match v
       case List(xs) => if |xs| < 2 then Err(IndexOutOfBounds) else Ok(Between(path, xs[0], xs[1]))
       case Null => Err(NullPointer)
       case _ => Err(ClassCast))
    case _ => Ok(NoPredicate)
  }

  /** The Specification.where(left).and(right) / .or(right) combination. */
  function Connect(c: Operator, a: Pred, b: Pred): Pred
    requires c.IsConnective()
  {
    if c.AND? then And(a, b) else Or(a, b)
  }

  /** The stack after mappedFieldName: the original name is pushed only on the transformer path. */
  function PushIfTransformed(r: Resolution, fieldName: string, stack: seq<string>): seq<string>
  {
    if r.FromTransformer? then [fieldName] + stack else stack
  }

  /** getTransformedValue: pops and transforms when the stack is non-empty and a transformer exists. */
  function PopAndTransform(cfg: Config, stack: seq<string>, v: Value): (seq<string>, Value)
  {
    if stack != [] && cfg.transformer.Some? then
      (stack[1..], ApplyTransform(cfg.transformer.value, stack[0], v))
    else
      (stack, v)
  }

  /** One leaf: name the field (maybe pushing), pair the value (maybe popping), switch on the operator. */
  function CompileBinary(cfg: Config, fieldName: string, op: Operator, v: Value, stack: seq<string>): Step
  {
    var r := Resolve(cfg, fieldName);
    var (rest, w) := PopAndTransform(cfg, PushIfTransformed(r, fieldName, stack), v);
    Step(LeafPredicate(op, r.name, w), rest)
  }

  /**
   * Evaluation of the specification the visitor builds for `e`, starting from
   * `stack`. Left operands are evaluated before right ones; the first failure
   * aborts with the stack as it was at that point.
   */
  function Compile(cfg: Config, e: Expr, stack: seq<string>): Step
    decreases e
  {
    match e
    case Binary(f, op, v) => CompileBinary(cfg, f, op, v, stack)
    case Compound(c, l, r) =>
      if c.IsConnective() then
        var left := Compile(cfg, l, stack);
        if left.result.Err? then left
        else
          var right := Compile(cfg, r, left.stack);
          if right.result.Err? then right
          else Step(Ok(Connect(c, left.result.value, right.result.value)), right.stack)
      else
        Step(Ok(NoPredicate), stack)
    case Unary(x) =>
      var inner := Compile(cfg, x, stack);
      if inner.result.Err? then inner else Step(Ok(Not(inner.result.value)), inner.stack)
    case FieldNode(_) => Step(Ok(NoPredicate), stack)
    case ValueNode(_) => Step(Ok(NoPredicate), stack)
  }

  /** The value a leaf compares with, transformed under its own field's original name. */
  function PairedValue(cfg: Config, fieldName: string, v: Value): Value
  {
    if Resolve(cfg, fieldName).FromTransformer? then ApplyTransform(cfg.transformer.value, fieldName, v) else v
  }

  /** The stateless reference: no stack, each leaf pairs its value with its own field. */
  function Direct(cfg: Config, e: Expr): Result<Pred, Failure>
    decreases e
  {
    match e
    case Binary(f, op, v) => LeafPredicate(op, Resolve(cfg, f).name, PairedValue(cfg, f, v))
    case Compound(c, l, r) =>
      if !c.IsConnective() then Ok(NoPredicate)
      else
        (match Direct(cfg, l)
         case Err(x) => Err(x)
         case Ok(a) =>
           match Direct(cfg, r)
           case Err(x) => Err(x)
           case Ok(b) => Ok(Connect(c, a, b)))
    case Unary(x) =>
      (match Direct(cfg, x)
       case Err(y) => Err(y)
       case Ok(a) => Ok(Not(a)))
    case FieldNode(_) => Ok(NoPredicate)
    case ValueNode(_) => Ok(NoPredicate)
  }

  // ---------------------------------------------------------------------------
  // The fieldStack discipline

  /**
   * A leaf on the transformer path pushes its own original name and pops that
   * same name, whatever lies below; a leaf off that path leaves an empty stack
   * empty, but would consume a foreign entry left on a non-empty one.
   */
  lemma LeafStackDiscipline(cfg: Config, f: string, op: Operator, v: Value, s: seq<string>)
    ensures var r := Resolve(cfg, f);
      r.FromTransformer? ==>
        Compile(cfg, Binary(f, op, v), s) ==
          Step(LeafPredicate(op, r.name, ApplyTransform(cfg.transformer.value, f, v)), s)
    ensures var r := Resolve(cfg, f);
      !r.FromTransformer? && (s == [] || cfg.transformer.None?) ==>
        Compile(cfg, Binary(f, op, v), s) == Step(LeafPredicate(op, r.name, v), s)
    ensures var r := Resolve(cfg, f);
      !r.FromTransformer? && s != [] && cfg.transformer.Some? ==>
        Compile(cfg, Binary(f, op, v), s) ==
          Step(LeafPredicate(op, r.name, ApplyTransform(cfg.transformer.value, s[0], v)), s[1..])
  {
  }

  /**
   * Started on an empty fieldStack, evaluating any tree leaves it empty, and
   * the stack-threading visitor builds exactly what the stateless reference
   * builds: every value is transformed under its own field's name.
   */
  lemma {:induction false} CompileAgreesWithDirect(cfg: Config, e: Expr)
    ensures Compile(cfg, e, []) == Step(Direct(cfg, e), [])
    decreases e
  {
    match e
    case Binary(f, op, v) =>
      LeafStackDiscipline(cfg, f, op, v, []);
    case Compound(c, l, r) =>
      if c.IsConnective() {
        CompileAgreesWithDirect(cfg, l);
        CompileAgreesWithDirect(cfg, r);
      }
    case Unary(x) =>
      CompileAgreesWithDirect(cfg, x);
    case FieldNode(_) =>
    case ValueNode(_) =>
  }

  /**
   * Two transformers that agree on transformField and on the presence and value
   * of every transformValue pair, differing at most in the pair's field part,
   * give the same evaluation from every stack: that field part is never read.
   */
  lemma {:induction false} PairFieldIsIgnored(
    fieldMap: Option<map<string, string>>, t1: Transformer, t2: Transformer, e: Expr, s: seq<string>)
    requires forall f :: t1.transformField(f) == t2.transformField(f)
    requires forall f, v :: t1.transformValue(f, v).Some? == t2.transformValue(f, v).Some?
    requires forall f, v :: t1.transformValue(f, v).Some? ==>
      t1.transformValue(f, v).value.value == t2.transformValue(f, v).value.value
    ensures Compile(Config(fieldMap, Some(t1)), e, s) == Compile(Config(fieldMap, Some(t2)), e, s)
    decreases e
  {
    var c1, c2 := Config(fieldMap, Some(t1)), Config(fieldMap, Some(t2));
    match e
    case Binary(f, op, v) =>
      assert Resolve(c1, f) == Resolve(c2, f);
      var pushed := PushIfTransformed(Resolve(c1, f), f, s);
      if pushed != [] {
        assert ApplyTransform(t1, pushed[0], v) == ApplyTransform(t2, pushed[0], v);
      }
    case Compound(c, l, r) =>
      if c.IsConnective() {
        PairFieldIsIgnored(fieldMap, t1, t2, l, s);
        PairFieldIsIgnored(fieldMap, t1, t2, r, Compile(c1, l, s).stack);
      }
    case Unary(x) =>
      PairFieldIsIgnored(fieldMap, t1, t2, x, s);
    case FieldNode(_) =>
    case ValueNode(_) =>
  }

  // ---------------------------------------------------------------------------
  // Naming and pairing on whole leaves and trees

  /** A fieldMap entry wins over the transformer, and then no value transform happens. */
  lemma FieldMapTakesPrecedence(cfg: Config, f: string, op: Operator, v: Value)
    requires cfg.fieldMap.Some? && f in cfg.fieldMap.value
    ensures Compile(cfg, Binary(f, op, v), []) == Step(LeafPredicate(op, cfg.fieldMap.value[f], v), [])
  {
  }

  /**
   * In AND(x EQ a, y EQ b) where only x takes the transformer path, the
   * transform is applied to a under the name x, and b is left as it is.
   */
  lemma SiblingValuesStayPaired(cfg: Config, x: string, y: string, a: Value, b: Value)
    requires Resolve(cfg, x).FromTransformer? && !Resolve(cfg, y).FromTransformer?
    ensures Compile(cfg, Compound(AND, Binary(x, EQ, a), Binary(y, EQ, b)), []) ==
      Step(Ok(And(LeafPredicate(EQ, Resolve(cfg, x).name, ApplyTransform(cfg.transformer.value, x, a)).value,
                  LeafPredicate(EQ, Resolve(cfg, y).name, b).value)), [])
  {
  }

  // ---------------------------------------------------------------------------
  // Tree shape and failures

  /** The logical skeleton of an expression or a predicate. */
  datatype Shape = Leaf | Conj(Shape, Shape) | Disj(Shape, Shape) | Neg(Shape) | Absent

  function ExprShape(e: Expr): Shape
    decreases e
  {
    match e
    case Binary(_, op, _) => if op.IsComparison() then Leaf else Absent
    case Compound(c, l, r) =>
      if c.AND? then Conj(ExprShape(l), ExprShape(r))
      else if c.OR? then Disj(ExprShape(l), ExprShape(r))
      else Absent
    case Unary(x) => Neg(ExprShape(x))
    case FieldNode(_) => Absent
    case ValueNode(_) => Absent
  }

  function PredShape(p: Pred): Shape
  {
    match p
    case NoPredicate => Absent
    case And(a, b) => Conj(PredShape(a), PredShape(b))
    case Or(a, b) => Disj(PredShape(a), PredShape(b))
    case Not(a) => Neg(PredShape(a))
    case _ => Leaf
  }

  /** A successful compilation has exactly the AND/OR/NOT nesting of its tree. */
  lemma {:induction false} CompilePreservesShape(cfg: Config, e: Expr)
    ensures Compile(cfg, e, []).result.Ok? ==> PredShape(Compile(cfg, e, []).result.value) == ExprShape(e)
    decreases e
  {
    CompileAgreesWithDirect(cfg, e);
    match e
    case Binary(f, op, v) =>
    case Compound(c, l, r) =>
      if c.IsConnective() {
        CompileAgreesWithDirect(cfg, l);
        CompileAgreesWithDirect(cfg, r);
        CompilePreservesShape(cfg, l);
        CompilePreservesShape(cfg, r);
      }
    case Unary(x) =>
      CompileAgreesWithDirect(cfg, x);
      CompilePreservesShape(cfg, x);
    case FieldNode(_) =>
    case ValueNode(_) =>
  }

  /** Whether evaluating `e` reaches an IN or BETWEEN leaf. */
  predicate ReachesRangeOperator(e: Expr)
    decreases e
  {
    match e
    case Binary(_, op, _) => op.IN? || op.BETWEEN?
    case Compound(c, l, r) => c.IsConnective() && (ReachesRangeOperator(l) || ReachesRangeOperator(r))
    case Unary(x) => ReachesRangeOperator(x)
    case FieldNode(_) => false
    case ValueNode(_) => false
  }

  /** Only an IN or BETWEEN leaf can make a compilation fail. */
  lemma {:induction false} FailuresComeFromRangeOperators(cfg: Config, e: Expr, s: seq<string>)
    ensures Compile(cfg, e, s).result.Err? ==> ReachesRangeOperator(e)
    decreases e
  {
    match e
    case Binary(f, op, v) =>
    case Compound(c, l, r) =>
      if c.IsConnective() {
        FailuresComeFromRangeOperators(cfg, l, s);
        FailuresComeFromRangeOperators(cfg, r, Compile(cfg, l, s).stack);
      }
    case Unary(x) =>
      FailuresComeFromRangeOperators(cfg, x, s);
    case FieldNode(_) =>
    case ValueNode(_) =>
  }

  // ---------------------------------------------------------------------------
  // What each operator builds

  /**
   * For an operand whose text has no LIKE-special character, STARTS, ENDS and CONTAINS build
   * LIKE patterns that match exactly the strings with that text as a prefix, a
   * suffix and an infix; EQUALS builds an equality, not a LIKE.
   */
  lemma StringOperatorsMatch(path: string, w: Value)
    requires IsLiteral(Text(w))
    ensures var p := LeafPredicate(STARTS, path, w);
      p.Ok? && p.value.Like? && p.value.path == path &&
      forall s :: LikeMatches(p.value.pattern, s) <==> Text(w) <= s
    ensures var p := LeafPredicate(ENDS, path, w);
      p.Ok? && p.value.Like? && p.value.path == path &&
      forall s :: LikeMatches(p.value.pattern, s) <==> IsSuffixOf(Text(w), s)
    ensures var p := LeafPredicate(CONTAINS, path, w);
      p.Ok? && p.value.Like? && p.value.path == path &&
      forall s :: LikeMatches(p.value.pattern, s) <==> IsInfixOf(Text(w), s)
    ensures LeafPredicate(EQUALS, path, w) == Ok(Equal(path, w))
  {
    forall s | true
      ensures LikeMatches(Text(w) + "%", s) <==> Text(w) <= s
      ensures LikeMatches("%" + Text(w), s) <==> IsSuffixOf(Text(w), s)
      ensures LikeMatches("%" + Text(w) + "%", s) <==> IsInfixOf(Text(w), s)
    {
      StartsPatternMatchesPrefixes(Text(w), s);
      EndsPatternMatchesSuffixes(Text(w), s);
      ContainsPatternMatchesInfixes(Text(w), s);
    }
  }

  /** A number's text holds no LIKE-special character, so StringOperatorsMatch applies to every number. */
  lemma NumbersRenderLiterally(n: int)
    ensures IsLiteral(Text(Num(n)))
  {
  }

  /**
   * EQ builds an IS NULL test exactly when the value is null and otherwise the
   * same equality as EQUALS; it never builds an equality with null.
   */
  lemma EqTestsNullWithIsNull(path: string, w: Value)
    ensures LeafPredicate(EQ, path, w) == Ok(IsNull(path)) <==> w == Null
    ensures LeafPredicate(EQ, path, w) != Ok(Equal(path, Null))
    ensures w != Null ==> LeafPredicate(EQ, path, w) == LeafPredicate(EQUALS, path, w)
  {
  }

  /** LT, LTE, GT and GTE map one-to-one onto the four ordering comparisons. */
  lemma OrderingOperatorsMapOneToOne(path: string, w: Value)
    ensures LeafPredicate(LT, path, w) == Ok(LessThan(path, w))
    ensures LeafPredicate(LTE, path, w) == Ok(LessThanOrEqualTo(path, w))
    ensures LeafPredicate(GT, path, w) == Ok(GreaterThan(path, w))
    ensures LeafPredicate(GTE, path, w) == Ok(GreaterThanOrEqualTo(path, w))
  {
  }

  /**
   * IN keeps exactly the operand list; BETWEEN succeeds exactly on a list of at
   * least two elements and takes its elements 0 and 1 as the bounds.
   */
  lemma RangeOperatorsUseTheList(path: string, w: Value)
    ensures LeafPredicate(IN, path, w).Ok? <==> w.List? || w.Null?
    ensures w.List? ==> LeafPredicate(IN, path, w) == Ok(In(path, w.items))
    ensures LeafPredicate(BETWEEN, path, w).Ok? <==> w.List? && |w.items| >= 2
    ensures w.List? && |w.items| >= 2 ==>
      LeafPredicate(BETWEEN, path, w) == Ok(Between(path, w.items[0], w.items[1]))
  {
  }

  /** An operator with no case in the binary switch leaves the predicate null. */
  lemma OtherOperatorsBuildNothing(op: Operator, path: string, w: Value)
    requires !op.IsComparison()
    ensures LeafPredicate(op, path, w) == Ok(NoPredicate)
  {
  }
}
