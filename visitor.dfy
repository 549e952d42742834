/**
 * JpaSpecificationExpressionVisitor as a class: the configuration is fixed at
 * construction and `fieldStack` is the one field its methods update. Each
 * method is proved against the functions of module Compiler.
 */
module Visitor {
  import opened Wrappers
  import opened Ast
  import opened Criteria
  import opened FieldMapping
  import opened Compiler

  class JpaSpecificationVisitor {
    const config: Config
    /** The pending original field names, top first. */
    var fieldStack: seq<string>

    constructor (fieldMap: Option<map<string, string>>, transformer: Option<Transformer>)
      ensures config == Config(fieldMap, transformer)
      ensures fieldStack == []
    {
      config := Config(fieldMap, transformer);
      fieldStack := [];
    }

    /**
     * Resolves a field's output name: a fieldMap entry first (no push), else a
     * transformer name (pushing the original name), else the name itself.
     */
    method MappedFieldName(fieldName: string) returns (name: string)
      modifies this
      ensures name == Resolve(config, fieldName).name
      ensures Resolve(config, fieldName).FromFieldMap? ==> fieldStack == old(fieldStack)
      ensures Resolve(config, fieldName).FromTransformer? ==> fieldStack == [fieldName] + old(fieldStack)
      ensures Resolve(config, fieldName).Unmapped? ==> name == fieldName && fieldStack == old(fieldStack)
    {
      if config.fieldMap.Some? && fieldName in config.fieldMap.value {
        name := config.fieldMap.value[fieldName];
      } else if config.transformer.Some? && config.transformer.value.transformField(fieldName).Some? {
        name := config.transformer.value.transformField(fieldName).value;
        fieldStack := [fieldName] + fieldStack;
      } else {
        name := fieldName;
      }
    }

    /**
     * Pairs a value with the field on top of the stack: pops only when the
     * stack is non-empty and a transformer exists, and keeps the value unless
     * transformValue gives a pair with a non-null value.
     */
    method TransformedValue(v: Value) returns (w: Value)
      modifies this
      ensures old(fieldStack) != [] && config.transformer.Some? ==>
        fieldStack == old(fieldStack)[1..] &&
        w == ApplyTransform(config.transformer.value, old(fieldStack)[0], v)
      ensures !(old(fieldStack) != [] && config.transformer.Some?) ==>
        fieldStack == old(fieldStack) && w == v
      ensures (fieldStack, w) == PopAndTransform(config, old(fieldStack), v)
    {
      w := v;
      if fieldStack != [] && config.transformer.Some? {
        var field := fieldStack[0];
        fieldStack := fieldStack[1..];
        var pair := config.transformer.value.transformValue(field, v);
        if pair.Some? && pair.value.value != Null {
          w := pair.value.value;
        }
      }
    }

    /** Evaluates one leaf: names the field, pairs the value, builds the comparison. */
    method VisitBinary(field: string, op: Operator, value: Value) returns (r: Result<Pred, Failure>)
      modifies this
      ensures Step(r, fieldStack) == Compile(config, Binary(field, op, value), old(fieldStack))
    {
      var name := MappedFieldName(field);
      var paired := TransformedValue(value);
      r := LeafPredicate(op, name, paired);
    }

    /** AND and OR evaluate the left operand, then the right, and combine; any other connective builds nothing. */
    method VisitCompound(connective: Operator, left: Expr, right: Expr) returns (r: Result<Pred, Failure>)
      modifies this
      ensures Step(r, fieldStack) == Compile(config, Compound(connective, left, right), old(fieldStack))
      decreases Compound(connective, left, right), 0
    {
      if connective.IsConnective() {
        var a := Accept(left);
        if a.Err? {
          return a;
        }
        var b := Accept(right);
        if b.Err? {
          return b;
        }
        r := Ok(Connect(connective, a.value, b.value));
      } else {
        r := Ok(NoPredicate);
      }
    }

    /** NOT wraps its operand's predicate. */
    method VisitUnary(operand: Expr) returns (r: Result<Pred, Failure>)
      modifies this
      ensures Step(r, fieldStack) == Compile(config, Unary(operand), old(fieldStack))
      decreases Unary(operand), 0
    {
      var inner := Accept(operand);
      if inner.Err? {
        return inner;
      }
      r := Ok(Not(inner.value));
    }

    /** A field met on its own is handled by its binary parent: nothing is built. */
    method VisitField(name: string) returns (r: Result<Pred, Failure>)
      ensures r == Ok(NoPredicate)
    {
      r := Ok(NoPredicate);
    }

    /** A value met on its own is handled by its binary parent: nothing is built. */
    method VisitValue(literal: Value) returns (r: Result<Pred, Failure>)
      ensures r == Ok(NoPredicate)
    {
      r := Ok(NoPredicate);
    }

    /** The double dispatch of Expression.accept. */
    method Accept(e: Expr) returns (r: Result<Pred, Failure>)
      modifies this
      ensures Step(r, fieldStack) == Compile(config, e, old(fieldStack))
      decreases e, 1
    {
      match e
      case Binary(f, op, v) =>
        r := VisitBinary(f, op, v);
      case Compound(c, left, right) =>
        r := VisitCompound(c, left, right);
      case Unary(x) =>
        r := VisitUnary(x);
      case FieldNode(name) =>
        r := VisitField(name);
      case ValueNode(literal) =>
        r := VisitValue(literal);
    }

    /**
     * Compiles a root that may be null: a null root gives no predicate and
     * touches nothing. From an empty stack, which the constructor establishes
     * and every call restores, the result is the stateless reference's and the
     * stack is empty again.
     */
    method Expression(root: Option<Expr>) returns (r: Result<Pred, Failure>)
      modifies this
      ensures root.None? ==> r == Ok(NoPredicate) && fieldStack == old(fieldStack)
      ensures root.Some? ==> Step(r, fieldStack) == Compile(config, root.value, old(fieldStack))
      ensures old(fieldStack) == [] ==> fieldStack == []
      ensures old(fieldStack) == [] && root.Some? ==> r == Direct(config, root.value)
    {
      if root.None? {
        r := Ok(NoPredicate);
      } else {
        r := Accept(root.value);
        CompileAgreesWithDirect(config, root.value);
      }
    }
  }
}
