/** The filter expression tree that the compiler consumes. */
module Ast {

  /**
   * The payload of an ExpressionValue: `Null` is Java's null, `Str` a String,
   * `Num` an integral number, `List` the java.util.List carried by IN and BETWEEN.
   */
  datatype Value = Null | Str(chars: string) | Num(n: int) | List(items: seq<Value>)

  /** The operator constants that the visitor's switch statements name. */
  datatype Operator =
    | AND | OR | NOT
    | STARTS | ENDS | CONTAINS | EQUALS
    | LT | LTE | EQ | GT | GTE
    | IN | BETWEEN
  {
    /** The operators that have a case in the binary-expression switch. */
    predicate IsComparison() { !(AND? || OR? || NOT?) }

    /** The operators that have a case in the compound-expression switch. */
    predicate IsConnective() { AND? || OR? }
  }

  /**
   * The five node kinds. A BinaryExpression's left operand is always a field and
   * its right operand always a value, so `Binary` holds the field's name and the
   * value directly; `FieldNode` and `ValueNode` are those kinds met on their own.
   */
  datatype Expr =
    | Binary(field: string, op: Operator, value: Value)
    | Compound(connective: Operator, left: Expr, right: Expr)
    | Unary(operand: Expr)
    | FieldNode(name: string)
    | ValueNode(literal: Value)
}
