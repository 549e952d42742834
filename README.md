# Filter-expression compiler: a verified model

This project models `JpaSpecificationExpressionVisitor`, the visitor that turns a
parsed filter-expression tree into one JPA `Specification`. The tree has five node
kinds: Binary (`field OP value`), Compound (AND/OR), Unary (NOT), Field and Value.
For each Binary leaf the visitor does four things in order:

1. It resolves the field's name through the static `fieldMap`, then through the
   `FieldValueTransformer`, then falls back to the raw name.
2. When the transformer named the field, it pushes the original name onto the
   instance's `fieldStack`.
3. It pops that name again and uses it to transform the leaf's value.
4. It switches on the operator to pick a CriteriaBuilder call.

AND, OR and NOT are composed in the shape of the tree.

Files:

- `ast.dfy`: the tree, its operand values and the operator constants.
- `criteria.dfy`: the predicates the CriteriaBuilder and Spring's combinators build, as
  an abstract datatype `Pred`. It also holds a reference reading of SQL `LIKE`, with
  lemmas that say which strings the STARTS, ENDS and CONTAINS patterns match.
- `javatext.dfy`: how Java renders an operand when it is concatenated with `"%"`.
- `fieldmapping.dfy`: `fieldMap` and `FieldValueTransformer` as given partial functions,
  the name-resolution order (`Resolve`) and the pair-replacement rule (`ApplyTransform`).
- `compiler.dfy`: `Compile`, what evaluating the built specification does. It is one
  left-to-right traversal that threads `fieldStack`. Beside it is `Direct`, a stateless
  reference in which every leaf hands its own original name to its own value transform.
  The lemmas relate the two and say what each operator builds.
- `visitor.dfy`: the class `JpaSpecificationVisitor` with its `fieldStack: seq<string>`
  (top first). `MappedFieldName` and `TransformedValue` are proved against `Resolve`,
  `PushIfTransformed` and `PopAndTransform`. `VisitField` and `VisitValue` are proved to
  build nothing. `VisitBinary`, `VisitCompound`, `VisitUnary` and `Accept` (the recursive
  ones) and `Expression` are proved against `Compile`.

The visitor's naming, push, pop and value steps run inside the anonymous
`toPredicate`. In other words they run when the specification is evaluated, and
Spring evaluates the left operand of a composition before the right one. The class
therefore runs that evaluation directly, as one traversal. The main result is
`Compiler.CompileAgreesWithDirect`, which says that from an empty stack two things
hold:

- the tree leaves the stack empty;
- the visitor builds exactly the predicate that the stateless pairing builds.

So no leaf's value is ever transformed under another leaf's field name.
`Compiler.LeafStackDiscipline` shows that this depends on the stack being empty on
entry. A leaf that takes no transformer path would consume an entry that some other
leaf had left on the stack.

Some behaviour of the code is worth stating outright:

- EQUALS builds `equal(path, v)`.
- A null IN operand passes the cast, and the null list reaches `in(path).value(…)`.
  The model records this as `InNull(path)`.
- The pop requires both a non-empty stack and a non-null transformer.
- A bad IN or BETWEEN operand raises the Java exception of the cast or of `get(i)`:
  `ClassCast`, `IndexOutOfBounds` or `NullPointer`.

## Model

| member | source | states |
|---|---|---|
| `Visitor.JpaSpecificationVisitor.constructor` | src/main/java/com/intuit/graphql/filter/visitors/JpaSpecificationExpressionVisitor.java:52-58 | keeps the field map and transformer; the field stack starts empty |
| `Visitor.JpaSpecificationVisitor.Expression` | src/main/java/com/intuit/graphql/filter/visitors/JpaSpecificationExpressionVisitor.java:67-72 | a null root gives no predicate, not an error, and leaves the stack alone; a non-null root is dispatched; from an empty stack the stack ends empty and the result is the stateless pairing's |
| `Visitor.JpaSpecificationVisitor.MappedFieldName` | src/main/java/com/intuit/graphql/filter/visitors/JpaSpecificationExpressionVisitor.java:86-97 | a non-null map entry wins and nothing is pushed; otherwise a non-null transformer name is used and the original name is pushed; otherwise the raw name is kept and nothing is pushed |
| `Visitor.JpaSpecificationVisitor.TransformedValue` | src/main/java/com/intuit/graphql/filter/visitors/JpaSpecificationExpressionVisitor.java:75-84 | pops only when the stack is non-empty and a transformer exists; the value changes only to the non-null value of a non-null pair, transformed under the popped name; otherwise nothing changes |
| `Visitor.JpaSpecificationVisitor.VisitBinary` | src/main/java/com/intuit/graphql/filter/visitors/JpaSpecificationExpressionVisitor.java:107-179 | names the field, pairs the value, then switches on the operator, as evaluation of the leaf does, with the stack it leaves |
| `Visitor.JpaSpecificationVisitor.VisitCompound` | src/main/java/com/intuit/graphql/filter/visitors/JpaSpecificationExpressionVisitor.java:188-208 | AND and OR evaluate the left operand before the right and combine them in tree shape; a failure stops evaluation; another connective builds nothing and visits nothing |
| `Visitor.JpaSpecificationVisitor.VisitUnary` | src/main/java/com/intuit/graphql/filter/visitors/JpaSpecificationExpressionVisitor.java:244-248 | NOT wraps its operand's predicate |
| `Visitor.JpaSpecificationVisitor.VisitField` | src/main/java/com/intuit/graphql/filter/visitors/JpaSpecificationExpressionVisitor.java:217-221 | a field visited on its own builds nothing |
| `Visitor.JpaSpecificationVisitor.VisitValue` | src/main/java/com/intuit/graphql/filter/visitors/JpaSpecificationExpressionVisitor.java:230-235 | a value visited on its own builds nothing |
| `Visitor.JpaSpecificationVisitor.Accept` | src/main/java/com/intuit/graphql/filter/visitors/JpaSpecificationExpressionVisitor.java:195-203 | dispatching a node evaluates it as `Compile` does, stack included |
| `FieldMapping.Resolve` | src/main/java/com/intuit/graphql/filter/visitors/JpaSpecificationExpressionVisitor.java:88-95 | the transformer path, the only one that pushes, needs a non-null transformer; the fallback keeps the raw name |
| `JavaText.NatText` | src/main/java/com/intuit/graphql/filter/visitors/JpaSpecificationExpressionVisitor.java:125 | a number renders as a non-empty string of decimal digits with no leading zero |
| `JavaText.NatTextDenotes` | src/main/java/com/intuit/graphql/filter/visitors/JpaSpecificationExpressionVisitor.java:125 | the decimal digits rendered for n denote n |
| `Compiler.LeafStackDiscipline` | src/main/java/com/intuit/graphql/filter/visitors/JpaSpecificationExpressionVisitor.java:118-119 | a transformer-path leaf pushes and pops its own original name, leaving any stack as it found it; any other leaf leaves an empty stack empty, but would pop and use a foreign entry from a non-empty one |
| `Compiler.CompileAgreesWithDirect` | src/main/java/com/intuit/graphql/filter/visitors/JpaSpecificationExpressionVisitor.java:75-119 | from an empty stack every tree leaves the stack empty, and the stack-threading visitor builds what the stateless pairing builds |
| `Compiler.PairFieldIsIgnored` | src/main/java/com/intuit/graphql/filter/visitors/JpaSpecificationExpressionVisitor.java:78-81 | transformers that differ only in the field part of the returned pair compile every tree identically from every stack |
| `Compiler.FieldMapTakesPrecedence` | src/main/java/com/intuit/graphql/filter/visitors/JpaSpecificationExpressionVisitor.java:88-92 | from an empty stack, a map entry gives the mapped name and leaves the value untransformed, even if the transformer also knows the field |
| `Compiler.SiblingValuesStayPaired` | src/main/java/com/intuit/graphql/filter/visitors/JpaSpecificationExpressionVisitor.java:194-197 | in AND(x EQ a, y EQ b) where only x is transformer-named, a is transformed under x and b is untouched |
| `Compiler.CompilePreservesShape` | src/main/java/com/intuit/graphql/filter/visitors/JpaSpecificationExpressionVisitor.java:188-248 | a successful compilation has exactly the AND/OR/NOT nesting of its tree |
| `Compiler.FailuresComeFromRangeOperators` | src/main/java/com/intuit/graphql/filter/visitors/JpaSpecificationExpressionVisitor.java:165-174 | evaluation can fail only when it reaches an IN or BETWEEN leaf |
| `Compiler.StringOperatorsMatch` | src/main/java/com/intuit/graphql/filter/visitors/JpaSpecificationExpressionVisitor.java:124-138 | for an operand text without `%`, `_` or `\`, STARTS matches exactly the strings with that prefix, ENDS that suffix and CONTAINS that infix; EQUALS builds an equality |
| `Compiler.NumbersRenderLiterally` | src/main/java/com/intuit/graphql/filter/visitors/JpaSpecificationExpressionVisitor.java:125-133 | a numeric operand's text holds none of `%`, `_` and `\`, so the string operators match its digits literally |
| `Compiler.EqTestsNullWithIsNull` | src/main/java/com/intuit/graphql/filter/visitors/JpaSpecificationExpressionVisitor.java:149-155 | EQ builds IS NULL exactly for a null value, never an equality with null, and otherwise the same equality as EQUALS |
| `Compiler.OrderingOperatorsMapOneToOne` | src/main/java/com/intuit/graphql/filter/visitors/JpaSpecificationExpressionVisitor.java:141-163 | LT, LTE, GT and GTE map one to one onto lessThan, lessThanOrEqualTo, greaterThan and greaterThanOrEqualTo |
| `Compiler.RangeOperatorsUseTheList` | src/main/java/com/intuit/graphql/filter/visitors/JpaSpecificationExpressionVisitor.java:165-174 | IN keeps exactly the operand list; BETWEEN succeeds exactly on a list of at least two elements and uses elements 0 and 1 |
| `Compiler.OtherOperatorsBuildNothing` | src/main/java/com/intuit/graphql/filter/visitors/JpaSpecificationExpressionVisitor.java:117-175 | an operator with no case in the switch leaves the predicate null |
| `Criteria.StartsPatternMatchesPrefixes` | src/main/java/com/intuit/graphql/filter/visitors/JpaSpecificationExpressionVisitor.java:125 | `t + "%"` with t free of `%`, `_` and `\` matches exactly the strings starting with t |
| `Criteria.EndsPatternMatchesSuffixes` | src/main/java/com/intuit/graphql/filter/visitors/JpaSpecificationExpressionVisitor.java:129 | `"%" + t` with t free of `%`, `_` and `\` matches exactly the strings ending with t |
| `Criteria.ContainsPatternMatchesInfixes` | src/main/java/com/intuit/graphql/filter/visitors/JpaSpecificationExpressionVisitor.java:133 | `"%" + t + "%"` with t free of `%`, `_` and `\` matches exactly the strings containing t |
| `Criteria.UnescapedWildcardOvermatches` | src/main/java/com/intuit/graphql/filter/visitors/JpaSpecificationExpressionVisitor.java:124-126 | the operand is not escaped: STARTS with "a_" matches "abc" |

## Left out

- The JPA and Spring machinery (`CriteriaBuilder`, `Root.get`, `Path`, `CriteriaQuery`,
  `Specification.where/and/or/not`) is foreign library code. Its calls are
  constructors of `Pred`, and a path is the attribute name given to `root.get`.
- An attribute name that `root.get` rejects is a failure of that library call and is
  not modelled.
- Spring's treatment of a null operand in `and`, `or` and `not` is not modelled.
  A null child stays `NoPredicate` inside `And`, `Or` or `Not`.
- `LikeMatches`, the reference reading of SQL `LIKE`, compares characters
  case-sensitively and treats no character as an escape. The prefix, suffix and
  infix lemmas are stated only for operand text without `%`, `_` or `\`. On such
  text, backends that escape with a backslash by default agree with the reading.
  Case-insensitive collations do not: they match more strings than the lemmas say.
- Concurrent or interleaved evaluation of specifications that share one visitor's
  unsynchronized `fieldStack` is not modelled. The model evaluates strictly one
  specification at a time, start to finish.
- The laziness of the anonymous `Specification` is not modelled. One evaluation of
  the built specification is modelled as one left-to-right traversal. Evaluating it
  again repeats that traversal, and from an empty stack it gives the same result.
- Operand values are null, strings, integers and lists. Floating point, dates,
  booleans and other `Comparable` types are left out, and so are Java generics and
  the `Comparable` ordering itself.
- A node whose operator is null (the `switch` would throw) is not modelled. Neither
  is a Binary node whose operands are not a field and a value (the cast at line 115).
  The tree's producer guarantees both.
- A `fieldMap` entry whose value is null behaves exactly like a missing key, and it
  is represented as one.
- `transformField` is assumed deterministic. The visitor calls it twice for one name,
  and the model has it as a function.
- The `System.out.println` in the constructor is I/O and is left out.
- `BaseFilterExpressionTest.java` is GraphQL schema wiring and file reading and is
  not part of this model.
