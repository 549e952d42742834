/**
 * The two collaborators that rename fields: the static `fieldMap` and the
 * optional FieldValueTransformer, both given as partial functions.
 */
module FieldMapping {
  import opened Wrappers
  import opened Ast

  /** What transformValue returns: a possibly new field name and a possibly null value. */
  datatype FieldValuePair = FieldValuePair(field: Option<string>, value: Value)

  /**
   * A FieldValueTransformer. `None` results are Java nulls. Being functions,
   * both are deterministic, which the visitor relies on when it calls
   * transformField twice for one name.
   */
  datatype Transformer = Transformer(
    transformField: string -> Option<string>,
    transformValue: (string, Value) -> Option<FieldValuePair>)

  /**
   * The visitor's configuration. A map entry whose value is null behaves as a
   * missing key (`fieldMap.get(name) != null` is the test), so it is absent here.
   */
  datatype Config = Config(fieldMap: Option<map<string, string>>, transformer: Option<Transformer>)

  /** Which of the three naming rules produced a field's output name. */
  datatype Resolution = FromFieldMap(name: string) | FromTransformer(name: string) | Unmapped(name: string)

  /** The name resolution order of mappedFieldName: map entry, then transformer, then the raw name. */
  function Resolve(cfg: Config, fieldName: string): (r: Resolution)
    ensures r.FromTransformer? ==> cfg.transformer.Some?
    ensures r.Unmapped? ==> r.name == fieldName
  {
    if cfg.fieldMap.Some? && fieldName in cfg.fieldMap.value then
      FromFieldMap(cfg.fieldMap.value[fieldName])
    else if cfg.transformer.Some? && cfg.transformer.value.transformField(fieldName).Some? then
      FromTransformer(cfg.transformer.value.transformField(fieldName).value)
    else
      Unmapped(fieldName)
  }

  /**
   * The value after transformValue(fieldName, v): replaced only by a non-null
   * value of a non-null pair; the pair's field part is never used.
   */
  function ApplyTransform(t: Transformer, fieldName: string, v: Value): (r: Value)
  {
    match t.transformValue(fieldName, v)
    case Some(pair) => if pair.value != Null then pair.value else v
    case None => v
  }
}
