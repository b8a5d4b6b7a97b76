/**
 * The declarations of `types.ts`, plus the JavaScript values the library moves
 * between the query string and the form.
 */
module Types {
  import opened Wrappers

  /** `ParamDefType`: the five decoding kinds a definition may name. */
  datatype ParamDefType = BooleanType | ArrayType | NumberType | StringType | ObjectType

  /** The `strategy` of a definition; an absent strategy behaves as `TwoWay`. */
  datatype Strategy = ModelToUrl | TwoWay

  /** The event channel that re-encodes a definition: `'change'` or `'submit'`. */
  datatype Trigger = Change | Submit

  /**
   * A JavaScript value as far as the library inspects it: the leaves a form
   * control can hold, arrays, and records (form groups, or the decoded tree).
   * `Num` is an integral number the model can print; `NumberOf(raw)` and
   * `JsonOf(raw)` stand for the results of `+raw` and `JSON.parse(raw)`, which
   * the model does not interpret.
   */
  datatype Value =
    | Undefined
    | Null
    | Str(s: string)
    | Bool(b: bool)
    | Num(n: int)
    | NumberOf(raw: string)
    | JsonOf(raw: string)
    | Arr(items: seq<Value>)
    | Rec(fields: map<string, Value>)

  /**
   * One binding of a query key to a form path (`QueryParamParams` with the
   * `trigger` the definition object carries). `path` defaults to `queryKey`;
   * `parser` and `serializer` are the optional custom closures.
   */
  datatype QueryParamDef = QueryParamDef(
    queryKey: string,
    path: Option<string>,
    paramType: Option<ParamDefType>,
    strategy: Option<Strategy>,
    trigger: Trigger,
    parser: Option<string -> Value>,
    serializer: Option<Value -> string>)

  /** The dotted form path a definition addresses. */
  function PathOf(def: QueryParamDef): string
  {
    if def.path.Some? then def.path.value else def.queryKey
  }

  /** A `modelToUrl` definition only ever writes the URL; every other one also reads it. */
  predicate ReadsUrl(def: QueryParamDef)
  {
    def.strategy != Some(ModelToUrl)
  }
}
