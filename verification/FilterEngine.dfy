/** Evaluation of filter trees against the JSON object of an event. */
module FilterEngine {
  import opened Values

  /** PCRE2, as a parameter: `None` when the pattern does not compile, else whether it matches. */
  type RegexEngine = (string, string) -> Option<bool>

  predicate EqualTo(value: FilterValue, field: Json) {
    match field
    case JString(s) => value == VString(s)
    case JInt(i) => value == VInt(i)
    case JReal(r) => value == VReal(r)
    case JBool(b) => value == VBool(b)
    case _ => false
  }

  predicate Compare(op: FilterOp, a: real, b: real) {
    match op
    case Lt => a < b
    case Le => a <= b
    case Gt => a > b
    case Ge => a >= b
    case _ => false
  }

  function Number(field: Json): Option<real> {
    match field
    case JInt(i) => Some(i as real)
    case JReal(r) => Some(r)
    case _ => None
  }

  function ValueNumber(value: FilterValue): Option<real> {
    match value
    case VInt(i) => Some(i as real)
    case VReal(r) => Some(r)
    case _ => None
  }

  predicate EvaluateLeaf(re: RegexEngine, field: string, op: FilterOp, value: FilterValue, data: Json) {
    data.JObject? && field in data.fields &&
    var actual := data.fields[field];
    match op
    case Eq => EqualTo(value, actual)
    case Ne => !EqualTo(value, actual)
    case Match => actual.JString? && value.VRegex? && re(value.pattern, actual.s) == Some(true)
    case NoMatch => actual.JString? && value.VRegex? && re(value.pattern, actual.s) == Some(false)
    case In => false
    case Contains => false
    case _ =>
      Number(actual).Some? && ValueNumber(value).Some? &&
      Compare(op, Number(actual).value, ValueNumber(value).value)
  }

  predicate Evaluate(re: RegexEngine, node: FilterNode, data: Json) {
    match node
    case And(l, r) => Evaluate(re, l, data) && Evaluate(re, r, data)
    case Or(l, r) => Evaluate(re, l, data) || Evaluate(re, r, data)
    case Not(n) => !Evaluate(re, n, data)
    case Leaf(field, op, value) => EvaluateLeaf(re, field, op, value, data)
  }

  /** A filter never matches an event that carries no data. */
  predicate Matches(re: RegexEngine, filter: FilterNode, event: Event) {
    event.data.Some? && Evaluate(re, filter, event.data.value)
  }
}
