/** JSON values, filter trees and events: the data every component shares. */
module Values {

  datatype Option<+T> = None | Some(value: T)

  datatype Json =
    | JNull
    | JBool(b: bool)
    | JInt(i: int)
    | JReal(r: real)
    | JString(s: string)
    | JArray(items: seq<Json>)
    | JObject(fields: map<string, Json>)

  datatype FilterOp = Eq | Ne | Lt | Le | Gt | Ge | Match | NoMatch | In | Contains

  /** The right-hand side of a leaf. `VNone` is what the parser leaves behind when it recognises
      no value: the type tag of the zeroed struct, which equals no scalar's tag. */
  datatype FilterValue =
    | VString(s: string)
    | VInt(i: int)
    | VReal(r: real)
    | VBool(b: bool)
    | VRegex(pattern: string)
    | VNone

  datatype FilterNode =
    | And(left: FilterNode, right: FilterNode)
    | Or(left: FilterNode, right: FilterNode)
    | Not(operand: FilterNode)
    | Leaf(field: string, op: FilterOp, value: FilterValue)

  datatype EventKind = Log | Network | Correlation | Error

  /** `inputFilter` is the filter of the input the event came from, if it has an input with one. */
  datatype Event = Event(kind: EventKind, timestamp: nat, inputFilter: Option<FilterNode>, data: Option<Json>)

  const U32: nat := 0x1_0000_0000
  const U64: nat := 0x1_0000_0000_0000_0000
  const NS_PER_MS: nat := 1_000_000

  /** Subtraction of two `uint64_t` values. */
  function SubU64(a: nat, b: nat): nat {
    (a - b) % U64
  }
}
