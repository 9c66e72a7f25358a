/** The instructions and representations QPACK exchanges. */
module QpackSyntax {
  import opened Headers

  /** Encoder stream instructions (hc/qpackdecoder.go:197-242). */
  datatype Instr =
    | InsertNameStatic(index: nat, value: Str)
    | InsertNameDynamic(index: nat, value: Str)
    | InsertLiteral(name: Str, value: Str)
    | Duplicate(index: nat)
    | SetCapacity(capacity: nat)

  /** Header block representations (hc/qpackdecoder.go:421-478). */
  datatype Line =
    | IndexedStatic(index: nat)
    | IndexedDynamic(index: nat)
    | IndexedPostBase(index: nat)
    | NameStatic(index: nat, value: Str, sensitive: bool)
    | NameDynamic(index: nat, value: Str, sensitive: bool)
    | NamePostBase(index: nat, value: Str, sensitive: bool)
    | NameLiteral(name: Str, value: Str, sensitive: bool)

  /** The header block prefix: the wrapped largest reference and the base delta. */
  datatype Prefix = Prefix(wrapped: nat, negative: bool, delta: nat)

  datatype Block = Block(prefix: Prefix, lines: seq<Line>)
}
