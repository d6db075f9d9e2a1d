/**
 * The kinds of documented declaration. The classifier that assigns a kind to
 * a symbol from its comment's annotations is not part of this model; the
 * renderer only compares kinds for equality.
 */
module SymbolTypes {

  datatype SymbolType = Constructor | Interface | Enum | Function | Property
}
