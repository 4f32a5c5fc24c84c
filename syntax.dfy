/** Token kinds and tokens. */
module Syntax {

  import opened Wrappers

  /** The union of the kinds declared by the SyntaxKind enumeration and the
      kinds the lexer refers to (curly and square brackets, Literal, Boolean,
      Null). */
  datatype SyntaxKind =
    | Unknown | EndOfFile | CurlyBracketLeft | Whitespace | DoubleQuote
    | CurlyBracketRight | Letter | Digit | Colon | Star | BackSlash | Slash
    | Equal | SemiColon | Coma | Minus | SimpleQuote | Dot | Plus | Count
    | OpenObjectCurlyBracket | CloseObjectCurlyBracket
    | OpenArrayBracket | CloseArrayBracket
    | Literal | Boolean | Null

  /** The typed payload of a token: a boolean for a Boolean token, the
      integer of a Digit token, nothing otherwise. */
  datatype TokenValue = NoValue | BoolValue(b: bool) | IntValue(n: nat)

  /** An immutable token. The text is absent (null) only for the token that
      reports the true end of the input. */
  datatype SyntaxToken = SyntaxToken(kind: SyntaxKind, text: Option<string>, startPosition: int, value: TokenValue)
}
