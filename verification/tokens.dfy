/**
 The tokens the parser consumes. The lexer that produces them is not part of
 this model: a token sequence is simply an input. Each token has a kind tag
 (name, int, float, string or one punctuator) and, for the first four kinds, a
 literal payload.
 */
module Tokens {
  import opened Wrappers

  /** The payload of a float token. The parser copies it into the AST without
      inspecting it, so it is kept uninterpreted here. */
  datatype FloatLiteral = FloatLiteral(payload: string)

  /** The punctuators `$ : = @ ( ) [ ] { } ! | &` and the spread `...`. */
  datatype Punctuator =
    | Dollar | Colon | Equals | AtSign
    | LParen | RParen | LBracket | RBracket | LBrace | RBrace
    | Bang | Pipe | Amp | Spread

  datatype Token =
    | Name(text: string)
    | IntLit(intValue: int)
    | FloatLit(floatValue: FloatLiteral)
    | StringLit(stringValue: string)
    | Punct(punct: Punctuator)

  /** The kind tag of a token, which is what `expect` compares. */
  datatype TokenKind = NameKind | IntKind | FloatKind | StringKind | PunctKind(p: Punctuator)

  function KindOf(t: Token): TokenKind {
    match t
    case Name(_) => NameKind
    case IntLit(_) => IntKind
    case FloatLit(_) => FloatKind
    case StringLit(_) => StringKind
    case Punct(p) => PunctKind(p)
  }

  /** The spelling of a punctuator, as the lexer's token type names it. */
  function PunctuatorText(p: Punctuator): string {
    match p
    case Dollar => "$"
    case Colon => ":"
    case Equals => "="
    case AtSign => "@"
    case LParen => "("
    case RParen => ")"
    case LBracket => "["
    case RBracket => "]"
    case LBrace => "{"
    case RBrace => "}"
    case Bang => "!"
    case Pipe => "|"
    case Amp => "&"
    case Spread => "..."
  }

  /** The token type name used in "Expected <kind>" messages. */
  function KindText(k: TokenKind): string {
    match k
    case NameKind => "name"
    case IntKind => "int"
    case FloatKind => "float"
    case StringKind => "string"
    case PunctKind(p) => PunctuatorText(p)
  }

  /** `tokens[i]`, which is `undefined` past the end of the sequence. */
  function At(ts: seq<Token>, i: nat): (t: Option<Token>)
    ensures t.Some? <==> i < |ts|
    ensures t.Some? ==> t.value == ts[i]
  {
    if i < |ts| then Some(ts[i]) else None
  }

  predicate IsPunct(t: Option<Token>, p: Punctuator) {
    t == Some(Punct(p))
  }

  predicate IsName(t: Option<Token>) {
    t.Some? && t.value.Name?
  }

  predicate IsString(t: Option<Token>) {
    t.Some? && t.value.StringLit?
  }

  /** A name token spelling exactly `word`. */
  predicate IsKeyword(t: Option<Token>, word: string) {
    t == Some(Name(word))
  }

  /** A name token whose spelling is one of `words`. */
  predicate IsKeywordIn(t: Option<Token>, words: set<string>) {
    t.Some? && t.value.Name? && t.value.text in words
  }
}
