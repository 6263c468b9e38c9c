/**
 * The scanner's constants: the end-of-input sentinel, the character
 * classes, the operator and keyword tables, and the token record that
 * the scanner hands to the parser.
 */
module Lexicon {
  import opened Decimal

  const EOI: char := '$'
  const START_COMMENT: char := '~'
  const END_COMMENT: char := '\r'
  const START_STRING: char := '"'
  const END_STRING: char := '"'
  const EQUAL: char := '='
  const NOT: char := '!'
  const GREATER: char := '>'
  const LESS: char := '<'

  const Whitespace: set<char> := {' ', '\t', '\n', '\r'}

  predicate IsLetter(c: char) {
    'A' <= c <= 'Z' || 'a' <= c <= 'z'
  }

  /** LETTERS_OR_DIGITS: letters, digits, underscore and dot. */
  predicate IsWordChar(c: char) {
    IsLetter(c) || c in Digits || c == '_' || c == '.'
  }

  const OpTable: map<char, string> := map[
    '(' := "lParen", ')' := "rParen", '{' := "lCurly", '}' := "rCurly",
    '+' := "plusSym", '-' := "minusSym", '*' := "timesSym", '/' := "divSym",
    ';' := "semicolon", ',' := "comma"]

  const KeywordTable: map<string, string> := map[
    "while" := "whileSym", "return" := "returnSym", "if" := "ifSym",
    "else" := "elseSym", "do" := "doSym", "int" := "intSym",
    "string" := "stringSym", "begin" := "beginSym", "end." := "endSym",
    "var" := "varSym"]

  /** The kind of the token returned once the sentinel is reached. */
  const EoiKind: string := "end."

  datatype Payload = NoVal | IntVal(i: int) | StrVal(s: string)

  datatype Token = Token(kind: string, value: Payload)

  const EndToken: Token := Token(EoiKind, NoVal)
  const ErrorToken: Token := Token("error", NoVal)
  const UnknownToken: Token := Token("", NoVal)

  /** The payload agrees with the kind: only identifiers, numbers and strings carry one. */
  predicate WellFormed(t: Token) {
    && (t.kind == "identifier" ==> t.value.StrVal?)
    && (t.kind == "stringConstant" ==> t.value.StrVal?)
    && (t.kind == "numConstant" ==> t.value.IntVal? && t.value.i >= 0)
    && (t.kind != "identifier" && t.kind != "stringConstant" && t.kind != "numConstant"
        ==> t.value == NoVal)
  }

  /**
   * A token that the scanner only returns after stepping over at least
   * one character: all but the end-of-input token and the unknown token.
   */
  predicate Consuming(t: Token) {
    t.kind != EoiKind && t.kind != ""
  }

}
