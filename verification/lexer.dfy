/** The lexer of lexer.go: a byte cursor that turns source bytes into tokens
    ending in a single `End` token.

    Go's `Lexer` keeps `pos`, `read_pos` and the current byte `ch`; after
    `createLexer` every `read` keeps `read_pos == pos + 1` and
    `ch == At(buf, pos)`, so the whole cursor is the one number `pos`. */
module Lexer {
  import opened Text

  /** The token kinds of lexer.go, plus the four kinds `Minus`, `Mul`,
      `LessThanEqual` and `DoubleEqual` that the parser dispatches on but
      that the lexer never defines or produces. */
  datatype TokenKind =
    | Ident | Label | Int | Input | Output | Goto | If | Then
    | Equal | Plus | LessThan | Invalid | End
    | Minus | Mul | LessThanEqual | DoubleEqual

  /** Kinds the lexer can produce. */
  predicate Lexable(k: TokenKind) {
    !(k.Minus? || k.Mul? || k.LessThanEqual? || k.DoubleEqual?)
  }

  datatype Token = Token(kind: TokenKind, val: string)

  const EndToken := Token(End, "")

  /** The name table of lexer.go. The four parser-only kinds have no entry,
      and a Go map lookup that misses yields the empty string. */
  function KindName(k: TokenKind): string {
    match k
    case Ident => "ident"
    case Label => "label"
    case Int => "int"
    case Input => "input"
    case Output => "output"
    case Goto => "goto"
    case If => "if"
    case Then => "then"
    case Equal => "equal"
    case Plus => "plus"
    case LessThan => "lessthan"
    case Invalid => "invalid"
    case End => "end"
    case Minus => ""
    case Mul => ""
    case LessThanEqual => ""
    case DoubleEqual => ""
  }

  /** `Token.String`: the kind name, then the value in parentheses when the
      value is not empty. */
  function TokenString(t: Token): string {
    KindName(t.kind) + (if t.val != "" then "(" + t.val + ")" else "")
  }

  /** `peek`: the byte at `pos`, or the sentinel once past the buffer. */
  function At(buf: seq<byte>, pos: nat): byte {
    if pos < |buf| then buf[pos] else EOF
  }

  /** `skipWhitespace`: the first position at or after `pos` that does not
      hold a space byte. */
  function SkipSpace(buf: seq<byte>, pos: nat): (p: nat)
    requires pos <= |buf|
    ensures pos <= p <= |buf|
    ensures forall k :: pos <= k < p ==> IsSpace(buf[k])
    ensures !IsSpace(At(buf, p))
    decreases |buf| - pos
  {
    if IsSpace(At(buf, pos)) then SkipSpace(buf, pos + 1) else pos
  }

  /** The end of the maximal run of bytes satisfying `inRun` that starts at
      `pos` (the `for ... { sl++; l.read() }` loops of `nextToken`). */
  function RunEnd(buf: seq<byte>, pos: nat, inRun: byte -> bool): (e: nat)
    requires pos <= |buf|
    requires !inRun(EOF)
    ensures pos <= e <= |buf|
    ensures forall k :: pos <= k < e ==> inRun(buf[k])
    ensures !inRun(At(buf, e))
    decreases |buf| - pos
  {
    if inRun(At(buf, pos)) then RunEnd(buf, pos + 1, inRun) else pos
  }

  /** The token an identifier-shaped run stands for: one of the five
      keywords, with an empty value, or an identifier carrying the run. */
  function WordToken(s: string): Token {
    if s == "input" then Token(Input, "")
    else if s == "output" then Token(Output, "")
    else if s == "goto" then Token(Goto, "")
    else if s == "if" then Token(If, "")
    else if s == "then" then Token(Then, "")
    else Token(Ident, s)
  }

  datatype Lexed = Lexed(token: Token, next: nat)

  /** The token that starts at `p`, where no white space is left to skip:
      the `switch` of `nextToken`. */
  function ScanToken(buf: seq<byte>, p: nat): (r: Lexed)
    requires p <= |buf|
    ensures Lexable(r.token.kind)
    ensures r.token.kind == End <==> At(buf, p) == EOF
    ensures r.token.kind != End ==> p < r.next <= |buf|
  {
    var ch := At(buf, p);
    if ch == EOF then Lexed(EndToken, p + 1)
    else if ch == EQUAL_SIGN then Lexed(Token(Equal, ""), p + 1)
    else if ch == PLUS_SIGN then Lexed(Token(Plus, ""), p + 1)
    else if ch == LESS_SIGN then Lexed(Token(LessThan, ""), p + 1)
    else if ch == COLON then ScanLabel(buf, p + 1)
    else if IsDigit(ch) then ScanInt(buf, p)
    else if IsWordByte(ch) then ScanWord(buf, p)
    else Lexed(Token(Invalid, Latin1(buf[p..p + 1])), p + 1)
  }

  /** The label whose name starts at `p`, just after the colon. */
  function ScanLabel(buf: seq<byte>, p: nat): Lexed
    requires p <= |buf|
  {
    var e := RunEnd(buf, p, IsWordByte);
    Lexed(Token(Label, Latin1(buf[p..e])), e)
  }

  function ScanInt(buf: seq<byte>, p: nat): (r: Lexed)
    requires p < |buf| && IsDigit(buf[p])
    ensures p < r.next <= |buf|
  {
    var e := RunEnd(buf, p, IsDigit);
    Lexed(Token(Int, Latin1(buf[p..e])), e)
  }

  function ScanWord(buf: seq<byte>, p: nat): (r: Lexed)
    requires p < |buf| && IsWordByte(buf[p])
    ensures p < r.next <= |buf|
    ensures r.token.kind in {Ident, Input, Output, Goto, If, Then}
  {
    var e := RunEnd(buf, p, IsWordByte);
    Lexed(WordToken(Latin1(buf[p..e])), e)
  }

  /** `nextToken`: skip white space, then scan one token. */
  function NextToken(buf: seq<byte>, pos: nat): (r: Lexed)
    requires pos <= |buf|
    ensures Lexable(r.token.kind)
    ensures r.token.kind == End <==> At(buf, SkipSpace(buf, pos)) == EOF
    ensures r.token.kind != End ==> pos < r.next <= |buf|
  {
    ScanToken(buf, SkipSpace(buf, pos))
  }

  /** The tokens from `pos` on: every token `nextToken` returns, up to and
      including the first `End`. */
  function TokenizeFrom(buf: seq<byte>, pos: nat): (ts: seq<Token>)
    requires pos <= |buf|
    ensures |ts| >= 1 && ts[|ts| - 1].kind == End
    ensures forall k :: 0 <= k < |ts| - 1 ==> ts[k].kind != End
    ensures forall k :: 0 <= k < |ts| ==> Lexable(ts[k].kind)
    decreases |buf| - pos
  {
    var r := NextToken(buf, pos);
    if r.token.kind == End then [r.token]
    else [r.token] + TokenizeFrom(buf, r.next)
  }

  /** `tokenize`: `createLexer` reads the first byte, so lexing starts at
      position 0. */
  function Tokenize(buf: seq<byte>): (ts: seq<Token>)
    ensures |ts| >= 1 && ts[|ts| - 1].kind == End
    ensures forall k :: 0 <= k < |ts| - 1 ==> ts[k].kind != End
    ensures forall k :: 0 <= k < |ts| ==> Lexable(ts[k].kind)
  {
    TokenizeFrom(buf, 0)
  }
}
