/** The recursive-descent parser of src/parser.go: one token of lookahead,
    no backtracking, dispatch on the current token's kind only.

    Go's `Parser` holds the token slice and an index that `advance` bumps;
    here every parsing function takes the index and returns the node with
    the index after it. Each `panic` is an `Err`; reading past the slice
    (an index-out-of-range panic in Go) is `OutOfTokens`. */
module Parser {
  import opened Wrappers
  import opened Lexer
  import opened Ast

  datatype ParseError =
    | Expected(expected: seq<TokenKind>, found: TokenKind)
    | Unexpected(found: TokenKind)
    | OutOfTokens(index: nat)

  /** A node and the index of the first token after it. */
  datatype Parsed<+T> = Parsed(node: T, next: nat)

  type ParseResult<T> = Result<Parsed<T>, ParseError>

  const TermKinds: seq<TokenKind> := [Input, Int, Ident]
  const ExprOperators: set<TokenKind> := {Plus, Minus, Mul}
  const RelKinds: seq<TokenKind> := [LessThan, LessThanEqual, DoubleEqual]
  const InstrKinds: set<TokenKind> := {Ident, If, Goto, Output, Label}

  /** What every parsing function promises about the tokens it touches: on
      success it consumed at least one token and no `End` token; it runs
      out of tokens only when no `End` lies ahead. */
  ghost predicate Consumes<T>(ts: seq<Token>, i: nat, r: ParseResult<T>) {
    && (r.Ok? ==> i < r.value.next <= |ts|)
    && (r.Ok? ==> forall k :: i <= k < r.value.next ==> ts[k].kind != End)
    && (r.Err? && r.error.OutOfTokens? ==> forall k :: i <= k < |ts| ==> ts[k].kind != End)
  }

  /** `current`. */
  function Current(ts: seq<Token>, i: nat): (r: Result<Token, ParseError>)
    ensures r.Ok? <==> i < |ts|
    ensures r.Ok? ==> r.value == ts[i]
    ensures r.Err? ==> r.error == OutOfTokens(i)
  {
    if i < |ts| then Ok(ts[i]) else Err(OutOfTokens(i))
  }

  /** The `if t.kind != ... { panic(...) }` checks before an `advance`. */
  function Expect(ts: seq<Token>, i: nat, kind: TokenKind): (r: Result<Token, ParseError>)
    ensures r.Ok? <==> i < |ts| && ts[i].kind == kind
    ensures r.Ok? ==> r.value == ts[i]
    ensures i < |ts| && ts[i].kind != kind ==> r.error == Expected([kind], ts[i].kind)
    ensures i >= |ts| ==> r.error == OutOfTokens(i)
  {
    var t :- Current(ts, i);
    if t.kind == kind then Ok(t) else Err(Expected([kind], t.kind))
  }

  /** `parseTerm`: exactly one `input`, integer or identifier token. */
  function ParseTerm(ts: seq<Token>, i: nat): (r: ParseResult<Term>)
    ensures Consumes(ts, i, r)
    ensures r.Ok? <==> i < |ts| && ts[i].kind in TermKinds
    ensures r.Ok? ==> r.value.next == i + 1
    ensures r.Ok? && ts[i].kind == Input ==> r.value.node == InputTerm
    ensures r.Ok? && ts[i].kind == Int ==> r.value.node == IntTerm(ts[i].val)
    ensures r.Ok? && ts[i].kind == Ident ==> r.value.node == IdentTerm(ts[i].val)
    ensures i < |ts| && ts[i].kind !in TermKinds ==> r.error == Expected(TermKinds, ts[i].kind)
  {
    var t :- Current(ts, i);
    match t.kind
    case Input => Ok(Parsed(InputTerm, i + 1))
    case Int => Ok(Parsed(IntTerm(t.val), i + 1))
    case Ident => Ok(Parsed(IdentTerm(t.val), i + 1))
    case _ => Err(Expected(TermKinds, t.kind))
  }

  /** `parseExpr`: a term, then at most one operator and one more term. */
  function ParseExpr(ts: seq<Token>, i: nat): (r: ParseResult<Expr>)
    ensures Consumes(ts, i, r)
    ensures r.Ok? ==> ParseTerm(ts, i).Ok? && i + 1 < |ts|
    ensures r.Ok? ==> (r.value.node.SingleExpr? <==> ts[i + 1].kind !in ExprOperators)
    ensures r.Ok? && r.value.node.SingleExpr? ==> r.value.next == i + 1
    ensures r.Ok? && !r.value.node.SingleExpr? ==> r.value.next == i + 3
    ensures r.Ok? && r.value.node.PlusExpr? ==> ts[i + 1].kind == Plus
    ensures r.Ok? && r.value.node.MinusExpr? ==> ts[i + 1].kind == Minus
    ensures r.Ok? && r.value.node.MulExpr? ==> ts[i + 1].kind == Mul
  {
    var lhs :- ParseTerm(ts, i);
    var t :- Current(ts, lhs.next);
    match t.kind
    case Plus =>
      var rhs :- ParseTerm(ts, lhs.next + 1);
      Ok(Parsed(PlusExpr(lhs.node, rhs.node), rhs.next))
    case Minus =>
      var rhs :- ParseTerm(ts, lhs.next + 1);
      Ok(Parsed(MinusExpr(lhs.node, rhs.node), rhs.next))
    case Mul =>
      var rhs :- ParseTerm(ts, lhs.next + 1);
      Ok(Parsed(MulExpr(lhs.node, rhs.node), rhs.next))
    case _ =>
      Ok(Parsed(SingleExpr(lhs.node), lhs.next))
  }

  /** `parseRel`: a term, one of the three relational operators, a term. */
  function ParseRel(ts: seq<Token>, i: nat): (r: ParseResult<Rel>)
    ensures Consumes(ts, i, r)
    ensures r.Ok? ==> r.value.next == i + 3 && ts[i + 1].kind in RelKinds
    ensures r.Ok? && r.value.node.LessThanRel? ==> ts[i + 1].kind == LessThan
    ensures r.Ok? && r.value.node.LessThanEqualRel? ==> ts[i + 1].kind == LessThanEqual
    ensures r.Ok? && r.value.node.EqualRel? ==> ts[i + 1].kind == DoubleEqual
    ensures ParseTerm(ts, i).Ok? && i + 1 < |ts| && ts[i + 1].kind !in RelKinds
            ==> r.error == Expected(RelKinds, ts[i + 1].kind)
  {
    var lhs :- ParseTerm(ts, i);
    var t :- Current(ts, lhs.next);
    match t.kind
    case LessThan =>
      var rhs :- ParseTerm(ts, lhs.next + 1);
      Ok(Parsed(LessThanRel(lhs.node, rhs.node), rhs.next))
    case LessThanEqual =>
      var rhs :- ParseTerm(ts, lhs.next + 1);
      Ok(Parsed(LessThanEqualRel(lhs.node, rhs.node), rhs.next))
    case DoubleEqual =>
      var rhs :- ParseTerm(ts, lhs.next + 1);
      Ok(Parsed(EqualRel(lhs.node, rhs.node), rhs.next))
    case _ =>
      Err(Expected(RelKinds, t.kind))
  }

  /** `parseAssign`: identifier, `=`, expression. */
  function ParseAssign(ts: seq<Token>, i: nat): (r: ParseResult<Instr>)
    ensures Consumes(ts, i, r)
    ensures r.Ok? <==> i + 1 < |ts| && ts[i].kind == Ident && ts[i + 1].kind == Equal && ParseExpr(ts, i + 2).Ok?
    ensures i + 1 < |ts| && ts[i].kind == Ident && ts[i + 1].kind != Equal
            ==> r.error == Expected([Equal], ts[i + 1].kind)
    ensures r.Ok? ==> r.value == Parsed(AssignInstr(ts[i].val, ParseExpr(ts, i + 2).value.node), ParseExpr(ts, i + 2).value.next)
  {
    var t :- Expect(ts, i, Ident);
    var _ :- Expect(ts, i + 1, Equal);
    var e :- ParseExpr(ts, i + 2);
    Ok(Parsed(AssignInstr(t.val, e.node), e.next))
  }

  /** `parseGoto`: `goto` and a label token whose value is the target. */
  function ParseGoto(ts: seq<Token>, i: nat): (r: ParseResult<Instr>)
    ensures Consumes(ts, i, r)
    ensures r.Ok? <==> i + 1 < |ts| && ts[i].kind == Goto && ts[i + 1].kind == Label
    ensures r.Ok? ==> r.value == Parsed(GotoInstr(ts[i + 1].val), i + 2)
    ensures i + 1 < |ts| && ts[i].kind == Goto && ts[i + 1].kind != Label
            ==> r.error == Expected([Label], ts[i + 1].kind)
  {
    var _ :- Expect(ts, i, Goto);
    var l :- Expect(ts, i + 1, Label);
    Ok(Parsed(GotoInstr(l.val), i + 2))
  }

  /** `parseOutput`: `output` and one term. */
  function ParseOutput(ts: seq<Token>, i: nat): (r: ParseResult<Instr>)
    ensures Consumes(ts, i, r)
    ensures r.Ok? <==> i + 1 < |ts| && ts[i].kind == Output && ts[i + 1].kind in TermKinds
    ensures r.Ok? ==> r.value == Parsed(OutputInstr(ParseTerm(ts, i + 1).value.node), i + 2)
  {
    var _ :- Expect(ts, i, Output);
    var t :- ParseTerm(ts, i + 1);
    Ok(Parsed(OutputInstr(t.node), t.next))
  }

  /** `parseLabel`: one label token declares the label. */
  function ParseLabel(ts: seq<Token>, i: nat): (r: ParseResult<Instr>)
    ensures Consumes(ts, i, r)
    ensures r.Ok? <==> i < |ts| && ts[i].kind == Label
    ensures r.Ok? ==> r.value == Parsed(LabelInstr(ts[i].val), i + 1)
  {
    var t :- Expect(ts, i, Label);
    Ok(Parsed(LabelInstr(t.val), i + 1))
  }

  /** The token kind that starts each kind of instruction. */
  function LeadingKind(instr: Instr): TokenKind {
    match instr
    case AssignInstr(_, _) => Ident
    case IfInstr(_, _) => If
    case GotoInstr(_) => Goto
    case OutputInstr(_) => Output
    case LabelInstr(_) => Label
  }

  /** `parseIf`: `if`, a relation, a mandatory `then`, and exactly one
      instruction as the body. */
  function ParseIf(ts: seq<Token>, i: nat): (r: ParseResult<Instr>)
    ensures Consumes(ts, i, r)
    ensures r.Ok? ==> ts[i].kind == If && ParseRel(ts, i + 1).Ok? && i + 4 < |ts| && ts[i + 4].kind == Then
    ensures r.Ok? ==> r.value.node.IfInstr? && r.value.node.rel == ParseRel(ts, i + 1).value.node
    ensures r.Ok? ==> ParseInstr(ts, i + 5) == Ok(Parsed(r.value.node.body, r.value.next))
    ensures i < |ts| && ts[i].kind == If && ParseRel(ts, i + 1).Ok? && i + 4 < |ts| && ts[i + 4].kind != Then
            ==> r.error == Expected([Then], ts[i + 4].kind)
    decreases |ts| - i, 0
  {
    var _ :- Expect(ts, i, If);
    var rel :- ParseRel(ts, i + 1);
    assert rel.next == i + 4;
    var _ :- Expect(ts, rel.next, Then);
    var body :- ParseInstr(ts, rel.next + 1);
    NoEndAcross(ts, i, body.next);
    Ok(Parsed(IfInstr(rel.node, body.node), body.next))
  }

  /** The tokens of an `if`: none of them is `End`. */
  lemma NoEndAcross(ts: seq<Token>, i: nat, n: nat)
    requires i + 5 <= n <= |ts|
    requires ts[i].kind == If && ts[i + 4].kind == Then
    requires forall k :: i + 1 <= k < i + 4 ==> ts[k].kind != End
    requires forall k :: i + 5 <= k < n ==> ts[k].kind != End
    ensures forall k :: i <= k < n ==> ts[k].kind != End
  {
  }

  /** `parseInstr`: selects the instruction by the current token's kind
      alone; any other kind is an error naming that kind. */
  function ParseInstr(ts: seq<Token>, i: nat): (r: ParseResult<Instr>)
    ensures Consumes(ts, i, r)
    ensures r.Ok? ==> ts[i].kind == LeadingKind(r.value.node)
    ensures i < |ts| && ts[i].kind !in InstrKinds ==> r.error == Unexpected(ts[i].kind)
    decreases |ts| - i, 1
  {
    var t :- Current(ts, i);
    match t.kind
    case Ident => ParseAssign(ts, i)
    case If => ParseIf(ts, i)
    case Goto => ParseGoto(ts, i)
    case Output => ParseOutput(ts, i)
    case Label => ParseLabel(ts, i)
    case _ => Err(Unexpected(t.kind))
  }

  /** The loop of `parseProgram`: parse an instruction, then stop exactly
      when the current token is `End`. */
  function ParseInstrs(ts: seq<Token>, i: nat): (r: ParseResult<seq<Instr>>)
    ensures Consumes(ts, i, r)
    ensures r.Ok? ==> |r.value.node| >= 1 && r.value.next < |ts| && ts[r.value.next].kind == End
    decreases |ts| - i
  {
    var instr :- ParseInstr(ts, i);
    var t :- Current(ts, instr.next);
    if t.kind == End then
      Ok(Parsed([instr.node], instr.next))
    else
      var rest :- ParseInstrs(ts, instr.next);
      Ok(Parsed([instr.node] + rest.node, rest.next))
  }

  /** `parseProgram`: at least one instruction is parsed, so a stream that
      is only `End` is an error, not an empty program. */
  function ParseProgram(ts: seq<Token>): (r: Result<Program, ParseError>)
    ensures r.Ok? ==> |r.value.instrs| >= 1
    ensures r.Ok? <==> ParseInstrs(ts, 0).Ok?
  {
    var p :- ParseInstrs(ts, 0);
    Ok(Program(p.node))
  }
}
