/** The syntax tree of src/parser.go and its debug renderings (`String`).
    Each Go interface (`NodeInstr`, `NodeExpr`, `NodeRel`, `NodeTerm`) is a
    datatype with one constructor per implementing struct; every binary
    form holds exactly two terms. */
module Ast {

  datatype Term =
    | InputTerm
    | IntTerm(val: string)
    | IdentTerm(name: string)

  datatype Expr =
    | SingleExpr(term: Term)
    | PlusExpr(lhs: Term, rhs: Term)
    | MinusExpr(lhs: Term, rhs: Term)
    | MulExpr(lhs: Term, rhs: Term)

  datatype Rel =
    | LessThanRel(lhs: Term, rhs: Term)
    | LessThanEqualRel(lhs: Term, rhs: Term)
    | EqualRel(lhs: Term, rhs: Term)

  datatype Instr =
    | AssignInstr(ident: string, expr: Expr)
    | IfInstr(rel: Rel, body: Instr)
    | GotoInstr(target: string)
    | OutputInstr(term: Term)
    | LabelInstr(name: string)

  datatype Program = Program(instrs: seq<Instr>)

  function TermString(t: Term): string {
    match t
    case InputTerm => "term(input)"
    case IntTerm(v) => "term(int(" + v + "))"
    case IdentTerm(x) => "term(ident(" + x + "))"
  }

  function ExprString(e: Expr): string {
    match e
    case SingleExpr(t) => "expr(single(" + TermString(t) + "))"
    case PlusExpr(l, r) => "expr(plus(" + TermString(l) + " + " + TermString(r) + "))"
    case MinusExpr(l, r) => "expr(minus(" + TermString(l) + " - " + TermString(r) + "))"
    case MulExpr(l, r) => "expr(mul(" + TermString(l) + " * " + TermString(r) + "))"
  }

  function RelString(r: Rel): string {
    match r
    case LessThanRel(l, rr) => "rel(" + TermString(l) + " < " + TermString(rr) + ")"
    case LessThanEqualRel(l, rr) => "rel(" + TermString(l) + " <= " + TermString(rr) + ")"
    case EqualRel(l, rr) => "rel(" + TermString(l) + " == " + TermString(rr) + ")"
  }

  function InstrString(i: Instr): string {
    match i
    case AssignInstr(x, e) => "assign(" + x + " = " + ExprString(e) + ")"
    case IfInstr(r, body) => "if(" + RelString(r) + " -> " + InstrString(body) + ")"
    case GotoInstr(l) => "goto(" + l + ")"
    case OutputInstr(t) => "output(" + TermString(t) + ")"
    case LabelInstr(n) => "label(" + n + ")"
  }
}
