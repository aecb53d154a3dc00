/** The scope pass of the code generator: before any code is emitted, the
    instructions are walked in program order; every identifier read must
    already be in scope, and every assignment target joins the scope the
    first time it is assigned. The scope's order fixes each variable's
    stack slot. */
module Scoping {
  import opened Wrappers
  import opened Ast

  /** The ordered list of declared identifiers. */
  datatype Scope = Scope(idents: seq<string>)

  /** `createScope` */
  const EmptyScope := Scope([])

  /** The failure of the scope pass: an identifier read before any
      assignment to it in program order. */
  datatype ScopeError = NotDefined(name: string)

  predicate NoDup(xs: seq<string>) {
    forall i, j :: 0 <= i < j < |xs| ==> xs[i] != xs[j]
  }

  /** `has` */
  predicate Has(s: Scope, x: string) {
    x in s.idents
  }

  /** `append`: the new name is in scope, nothing in scope is lost, and
      every name already in scope keeps its slot. */
  function Append(s: Scope, x: string): (r: Scope)
    ensures Has(r, x)
    ensures forall y :: Has(r, y) <==> Has(s, y) || y == x
    ensures |r.idents| == |s.idents| + 1
    ensures forall k :: 0 <= k < |s.idents| ==> r.idents[k] == s.idents[k]
  {
    Scope(s.idents + [x])
  }

  /** `find`: the slot of the first occurrence, searching from slot 0;
      `None` where the Go code panics. */
  function Find(s: Scope, x: string): (r: Option<nat>)
    ensures r.Some? <==> Has(s, x)
    ensures r.Some? ==> r.value < |s.idents| && s.idents[r.value] == x
    ensures r.Some? ==> forall k :: 0 <= k < r.value ==> s.idents[k] != x
  {
    FindFrom(s.idents, x, 0)
  }

  function FindFrom(xs: seq<string>, x: string, i: nat): (r: Option<nat>)
    requires i <= |xs|
    ensures r.Some? <==> x in xs[i..]
    ensures r.Some? ==> i <= r.value < |xs| && xs[r.value] == x
    ensures r.Some? ==> forall k :: i <= k < r.value ==> xs[k] != x
    decreases |xs| - i
  {
    if i == |xs| then None
    else if xs[i] == x then Some(i)
    else
      assert xs[i..] == [xs[i]] + xs[i + 1..];
      FindFrom(xs, x, i + 1)
  }

  /** A scope only ever grows at the end. */
  predicate Extends(s: Scope, t: Scope) {
    |s.idents| <= |t.idents| && t.idents[..|s.idents|] == s.idents
  }

  // The identifiers each node reads, left to right.

  function TermUses(t: Term): seq<string> {
    match t
    case IdentTerm(x) => [x]
    case _ => []
  }

  function ExprUses(e: Expr): seq<string> {
    match e
    case SingleExpr(t) => TermUses(t)
    case PlusExpr(l, r) => TermUses(l) + TermUses(r)
    case MinusExpr(l, r) => TermUses(l) + TermUses(r)
    case MulExpr(l, r) => TermUses(l) + TermUses(r)
  }

  function RelUses(rel: Rel): seq<string> {
    TermUses(rel.lhs) + TermUses(rel.rhs)
  }

  /** The identifiers an instruction assigns, the body of an `if` included. */
  function Targets(x: Instr): set<string> {
    match x
    case AssignInstr(id, _) => {id}
    case IfInstr(_, body) => Targets(body)
    case _ => {}
  }

  /** The first of `uses` that is not in scope, if any. */
  function FirstUnbound(s: Scope, uses: seq<string>): (r: Option<string>)
    ensures r.None? <==> forall x :: x in uses ==> Has(s, x)
    ensures r.Some? ==> r.value in uses && !Has(s, r.value)
  {
    if |uses| == 0 then None
    else if !Has(s, uses[0]) then Some(uses[0])
    else FirstUnbound(s, uses[1..])
  }

  lemma {:induction false} FirstUnboundAppend(s: Scope, a: seq<string>, b: seq<string>)
    ensures FirstUnbound(s, a + b)
         == if FirstUnbound(s, a).Some? then FirstUnbound(s, a) else FirstUnbound(s, b)
  {
    if |a| > 0 {
      assert (a + b)[0] == a[0];
      assert (a + b)[1..] == a[1..] + b;
      FirstUnboundAppend(s, a[1..], b);
    } else {
      assert a + b == b;
    }
  }

  /** `scopeTerm`: an identifier must be in scope; the scope is unchanged. */
  function ScopeTerm(t: Term, s: Scope): (r: Result<Scope, ScopeError>)
    ensures r.Ok? <==> FirstUnbound(s, TermUses(t)).None?
    ensures r.Ok? ==> r.value == s
    ensures r.Err? ==> FirstUnbound(s, TermUses(t)) == Some(r.error.name)
  {
    match t
    case IdentTerm(x) => if !Has(s, x) then Err(NotDefined(x)) else Ok(s)
    case _ => Ok(s)
  }

  /** Both operands are checked, left before right. */
  function ScopePair(l: Term, r: Term, s: Scope): (res: Result<Scope, ScopeError>)
    ensures res.Ok? <==> FirstUnbound(s, TermUses(l) + TermUses(r)).None?
    ensures res.Ok? ==> res.value == s
    ensures res.Err? ==> FirstUnbound(s, TermUses(l) + TermUses(r)) == Some(res.error.name)
  {
    FirstUnboundAppend(s, TermUses(l), TermUses(r));
    var _ :- ScopeTerm(l, s);
    ScopeTerm(r, s)
  }

  /** `scopeExpr` */
  function ScopeExpr(e: Expr, s: Scope): (r: Result<Scope, ScopeError>)
    ensures r.Ok? <==> FirstUnbound(s, ExprUses(e)).None?
    ensures r.Ok? ==> r.value == s
    ensures r.Err? ==> FirstUnbound(s, ExprUses(e)) == Some(r.error.name)
  {
    match e
    case SingleExpr(t) => ScopeTerm(t, s)
    case PlusExpr(l, r) => ScopePair(l, r, s)
    case MinusExpr(l, r) => ScopePair(l, r, s)
    case MulExpr(l, r) => ScopePair(l, r, s)
  }

  /** `scopeRel` */
  function ScopeRel(rel: Rel, s: Scope): (r: Result<Scope, ScopeError>)
    ensures r.Ok? <==> FirstUnbound(s, RelUses(rel)).None?
    ensures r.Ok? ==> r.value == s
    ensures r.Err? ==> FirstUnbound(s, RelUses(rel)) == Some(r.error.name)
  {
    ScopePair(rel.lhs, rel.rhs, s)
  }

  /** `scopeInstr`: the right-hand side is checked before the target is
      declared, so `x = x + 1` needs an earlier assignment to `x`. */
  function ScopeInstr(x: Instr, s: Scope): (r: Result<Scope, ScopeError>)
    ensures r.Ok? ==> Extends(s, r.value)
    ensures r.Ok? ==> forall y :: Has(r.value, y) <==> Has(s, y) || y in Targets(x)
    ensures r.Ok? && NoDup(s.idents) ==> NoDup(r.value.idents)
    ensures r.Err? ==> !Has(s, r.error.name)
  {
    match x
    case AssignInstr(id, e) =>
      var _ :- ScopeExpr(e, s);
      if Has(s, id) then Ok(s) else Ok(Append(s, id))
    case IfInstr(rel, body) =>
      var _ :- ScopeRel(rel, s);
      ScopeInstr(body, s)
    case GotoInstr(_) => Ok(s)
    case OutputInstr(t) => ScopeTerm(t, s)
    case LabelInstr(_) => Ok(s)
  }

  /** The loop of `emitProgram` over the instructions, in order. */
  function ScopeInstrs(xs: seq<Instr>, s: Scope): (r: Result<Scope, ScopeError>)
    ensures r.Ok? ==> Extends(s, r.value)
    ensures r.Ok? && NoDup(s.idents) ==> NoDup(r.value.idents)
    decreases |xs|
  {
    if |xs| == 0 then Ok(s)
    else
      var s' :- ScopeInstr(xs[0], s);
      ScopeInstrs(xs[1..], s')
  }

  /** The scope pass of `emitProgram`, starting from the empty scope. */
  function ScopeProgram(p: Program): (r: Result<Scope, ScopeError>)
    ensures r.Ok? ==> NoDup(r.value.idents)
  {
    ScopeInstrs(p.instrs, EmptyScope)
  }
}
