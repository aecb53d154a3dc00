/** The code generator: after the scope pass, every instruction becomes a
    block of FASM lines that leaves expression values in rax, keeps the left
    operand of a binary operator in r12, and stores variables in 8-byte
    stack slots below rbp in scope order. */
module Emit {
  import opened Wrappers
  import opened Ast
  import opened Scoping
  import opened Asm

  /** Why emission stops: the scope pass rejected the program (`ident not
      defined`), or a lookup missed the scope (`cannot find ident in
      scope`). */
  datatype EmitError = ScopeFailed(cause: ScopeError) | NotInScope(name: string)

  /** The code emitted so far and the `if` counter after it. */
  datatype Emitted = Emitted(code: seq<Line>, count: nat)

  /** The byte offset below rbp of scope slot `index`. */
  function Offset(index: nat): (off: nat)
    ensures off % 8 == 0 && off >= 8
  {
    index * 8 + 8
  }

  /** `find` turned into an offset; a missing name is an error instead of a
      panic. */
  function SlotOf(s: Scope, x: string): (r: Result<nat, EmitError>)
    ensures r.Ok? <==> Has(s, x)
    ensures r.Ok? ==> 8 <= r.value <= 8 * |s.idents| && r.value % 8 == 0
    ensures r.Err? ==> r.error == NotInScope(x)
  {
    match Find(s, x)
    case None => Err(NotInScope(x))
    case Some(i) => Ok(Offset(i))
  }

  /** The names emission looks up in the scope, in the order it looks them
      up: operands left to right, then an assignment's target. */
  function Lookups(x: Instr): seq<string> {
    match x
    case AssignInstr(id, e) => ExprUses(e) + [id]
    case IfInstr(rel, body) => RelUses(rel) + Lookups(body)
    case GotoInstr(_) => []
    case OutputInstr(t) => TermUses(t)
    case LabelInstr(_) => []
  }

  function ProgramLookups(xs: seq<Instr>): seq<string> {
    if |xs| == 0 then [] else Lookups(xs[0]) + ProgramLookups(xs[1..])
  }

  /** The number of `if` instructions, nested ones included. */
  function IfCount(x: Instr): nat {
    match x
    case IfInstr(_, body) => 1 + IfCount(body)
    case _ => 0
  }

  function ProgramIfCount(xs: seq<Instr>): nat {
    if |xs| == 0 then 0 else IfCount(xs[0]) + ProgramIfCount(xs[1..])
  }

  /** Every load and store of the block addresses the slot of the variable
      it names. */
  predicate SlotsMatch(code: seq<Line>, s: Scope) {
    forall k :: 0 <= k < |code| && (code[k].Load? || code[k].Store?) ==>
      SlotOf(s, code[k].name) == Ok(code[k].offset)
  }

  /** The `endif` labels of a block: each `Jz(n)` and each `EndIf(n)`
      occurs once for the `if` numbers from `lo` below `hi`, and not at
      all for any other number. */
  ghost predicate NumbersEndIfs(code: seq<Line>, lo: nat, hi: nat) {
    && (forall n :: multiset(code)[EndIf(n)] == if lo <= n < hi then 1 else 0)
    && (forall n :: multiset(code)[Jz(n)] == if lo <= n < hi then 1 else 0)
  }

  /** `emitTerm`: a literal into rax, a variable loaded from its slot, or
      `input` read from stdin and parsed. */
  function EmitTerm(t: Term, s: Scope): (r: Result<seq<Line>, EmitError>)
    ensures r.Ok? <==> FirstUnbound(s, TermUses(t)).None?
    ensures r.Err? ==> r.error == NotInScope(FirstUnbound(s, TermUses(t)).value)
    ensures r.Ok? ==> Straight(r.value) && SlotsMatch(r.value, s)
  {
    match t
    case InputTerm =>
      Ok(ReadInput)
    case IntTerm(v) => Ok([MovImm(v)])
    case IdentTerm(x) =>
      var off :- SlotOf(s, x);
      Ok([Load(off, x)])
  }

  /** Left operand, saved in r12; right operand in rax; then `tail`. */
  function EmitOperands(l: Term, r: Term, s: Scope, tail: seq<Line>): (res: Result<seq<Line>, EmitError>)
    requires Straight(tail) && SlotsMatch(tail, s)
    ensures res.Ok? <==> FirstUnbound(s, TermUses(l) + TermUses(r)).None?
    ensures res.Err? ==> res.error == NotInScope(FirstUnbound(s, TermUses(l) + TermUses(r)).value)
    ensures res.Ok? ==> Straight(res.value) && SlotsMatch(res.value, s)
  {
    FirstUnboundAppend(s, TermUses(l), TermUses(r));
    var lc :- EmitTerm(l, s);
    var rc :- EmitTerm(r, s);
    Ok(lc + [SaveLeft] + rc + tail)
  }

  /** `emitExpr` */
  function EmitExpr(e: Expr, s: Scope): (r: Result<seq<Line>, EmitError>)
    ensures r.Ok? <==> FirstUnbound(s, ExprUses(e)).None?
    ensures r.Err? ==> r.error == NotInScope(FirstUnbound(s, ExprUses(e)).value)
    ensures r.Ok? ==> Straight(r.value) && SlotsMatch(r.value, s)
  {
    match e
    case SingleExpr(t) => EmitTerm(t, s)
    case PlusExpr(l, r) => EmitOperands(l, r, s, ArithTail(Add))
    case MinusExpr(l, r) => EmitOperands(l, r, s, ArithTail(Sub))
    case MulExpr(l, r) => EmitOperands(l, r, s, ArithTail(Imul))
  }

  function RelCond(rel: Rel): Cond {
    match rel
    case LessThanRel(_, _) => Less
    case LessThanEqualRel(_, _) => LessEq
    case EqualRel(_, _) => Eq
  }

  /** `emitRel`: compare, then turn the flag into 0 or 1 in rax. */
  function EmitRel(rel: Rel, s: Scope): (r: Result<seq<Line>, EmitError>)
    ensures r.Ok? <==> FirstUnbound(s, RelUses(rel)).None?
    ensures r.Err? ==> r.error == NotInScope(FirstUnbound(s, RelUses(rel)).value)
    ensures r.Ok? ==> Straight(r.value) && SlotsMatch(r.value, s)
  {
    EmitOperands(rel.lhs, rel.rhs, s, CompareTail(RelCond(rel)))
  }

  lemma StraightHasNoLabels(code: seq<Line>)
    requires Straight(code)
    ensures NumbersEndIfs(code, 0, 0)
  {
    forall n
      ensures multiset(code)[EndIf(n)] == 0 && multiset(code)[Jz(n)] == 0
    {
      assert EndIf(n) !in code;
      assert Jz(n) !in code;
    }
  }

  /** `emitInstr` */
  function EmitInstr(x: Instr, s: Scope, count: nat): (r: Result<Emitted, EmitError>)
    ensures r.Ok? <==> FirstUnbound(s, Lookups(x)).None?
    ensures r.Err? ==> r.error == NotInScope(FirstUnbound(s, Lookups(x)).value)
    ensures r.Ok? ==> r.value.count == count + IfCount(x)
    ensures r.Ok? ==> NumbersEndIfs(r.value.code, count, r.value.count)
    ensures r.Ok? ==> SlotsMatch(r.value.code, s)
    decreases x, 1
  {
    match x
    case AssignInstr(id, e) => EmitAssign(id, e, s, count)
    case IfInstr(rel, body) => EmitIf(rel, body, s, count)
    case GotoInstr(l) =>
      Ok(Emitted([Jmp(l)], count))
    case OutputInstr(t) => EmitOutput(t, s, count)
    case LabelInstr(n) =>
      Ok(Emitted([UserLabel(n)], count))
  }

  /** The value goes to the target's slot; the target is looked up after
      the right-hand side has been emitted. */
  function EmitAssign(id: string, e: Expr, s: Scope, count: nat): (r: Result<Emitted, EmitError>)
    ensures r.Ok? <==> FirstUnbound(s, ExprUses(e) + [id]).None?
    ensures r.Err? ==> r.error == NotInScope(FirstUnbound(s, ExprUses(e) + [id]).value)
    ensures r.Ok? ==> r.value.count == count
    ensures r.Ok? ==> Straight(r.value.code) && SlotsMatch(r.value.code, s)
  {
    FirstUnboundAppend(s, ExprUses(e), [id]);
    var code :- EmitExpr(e, s);
    var off :- SlotOf(s, id);
    Ok(Emitted(code + [Store(off, id)], count))
  }

  /** The term's value is written to stdout, then a newline. */
  function EmitOutput(t: Term, s: Scope, count: nat): (r: Result<Emitted, EmitError>)
    ensures r.Ok? <==> FirstUnbound(s, TermUses(t)).None?
    ensures r.Err? ==> r.error == NotInScope(FirstUnbound(s, TermUses(t)).value)
    ensures r.Ok? ==> r.value.count == count
    ensures r.Ok? ==> Straight(r.value.code) && SlotsMatch(r.value.code, s)
  {
    var code :- EmitTerm(t, s);
    Ok(Emitted(code + WriteTail, count))
  }

  /** An `if` takes the counter's value as its label number and increments
      the counter before its body is emitted; a zero condition jumps past
      the body. */
  function EmitIf(rel: Rel, body: Instr, s: Scope, count: nat): (r: Result<Emitted, EmitError>)
    ensures r.Ok? <==> FirstUnbound(s, RelUses(rel) + Lookups(body)).None?
    ensures r.Err? ==> r.error == NotInScope(FirstUnbound(s, RelUses(rel) + Lookups(body)).value)
    ensures r.Ok? ==> r.value.count == count + 1 + IfCount(body)
    ensures r.Ok? ==> NumbersEndIfs(r.value.code, count, r.value.count)
    ensures r.Ok? ==> SlotsMatch(r.value.code, s)
    decreases IfInstr(rel, body), 0
  {
    FirstUnboundAppend(s, RelUses(rel), Lookups(body));
    var cond :- EmitRel(rel, s);
    var b :- EmitInstr(body, s, count + 1);
    IfBlockNumbers(cond, count, b.code, b.count);
    IfBlockSlots(cond, count, b.code, s);
    Ok(Emitted(cond + [TestRax, Jz(count)] + b.code + [EndIf(count)], b.count))
  }

  lemma IfBlockSlots(cond: seq<Line>, n: nat, body: seq<Line>, s: Scope)
    requires SlotsMatch(cond, s) && SlotsMatch(body, s)
    ensures SlotsMatch(cond + [TestRax, Jz(n)] + body + [EndIf(n)], s)
  {
    var code := cond + [TestRax, Jz(n)] + body + [EndIf(n)];
    forall k | 0 <= k < |code| && (code[k].Load? || code[k].Store?)
      ensures SlotOf(s, code[k].name) == Ok(code[k].offset)
    {
      if k < |cond| {
        assert code[k] == cond[k];
      } else if k >= |cond| + 2 && k < |cond| + 2 + |body| {
        assert code[k] == body[k - |cond| - 2];
      }
    }
  }

  lemma IfBlockNumbers(cond: seq<Line>, n: nat, body: seq<Line>, hi: nat)
    requires Straight(cond)
    requires n < hi && NumbersEndIfs(body, n + 1, hi)
    ensures NumbersEndIfs(cond + [TestRax, Jz(n)] + body + [EndIf(n)], n, hi)
  {
    StraightHasNoLabels(cond);
    var code := cond + [TestRax, Jz(n)] + body + [EndIf(n)];
    var m := multiset(code);
    assert m == multiset(cond) + multiset([TestRax, Jz(n)]) + multiset(body) + multiset([EndIf(n)]);
    forall k
      ensures m[EndIf(k)] == if n <= k < hi then 1 else 0
      ensures m[Jz(k)] == if n <= k < hi then 1 else 0
    {
      assert multiset(cond)[EndIf(k)] == 0 && multiset(cond)[Jz(k)] == 0;
      assert multiset([TestRax, Jz(n)])[EndIf(k)] == 0;
      assert multiset([TestRax, Jz(n)])[Jz(k)] == if k == n then 1 else 0;
      assert multiset([EndIf(n)])[EndIf(k)] == if k == n then 1 else 0;
      assert multiset([EndIf(n)])[Jz(k)] == 0;
      assert multiset(body)[EndIf(k)] == if n + 1 <= k < hi then 1 else 0;
      assert m[EndIf(k)] == multiset(cond)[EndIf(k)] + multiset([TestRax, Jz(n)])[EndIf(k)]
        + multiset(body)[EndIf(k)] + multiset([EndIf(n)])[EndIf(k)];
    }
  }

  /** The loop of `emitProgram` over the instructions, threading the `if`
      counter. */
  function EmitInstrs(xs: seq<Instr>, s: Scope, count: nat): (r: Result<Emitted, EmitError>)
    ensures r.Ok? <==> FirstUnbound(s, ProgramLookups(xs)).None?
    ensures r.Err? ==> r.error == NotInScope(FirstUnbound(s, ProgramLookups(xs)).value)
    ensures r.Ok? ==> r.value.count == count + ProgramIfCount(xs)
    ensures r.Ok? ==> NumbersEndIfs(r.value.code, count, r.value.count)
    ensures r.Ok? ==> SlotsMatch(r.value.code, s)
    decreases |xs|
  {
    if |xs| == 0 then
      StraightHasNoLabels([]);
      Ok(Emitted([], count))
    else
      FirstUnboundAppend(s, Lookups(xs[0]), ProgramLookups(xs[1..]));
      var first :- EmitInstr(xs[0], s, count);
      var rest :- EmitInstrs(xs[1..], s, first.count);
      Ok(Emitted(first.code + rest.code, rest.count))
  }

  /** Everything before the instructions; `frame` bytes of stack are
      reserved for the variables. */
  function Prologue(frame: nat): seq<Line> {
    [ Directive("format ELF64 executable"),
      Directive("LINE_MAX equ 1024"),
      Directive("segment readable executable"),
      Directive("include \"src/lib.asm\""),
      Directive("entry _start"),
      Directive("_start:"),
      Directive(Indent + "mov rbp, rsp"),
      SubRsp(frame) ]
  }

  /** Everything after the instructions: release the frame, exit with
      status 0, and the data segment. */
  function Epilogue(frame: nat): seq<Line> {
    [ AddRsp(frame),
      Directive(Indent + "mov rax, 60"),
      Directive(Indent + "mov rdi, 0"),
      Directive(Indent + "syscall"),
      Directive("segment readable writeable"),
      Directive("newline db 0xa"),
      Directive("line rb LINE_MAX") ]
  }

  /** `emitProgram`: the scope pass, then the prologue, the instructions
      with the counter starting at 0, and the epilogue. */
  function EmitProgram(p: Program): (r: Result<seq<Line>, EmitError>)
    ensures r.Ok? ==> ScopeProgram(p).Ok?
    ensures ScopeProgram(p).Err? ==> r == Err(ScopeFailed(ScopeProgram(p).error))
  {
    var s :- match ScopeProgram(p)
      case Ok(s) => Ok(s)
      case Err(e) => Err(ScopeFailed(e));
    var body :- EmitInstrs(p.instrs, s, 0);
    var frame := |s.idents| * 8;
    Ok(Prologue(frame) + body.code + Epilogue(frame))
  }

  /** The text `emitProgram` prints to stdout. */
  function EmitText(p: Program): (r: Result<string, EmitError>)
    ensures r.Ok? <==> EmitProgram(p).Ok?
  {
    var lines :- EmitProgram(p);
    Ok(Print(lines))
  }
}
