/** What the emitted code does, against a reference evaluation of the tree,
    and what emission promises about the program as a whole. */
module EmitLaws {
  import opened Wrappers
  import opened Ast
  import opened Scoping
  import opened ScopeLaws
  import opened Asm
  import opened Emit
  import opened Machine
  import opened AsmLaws

  // ---------------------------------------------------------------------
  // Reference evaluation: operands left to right, each `input` reading the
  // next line of stdin.

  datatype World = World(env: map<string, Val>, lines: nat, out: seq<OutItem>)

  function EnvAt(env: map<string, Val>, x: string): Val {
    if x in env then env[x] else Uninit
  }

  /** Lines of stdin a term reads. */
  function TermReads(t: Term): nat {
    if t.InputTerm? then 1 else 0
  }

  function TermValue(t: Term, env: map<string, Val>, lines: nat): Val {
    match t
    case InputTerm => Input(lines + 1)
    case IntTerm(v) => Imm(v)
    case IdentTerm(x) => EnvAt(env, x)
  }

  function BinaryValue(op: ArithOp, l: Term, r: Term, env: map<string, Val>, lines: nat): Val {
    Op(op, TermValue(l, env, lines), TermValue(r, env, lines + TermReads(l)))
  }

  function ExprValue(e: Expr, env: map<string, Val>, lines: nat): Val {
    match e
    case SingleExpr(t) => TermValue(t, env, lines)
    case PlusExpr(l, r) => BinaryValue(Add, l, r, env, lines)
    case MinusExpr(l, r) => BinaryValue(Sub, l, r, env, lines)
    case MulExpr(l, r) => BinaryValue(Imul, l, r, env, lines)
  }

  function ExprReads(e: Expr): nat {
    match e
    case SingleExpr(t) => TermReads(t)
    case PlusExpr(l, r) => TermReads(l) + TermReads(r)
    case MinusExpr(l, r) => TermReads(l) + TermReads(r)
    case MulExpr(l, r) => TermReads(l) + TermReads(r)
  }

  function RelValue(rel: Rel, env: map<string, Val>, lines: nat): Val {
    Test(RelCond(rel), TermValue(rel.lhs, env, lines), TermValue(rel.rhs, env, lines + TermReads(rel.lhs)))
  }

  /** Instructions that run from start to end: no jump, no condition. */
  predicate StraightInstr(x: Instr) {
    x.AssignInstr? || x.OutputInstr? || x.LabelInstr?
  }

  function RunInstr(x: Instr, w: World): World
    requires StraightInstr(x)
  {
    match x
    case AssignInstr(id, e) =>
      World(w.env[id := ExprValue(e, w.env, w.lines)], w.lines + ExprReads(e), w.out)
    case OutputInstr(t) =>
      World(w.env, w.lines + TermReads(t), w.out + [Number(TermValue(t, w.env, w.lines)), NewlineOut])
    case LabelInstr(_) => w
  }

  function RunInstrs(xs: seq<Instr>, w: World): World
    requires forall k :: 0 <= k < |xs| ==> StraightInstr(xs[k])
    decreases |xs|
  {
    if |xs| == 0 then w else RunInstrs(xs[1..], RunInstr(xs[0], w))
  }

  /** The machine's stack slots hold the values of the scope's variables,
      and stdin and stdout are in step. */
  ghost predicate Agrees(st: State, w: World, s: Scope) {
    && st.lines == w.lines
    && st.out == w.out
    && forall x :: Has(s, x) ==> MemAt(st.mem, SlotOf(s, x).value) == EnvAt(w.env, x)
  }

  // ---------------------------------------------------------------------
  // Stack slots.

  /** Different variables live in different slots. */
  lemma SlotsDistinct(s: Scope, x: string, y: string)
    requires Has(s, x) && Has(s, y)
    ensures SlotOf(s, x).value == SlotOf(s, y).value <==> x == y
  {
    var i := Find(s, x).value;
    var j := Find(s, y).value;
    assert SlotOf(s, x).value == Offset(i);
    assert SlotOf(s, y).value == Offset(j);
  }

  lemma StraightRuns(code: seq<Line>)
    requires Straight(code)
    ensures AllRun(code)
  {
  }

  // ---------------------------------------------------------------------
  // Terms, expressions and relations.

  /** A term's code leaves the term's value in rax, reads the lines the
      term reads, and keeps r12, the stack and stdout. */
  lemma RunTerm(t: Term, s: Scope, st: State, w: World)
    requires EmitTerm(t, s).Ok?
    requires Agrees(st, w, s)
    ensures AllRun(EmitTerm(t, s).value)
    ensures Exec(EmitTerm(t, s).value, st).rax == TermValue(t, w.env, w.lines)
    ensures Exec(EmitTerm(t, s).value, st).r12 == st.r12
    ensures Exec(EmitTerm(t, s).value, st).mem == st.mem
    ensures Exec(EmitTerm(t, s).value, st).out == st.out
    ensures Exec(EmitTerm(t, s).value, st).lines == st.lines + TermReads(t)
  {
    var code := EmitTerm(t, s).value;
    match t
    case InputTerm =>
      RunReadInput(st);
    case IntTerm(v) =>
      ExecOne(MovImm(v), st);
    case IdentTerm(x) =>
      assert Has(s, x);
      ExecOne(Load(SlotOf(s, x).value, x), st);
  }

  /** The code of both operands, before the operator's own lines. */
  function OperandCode(l: Term, r: Term, s: Scope): seq<Line>
    requires EmitTerm(l, s).Ok? && EmitTerm(r, s).Ok?
  {
    EmitTerm(l, s).value + [SaveLeft] + EmitTerm(r, s).value
  }

  /** The left operand, then `mov r12, rax`: its value is saved in r12
      and agreement holds at the next input line. */
  lemma RunLeftSaved(l: Term, s: Scope, st: State, w: World)
    requires EmitTerm(l, s).Ok?
    requires Agrees(st, w, s)
    ensures AllRun(EmitTerm(l, s).value)
    ensures var s2 := Step(SaveLeft, Exec(EmitTerm(l, s).value, st));
      && s2.r12 == TermValue(l, w.env, w.lines)
      && s2.mem == st.mem && s2.out == st.out && s2.lines == st.lines + TermReads(l)
      && Agrees(s2, World(w.env, w.lines + TermReads(l), w.out), s)
  {
    var s1 := Exec(EmitTerm(l, s).value, st);
    RunTerm(l, s, st, w);
    AgreesKept(st, Step(SaveLeft, s1), w, World(w.env, w.lines + TermReads(l), w.out), s);
  }

  /** Both operands: the left one ends up in r12, the right one in rax. */
  lemma RunOperands(l: Term, r: Term, s: Scope, st: State, w: World)
    requires EmitTerm(l, s).Ok? && EmitTerm(r, s).Ok?
    requires Agrees(st, w, s)
    ensures AllRun(OperandCode(l, r, s))
    ensures Exec(OperandCode(l, r, s), st).r12 == TermValue(l, w.env, w.lines)
    ensures Exec(OperandCode(l, r, s), st).rax == TermValue(r, w.env, w.lines + TermReads(l))
    ensures Exec(OperandCode(l, r, s), st).mem == st.mem
    ensures Exec(OperandCode(l, r, s), st).out == st.out
    ensures Exec(OperandCode(l, r, s), st).lines == st.lines + TermReads(l) + TermReads(r)
  {
    var lc := EmitTerm(l, s).value;
    var rc := EmitTerm(r, s).value;
    var s2 := Step(SaveLeft, Exec(lc, st));
    var w2 := World(w.env, w.lines + TermReads(l), w.out);
    RunLeftSaved(l, s, st, w);
    assert AllRun(rc) && Exec(rc, s2).rax == TermValue(r, w.env, w2.lines) && Exec(rc, s2).r12 == s2.r12
        && Exec(rc, s2).mem == s2.mem && Exec(rc, s2).out == s2.out
        && Exec(rc, s2).lines == s2.lines + TermReads(r) by {
      RunTerm(r, s, s2, w2);
    }
    ExecSplice(lc, SaveLeft, rc, st);
  }



  /** An expression's code leaves its value in rax: the left operand
      combined with the right one, in that order. */
  lemma RunExpr(e: Expr, s: Scope, st: State, w: World)
    requires EmitExpr(e, s).Ok?
    requires Agrees(st, w, s)
    ensures AllRun(EmitExpr(e, s).value)
    ensures Exec(EmitExpr(e, s).value, st).rax == ExprValue(e, w.env, w.lines)
    ensures Exec(EmitExpr(e, s).value, st).mem == st.mem
    ensures Exec(EmitExpr(e, s).value, st).out == st.out
    ensures Exec(EmitExpr(e, s).value, st).lines == st.lines + ExprReads(e)
  {
    match e
    case SingleExpr(t) => RunTerm(t, s, st, w);
    case PlusExpr(l, r) => RunBinary(Add, l, r, s, st, w);
    case MinusExpr(l, r) => RunBinary(Sub, l, r, s, st, w);
    case MulExpr(l, r) => RunBinary(Imul, l, r, s, st, w);
  }

  lemma RunBinary(op: ArithOp, l: Term, r: Term, s: Scope, st: State, w: World)
    requires EmitOperands(l, r, s, ArithTail(op)).Ok?
    requires Agrees(st, w, s)
    ensures AllRun(EmitOperands(l, r, s, ArithTail(op)).value)
    ensures Exec(EmitOperands(l, r, s, ArithTail(op)).value, st).rax
         == BinaryValue(op, l, r, w.env, w.lines)
    ensures Exec(EmitOperands(l, r, s, ArithTail(op)).value, st).mem == st.mem
    ensures Exec(EmitOperands(l, r, s, ArithTail(op)).value, st).out == st.out
    ensures Exec(EmitOperands(l, r, s, ArithTail(op)).value, st).lines
         == st.lines + TermReads(l) + TermReads(r)
  {
    BinaryShape(op, l, r, s);
    var head := OperandCode(l, r, s);
    RunOperands(l, r, s, st, w);
    RunArithTail(op, Exec(head, st));
    ExecAppend(head, ArithTail(op), st);
  }

  lemma BinaryShape(op: ArithOp, l: Term, r: Term, s: Scope)
    requires EmitOperands(l, r, s, ArithTail(op)).Ok?
    ensures EmitTerm(l, s).Ok? && EmitTerm(r, s).Ok?
    ensures EmitOperands(l, r, s, ArithTail(op)).value == OperandCode(l, r, s) + ArithTail(op)
  {
    FirstUnboundAppend(s, TermUses(l), TermUses(r));
  }

  /** A relation's code leaves 1 in rax when it holds and 0 when not. */
  lemma RunRel(rel: Rel, s: Scope, st: State, w: World)
    requires EmitRel(rel, s).Ok?
    requires Agrees(st, w, s)
    ensures AllRun(EmitRel(rel, s).value)
    ensures Exec(EmitRel(rel, s).value, st).rax == RelValue(rel, w.env, w.lines)
    ensures Exec(EmitRel(rel, s).value, st).mem == st.mem
    ensures Exec(EmitRel(rel, s).value, st).out == st.out
  {
    RelShape(rel, s);
    var tail := CompareTail(RelCond(rel));
    var head := OperandCode(rel.lhs, rel.rhs, s);
    RunOperands(rel.lhs, rel.rhs, s, st, w);
    RunCompareTail(RelCond(rel), Exec(head, st));
    ExecAppend(head, tail, st);
  }

  lemma RelShape(rel: Rel, s: Scope)
    requires EmitRel(rel, s).Ok?
    ensures EmitTerm(rel.lhs, s).Ok? && EmitTerm(rel.rhs, s).Ok?
    ensures EmitRel(rel, s).value == OperandCode(rel.lhs, rel.rhs, s) + CompareTail(RelCond(rel))
  {
    FirstUnboundAppend(s, TermUses(rel.lhs), TermUses(rel.rhs));
  }

  // ---------------------------------------------------------------------
  // Instructions that run from start to end.

  /** An assignment's code stores the expression's value in the target's
      slot and leaves every other variable's slot alone. */
  lemma RunAssign(id: string, e: Expr, s: Scope, count: nat, st: State, w: World)
    requires EmitAssign(id, e, s, count).Ok?
    requires Agrees(st, w, s)
    ensures AllRun(EmitAssign(id, e, s, count).value.code)
    ensures Agrees(Exec(EmitAssign(id, e, s, count).value.code, st), RunInstr(AssignInstr(id, e), w), s)
  {
    FirstUnboundAppend(s, ExprUses(e), [id]);
    var ec := EmitExpr(e, s).value;
    var off := SlotOf(s, id).value;
    assert EmitAssign(id, e, s, count).value.code == ec + [Store(off, id)];
    RunExpr(e, s, st, w);
    var mid := Exec(ec, st);
    ExecOne(Store(off, id), mid);
    ExecAppend(ec, [Store(off, id)], st);
    var fin := Step(Store(off, id), mid);
    var w' := RunInstr(AssignInstr(id, e), w);
    forall y | Has(s, y)
      ensures MemAt(fin.mem, SlotOf(s, y).value) == EnvAt(w'.env, y)
    {
      SlotsDistinct(s, y, id);
    }
  }

  /** An output's code writes the term's value and a newline to stdout. */
  lemma RunOutput(t: Term, s: Scope, count: nat, st: State, w: World)
    requires EmitOutput(t, s, count).Ok?
    requires Agrees(st, w, s)
    ensures AllRun(EmitOutput(t, s, count).value.code)
    ensures Agrees(Exec(EmitOutput(t, s, count).value.code, st), RunInstr(OutputInstr(t), w), s)
  {
    var tc := EmitTerm(t, s).value;
    assert EmitOutput(t, s, count).value.code == tc + WriteTail;
    assert AllRun(tc) && Exec(tc, st).rax == TermValue(t, w.env, w.lines) && Exec(tc, st).mem == st.mem
        && Exec(tc, st).out == st.out && Exec(tc, st).lines == st.lines + TermReads(t) by {
      RunTerm(t, s, st, w);
    }
    RunThenWrite(tc, st);
    AgreesKept(st, Exec(tc + WriteTail, st), w, RunInstr(OutputInstr(t), w), s);
  }



  /** The stack and the variables unchanged, agreement carries over to
      new input and output positions. */
  lemma AgreesKept(st: State, st': State, w: World, w': World, s: Scope)
    requires Agrees(st, w, s)
    requires st'.mem == st.mem && w'.env == w.env
    requires st'.lines == w'.lines && st'.out == w'.out
    ensures Agrees(st', w', s)
  {
  }

  lemma RunStraightInstr(x: Instr, s: Scope, count: nat, st: State, w: World)
    requires StraightInstr(x)
    requires EmitInstr(x, s, count).Ok?
    requires Agrees(st, w, s)
    ensures AllRun(EmitInstr(x, s, count).value.code)
    ensures Agrees(Exec(EmitInstr(x, s, count).value.code, st), RunInstr(x, w), s)
  {
    match x
    case AssignInstr(id, e) => RunAssign(id, e, s, count, st, w);
    case OutputInstr(t) => RunOutput(t, s, count, st, w);
    case LabelInstr(n) =>
      ExecOne(UserLabel(n), st);
  }

  /** The code of instructions that run from start to end does, variable
      by variable and line by line of stdin and stdout, what the reference
      evaluation does. */
  lemma {:induction false} RunStraight(xs: seq<Instr>, s: Scope, count: nat, st: State, w: World)
    requires forall k :: 0 <= k < |xs| ==> StraightInstr(xs[k])
    requires EmitInstrs(xs, s, count).Ok?
    requires Agrees(st, w, s)
    ensures AllRun(EmitInstrs(xs, s, count).value.code)
    ensures Agrees(Exec(EmitInstrs(xs, s, count).value.code, st), RunInstrs(xs, w), s)
    decreases |xs|
  {
    if |xs| > 0 {
      FirstUnboundAppend(s, Lookups(xs[0]), ProgramLookups(xs[1..]));
      var first := EmitInstr(xs[0], s, count).value;
      var rest := EmitInstrs(xs[1..], s, first.count).value;
      assert EmitInstrs(xs, s, count).value.code == first.code + rest.code;
      RunStraightInstr(xs[0], s, count, st, w);
      RunStraight(xs[1..], s, first.count, Exec(first.code, st), RunInstr(xs[0], w));
      ExecAppend(first.code, rest.code, st);
    }
  }

  // ---------------------------------------------------------------------
  // Whole programs.

  lemma UseIn(names: seq<string>, y: string)
    requires y in names
    ensures Use(y) in Uses(names)
  {
    var k :| 0 <= k < |names| && names[k] == y;
    assert Uses(names)[k] == Use(y);
  }

  /** Every name emission looks up is read or assigned by the instruction. */
  lemma {:induction false} LookupsAreEvents(x: Instr, y: string)
    requires y in Lookups(x)
    ensures Use(y) in InstrEvents(x) || Def(y) in InstrEvents(x)
    decreases x
  {
    match x
    case AssignInstr(id, e) =>
      var evs := Uses(ExprUses(e)) + [Def(id)];
      if y in ExprUses(e) {
        UseIn(ExprUses(e), y);
        assert Use(y) in evs;
      } else {
        assert evs[|evs| - 1] == Def(y);
      }
    case IfInstr(rel, body) =>
      var evs := Uses(RelUses(rel)) + InstrEvents(body);
      if y in RelUses(rel) {
        UseIn(RelUses(rel), y);
        assert Use(y) in evs;
      } else {
        LookupsAreEvents(body, y);
        assert Use(y) in evs || Def(y) in evs;
      }
    case OutputInstr(t) =>
      UseIn(TermUses(t), y);
  }

  lemma {:induction false} ProgramLookupsAreEvents(xs: seq<Instr>, y: string)
    requires y in ProgramLookups(xs)
    ensures Use(y) in ProgramEvents(xs) || Def(y) in ProgramEvents(xs)
    decreases |xs|
  {
    var evs := InstrEvents(xs[0]) + ProgramEvents(xs[1..]);
    if y in Lookups(xs[0]) {
      LookupsAreEvents(xs[0], y);
      assert Use(y) in evs || Def(y) in evs;
    } else {
      ProgramLookupsAreEvents(xs[1..], y);
      assert Use(y) in evs || Def(y) in evs;
    }
  }

  /** A program that passes the scope pass is emitted: the lookup failure
      of the generator (`cannot find ident in scope`) cannot happen after
      it, so emission fails exactly when the scope pass does. */
  lemma EmitSucceedsAfterScope(p: Program)
    ensures EmitProgram(p).Ok? <==> ScopeProgram(p).Ok?
    ensures EmitProgram(p).Err? ==> EmitProgram(p).error.ScopeFailed?
  {
    var evs := ProgramEvents(p.instrs);
    ScopeProgramDecides(p);
    if ScopeProgram(p).Ok? {
      var s := ScopeProgram(p).value;
      forall y | y in ProgramLookups(p.instrs)
        ensures Has(s, y)
      {
        ProgramLookupsAreEvents(p.instrs, y);
        if Use(y) !in evs {
          assert Def(y) in evs;
        } else {
          var k :| 0 <= k < |evs| && evs[k] == Use(y);
          assert BoundAt(EmptyScope, evs, k);
          assert Def(y) in evs[..k];
        }
      }
      assert EmitInstrs(p.instrs, s, 0).Ok?;
    }
  }

  /** The stack frame: 8 bytes for every name in the final scope. */
  function Frame(p: Program): nat
    requires ScopeProgram(p).Ok?
  {
    8 * |ScopeProgram(p).value.idents|
  }

  /** The instruction code between the prologue and the epilogue. */
  function Body(p: Program): seq<Line>
    requires ScopeProgram(p).Ok?
  {
    EmitSucceedsAfterScope(p);
    EmitInstrs(p.instrs, ScopeProgram(p).value, 0).value.code
  }

  lemma Layout(p: Program)
    requires EmitProgram(p).Ok?
    ensures EmitProgram(p).value == Prologue(Frame(p)) + Body(p) + Epilogue(Frame(p))
  {
  }

  /** Every load and store addresses a whole 8-byte slot inside the frame
      the prologue reserves and the epilogue releases, the slot of the
      variable it names; different variables have different slots. */
  lemma SlotsInFrame(p: Program)
    requires EmitProgram(p).Ok?
    ensures var code := EmitProgram(p).value;
      && code[7] == SubRsp(Frame(p))
      && code[|code| - 7] == AddRsp(Frame(p))
      && forall k :: 0 <= k < |code| && (code[k].Load? || code[k].Store?) ==>
           && 8 <= code[k].offset <= Frame(p)
           && code[k].offset % 8 == 0
           && SlotOf(ScopeProgram(p).value, code[k].name) == Ok(code[k].offset)
  {
    Layout(p);
    var s := ScopeProgram(p).value;
    FrameEnds(Frame(p), Body(p));
    WrapSlots(Prologue(Frame(p)), Body(p), Epilogue(Frame(p)), s);
    SlotBounds(EmitProgram(p).value, s);
  }

  lemma FrameEnds(frame: nat, body: seq<Line>)
    ensures var code := Prologue(frame) + body + Epilogue(frame);
      code[7] == SubRsp(frame) && code[|code| - 7] == AddRsp(frame)
  {
    var code := Prologue(frame) + body + Epilogue(frame);
    assert code[7] == Prologue(frame)[7];
    assert code[|code| - 7] == Epilogue(frame)[0];
  }

  /** Lines without loads and stores around a block keep its slots. */
  lemma WrapSlots(pro: seq<Line>, body: seq<Line>, epi: seq<Line>, s: Scope)
    requires forall k :: 0 <= k < |pro| ==> pro[k].Directive? || pro[k].SubRsp?
    requires forall k :: 0 <= k < |epi| ==> epi[k].Directive? || epi[k].AddRsp?
    requires SlotsMatch(body, s)
    ensures SlotsMatch(pro + body + epi, s)
  {
    var code := pro + body + epi;
    forall k | 0 <= k < |code|
      ensures code[k].Load? || code[k].Store? ==> SlotOf(s, code[k].name) == Ok(code[k].offset)
    {
      if k < |pro| {
        assert code[k] == pro[k];
      } else if k < |pro| + |body| {
        assert code[k] == body[k - |pro|];
      } else {
        assert code[k] == epi[k - |pro| - |body|];
      }
    }
  }

  /** A block whose slots match the scope addresses only the scope's slots. */
  lemma SlotBounds(code: seq<Line>, s: Scope)
    requires SlotsMatch(code, s)
    ensures forall k :: 0 <= k < |code| && (code[k].Load? || code[k].Store?) ==>
      && 8 <= code[k].offset <= 8 * |s.idents|
      && code[k].offset % 8 == 0
  {
    forall k | 0 <= k < |code| && (code[k].Load? || code[k].Store?)
      ensures 8 <= code[k].offset <= 8 * |s.idents| && code[k].offset % 8 == 0
    {
      assert SlotOf(s, code[k].name) == Ok(code[k].offset);
    }
  }

  /** Each `if` of the program, numbered from 0 in program order, has
      exactly one `jz .endifN` and one `.endifN:`; no other number
      occurs. */
  lemma EndIfsUnique(p: Program)
    requires EmitProgram(p).Ok?
    ensures NumbersEndIfs(EmitProgram(p).value, 0, ProgramIfCount(p.instrs))
  {
    Layout(p);
    WrapNumbers(Prologue(Frame(p)), Body(p), Epilogue(Frame(p)), 0, ProgramIfCount(p.instrs));
  }

  /** Lines without `if` labels around a block keep its numbering. */
  lemma WrapNumbers(pro: seq<Line>, body: seq<Line>, epi: seq<Line>, lo: nat, hi: nat)
    requires forall k :: 0 <= k < |pro| ==> pro[k].Directive? || pro[k].SubRsp?
    requires forall k :: 0 <= k < |epi| ==> epi[k].Directive? || epi[k].AddRsp?
    requires NumbersEndIfs(body, lo, hi)
    ensures NumbersEndIfs(pro + body + epi, lo, hi)
  {
    var m := multiset(pro + body + epi);
    assert m == multiset(pro) + multiset(body) + multiset(epi);
    forall n
      ensures m[EndIf(n)] == multiset(body)[EndIf(n)]
      ensures m[Jz(n)] == multiset(body)[Jz(n)]
    {
      assert EndIf(n) !in pro && Jz(n) !in pro;
      assert EndIf(n) !in epi && Jz(n) !in epi;
    }
  }

  /** A line at two positions is counted twice. */
  lemma TwiceCounted(code: seq<Line>, i: nat, j: nat)
    requires i < j < |code|
    ensures code[i] == code[j] ==> multiset(code)[code[i]] >= 2
  {
    assert code == code[..j] + code[j..];
    assert code[..j][i] == code[i];
    assert code[j..][0] == code[j];
  }

  /** The program's own labels, nested ones included, hold no digit. */
  predicate LabelsDigitFree(x: Instr) {
    match x
    case LabelInstr(n) => DigitFree(n)
    case IfInstr(_, body) => LabelsDigitFree(body)
    case _ => true
  }

  predicate UserLabelsDigitFree(code: seq<Line>) {
    forall k :: 0 <= k < |code| && code[k].UserLabel? ==> DigitFree(code[k].name)
  }

  lemma IfShape(rel: Rel, body: Instr, s: Scope, count: nat)
    requires EmitIf(rel, body, s, count).Ok?
    ensures EmitRel(rel, s).Ok? && EmitInstr(body, s, count + 1).Ok?
    ensures EmitIf(rel, body, s, count).value.code
         == EmitRel(rel, s).value + [TestRax, Jz(count)] + EmitInstr(body, s, count + 1).value.code + [EndIf(count)]
  {
    FirstUnboundAppend(s, RelUses(rel), Lookups(body));
  }

  lemma IfBlockLabels(cond: seq<Line>, n: nat, b: seq<Line>)
    requires Straight(cond) && UserLabelsDigitFree(b)
    ensures UserLabelsDigitFree(cond + [TestRax, Jz(n)] + b + [EndIf(n)])
  {
    var code := cond + [TestRax, Jz(n)] + b + [EndIf(n)];
    forall k | 0 <= k < |code|
      ensures code[k].UserLabel? ==> DigitFree(code[k].name)
    {
      if k < |cond| {
        assert code[k] == cond[k];
      } else if |cond| + 2 <= k < |cond| + 2 + |b| {
        assert code[k] == b[k - |cond| - 2];
      }
    }
  }

  /** The user labels in an instruction's code are the instruction's own. */
  lemma {:induction false} InstrLabels(x: Instr, s: Scope, count: nat)
    requires EmitInstr(x, s, count).Ok? && LabelsDigitFree(x)
    ensures UserLabelsDigitFree(EmitInstr(x, s, count).value.code)
    decreases x
  {
    match x
    case IfInstr(rel, body) =>
      IfShape(rel, body, s, count);
      InstrLabels(body, s, count + 1);
      IfBlockLabels(EmitRel(rel, s).value, count, EmitInstr(body, s, count + 1).value.code);
    case AssignInstr(_, _) =>
    case OutputInstr(_) =>
    case GotoInstr(_) =>
    case LabelInstr(_) =>
  }

  lemma EmitInstrsSplit(xs: seq<Instr>, s: Scope, count: nat)
    requires |xs| > 0 && EmitInstrs(xs, s, count).Ok?
    ensures EmitInstr(xs[0], s, count).Ok?
    ensures EmitInstrs(xs[1..], s, EmitInstr(xs[0], s, count).value.count).Ok?
    ensures EmitInstrs(xs, s, count).value.code
         == EmitInstr(xs[0], s, count).value.code
          + EmitInstrs(xs[1..], s, EmitInstr(xs[0], s, count).value.count).value.code
  {
    FirstUnboundAppend(s, Lookups(xs[0]), ProgramLookups(xs[1..]));
  }

  lemma LabelsJoin(a: seq<Line>, b: seq<Line>)
    requires UserLabelsDigitFree(a) && UserLabelsDigitFree(b)
    ensures UserLabelsDigitFree(a + b)
  {
    var code := a + b;
    forall k | 0 <= k < |code| && code[k].UserLabel?
      ensures DigitFree(code[k].name)
    {
      if k < |a| {
        assert code[k] == a[k];
      } else {
        assert code[k] == b[k - |a|];
      }
    }
  }

  lemma {:induction false} InstrsLabels(xs: seq<Instr>, s: Scope, count: nat)
    requires EmitInstrs(xs, s, count).Ok?
    requires forall k :: 0 <= k < |xs| ==> LabelsDigitFree(xs[k])
    ensures UserLabelsDigitFree(EmitInstrs(xs, s, count).value.code)
    decreases |xs|
  {
    if |xs| > 0 {
      EmitInstrsSplit(xs, s, count);
      var first := EmitInstr(xs[0], s, count).value;
      InstrLabels(xs[0], s, count);
      InstrsLabels(xs[1..], s, first.count);
      LabelsJoin(first.code, EmitInstrs(xs[1..], s, first.count).value.code);
    }
  }

  lemma ProgramLabels(p: Program)
    requires EmitProgram(p).Ok?
    requires forall k :: 0 <= k < |p.instrs| ==> LabelsDigitFree(p.instrs[k])
    ensures UserLabelsDigitFree(EmitProgram(p).value)
  {
    Layout(p);
    var pro := Prologue(Frame(p));
    var body := Body(p);
    var code := EmitProgram(p).value;
    InstrsLabels(p.instrs, ScopeProgram(p).value, 0);
    forall k | 0 <= k < |code| && code[k].UserLabel?
      ensures DigitFree(code[k].name)
    {
      assert |pro| <= k < |pro| + |body|;
      assert code[k] == body[k - |pro|];
    }
  }

  /** Two distinct label lines of the emitted program never print as the
      same label when one of them is an `.endifN:` label, provided the
      program's own labels hold no digit (the lexer's labels never do). */
  lemma EndIfLabelsDistinct(p: Program, i: nat, j: nat)
    requires EmitProgram(p).Ok?
    requires forall k :: 0 <= k < |p.instrs| ==> LabelsDigitFree(p.instrs[k])
    requires i < |EmitProgram(p).value| && j < |EmitProgram(p).value| && i != j
    requires EmitProgram(p).value[i].EndIf? && DefinesLabel(EmitProgram(p).value[j])
    ensures Render(EmitProgram(p).value[i]) != Render(EmitProgram(p).value[j])
  {
    var code := EmitProgram(p).value;
    EndIfsUnique(p);
    ProgramLabels(p);
    LabelsPrintDistinctly(code[i], code[j]);
    if i < j {
      TwiceCounted(code, i, j);
    } else {
      TwiceCounted(code, j, i);
    }
    assert multiset(code)[EndIf(code[i].endif)] <= 1;
  }

  // ---------------------------------------------------------------------
  // Running programs.

  /** A program of assignments, outputs and labels, run from an empty stack
      and before any input is read, writes to stdout what the reference
      evaluation writes, reads as many lines, and leaves every variable's
      value in its slot. */
  lemma StraightProgramCorrect(p: Program, st: State)
    requires EmitProgram(p).Ok?
    requires forall k :: 0 <= k < |p.instrs| ==> StraightInstr(p.instrs[k])
    requires st.mem == map[] && st.lines == 0 && st.out == []
    ensures AllRun(Body(p))
    ensures Exec(Body(p), st).out == RunInstrs(p.instrs, World(map[], 0, [])).out
    ensures Exec(Body(p), st).lines == RunInstrs(p.instrs, World(map[], 0, [])).lines
    ensures Agrees(Exec(Body(p), st), RunInstrs(p.instrs, World(map[], 0, [])), ScopeProgram(p).value)
  {
    var s := ScopeProgram(p).value;
    assert Agrees(st, World(map[], 0, []), s);
    RunStraight(p.instrs, s, 0, st, World(map[], 0, []));
  }

  /** An `if` block: the condition's code, `test rax, rax`, a `jz` to the
      block's own `endif` label, the body, and that label last. */
  lemma IfLayout(rel: Rel, body: Instr, s: Scope, count: nat)
    requires EmitIf(rel, body, s, count).Ok?
    ensures var code := EmitIf(rel, body, s, count).value.code;
      var c := |EmitRel(rel, s).value|;
      && c + 2 < |code|
      && code[..c + 1] == EmitRel(rel, s).value + [TestRax]
      && code[c + 1] == Jz(count)
      && code[|code| - 1] == EndIf(count)
  {
    IfShape(rel, body, s, count);
    IfBlockPositions(EmitRel(rel, s).value, count, EmitInstr(body, s, count + 1).value.code);
  }

  /** The condition's code leaves the relation's value, 0 or 1, in rax,
      and `test rax, rax` sets the zero flag from it, so the `jz` skips
      the body exactly when the relation does not hold. */
  lemma RunIfCondition(rel: Rel, s: Scope, st: State, w: World)
    requires EmitRel(rel, s).Ok?
    requires Agrees(st, w, s)
    ensures AllRun(EmitRel(rel, s).value + [TestRax])
    ensures Exec(EmitRel(rel, s).value + [TestRax], st).flags == ZeroTest(RelValue(rel, w.env, w.lines))
    ensures Exec(EmitRel(rel, s).value + [TestRax], st).mem == st.mem
    ensures Exec(EmitRel(rel, s).value + [TestRax], st).out == st.out
  {
    RunRel(rel, s, st, w);
    RunTest(EmitRel(rel, s).value, st);
  }

  lemma IfBlockPositions(cond: seq<Line>, n: nat, b: seq<Line>)
    ensures var code := cond + [TestRax, Jz(n)] + b + [EndIf(n)];
      && code[|cond|] == TestRax
      && code[|cond| + 1] == Jz(n)
      && code[|code| - 1] == EndIf(n)
      && code[..|cond| + 1] == cond + [TestRax]
  {
  }

  lemma RunTest(cond: seq<Line>, st: State)
    requires AllRun(cond)
    ensures AllRun(cond + [TestRax])
    ensures Exec(cond + [TestRax], st) == Exec(cond, st).(flags := ZeroTest(Exec(cond, st).rax))
  {
    ExecOne(TestRax, Exec(cond, st));
    ExecAppend(cond, [TestRax], st);
  }
}
