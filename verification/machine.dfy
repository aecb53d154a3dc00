/** A symbolic x86-64 machine for the lines the code generator emits. Values
    are terms that record how they were computed, so running a block of
    code shows which operands meet in which order. Jumps are not run:
    the machine covers code that runs from its first line to its last.

    The runtime library (`strlen`, `parse_uint`, `write_uint`, the `read`
    and `write` macros) is not part of this model; its routines are assumed
    to follow the System V AMD64 calling convention: they return in rax,
    may overwrite rax, rdi and rsi, and preserve r12 and the stack frame.

    `ReadLine` counts one line per `read 0, line, LINE_MAX`. That is an
    assumption about stdin: a pipe may deliver several lines in one read,
    or part of one, and a shorter line leaves the previous line's bytes
    after its own newline for `strlen` to count. The machine models a
    terminal-like stdin that returns exactly one whole line per read. */
module Machine {
  import opened Asm

  datatype Val =
    | Uninit                        // a stack slot never written
    | Imm(text: string)             // an integer literal, digits as written
    | Input(k: nat)                 // the number on the k-th line read from stdin (from 1)
    | LineLen(k: nat)               // the length of the k-th line read
    | LineBuf                       // the address of the line buffer
    | Garbage                       // a register a routine may have overwritten
    | Op(op: ArithOp, a: Val, b: Val)
    | Test(cond: Cond, a: Val, b: Val)  // 1 when `a cond b` holds, else 0

  datatype Flags = NoFlags | Compared(a: Val, b: Val) | ZeroTest(v: Val)

  /** What the program wrote to stdout. */
  datatype OutItem = Number(v: Val) | NewlineOut

  datatype State = State(
    rax: Val, r12: Val, rdi: Val, rsi: Val, al: Val, flags: Flags,
    mem: map<nat, Val>,   // stack slots by offset below rbp
    lines: nat,           // lines read from stdin so far
    out: seq<OutItem>)

  function MemAt(mem: map<nat, Val>, off: nat): Val {
    if off in mem then mem[off] else Uninit
  }

  /** Lines the machine runs: straight-line code and labels, which do nothing. */
  predicate Runs(l: Line) {
    Plain(l) || l.UserLabel? || l.EndIf?
  }

  /** A call: the routine's result in rax; rdi and rsi may be overwritten. */
  function Call(st: State, result: Val): State {
    st.(rax := result, rdi := Garbage, rsi := Garbage)
  }

  /** One line's effect, under the assumptions stated above for the
      runtime routines and for reads from stdin. */
  function Step(l: Line, st: State): State
    requires Runs(l)
  {
    match l
    case MovImm(v) => st.(rax := Imm(v))
    case Load(off, _) => st.(rax := MemAt(st.mem, off))
    case Store(off, _) => st.(mem := st.mem[off := st.rax])
    case ReadLine => Call(st, Garbage).(lines := st.lines + 1)
    case MovRdiLine => st.(rdi := LineBuf)
    case CallStrlen => Call(st, if st.rdi == LineBuf then LineLen(st.lines) else Garbage)
    case MovRsiRax => st.(rsi := st.rax)
    case CallParseUint =>
      Call(st, if st.rdi == LineBuf && st.rsi == LineLen(st.lines) then Input(st.lines) else Garbage)
    case SaveLeft => st.(r12 := st.rax)
    case Arith(op) => st.(r12 := Op(op, st.r12, st.rax))
    case MovRaxR12 => st.(rax := st.r12)
    case CmpR12Rax => st.(flags := Compared(st.r12, st.rax))
    case SetAl(c) => st.(al := if st.flags.Compared? then Test(c, st.flags.a, st.flags.b) else Garbage)
    case AndAl1 => st.(al := if st.al.Test? then st.al else Garbage)
    case MovzxRaxAl => st.(rax := st.al)
    case TestRax => st.(flags := ZeroTest(st.rax))
    case MovRdi1 => st.(rdi := Imm("1"))
    case CallWriteUint =>
      Call(st, Garbage).(out := st.out + [Number(if st.rdi == Imm("1") then st.rsi else Garbage)])
    case WriteNewline => Call(st, Garbage).(out := st.out + [NewlineOut])
    case UserLabel(_) => st
    case EndIf(_) => st
  }

  predicate AllRun(code: seq<Line>) {
    forall k :: 0 <= k < |code| ==> Runs(code[k])
  }

  function Exec(code: seq<Line>, st: State): State
    requires AllRun(code)
    decreases |code|
  {
    if |code| == 0 then st else Exec(code[1..], Step(code[0], st))
  }

  /** The first line runs first. */
  lemma ExecCons(l: Line, rest: seq<Line>, st: State)
    requires Runs(l) && AllRun(rest)
    ensures AllRun([l] + rest)
    ensures Exec([l] + rest, st) == Exec(rest, Step(l, st))
  {
    assert ([l] + rest)[0] == l;
    assert ([l] + rest)[1..] == rest;
  }

  /** Running two blocks one after the other is running their
      concatenation. */
  lemma {:induction false} ExecAppend(a: seq<Line>, b: seq<Line>, st: State)
    requires AllRun(a) && AllRun(b)
    ensures AllRun(a + b)
    ensures Exec(a + b, st) == Exec(b, Exec(a, st))
    decreases |a|
  {
    assert AllRun(a + b) by {
      forall k | 0 <= k < |a + b|
        ensures Runs((a + b)[k])
      {
        if k < |a| {
          assert (a + b)[k] == a[k];
        } else {
          assert (a + b)[k] == b[k - |a|];
        }
      }
    }
    if |a| > 0 {
      assert (a + b)[0] == a[0];
      assert (a + b)[1..] == a[1..] + b;
      ExecAppend(a[1..], b, Step(a[0], st));
    } else {
      assert a + b == b;
    }
  }

  /** A block, one line, then another block. */
  lemma ExecSplice(a: seq<Line>, m: Line, c: seq<Line>, st: State)
    requires AllRun(a) && Runs(m) && AllRun(c)
    ensures AllRun(a + [m] + c)
    ensures Exec(a + [m] + c, st) == Exec(c, Step(m, Exec(a, st)))
  {
    ExecOne(m, Exec(a, st));
    ExecAppend(a, [m], st);
    ExecAppend(a + [m], c, st);
  }

  /** Short blocks, line by line. */
  lemma ExecOne(a: Line, st: State)
    requires Runs(a)
    ensures AllRun([a])
    ensures Exec([a], st) == Step(a, st)
  {
    assert [a][1..] == [];
  }

  lemma ExecTwo(a: Line, b: Line, st: State)
    requires Runs(a) && Runs(b)
    ensures AllRun([a, b])
    ensures Exec([a, b], st) == Step(b, Step(a, st))
  {
    ExecOne(b, Step(a, st));
    assert [a, b][1..] == [b];
  }

  lemma ExecFour(a: Line, b: Line, c: Line, d: Line, st: State)
    requires Runs(a) && Runs(b) && Runs(c) && Runs(d)
    ensures AllRun([a, b, c, d])
    ensures Exec([a, b, c, d], st) == Step(d, Step(c, Step(b, Step(a, st))))
  {
    ExecTwo(c, d, Step(b, Step(a, st)));
    assert [a, b, c, d][1..] == [b, c, d];
    assert [b, c, d][1..] == [c, d];
  }

  lemma ExecSix(a: Line, b: Line, c: Line, d: Line, e: Line, f: Line, st: State)
    requires Runs(a) && Runs(b) && Runs(c) && Runs(d) && Runs(e) && Runs(f)
    ensures AllRun([a, b, c, d, e, f])
    ensures Exec([a, b, c, d, e, f], st)
         == Step(f, Step(e, Step(d, Step(c, Step(b, Step(a, st))))))
  {
    ExecFour(c, d, e, f, Step(b, Step(a, st)));
    assert [a, b, c, d, e, f][1..] == [b, c, d, e, f];
    assert [b, c, d, e, f][1..] == [c, d, e, f];
  }

  // ---------------------------------------------------------------------
  // The fixed blocks of the generator.

  /** `input` leaves the number on the next line of stdin in rax and keeps
      r12, the stack and stdout. */
  lemma RunReadInput(st: State)
    ensures AllRun(ReadInput)
    ensures Exec(ReadInput, st).rax == Input(st.lines + 1)
    ensures Exec(ReadInput, st).r12 == st.r12
    ensures Exec(ReadInput, st).mem == st.mem
    ensures Exec(ReadInput, st).out == st.out
    ensures Exec(ReadInput, st).lines == st.lines + 1
  {
    ExecSix(ReadLine, MovRdiLine, CallStrlen, MovRdiLine, MovRsiRax, CallParseUint, st);
    var t := Step(CallParseUint, Step(MovRsiRax, Step(MovRdiLine, Step(CallStrlen, Step(MovRdiLine, Step(ReadLine, st))))));
    assert t.rax == Input(st.lines + 1) && t.r12 == st.r12 && t.mem == st.mem && t.out == st.out
        && t.lines == st.lines + 1 by {
      ReadInputSteps(st);
    }
  }

  lemma ReadInputSteps(st: State)
    ensures var t := Step(CallParseUint, Step(MovRsiRax, Step(MovRdiLine, Step(CallStrlen, Step(MovRdiLine, Step(ReadLine, st))))));
      && t.rax == Input(st.lines + 1) && t.r12 == st.r12 && t.mem == st.mem && t.out == st.out
      && t.lines == st.lines + 1
  {
  }

  lemma RunArithTail(op: ArithOp, st: State)
    ensures AllRun(ArithTail(op))
    ensures Exec(ArithTail(op), st).rax == Op(op, st.r12, st.rax)
    ensures Exec(ArithTail(op), st).mem == st.mem
    ensures Exec(ArithTail(op), st).out == st.out
    ensures Exec(ArithTail(op), st).lines == st.lines
  {
    ExecTwo(Arith(op), MovRaxR12, st);
    var t := Step(MovRaxR12, Step(Arith(op), st));
    assert t.rax == Op(op, st.r12, st.rax) && t.mem == st.mem && t.out == st.out && t.lines == st.lines by {
      ArithSteps(op, st);
    }
  }

  lemma ArithSteps(op: ArithOp, st: State)
    ensures var t := Step(MovRaxR12, Step(Arith(op), st));
      t.rax == Op(op, st.r12, st.rax) && t.mem == st.mem && t.out == st.out && t.lines == st.lines
  {
  }

  /** The comparison leaves `Test(c, r12, rax)`, 0 or 1, in rax. */
  lemma RunCompareTail(c: Cond, st: State)
    ensures AllRun(CompareTail(c))
    ensures Exec(CompareTail(c), st).rax == Test(c, st.r12, st.rax)
    ensures Exec(CompareTail(c), st).mem == st.mem
    ensures Exec(CompareTail(c), st).out == st.out
    ensures Exec(CompareTail(c), st).lines == st.lines
  {
    ExecFour(CmpR12Rax, SetAl(c), AndAl1, MovzxRaxAl, st);
    var t := Step(MovzxRaxAl, Step(AndAl1, Step(SetAl(c), Step(CmpR12Rax, st))));
    assert t.rax == Test(c, st.r12, st.rax) && t.mem == st.mem && t.out == st.out && t.lines == st.lines by {
      CompareSteps(c, st);
    }
  }

  lemma CompareSteps(c: Cond, st: State)
    ensures var t := Step(MovzxRaxAl, Step(AndAl1, Step(SetAl(c), Step(CmpR12Rax, st))));
      t.rax == Test(c, st.r12, st.rax) && t.mem == st.mem && t.out == st.out && t.lines == st.lines
  {
  }

  /** The write puts rax and then a newline on stdout. */
  lemma RunWriteTail(st: State)
    ensures AllRun(WriteTail)
    ensures Exec(WriteTail, st).out == st.out + [Number(st.rax), NewlineOut]
    ensures Exec(WriteTail, st).mem == st.mem
    ensures Exec(WriteTail, st).lines == st.lines
  {
    ExecFour(MovRdi1, MovRsiRax, CallWriteUint, WriteNewline, st);
    var t := Step(WriteNewline, Step(CallWriteUint, Step(MovRsiRax, Step(MovRdi1, st))));
    assert t.out == st.out + [Number(st.rax), NewlineOut] && t.mem == st.mem && t.lines == st.lines by {
      WriteSteps(st);
    }
  }

  /** A block followed by the output tail. */
  lemma RunThenWrite(code: seq<Line>, st: State)
    requires AllRun(code)
    ensures AllRun(code + WriteTail)
    ensures var m := Exec(code, st);
      && Exec(code + WriteTail, st).out == m.out + [Number(m.rax), NewlineOut]
      && Exec(code + WriteTail, st).mem == m.mem
      && Exec(code + WriteTail, st).lines == m.lines
  {
    RunWriteTail(Exec(code, st));
    ExecAppend(code, WriteTail, st);
  }

  lemma WriteSteps(st: State)
    ensures var t := Step(WriteNewline, Step(CallWriteUint, Step(MovRsiRax, Step(MovRdi1, st))));
      t.out == st.out + [Number(st.rax), NewlineOut] && t.mem == st.mem && t.lines == st.lines
  {
  }
}
