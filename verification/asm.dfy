/** The lines of FASM text the code generator prints, as a datatype: one
    constructor per kind of line, rendered to the exact text of the Go
    `fmt.Printf` templates. */
module Asm {
  import opened Text

  /** The operator of `add`/`sub`/`imul r12, rax`. */
  datatype ArithOp = Add | Sub | Imul

  /** The condition of `setl`/`setle`/`sete al`. */
  datatype Cond = Less | LessEq | Eq

  datatype Line =
    | Directive(text: string)      // a fixed line of the prologue, epilogue or data segment
    | SubRsp(size: nat)            // reserve the stack frame
    | AddRsp(size: nat)            // release the stack frame
    | MovImm(val: string)          // integer literal into rax, digits as written
    | Load(offset: nat, name: string)
    | Store(offset: nat, name: string)
    | ReadLine                     // `read` macro of the runtime library: a line of stdin into `line`
    | MovRdiLine
    | CallStrlen
    | MovRsiRax
    | CallParseUint
    | SaveLeft                     // mov r12, rax
    | Arith(op: ArithOp)           // r12 := r12 op rax
    | MovRaxR12
    | CmpR12Rax
    | SetAl(cond: Cond)
    | AndAl1
    | MovzxRaxAl
    | TestRax
    | Jz(endif: nat)
    | EndIf(endif: nat)            // the label closing the `if` numbered `endif`
    | Jmp(target: string)
    | MovRdi1
    | CallWriteUint
    | WriteNewline                 // `write` macro of the runtime library: one newline to stdout
    | UserLabel(name: string)

  const Indent := "    "

  /** An instruction line that neither jumps nor defines a label, and is
      not part of the fixed prologue or epilogue. */
  predicate Plain(l: Line) {
    !(l.Directive? || l.SubRsp? || l.AddRsp? || l.Jz? || l.EndIf? || l.Jmp? || l.UserLabel?)
  }

  /** Code that runs from its first line to its last. */
  predicate Straight(code: seq<Line>) {
    forall k :: 0 <= k < |code| ==> Plain(code[k])
  }

  function ArithName(op: ArithOp): string {
    match op
    case Add => "add"
    case Sub => "sub"
    case Imul => "imul"
  }

  function CondName(c: Cond): string {
    match c
    case Less => "setl"
    case LessEq => "setle"
    case Eq => "sete"
  }

  /** A label defined by the generated code: `.endifN` or a user label. */
  function EndIfName(n: nat): string {
    "endif" + NatToString(n)
  }

  /** The text of one line, without its newline. */
  function Render(l: Line): string {
    match l
    case Directive(t) => t
    case SubRsp(n) => Indent + "sub rsp, " + NatToString(n)
    case AddRsp(n) => Indent + "add rsp, " + NatToString(n)
    case MovImm(v) => Indent + "mov rax, " + v
    case Load(off, x) => Indent + "mov rax, qword [rbp - " + NatToString(off) + "] ; Load `" + x + "`"
    case Store(off, x) => Indent + "mov qword [rbp - " + NatToString(off) + "], rax ; Store in `" + x + "`"
    case ReadLine => Indent + "read 0, line, LINE_MAX"
    case MovRdiLine => Indent + "mov rdi, line"
    case CallStrlen => Indent + "call strlen"
    case MovRsiRax => Indent + "mov rsi, rax"
    case CallParseUint => Indent + "call parse_uint"
    case SaveLeft => Indent + "mov r12, rax"
    case Arith(op) => Indent + ArithName(op) + " r12, rax"
    case MovRaxR12 => Indent + "mov rax, r12"
    case CmpR12Rax => Indent + "cmp r12, rax"
    case SetAl(c) => Indent + CondName(c) + " al"
    case AndAl1 => Indent + "and al, 1"
    case MovzxRaxAl => Indent + "movzx rax, al"
    case TestRax => Indent + "test rax, rax"
    case Jz(n) => Indent + "jz ." + EndIfName(n)
    case EndIf(n) => "." + EndIfName(n) + ":"
    case Jmp(t) => Indent + "jmp ." + t
    case MovRdi1 => Indent + "mov rdi, 1"
    case CallWriteUint => Indent + "call write_uint"
    case WriteNewline => Indent + "write 1, newline, 1"
    case UserLabel(x) => "." + x + ":"
  }

  /** The printed program: every line followed by a newline. */
  function Print(ls: seq<Line>): (t: string)
    ensures |t| >= |ls|
  {
    if |ls| == 0 then "" else Render(ls[0]) + "\n" + Print(ls[1..])
  }

  // ---------------------------------------------------------------------
  // Fixed blocks of the generator.

  /** `input`: read a line of stdin and parse it as an unsigned number. */
  const ReadInput: seq<Line> := [ReadLine, MovRdiLine, CallStrlen, MovRdiLine, MovRsiRax, CallParseUint]

  /** Combine r12 with rax, left operand first, and move the result to rax. */
  function ArithTail(op: ArithOp): seq<Line> {
    [Arith(op), MovRaxR12]
  }

  /** Compare r12 with rax and turn the flag into 0 or 1 in rax. */
  function CompareTail(c: Cond): seq<Line> {
    [CmpR12Rax, SetAl(c), AndAl1, MovzxRaxAl]
  }

  /** Write rax to stdout as a number, then a newline. */
  const WriteTail: seq<Line> := [MovRdi1, MovRsiRax, CallWriteUint, WriteNewline]
}
