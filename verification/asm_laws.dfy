/** The printed text can be read back line by line, and the labels the code
    generator defines print distinctly. */
module AsmLaws {
  import opened Text
  import opened Asm

  /** The free text a line carries: a name, a literal or a fixed line. */
  function Payload(l: Line): string {
    match l
    case Directive(t) => t
    case MovImm(v) => v
    case Load(_, x) => x
    case Store(_, x) => x
    case Jmp(t) => t
    case UserLabel(x) => x
    case _ => ""
  }

  /** The line's free text holds no newline. */
  predicate Clean(l: Line) {
    '\n' !in Payload(l)
  }

  lemma NumberHasNoNewline(n: nat)
    ensures '\n' !in NatToString(n)
  {
    var s := NatToString(n);
    forall k | 0 <= k < |s|
      ensures s[k] != '\n'
    {
      assert IsDigitChar(s[k]);
    }
  }

  lemma RenderHasNoNewline(l: Line)
    requires Clean(l)
    ensures '\n' !in Render(l)
  {
    if l.SubRsp? || l.AddRsp? || l.Load? || l.Store? || l.Jz? || l.EndIf? {
      NumberedHasNoNewline(l);
    } else if l.Directive? || l.MovImm? || l.Jmp? || l.UserLabel? {
      FreeTextHasNoNewline(l);
    } else if l.ReadLine? || l.MovRdiLine? || l.CallStrlen? || l.MovRsiRax? || l.CallParseUint? || l.SaveLeft? {
      InputLinesHaveNoNewline(l);
    } else if l.Arith? || l.SetAl? {
      NamedOpHasNoNewline(l);
    } else {
      OtherLinesHaveNoNewline(l);
    }
  }

  lemma FreeTextHasNoNewline(l: Line)
    requires Clean(l)
    requires l.Directive? || l.MovImm? || l.Jmp? || l.UserLabel?
    ensures '\n' !in Render(l)
  {
  }

  lemma InputLinesHaveNoNewline(l: Line)
    requires l.ReadLine? || l.MovRdiLine? || l.CallStrlen? || l.MovRsiRax? || l.CallParseUint? || l.SaveLeft?
    ensures '\n' !in Render(l)
  {
  }

  lemma NamedOpHasNoNewline(l: Line)
    requires l.Arith? || l.SetAl?
    ensures '\n' !in Render(l)
  {
  }

  lemma OtherLinesHaveNoNewline(l: Line)
    requires !(l.SubRsp? || l.AddRsp? || l.Load? || l.Store? || l.Jz? || l.EndIf?)
    requires !(l.Directive? || l.MovImm? || l.Jmp? || l.UserLabel?)
    requires !(l.ReadLine? || l.MovRdiLine? || l.CallStrlen? || l.MovRsiRax? || l.CallParseUint? || l.SaveLeft?)
    requires !(l.Arith? || l.SetAl?)
    ensures '\n' !in Render(l)
  {
  }

  lemma NumberedHasNoNewline(l: Line)
    requires Clean(l)
    requires l.SubRsp? || l.AddRsp? || l.Load? || l.Store? || l.Jz? || l.EndIf?
    ensures '\n' !in Render(l)
  {
    match l
    case SubRsp(n) => NumberHasNoNewline(n);
    case AddRsp(n) => NumberHasNoNewline(n);
    case Load(off, x) => SlotHasNoNewline(l, off, x);
    case Store(off, x) => SlotHasNoNewline(l, off, x);
    case Jz(n) => NumberHasNoNewline(n);
    case EndIf(n) => NumberHasNoNewline(n);
  }

  lemma SlotHasNoNewline(l: Line, off: nat, x: string)
    requires l == Load(off, x) || l == Store(off, x)
    requires '\n' !in x
    ensures '\n' !in Render(l)
  {
    var n := NatToString(off);
    NumberHasNoNewline(off);
    if l.Load? {
      assert Render(l) == Indent + "mov rax, qword [rbp - " + n + "] ; Load `" + x + "`";
    } else {
      assert Render(l) == Indent + "mov qword [rbp - " + n + "], rax ; Store in `" + x + "`";
    }
  }

  /** Index of the first newline of `t`, or `|t|` when there is none. */
  function NewlineAt(t: string): (k: nat)
    ensures k <= |t|
    ensures k < |t| ==> t[k] == '\n'
    ensures forall j :: 0 <= j < k ==> t[j] != '\n'
  {
    if |t| == 0 then 0
    else if t[0] == '\n' then 0
    else 1 + NewlineAt(t[1..])
  }

  /** Cuts a text into its lines; a trailing newline ends the last line. */
  function SplitLines(t: string): seq<string>
    decreases |t|
  {
    if |t| == 0 then []
    else
      var k := NewlineAt(t);
      if k == |t| then [t] else [t[..k]] + SplitLines(t[k + 1..])
  }

  lemma NewlineAfter(a: string, rest: string)
    requires '\n' !in a
    ensures NewlineAt(a + "\n" + rest) == |a|
  {
    var t := a + "\n" + rest;
    assert forall j :: 0 <= j < |a| ==> t[j] == a[j];
    assert t[|a|] == '\n';
  }

  lemma SplitFirst(a: string, rest: string)
    requires '\n' !in a
    ensures SplitLines(a + "\n" + rest) == [a] + SplitLines(rest)
  {
    var t := a + "\n" + rest;
    NewlineAfter(a, rest);
    assert t[..|a|] == a;
    assert t[|a| + 1..] == rest;
  }

  /** Splitting the printed program at its newlines gives back the text of
      each line, in order. */
  lemma {:induction false} SplitPrint(ls: seq<Line>)
    requires forall k :: 0 <= k < |ls| ==> Clean(ls[k])
    ensures |SplitLines(Print(ls))| == |ls|
    ensures forall k :: 0 <= k < |ls| ==> SplitLines(Print(ls))[k] == Render(ls[k])
    decreases |ls|
  {
    if |ls| > 0 {
      var a := Render(ls[0]);
      var rest := Print(ls[1..]);
      var t := Print(ls);
      assert t == a + "\n" + rest;
      assert SplitLines(t) == [a] + SplitLines(rest) by {
        RenderHasNoNewline(ls[0]);
        SplitFirst(a, rest);
      }
      SplitPrint(ls[1..]);
      forall k | 0 < k < |ls|
        ensures SplitLines(t)[k] == Render(ls[k])
      {
        assert ls[1..][k - 1] == ls[k];
      }
    }
  }

  /** The lines that define a label. */
  predicate DefinesLabel(l: Line) {
    l.EndIf? || l.UserLabel?
  }

  predicate DigitFree(x: string) {
    forall k :: 0 <= k < |x| ==> !IsDigitChar(x[k])
  }

  /** A label line defines the label named by its text between `.` and `:`. */
  function LabelName(l: Line): string
    requires DefinesLabel(l)
  {
    if l.EndIf? then EndIfName(l.endif) else l.name
  }

  lemma LabelText(l: Line)
    requires DefinesLabel(l)
    ensures Render(l) == "." + LabelName(l) + ":"
  {
  }

  /** An `if` label is never a digit-free name. */
  lemma EndIfNameHasDigit(n: nat, x: string)
    requires DigitFree(x)
    ensures EndIfName(n) != x
  {
    var e := EndIfName(n);
    assert e[5] == NatToString(n)[0];
    if |x| == |e| {
      assert !IsDigitChar(x[5]);
    }
  }

  /** Label lines print the same exactly when they are the same line,
      provided user labels hold no digit (the lexer's labels are letters and
      `_`): an `if` label never collides with another `if` label or with a
      user label. */
  lemma LabelsPrintDistinctly(a: Line, b: Line)
    requires DefinesLabel(a) && DefinesLabel(b)
    requires a.UserLabel? ==> DigitFree(a.name)
    requires b.UserLabel? ==> DigitFree(b.name)
    ensures Render(a) == Render(b) <==> a == b
  {
    LabelText(a);
    LabelText(b);
    var na := LabelName(a);
    var nb := LabelName(b);
    assert Render(a) == Render(b) ==> na == nb by {
      if Render(a) == Render(b) {
        assert na == Render(a)[1..|Render(a)| - 1];
        assert nb == Render(b)[1..|Render(b)| - 1];
      }
    }
    if a.EndIf? && b.EndIf? {
      if na == nb {
        assert NatToString(a.endif) == na[5..];
        assert NatToString(b.endif) == nb[5..];
        NatToStringInjective(a.endif, b.endif);
      }
    } else if a.EndIf? {
      EndIfNameHasDigit(a.endif, nb);
    } else if b.EndIf? {
      EndIfNameHasDigit(b.endif, na);
    }
  }
}
