/** The whole compiler of src/main.go, with the file read left out: source
    bytes are tokenized, parsed and emitted, and every panic on the way is
    an error value naming the stage that raised it. */
module Compiler {
  import opened Wrappers
  import opened Text
  import opened Lexer
  import opened Ast
  import opened Parser
  import opened ParserLaws
  import opened Scoping
  import opened Asm
  import opened AsmLaws
  import opened Emit
  import opened EmitLaws

  /** The panic that stops the compiler: a syntax error from `parseProgram`,
      or a scope or lookup error from `emitProgram`. */
  datatype CompileError = ParseFailed(parse: ParseError) | EmitFailed(emit: EmitError)

  /** The tree of the source, as the parser builds it from the token stream. */
  function ParseSource(src: seq<byte>): Result<Program, CompileError> {
    match ParseProgram(Tokenize(src))
    case Ok(p) => Ok(p)
    case Err(e) => Err(ParseFailed(e))
  }

  /** The lines `emitProgram` prints for the source. */
  function CompileLines(src: seq<byte>): (r: Result<seq<Line>, CompileError>)
    ensures r.Ok? <==> ParseSource(src).Ok? && ScopeProgram(ParseSource(src).value).Ok?
    ensures r.Err? && r.error.ParseFailed? ==> !r.error.parse.OutOfTokens?
    ensures r.Err? && r.error.EmitFailed? ==>
      && ParseSource(src).Ok?
      && ScopeProgram(ParseSource(src).value).Err?
      && r.error.emit == ScopeFailed(ScopeProgram(ParseSource(src).value).error)
  {
    ParserStaysInBounds(Tokenize(src));
    var p :- ParseSource(src);
    EmitSucceedsAfterScope(p);
    match EmitProgram(p)
    case Ok(code) => Ok(code)
    case Err(e) => Err(EmitFailed(e))
  }

  /** The text the compiler writes to stdout. */
  function Compile(src: seq<byte>): (r: Result<string, CompileError>)
    ensures r.Ok? <==> CompileLines(src).Ok?
    ensures r.Err? ==> r.error == CompileLines(src).error
  {
    var code :- CompileLines(src);
    Ok(Print(code))
  }

  // ---------------------------------------------------------------------
  // Labels from source to text.

  /** Label tokens carry names without digits. */
  predicate LabelTokensDigitFree(ts: seq<Token>) {
    forall k :: 0 <= k < |ts| && ts[k].kind == Label ==> DigitFree(ts[k].val)
  }

  lemma WordBytesDigitFree(bs: seq<byte>)
    requires forall k :: 0 <= k < |bs| ==> IsWordByte(bs[k])
    ensures DigitFree(Latin1(bs))
  {
  }

  /** `nextToken` scans a label as a run of letters and underscores. */
  lemma {:induction false} TokenizeLabels(buf: seq<byte>, pos: nat)
    requires pos <= |buf|
    ensures LabelTokensDigitFree(TokenizeFrom(buf, pos))
    decreases |buf| - pos
  {
    var r := NextToken(buf, pos);
    assert r.token.kind == Label ==> DigitFree(r.token.val) by {
      NextLabelDigitFree(buf, pos);
    }
    if r.token.kind != End {
      TokenizeLabels(buf, r.next);
      var ts := TokenizeFrom(buf, pos);
      assert ts == [r.token] + TokenizeFrom(buf, r.next);
      forall k | 0 <= k < |ts| && ts[k].kind == Label
        ensures DigitFree(ts[k].val)
      {
        if k > 0 {
          assert ts[k] == TokenizeFrom(buf, r.next)[k - 1];
        }
      }
    }
  }

  lemma NextLabelDigitFree(buf: seq<byte>, pos: nat)
    requires pos <= |buf|
    ensures NextToken(buf, pos).token.kind == Label ==> DigitFree(NextToken(buf, pos).token.val)
  {
    var p := SkipSpace(buf, pos);
    if At(buf, p) == COLON {
      var e := RunEnd(buf, p + 1, IsWordByte);
      WordBytesDigitFree(buf[p + 1..e]);
    }
  }

  /** Every label the parser declares is the value of a label token. */
  lemma {:induction false} ParseInstrLabels(ts: seq<Token>, i: nat)
    requires ParseInstr(ts, i).Ok? && LabelTokensDigitFree(ts)
    ensures LabelsDigitFree(ParseInstr(ts, i).value.node)
    decreases |ts| - i
  {
    var x := ParseInstr(ts, i).value.node;
    if ts[i].kind == Label {
      assert ParseInstr(ts, i) == ParseLabel(ts, i);
    } else if ts[i].kind == If {
      assert ParseInstr(ts, i) == ParseIf(ts, i);
      ParseInstrLabels(ts, i + 5);
    }
  }

  lemma {:induction false} ParseInstrsLabels(ts: seq<Token>, i: nat)
    requires ParseInstrs(ts, i).Ok? && LabelTokensDigitFree(ts)
    ensures forall k :: 0 <= k < |ParseInstrs(ts, i).value.node| ==>
      LabelsDigitFree(ParseInstrs(ts, i).value.node[k])
    decreases |ts| - i
  {
    var first := ParseInstr(ts, i).value;
    ParseInstrLabels(ts, i);
    if ts[first.next].kind != End {
      ParseInstrsLabels(ts, first.next);
      var xs := ParseInstrs(ts, i).value.node;
      assert xs == [first.node] + ParseInstrs(ts, first.next).value.node;
      forall k | 0 <= k < |xs|
        ensures LabelsDigitFree(xs[k])
      {
        if k > 0 {
          assert xs[k] == ParseInstrs(ts, first.next).value.node[k - 1];
        }
      }
    }
  }

  /** In a compiled program, an `.endifN:` label line prints differently
      from every other label line: the assembler sees each `if` label
      defined once, whatever labels the source declares. */
  lemma CompiledEndIfsDistinct(src: seq<byte>, i: nat, j: nat)
    requires CompileLines(src).Ok?
    requires i < |CompileLines(src).value| && j < |CompileLines(src).value| && i != j
    requires CompileLines(src).value[i].EndIf? && DefinesLabel(CompileLines(src).value[j])
    ensures Render(CompileLines(src).value[i]) != Render(CompileLines(src).value[j])
  {
    var ts := Tokenize(src);
    TokenizeLabels(src, 0);
    ParseInstrsLabels(ts, 0);
    var p := ParseSource(src).value;
    EndIfLabelsDistinct(p, i, j);
  }
}
