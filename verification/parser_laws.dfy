/** Laws of the parser: it never reads past the final `End`, a lone `End` is
    an error, and it is an exact inverse of writing a syntax tree back out
    as tokens. */
module ParserLaws {
  import opened Wrappers
  import opened Lexer
  import opened Ast
  import opened Parser

  /** A stream is as `tokenize` returns it when it is not empty and its last
      token is `End`. */
  predicate EndsWithEnd(ts: seq<Token>) {
    |ts| >= 1 && ts[|ts| - 1].kind == End
  }

  /** On a stream ending in `End`, the parser never indexes past the slice:
      every `advance` follows a check that the current kind is not `End`. */
  lemma ParserStaysInBounds(ts: seq<Token>)
    requires EndsWithEnd(ts)
    ensures ParseInstrs(ts, 0).Ok? || !ParseInstrs(ts, 0).error.OutOfTokens?
    ensures ParseProgram(ts).Ok? || !ParseProgram(ts).error.OutOfTokens?
  {
  }

  /** If `End` occurs only last (as `tokenize` guarantees), a successful
      parse stops exactly on that last token: nothing is left unread. */
  lemma ParseStopsAtEnd(ts: seq<Token>)
    requires EndsWithEnd(ts)
    requires forall k :: 0 <= k < |ts| - 1 ==> ts[k].kind != End
    requires ParseInstrs(ts, 0).Ok?
    ensures ParseInstrs(ts, 0).value.next == |ts| - 1
  {
  }

  /** The stream `[End]` is an error, not an empty program. */
  lemma ParseEndOnly()
    ensures ParseProgram([EndToken]) == Err(Unexpected(End))
  {
    assert ParseInstr([EndToken], 0) == Err(Unexpected(End));
  }

  // ---------------------------------------------------------------------
  // Writing a tree back out as tokens.

  function UnparseTerm(t: Term): (u: seq<Token>)
    ensures |u| == 1
  {
    match t
    case InputTerm => [Token(Input, "")]
    case IntTerm(v) => [Token(Int, v)]
    case IdentTerm(x) => [Token(Ident, x)]
  }

  function UnparseExpr(e: Expr): seq<Token> {
    match e
    case SingleExpr(t) => UnparseTerm(t)
    case PlusExpr(l, r) => UnparseTerm(l) + [Token(Plus, "")] + UnparseTerm(r)
    case MinusExpr(l, r) => UnparseTerm(l) + [Token(Minus, "")] + UnparseTerm(r)
    case MulExpr(l, r) => UnparseTerm(l) + [Token(Mul, "")] + UnparseTerm(r)
  }

  function UnparseRel(rel: Rel): (u: seq<Token>)
    ensures |u| == 3
  {
    match rel
    case LessThanRel(l, r) => UnparseTerm(l) + [Token(LessThan, "")] + UnparseTerm(r)
    case LessThanEqualRel(l, r) => UnparseTerm(l) + [Token(LessThanEqual, "")] + UnparseTerm(r)
    case EqualRel(l, r) => UnparseTerm(l) + [Token(DoubleEqual, "")] + UnparseTerm(r)
  }

  function UnparseInstr(x: Instr): (u: seq<Token>)
    ensures |u| >= 1 && u[0].kind == LeadingKind(x)
  {
    match x
    case AssignInstr(name, e) => [Token(Ident, name), Token(Equal, "")] + UnparseExpr(e)
    case IfInstr(rel, body) => [Token(If, "")] + UnparseRel(rel) + [Token(Then, "")] + UnparseInstr(body)
    case GotoInstr(l) => [Token(Goto, ""), Token(Label, l)]
    case OutputInstr(t) => [Token(Output, "")] + UnparseTerm(t)
    case LabelInstr(n) => [Token(Label, n)]
  }

  function UnparseInstrs(xs: seq<Instr>): seq<Token> {
    if |xs| == 0 then [] else UnparseInstr(xs[0]) + UnparseInstrs(xs[1..])
  }

  /** `u` appears in `ts` starting at index `i`. */
  ghost predicate Occurs(u: seq<Token>, ts: seq<Token>, i: nat) {
    i + |u| <= |ts| && forall k {:trigger u[k]} :: 0 <= k < |u| ==> ts[i + k] == u[k]
  }

  /** Kinds whose token value the parser copies into the tree. */
  predicate CarriesValue(k: TokenKind) {
    k == Ident || k == Int || k == Label
  }

  /** `ts` from `i` on agrees with `u` on every kind and on the value of
      every token whose value the parser keeps. */
  ghost predicate Matches(u: seq<Token>, ts: seq<Token>, i: nat) {
    && i + |u| <= |ts|
    && (forall k :: 0 <= k < |u| ==> ts[i + k].kind == u[k].kind)
    && (forall k :: 0 <= k < |u| && CarriesValue(u[k].kind) ==> ts[i + k].val == u[k].val)
  }

  lemma OccursSplit(a: seq<Token>, b: seq<Token>, ts: seq<Token>, i: nat)
    requires Occurs(a + b, ts, i)
    ensures Occurs(a, ts, i) && Occurs(b, ts, i + |a|)
  {
    forall k | 0 <= k < |a|
      ensures ts[i + k] == a[k]
    {
      assert ts[i + k] == (a + b)[k];
    }
    forall k | 0 <= k < |b|
      ensures ts[i + |a| + k] == b[k]
    {
      assert ts[i + (|a| + k)] == (a + b)[|a| + k];
    }
  }

  lemma MatchesOne(t: Token, ts: seq<Token>, i: nat)
    requires i < |ts| && ts[i].kind == t.kind && (CarriesValue(t.kind) ==> ts[i].val == t.val)
    ensures Matches([t], ts, i)
  {
    assert ts[i + 0] == ts[i];
  }

  lemma MatchesJoin(a: seq<Token>, b: seq<Token>, ts: seq<Token>, i: nat)
    requires Matches(a, ts, i) && Matches(b, ts, i + |a|)
    ensures Matches(a + b, ts, i)
  {
    forall k | |a| <= k < |a| + |b|
      ensures ts[i + k].kind == (a + b)[k].kind
      ensures CarriesValue((a + b)[k].kind) ==> ts[i + k].val == (a + b)[k].val
    {
      assert ts[i + k] == ts[(i + |a|) + (k - |a|)];
    }
  }

  // Parsing what was written gives the tree back.

  lemma ParseTermBack(t: Term, ts: seq<Token>, i: nat)
    requires Occurs(UnparseTerm(t), ts, i)
    ensures ParseTerm(ts, i) == Ok(Parsed(t, i + 1))
  {
    assert ts[i + 0] == UnparseTerm(t)[0];
  }

  lemma ParseBinaryBack(l: Term, op: Token, r: Term, ts: seq<Token>, i: nat)
    requires Occurs(UnparseTerm(l) + [op] + UnparseTerm(r), ts, i)
    ensures ParseTerm(ts, i) == Ok(Parsed(l, i + 1))
    ensures ts[i + 1] == op
    ensures ParseTerm(ts, i + 2) == Ok(Parsed(r, i + 3))
  {
    OccursSplit(UnparseTerm(l) + [op], UnparseTerm(r), ts, i);
    OccursSplit(UnparseTerm(l), [op], ts, i);
    ParseTermBack(l, ts, i);
    assert Occurs([op], ts, i + 1);
    assert ts[(i + 1) + 0] == [op][0];
    assert Occurs(UnparseTerm(r), ts, i + 2);
    ParseTermBack(r, ts, i + 2);
  }

  lemma ParseExprBack(e: Expr, ts: seq<Token>, i: nat)
    requires Occurs(UnparseExpr(e), ts, i)
    requires i + |UnparseExpr(e)| < |ts| && ts[i + |UnparseExpr(e)|].kind !in ExprOperators
    ensures ParseExpr(ts, i) == Ok(Parsed(e, i + |UnparseExpr(e)|))
  {
    match e
    case SingleExpr(t) =>
      ParseTermBack(t, ts, i);
    case PlusExpr(l, r) =>
      ParseBinaryBack(l, Token(Plus, ""), r, ts, i);
    case MinusExpr(l, r) =>
      ParseBinaryBack(l, Token(Minus, ""), r, ts, i);
    case MulExpr(l, r) =>
      ParseBinaryBack(l, Token(Mul, ""), r, ts, i);
  }

  lemma ParseRelBack(rel: Rel, ts: seq<Token>, i: nat)
    requires Occurs(UnparseRel(rel), ts, i)
    ensures ParseRel(ts, i) == Ok(Parsed(rel, i + 3))
  {
    match rel
    case LessThanRel(l, r) =>
      ParseBinaryBack(l, Token(LessThan, ""), r, ts, i);
    case LessThanEqualRel(l, r) =>
      ParseBinaryBack(l, Token(LessThanEqual, ""), r, ts, i);
    case EqualRel(l, r) =>
      ParseBinaryBack(l, Token(DoubleEqual, ""), r, ts, i);
  }

  lemma ParseAssignBack(name: string, e: Expr, ts: seq<Token>, i: nat)
    requires Occurs(UnparseInstr(AssignInstr(name, e)), ts, i)
    requires i + 2 + |UnparseExpr(e)| < |ts| && ts[i + 2 + |UnparseExpr(e)|].kind !in ExprOperators
    ensures ParseAssign(ts, i) == Ok(Parsed(AssignInstr(name, e), i + 2 + |UnparseExpr(e)|))
  {
    var head := [Token(Ident, name), Token(Equal, "")];
    OccursSplit(head, UnparseExpr(e), ts, i);
    assert ts[i + 0] == head[0];
    assert ts[i + 1] == head[1];
    ParseExprBack(e, ts, i + 2);
  }

  lemma ParseOutputBack(t: Term, ts: seq<Token>, i: nat)
    requires Occurs(UnparseInstr(OutputInstr(t)), ts, i)
    ensures ParseOutput(ts, i) == Ok(Parsed(OutputInstr(t), i + 2))
  {
    OccursSplit([Token(Output, "")], UnparseTerm(t), ts, i);
    assert ts[i + 0] == Token(Output, "");
    ParseTermBack(t, ts, i + 1);
  }

  lemma ParseGotoBack(l: string, ts: seq<Token>, i: nat)
    requires Occurs(UnparseInstr(GotoInstr(l)), ts, i)
    ensures ParseGoto(ts, i) == Ok(Parsed(GotoInstr(l), i + 2))
  {
    var u := UnparseInstr(GotoInstr(l));
    assert u == [Token(Goto, ""), Token(Label, l)];
    assert ts[i + 0] == u[0];
    assert ts[i + 1] == u[1];
  }

  lemma ParseLabelBack(n: string, ts: seq<Token>, i: nat)
    requires Occurs(UnparseInstr(LabelInstr(n)), ts, i)
    ensures ParseLabel(ts, i) == Ok(Parsed(LabelInstr(n), i + 1))
  {
    assert ts[i + 0] == Token(Label, n);
  }

  /** The head `if <rel> then` of a conditional, before its body. */
  lemma IfHeadBack(rel: Rel, body: Instr, ts: seq<Token>, i: nat)
    requires Occurs(UnparseInstr(IfInstr(rel, body)), ts, i)
    ensures i < |ts| && ts[i] == Token(If, "")
    ensures ParseRel(ts, i + 1) == Ok(Parsed(rel, i + 4))
    ensures i + 4 < |ts| && ts[i + 4] == Token(Then, "")
    ensures Occurs(UnparseInstr(body), ts, i + 5)
    ensures |UnparseInstr(IfInstr(rel, body))| == 5 + |UnparseInstr(body)|
  {
    var r := UnparseRel(rel);
    var b := UnparseInstr(body);
    assert UnparseInstr(IfInstr(rel, body)) == [Token(If, "")] + r + [Token(Then, "")] + b;
    IfSplit(r, b, ts, i);
    ParseRelBack(rel, ts, i + 1);
  }

  lemma IfSplit(r: seq<Token>, b: seq<Token>, ts: seq<Token>, i: nat)
    requires |r| == 3 && Occurs([Token(If, "")] + r + [Token(Then, "")] + b, ts, i)
    ensures i < |ts| && ts[i] == Token(If, "")
    ensures Occurs(r, ts, i + 1)
    ensures i + 4 < |ts| && ts[i + 4] == Token(Then, "")
    ensures Occurs(b, ts, i + 5)
  {
    var u := [Token(If, "")] + r + [Token(Then, "")] + b;
    assert ts[i + 0] == u[0];
    assert ts[i + 4] == u[4];
    forall k | 0 <= k < 3
      ensures ts[i + 1 + k] == r[k]
    {
      assert ts[i + (1 + k)] == u[1 + k];
    }
    forall k | 0 <= k < |b|
      ensures ts[i + 5 + k] == b[k]
    {
      assert ts[i + (5 + k)] == u[5 + k];
    }
  }

  /** `parseInstr` hands each leading kind to its own parsing function. */
  lemma Dispatch(ts: seq<Token>, i: nat)
    requires i < |ts|
    ensures ts[i].kind == Ident ==> ParseInstr(ts, i) == ParseAssign(ts, i)
    ensures ts[i].kind == If ==> ParseInstr(ts, i) == ParseIf(ts, i)
    ensures ts[i].kind == Goto ==> ParseInstr(ts, i) == ParseGoto(ts, i)
    ensures ts[i].kind == Output ==> ParseInstr(ts, i) == ParseOutput(ts, i)
    ensures ts[i].kind == Label ==> ParseInstr(ts, i) == ParseLabel(ts, i)
  {
  }

  lemma DispatchIf(ts: seq<Token>, i: nat)
    requires i < |ts| && ts[i].kind == If
    ensures ParseInstr(ts, i) == ParseIf(ts, i)
  {
  }

  lemma IfBack(rel: Rel, body: Instr, ts: seq<Token>, i: nat, n: nat)
    requires i < |ts| && ts[i] == Token(If, "")
    requires ParseRel(ts, i + 1) == Ok(Parsed(rel, i + 4))
    requires i + 4 < |ts| && ts[i + 4] == Token(Then, "")
    requires ParseInstr(ts, i + 5) == Ok(Parsed(body, n))
    ensures ParseIf(ts, i) == Ok(Parsed(IfInstr(rel, body), n))
  {
  }

  /** The tokens of an instruction, followed by a token that cannot
      continue an expression. */
  ghost predicate Delimited(x: Instr, ts: seq<Token>, i: nat) {
    && Occurs(UnparseInstr(x), ts, i)
    && i + |UnparseInstr(x)| < |ts|
    && ts[i + |UnparseInstr(x)|].kind !in ExprOperators
  }

  lemma {:induction false} ParseInstrBack(x: Instr, ts: seq<Token>, i: nat)
    requires Delimited(x, ts, i)
    ensures ParseInstr(ts, i) == Ok(Parsed(x, i + |UnparseInstr(x)|))
    decreases x, 1
  {
    if x.IfInstr? {
      ParseIfInstrBack(x.rel, x.body, ts, i);
    } else {
      ParseSimpleInstrBack(x, ts, i);
    }
  }

  lemma ParseSimpleInstrBack(x: Instr, ts: seq<Token>, i: nat)
    requires !x.IfInstr?
    requires Delimited(x, ts, i)
    ensures ParseInstr(ts, i) == Ok(Parsed(x, i + |UnparseInstr(x)|))
  {
    assert ts[i + 0] == UnparseInstr(x)[0];
    Dispatch(ts, i);
    match x
    case AssignInstr(name, e) =>
      ParseAssignBack(name, e, ts, i);
    case GotoInstr(l) =>
      ParseGotoBack(l, ts, i);
    case OutputInstr(t) =>
      ParseOutputBack(t, ts, i);
    case LabelInstr(n) =>
      ParseLabelBack(n, ts, i);
  }

  lemma {:induction false} ParseIfInstrBack(rel: Rel, body: Instr, ts: seq<Token>, i: nat)
    requires Delimited(IfInstr(rel, body), ts, i)
    ensures ParseInstr(ts, i) == Ok(Parsed(IfInstr(rel, body), i + |UnparseInstr(IfInstr(rel, body))|))
    decreases IfInstr(rel, body), 0
  {
    var n := i + |UnparseInstr(IfInstr(rel, body))|;
    IfBodyDelimited(rel, body, ts, i);
    assert ParseInstr(ts, i + 5) == Ok(Parsed(body, n)) by {
      ParseInstrBack(body, ts, i + 5);
    }
    IfInstrBack(rel, body, ts, i, n);
  }

  lemma IfBodyDelimited(rel: Rel, body: Instr, ts: seq<Token>, i: nat)
    requires Delimited(IfInstr(rel, body), ts, i)
    ensures i < |ts| && ts[i] == Token(If, "")
    ensures ParseRel(ts, i + 1) == Ok(Parsed(rel, i + 4))
    ensures i + 4 < |ts| && ts[i + 4] == Token(Then, "")
    ensures Delimited(body, ts, i + 5)
    ensures |UnparseInstr(IfInstr(rel, body))| == 5 + |UnparseInstr(body)|
  {
    IfHeadBack(rel, body, ts, i);
  }

  lemma IfInstrBack(rel: Rel, body: Instr, ts: seq<Token>, i: nat, n: nat)
    requires i < |ts| && ts[i] == Token(If, "")
    requires ParseRel(ts, i + 1) == Ok(Parsed(rel, i + 4))
    requires i + 4 < |ts| && ts[i + 4] == Token(Then, "")
    requires ParseInstr(ts, i + 5) == Ok(Parsed(body, n))
    ensures ParseInstr(ts, i) == Ok(Parsed(IfInstr(rel, body), n))
  {
    IfBack(rel, body, ts, i, n);
    DispatchIf(ts, i);
  }

  lemma InstrsLast(ts: seq<Token>, i: nat, x: Instr, n: nat)
    requires ParseInstr(ts, i) == Ok(Parsed(x, n))
    requires n < |ts| && ts[n].kind == End
    ensures ParseInstrs(ts, i) == Ok(Parsed([x], n))
  {
  }

  lemma InstrsCons(ts: seq<Token>, i: nat, xs: seq<Instr>, n: nat, m: nat)
    requires |xs| >= 1
    requires ParseInstr(ts, i) == Ok(Parsed(xs[0], n))
    requires n < |ts| && ts[n].kind != End
    requires ParseInstrs(ts, n) == Ok(Parsed(xs[1..], m))
    ensures ParseInstrs(ts, i) == Ok(Parsed(xs, m))
  {
    assert [xs[0]] + xs[1..] == xs;
  }

  lemma UnparseInstrsCons(xs: seq<Instr>)
    requires |xs| >= 1
    ensures UnparseInstrs(xs) == UnparseInstr(xs[0]) + UnparseInstrs(xs[1..])
    ensures |UnparseInstrs(xs)| == |UnparseInstr(xs[0])| + |UnparseInstrs(xs[1..])|
  {
  }

  lemma {:induction false} ParseInstrsBack(xs: seq<Instr>, ts: seq<Token>, i: nat, m: nat)
    requires |xs| >= 1
    requires m == i + |UnparseInstrs(xs)|
    requires Occurs(UnparseInstrs(xs), ts, i)
    requires m < |ts| && ts[m].kind == End
    ensures ParseInstrs(ts, i) == Ok(Parsed(xs, m))
    decreases |xs|, 1
  {
    if |xs| == 1 {
      ParseOneInstrBack(xs, ts, i, m);
    } else {
      ParseInstrsBackMore(xs, ts, i, m);
    }
  }

  lemma ParseOneInstrBack(xs: seq<Instr>, ts: seq<Token>, i: nat, m: nat)
    requires |xs| == 1
    requires m == i + |UnparseInstrs(xs)|
    requires Occurs(UnparseInstrs(xs), ts, i)
    requires m < |ts| && ts[m].kind == End
    ensures ParseInstrs(ts, i) == Ok(Parsed(xs, m))
  {
    var x := xs[0];
    assert UnparseInstrs(xs) == UnparseInstr(x) by {
      UnparseInstrsCons(xs);
      assert UnparseInstrs(xs[1..]) == [];
    }
    assert Delimited(x, ts, i);
    ParseInstrBack(x, ts, i);
    InstrsLast(ts, i, x, m);
    assert [x] == xs;
  }

  lemma {:induction false} ParseInstrsBackMore(xs: seq<Instr>, ts: seq<Token>, i: nat, m: nat)
    requires |xs| >= 2
    requires m == i + |UnparseInstrs(xs)|
    requires Occurs(UnparseInstrs(xs), ts, i)
    requires m < |ts| && ts[m].kind == End
    ensures ParseInstrs(ts, i) == Ok(Parsed(xs, m))
    decreases |xs|, 0
  {
    var n := FirstOfMany(xs, ts, i, m);
    ParseInstrsBack(xs[1..], ts, n, m);
    InstrsCons(ts, i, xs, n, m);
  }

  /** The first of two or more written-out instructions parses back and is
      followed by the rest, which does not start with `End`. */
  lemma FirstOfMany(xs: seq<Instr>, ts: seq<Token>, i: nat, m: nat) returns (n: nat)
    requires |xs| >= 2
    requires m == i + |UnparseInstrs(xs)|
    requires Occurs(UnparseInstrs(xs), ts, i)
    ensures ParseInstr(ts, i) == Ok(Parsed(xs[0], n))
    ensures n < |ts| && ts[n].kind != End
    ensures m == n + |UnparseInstrs(xs[1..])|
    ensures Occurs(UnparseInstrs(xs[1..]), ts, n)
  {
    n := i + |UnparseInstr(xs[0])|;
    assert && Delimited(xs[0], ts, i) && n < |ts| && ts[n].kind != End
           && m == n + |UnparseInstrs(xs[1..])| && Occurs(UnparseInstrs(xs[1..]), ts, n) by {
      HeadSplit(xs, ts, i);
      LeadingKindStartsInstr(xs[1]);
    }
    ParseInstrBack(xs[0], ts, i);
  }

  /** Written-out instructions split into the first one and the rest, and
      the rest starts with the leading token of the second. */
  lemma HeadSplit(xs: seq<Instr>, ts: seq<Token>, i: nat)
    requires |xs| >= 2
    requires Occurs(UnparseInstrs(xs), ts, i)
    ensures Occurs(UnparseInstr(xs[0]), ts, i)
    ensures Occurs(UnparseInstrs(xs[1..]), ts, i + |UnparseInstr(xs[0])|)
    ensures |UnparseInstrs(xs)| == |UnparseInstr(xs[0])| + |UnparseInstrs(xs[1..])|
    ensures i + |UnparseInstr(xs[0])| < |ts|
    ensures ts[i + |UnparseInstr(xs[0])|].kind == LeadingKind(xs[1])
  {
    var u := UnparseInstr(xs[0]);
    var rest := UnparseInstrs(xs[1..]);
    UnparseInstrsCons(xs);
    InstrsHeadKind(xs[1..]);
    assert xs[1..][0] == xs[1];
    SplitAt(u, rest, ts, i);
  }

  lemma LeadingKindStartsInstr(x: Instr)
    ensures LeadingKind(x) in InstrKinds
    ensures LeadingKind(x) !in ExprOperators && LeadingKind(x) != End
  {
  }

  /** A block that occurs in the stream splits into its two parts. */
  lemma SplitAt(u: seq<Token>, rest: seq<Token>, ts: seq<Token>, i: nat)
    requires Occurs(u + rest, ts, i) && |rest| >= 1
    ensures Occurs(u, ts, i) && Occurs(rest, ts, i + |u|)
    ensures i + |u| < |ts| && ts[i + |u|] == rest[0]
  {
    OccursSplit(u, rest, ts, i);
    OccursHead(rest, ts, i + |u|);
  }

  lemma InstrsHeadKind(xs: seq<Instr>)
    requires |xs| >= 1
    ensures |UnparseInstrs(xs)| >= 1 && UnparseInstrs(xs)[0].kind == LeadingKind(xs[0])
  {
    UnparseInstrsCons(xs);
  }

  lemma OccursHead(u: seq<Token>, ts: seq<Token>, j: nat)
    requires Occurs(u, ts, j) && |u| >= 1
    ensures j < |ts| && ts[j] == u[0]
  {
    assert ts[j + 0] == u[0];
  }

  /** Writing a non-empty program out as tokens, closing it with `End`, and
      parsing the result gives the program back. */
  lemma ParseUnparse(p: Program)
    requires |p.instrs| >= 1
    ensures ParseProgram(UnparseInstrs(p.instrs) + [EndToken]) == Ok(p)
  {
    var ts := UnparseInstrs(p.instrs) + [EndToken];
    ParseInstrsBack(p.instrs, ts, 0, |UnparseInstrs(p.instrs)|);
  }

  // Whatever parses is, kind for kind, what writing its tree out gives.

  lemma TermMatches(ts: seq<Token>, i: nat)
    requires ParseTerm(ts, i).Ok?
    ensures Matches(UnparseTerm(ParseTerm(ts, i).value.node), ts, i)
  {
  }

  lemma BinaryMatches(ts: seq<Token>, i: nat, l: Term, op: TokenKind, r: Term)
    requires ParseTerm(ts, i) == Ok(Parsed(l, i + 1))
    requires i + 1 < |ts| && ts[i + 1].kind == op && !CarriesValue(op)
    requires ParseTerm(ts, i + 2) == Ok(Parsed(r, i + 3))
    ensures Matches(UnparseTerm(l) + [Token(op, "")] + UnparseTerm(r), ts, i)
  {
    TermMatches(ts, i);
    TermMatches(ts, i + 2);
    MatchesJoin(UnparseTerm(l), [Token(op, "")], ts, i);
    MatchesJoin(UnparseTerm(l) + [Token(op, "")], UnparseTerm(r), ts, i);
  }

  lemma ExprMatches(ts: seq<Token>, i: nat)
    requires ParseExpr(ts, i).Ok?
    ensures Matches(UnparseExpr(ParseExpr(ts, i).value.node), ts, i)
    ensures ParseExpr(ts, i).value.next == i + |UnparseExpr(ParseExpr(ts, i).value.node)|
  {
    if ParseExpr(ts, i).value.node.SingleExpr? {
      TermMatches(ts, i);
    } else {
      BinaryExprMatches(ts, i);
    }
  }

  lemma BinaryExprMatches(ts: seq<Token>, i: nat)
    requires ParseExpr(ts, i).Ok? && !ParseExpr(ts, i).value.node.SingleExpr?
    ensures Matches(UnparseExpr(ParseExpr(ts, i).value.node), ts, i)
    ensures ParseExpr(ts, i).value.next == i + |UnparseExpr(ParseExpr(ts, i).value.node)|
  {
    var e := ParseExpr(ts, i).value.node;
    var op := if e.PlusExpr? then Plus else if e.MinusExpr? then Minus else Mul;
    assert UnparseExpr(e) == UnparseTerm(e.lhs) + [Token(op, "")] + UnparseTerm(e.rhs);
    BinaryMatches(ts, i, e.lhs, op, e.rhs);
  }

  lemma RelMatches(ts: seq<Token>, i: nat)
    requires ParseRel(ts, i).Ok?
    ensures Matches(UnparseRel(ParseRel(ts, i).value.node), ts, i)
    ensures ParseRel(ts, i).value.next == i + |UnparseRel(ParseRel(ts, i).value.node)|
  {
    var rel := ParseRel(ts, i).value.node;
    match rel
    case LessThanRel(l, r) => BinaryMatches(ts, i, l, LessThan, r);
    case LessThanEqualRel(l, r) => BinaryMatches(ts, i, l, LessThanEqual, r);
    case EqualRel(l, r) => BinaryMatches(ts, i, l, DoubleEqual, r);
  }

  /** A successful `parseInstr` consumed exactly the tokens its tree writes
      out: the same kinds, and the same names, numbers and labels. */
  lemma InstrMatches(ts: seq<Token>, i: nat)
    requires ParseInstr(ts, i).Ok?
    ensures Matches(UnparseInstr(ParseInstr(ts, i).value.node), ts, i)
    ensures ParseInstr(ts, i).value.next == i + |UnparseInstr(ParseInstr(ts, i).value.node)|
  {
    var r := ParseInstr(ts, i).value;
    InstrMatchesAt(ts, i, r.node, r.next);
  }

  lemma {:induction false} InstrMatchesAt(ts: seq<Token>, i: nat, x: Instr, n: nat)
    requires ParseInstr(ts, i) == Ok(Parsed(x, n))
    ensures Matches(UnparseInstr(x), ts, i) && n == i + |UnparseInstr(x)|
    decreases |ts| - i, 1
  {
    Dispatch(ts, i);
    var k := ts[i].kind;
    if k == Ident {
      AssignMatches(ts, i, x, n);
    } else if k == If {
      assert x == IfInstr(x.rel, x.body);
      IfMatches(ts, i, x.rel, x.body, n);
    } else if k == Goto {
      GotoMatches(ts, i, x, n);
    } else if k == Output {
      OutputMatches(ts, i, x, n);
    } else {
      LabelMatches(ts, i, x, n);
    }
  }

  lemma {:induction false} IfMatches(ts: seq<Token>, i: nat, rel: Rel, body: Instr, n: nat)
    requires ParseIf(ts, i) == Ok(Parsed(IfInstr(rel, body), n))
    ensures Matches(UnparseInstr(IfInstr(rel, body)), ts, i)
    ensures n == i + |UnparseInstr(IfInstr(rel, body))|
    decreases |ts| - i, 0
  {
    RelMatches(ts, i + 1);
    InstrMatchesAt(ts, i + 5, body, n);
    IfJoin(ts, i, rel, body);
  }

  lemma IfJoin(ts: seq<Token>, i: nat, rel: Rel, body: Instr)
    requires i + 4 < |ts| && ts[i].kind == If && ts[i + 4].kind == Then
    requires Matches(UnparseRel(rel), ts, i + 1)
    requires Matches(UnparseInstr(body), ts, i + 5)
    ensures Matches(UnparseInstr(IfInstr(rel, body)), ts, i)
  {
    var head := [Token(If, "")] + UnparseRel(rel);
    assert Matches(head, ts, i) by {
      MatchesOne(Token(If, ""), ts, i);
      MatchesJoin([Token(If, "")], UnparseRel(rel), ts, i);
    }
    var u := head + [Token(Then, "")];
    assert Matches(u, ts, i) by {
      MatchesOne(Token(Then, ""), ts, i + 4);
      MatchesJoin(head, [Token(Then, "")], ts, i);
    }
    assert Matches(u + UnparseInstr(body), ts, i) by {
      MatchesJoin(u, UnparseInstr(body), ts, i);
    }
    assert UnparseInstr(IfInstr(rel, body)) == u + UnparseInstr(body);
  }

  lemma AssignMatches(ts: seq<Token>, i: nat, x: Instr, n: nat)
    requires ParseAssign(ts, i) == Ok(Parsed(x, n))
    ensures Matches(UnparseInstr(x), ts, i) && n == i + |UnparseInstr(x)|
  {
    var e := ParseExpr(ts, i + 2).value;
    assert x == AssignInstr(ts[i].val, e.node) && n == e.next;
    ExprMatches(ts, i + 2);
    AssignJoin(ts, i, x.ident, e.node);
  }

  lemma AssignJoin(ts: seq<Token>, i: nat, name: string, e: Expr)
    requires i + 1 < |ts| && ts[i].kind == Ident && ts[i].val == name && ts[i + 1].kind == Equal
    requires Matches(UnparseExpr(e), ts, i + 2)
    ensures Matches(UnparseInstr(AssignInstr(name, e)), ts, i)
  {
    var head := [Token(Ident, name), Token(Equal, "")];
    assert Matches(head, ts, i);
    MatchesJoin(head, UnparseExpr(e), ts, i);
  }

  lemma GotoMatches(ts: seq<Token>, i: nat, x: Instr, n: nat)
    requires ParseGoto(ts, i) == Ok(Parsed(x, n))
    ensures Matches(UnparseInstr(x), ts, i) && n == i + |UnparseInstr(x)|
  {
  }

  lemma OutputMatches(ts: seq<Token>, i: nat, x: Instr, n: nat)
    requires ParseOutput(ts, i) == Ok(Parsed(x, n))
    ensures Matches(UnparseInstr(x), ts, i) && n == i + |UnparseInstr(x)|
  {
    TermMatches(ts, i + 1);
    MatchesJoin([Token(Output, "")], UnparseTerm(x.term), ts, i);
  }

  lemma LabelMatches(ts: seq<Token>, i: nat, x: Instr, n: nat)
    requires ParseLabel(ts, i) == Ok(Parsed(x, n))
    ensures Matches(UnparseInstr(x), ts, i) && n == i + |UnparseInstr(x)|
  {
  }
}
