/** Laws of the lexer: where lexing stops, and one equation per lexical
    rule saying which token the input's first bytes become and that lexing
    then resumes on the rest. Together the equations determine `Tokenize`
    on every input. */
module LexerLaws {
  import opened Text
  import opened Wrappers
  import opened Lexer

  // ---------------------------------------------------------------------
  // Lexing a suffix: the cursor never looks behind itself.

  lemma ShiftAt(pre: seq<byte>, s: seq<byte>, k: nat)
    ensures At(pre + s, |pre| + k) == At(s, k)
  {
  }

  lemma ShiftSlice(pre: seq<byte>, s: seq<byte>, a: nat, b: nat)
    requires a <= b <= |s|
    ensures (pre + s)[|pre| + a..|pre| + b] == s[a..b]
  {
  }

  lemma {:induction false} ShiftSkipSpace(pre: seq<byte>, s: seq<byte>, i: nat)
    requires i <= |s|
    ensures SkipSpace(pre + s, |pre| + i) == |pre| + SkipSpace(s, i)
    decreases |s| - i
  {
    ShiftAt(pre, s, i);
    if IsSpace(At(s, i)) {
      ShiftSkipSpace(pre, s, i + 1);
    }
  }

  lemma {:induction false} ShiftRunEnd(pre: seq<byte>, s: seq<byte>, i: nat, inRun: byte -> bool)
    requires i <= |s|
    requires !inRun(EOF)
    ensures RunEnd(pre + s, |pre| + i, inRun) == |pre| + RunEnd(s, i, inRun)
    decreases |s| - i
  {
    ShiftAt(pre, s, i);
    if inRun(At(s, i)) {
      ShiftRunEnd(pre, s, i + 1, inRun);
    }
  }

  /** Relates a scan result on `s` to the same scan on `pre + s`. */
  predicate Shifted(pre: seq<byte>, r: Lexed, r': Lexed) {
    r'.token == r.token && r'.next == |pre| + r.next
  }

  lemma ShiftScanRun(pre: seq<byte>, s: seq<byte>, p: nat, inRun: byte -> bool)
    requires p <= |s|
    requires !inRun(EOF)
    ensures RunEnd(pre + s, |pre| + p, inRun) == |pre| + RunEnd(s, p, inRun)
    ensures (pre + s)[|pre| + p..|pre| + RunEnd(s, p, inRun)] == s[p..RunEnd(s, p, inRun)]
  {
    ShiftRunEnd(pre, s, p, inRun);
    ShiftSlice(pre, s, p, RunEnd(s, p, inRun));
  }

  lemma ShiftScanToken(pre: seq<byte>, s: seq<byte>, p: nat)
    requires p <= |s|
    ensures Shifted(pre, ScanToken(s, p), ScanToken(pre + s, |pre| + p))
  {
    var ch := At(s, p);
    assert At(pre + s, |pre| + p) == ch by {
      ShiftAt(pre, s, p);
    }
    if ch == EOF || ch == EQUAL_SIGN || ch == PLUS_SIGN || ch == LESS_SIGN {
    } else if ch == COLON {
      ShiftScanRun(pre, s, p + 1, IsWordByte);
      assert Shifted(pre, ScanLabel(s, p + 1), ScanLabel(pre + s, |pre| + p + 1));
    } else if IsDigit(ch) {
      ShiftScanRun(pre, s, p, IsDigit);
      assert Shifted(pre, ScanInt(s, p), ScanInt(pre + s, |pre| + p));
    } else if IsWordByte(ch) {
      ShiftScanRun(pre, s, p, IsWordByte);
      assert Shifted(pre, ScanWord(s, p), ScanWord(pre + s, |pre| + p));
    } else {
      ShiftSlice(pre, s, p, p + 1);
    }
  }

  lemma ShiftNextToken(pre: seq<byte>, s: seq<byte>, i: nat)
    requires i <= |s|
    ensures Shifted(pre, NextToken(s, i), NextToken(pre + s, |pre| + i))
  {
    var p := SkipSpace(s, i);
    assert SkipSpace(pre + s, |pre| + i) == |pre| + p by {
      ShiftSkipSpace(pre, s, i);
    }
    ShiftScanToken(pre, s, p);
  }

  /** Lexing `pre + s` from inside `s` gives the tokens of `s` alone. */
  lemma {:induction false} ShiftTokenizeFrom(pre: seq<byte>, s: seq<byte>, i: nat)
    requires i <= |s|
    ensures TokenizeFrom(pre + s, |pre| + i) == TokenizeFrom(s, i)
    decreases |s| - i
  {
    ShiftNextToken(pre, s, i);
    var r := NextToken(s, i);
    if r.token.kind != End {
      ShiftTokenizeFrom(pre, s, r.next);
    }
  }

  // ---------------------------------------------------------------------
  // The sentinel: a buffer `b` that continues `a` with an EOF byte lexes
  // exactly like `a`.

  predicate CutAt(a: seq<byte>, b: seq<byte>) {
    |a| <= |b| && b[..|a|] == a && At(b, |a|) == EOF
  }

  lemma CutAtAgrees(a: seq<byte>, b: seq<byte>, k: nat)
    requires CutAt(a, b)
    requires k <= |a|
    ensures At(b, k) == At(a, k)
  {
    if k < |a| {
      assert b[k] == b[..|a|][k];
    }
  }

  lemma {:induction false} CutSkipSpace(a: seq<byte>, b: seq<byte>, i: nat)
    requires CutAt(a, b)
    requires i <= |a|
    ensures SkipSpace(b, i) == SkipSpace(a, i)
    decreases |a| - i
  {
    CutAtAgrees(a, b, i);
    if IsSpace(At(a, i)) {
      CutSkipSpace(a, b, i + 1);
    }
  }

  lemma {:induction false} CutRunEnd(a: seq<byte>, b: seq<byte>, i: nat, inRun: byte -> bool)
    requires CutAt(a, b)
    requires i <= |a|
    requires !inRun(EOF)
    ensures RunEnd(b, i, inRun) == RunEnd(a, i, inRun)
    decreases |a| - i
  {
    CutAtAgrees(a, b, i);
    if inRun(At(a, i)) {
      CutRunEnd(a, b, i + 1, inRun);
    }
  }

  lemma CutSlice(a: seq<byte>, b: seq<byte>, i: nat, j: nat)
    requires CutAt(a, b)
    requires i <= j <= |a|
    ensures b[i..j] == a[i..j]
  {
    forall k | 0 <= k < j - i
      ensures b[i..j][k] == a[i..j][k]
    {
      assert b[i + k] == b[..|a|][i + k];
    }
  }

  lemma CutScanRun(a: seq<byte>, b: seq<byte>, p: nat, inRun: byte -> bool)
    requires CutAt(a, b)
    requires p <= |a|
    requires !inRun(EOF)
    ensures RunEnd(b, p, inRun) == RunEnd(a, p, inRun)
    ensures b[p..RunEnd(a, p, inRun)] == a[p..RunEnd(a, p, inRun)]
  {
    CutRunEnd(a, b, p, inRun);
    CutSlice(a, b, p, RunEnd(a, p, inRun));
  }

  lemma CutScanToken(a: seq<byte>, b: seq<byte>, p: nat)
    requires CutAt(a, b)
    requires p <= |a|
    ensures ScanToken(b, p) == ScanToken(a, p)
  {
    CutAtAgrees(a, b, p);
    var ch := At(a, p);
    if ch == EOF || ch == EQUAL_SIGN || ch == PLUS_SIGN || ch == LESS_SIGN {
    } else if ch == COLON {
      CutScanRun(a, b, p + 1, IsWordByte);
      assert ScanLabel(b, p + 1) == ScanLabel(a, p + 1);
    } else if IsDigit(ch) {
      CutScanRun(a, b, p, IsDigit);
      assert ScanInt(b, p) == ScanInt(a, p);
    } else if IsWordByte(ch) {
      CutScanRun(a, b, p, IsWordByte);
      assert ScanWord(b, p) == ScanWord(a, p);
    } else {
      CutSlice(a, b, p, p + 1);
    }
  }

  lemma CutNextToken(a: seq<byte>, b: seq<byte>, i: nat)
    requires CutAt(a, b)
    requires i <= |a|
    ensures NextToken(b, i) == NextToken(a, i)
  {
    CutSkipSpace(a, b, i);
    CutScanToken(a, b, SkipSpace(a, i));
  }

  lemma {:induction false} CutTokenizeFrom(a: seq<byte>, b: seq<byte>, i: nat)
    requires CutAt(a, b)
    requires i <= |a|
    ensures TokenizeFrom(b, i) == TokenizeFrom(a, i)
    decreases |a| - i
  {
    CutNextToken(a, b, i);
    var r := NextToken(a, i);
    if r.token.kind != End {
      CutTokenizeFrom(a, b, r.next);
    }
  }

  /** An EOF byte in the input ends lexing: nothing after it yields a token. */
  lemma SentinelStops(a: seq<byte>, rest: seq<byte>)
    ensures Tokenize(a + [EOF] + rest) == Tokenize(a)
  {
    var b := a + [EOF] + rest;
    assert b[..|a|] == a;
    assert b[|a|] == EOF;
    CutTokenizeFrom(a, b, 0);
  }

  /** Lexing a buffer is lexing its prefix up to the first EOF byte; the
      buffer end plays the same role when there is no such byte. */
  lemma FirstSentinel(buf: seq<byte>, k: nat)
    requires k < |buf| && buf[k] == EOF
    ensures Tokenize(buf) == Tokenize(buf[..k])
  {
    assert buf == buf[..k] + [EOF] + buf[k + 1..];
    SentinelStops(buf[..k], buf[k + 1..]);
  }

  // ---------------------------------------------------------------------
  // One equation per lexical rule.

  lemma LexEmpty()
    ensures Tokenize([]) == [EndToken]
  {
  }

  /** A leading space byte produces no token. */
  lemma LexSpace(b: byte, rest: seq<byte>)
    requires IsSpace(b)
    ensures Tokenize([b] + rest) == Tokenize(rest)
  {
    var buf := [b] + rest;
    assert SkipSpace(buf, 0) == SkipSpace(buf, 1);
    assert NextToken(buf, 0) == NextToken(buf, 1);
    assert TokenizeFrom(buf, 0) == TokenizeFrom(buf, 1);
    ShiftTokenizeFrom([b], rest, 0);
  }

  /** The token a single operator byte stands for. */
  function OperatorToken(b: byte): Option<Token> {
    if b == EQUAL_SIGN then Some(Token(Equal, ""))
    else if b == PLUS_SIGN then Some(Token(Plus, ""))
    else if b == LESS_SIGN then Some(Token(LessThan, ""))
    else None
  }

  /** `=`, `+` and `<` each become one token of their own, so `<=` is
      `LessThan` followed by `Equal`. */
  lemma LexOperator(b: byte, rest: seq<byte>)
    requires OperatorToken(b).Some?
    ensures Tokenize([b] + rest) == [OperatorToken(b).value] + Tokenize(rest)
  {
    var buf := [b] + rest;
    assert NextToken(buf, 0) == Lexed(OperatorToken(b).value, 1);
    ShiftTokenizeFrom([b], rest, 0);
  }

  lemma RunEndOfRun(w: seq<byte>, rest: seq<byte>, i: nat, inRun: byte -> bool)
    requires !inRun(EOF)
    requires i <= |w|
    requires forall k :: 0 <= k < |w| ==> inRun(w[k])
    requires !inRun(At(rest, 0))
    ensures RunEnd(w + rest, i, inRun) == |w|
    decreases |w| - i
  {
    if i < |w| {
      RunEndOfRun(w, rest, i + 1, inRun);
    } else {
      ShiftAt(w, rest, 0);
    }
  }

  predicate AllWordBytes(w: seq<byte>) {
    forall k :: 0 <= k < |w| ==> IsWordByte(w[k])
  }

  predicate AllDigits(w: seq<byte>) {
    forall k :: 0 <= k < |w| ==> IsDigit(w[k])
  }

  /** A maximal identifier-shaped run is one token: a keyword with an empty
      value when the run spells `input`, `output`, `goto`, `if` or `then`,
      and otherwise an `Ident` carrying the run. Digits end the run. */
  lemma LexWord(w: seq<byte>, rest: seq<byte>)
    requires |w| >= 1 && AllWordBytes(w)
    requires !IsWordByte(At(rest, 0))
    ensures Tokenize(w + rest) == [WordToken(Latin1(w))] + Tokenize(rest)
    ensures Tokenize(w + rest)[0].kind == Ident <==> Latin1(w) !in {"input", "output", "goto", "if", "then"}
    ensures Tokenize(w + rest)[0].kind == Ident ==> Tokenize(w + rest)[0].val == Latin1(w)
    ensures Tokenize(w + rest)[0].kind != Ident ==> Tokenize(w + rest)[0].val == ""
  {
    var buf := w + rest;
    var tok := WordToken(Latin1(w));
    assert NextToken(buf, 0) == Lexed(tok, |w|) by {
      assert At(buf, 0) == w[0];
      assert SkipSpace(buf, 0) == 0;
      RunEndOfRun(w, rest, 0, IsWordByte);
      assert buf[0..|w|] == w;
    }
    assert TokenizeFrom(buf, |w| + 0) == TokenizeFrom(rest, 0) by {
      ShiftTokenizeFrom(w, rest, 0);
    }
    WordTokenKind(Latin1(w));
  }

  lemma WordTokenKind(s: string)
    ensures WordToken(s).kind != End
    ensures WordToken(s).kind == Ident <==> s !in {"input", "output", "goto", "if", "then"}
    ensures WordToken(s).kind == Ident ==> WordToken(s).val == s
    ensures WordToken(s).kind != Ident ==> WordToken(s).val == ""
  {
  }

  /** A maximal run of digits is one `Int` token carrying the digits. */
  lemma LexInt(d: seq<byte>, rest: seq<byte>)
    requires |d| >= 1 && AllDigits(d)
    requires !IsDigit(At(rest, 0))
    ensures Tokenize(d + rest) == [Token(Int, Latin1(d))] + Tokenize(rest)
  {
    var buf := d + rest;
    assert At(buf, 0) == d[0];
    RunEndOfRun(d, rest, 0, IsDigit);
    assert buf[0..|d|] == d;
    assert NextToken(buf, 0) == Lexed(Token(Int, Latin1(d)), |d|);
    ShiftTokenizeFrom(d, rest, 0);
  }

  /** `:` and the maximal letter/underscore run after it are one `Label`
      token whose value is the run without the colon; the run may be
      empty. */
  lemma LexLabel(w: seq<byte>, rest: seq<byte>)
    requires AllWordBytes(w)
    requires !IsWordByte(At(rest, 0))
    ensures Tokenize([COLON] + w + rest) == [Token(Label, Latin1(w))] + Tokenize(rest)
  {
    var buf := [COLON] + w + rest;
    assert buf == [COLON] + (w + rest);
    assert At(buf, 0) == COLON;
    ShiftRunEnd([COLON], w + rest, 0, IsWordByte);
    RunEndOfRun(w, rest, 0, IsWordByte);
    assert buf[1..1 + |w|] == w;
    assert NextToken(buf, 0) == Lexed(Token(Label, Latin1(w)), 1 + |w|);
    ShiftTokenizeFrom([COLON] + w, rest, 0);
  }

  /** A byte that starts no token is one `Invalid` token carrying that byte,
      and lexing goes on after it. */
  lemma LexInvalid(b: byte, rest: seq<byte>)
    requires b != EOF && !IsSpace(b) && OperatorToken(b).None? && b != COLON
    requires !IsDigit(b) && !IsWordByte(b)
    ensures Tokenize([b] + rest) == [Token(Invalid, [ToChar(b)])] + Tokenize(rest)
  {
    var buf := [b] + rest;
    assert buf[0..1] == [b];
    assert NextToken(buf, 0) == Lexed(Token(Invalid, [ToChar(b)]), 1);
    ShiftTokenizeFrom([b], rest, 0);
  }

  /** Identifiers hold no digits: `x1` is `Ident(x)`, `Int(1)`, `End`. */
  lemma LexIdentThenDigit()
    ensures Tokenize([0x78, 0x31]) == [Token(Ident, "x"), Token(Int, "1"), EndToken]
  {
    var x: seq<byte> := [0x78];
    var one: seq<byte> := [0x31];
    assert Latin1(x) == "x";
    assert Latin1(one) == "1";
    LexInt(one, []);
    assert one + [] == one;
    LexEmpty();
    assert [0x78, 0x31] == x + one;
    LexWord(x, one);
  }

  /** `<=` is two tokens. */
  lemma LexLessEqual()
    ensures Tokenize([LESS_SIGN, EQUAL_SIGN]) == [Token(LessThan, ""), Token(Equal, ""), EndToken]
  {
    LexOperator(EQUAL_SIGN, []);
    assert [EQUAL_SIGN] + [] == [EQUAL_SIGN];
    LexEmpty();
    assert [LESS_SIGN, EQUAL_SIGN] == [LESS_SIGN] + [EQUAL_SIGN];
    LexOperator(LESS_SIGN, [EQUAL_SIGN]);
  }

  // ---------------------------------------------------------------------
  // `Token.String` can be read back: the rendering determines the token.

  /** Kinds that have an entry in the name table. */
  predicate Named(k: TokenKind) {
    KindName(k) != ""
  }

  function KindOfName(name: string): Option<TokenKind> {
    if name == "ident" then Some(Ident)
    else if name == "label" then Some(Label)
    else if name == "int" then Some(Int)
    else if name == "input" then Some(Input)
    else if name == "output" then Some(Output)
    else if name == "goto" then Some(Goto)
    else if name == "if" then Some(If)
    else if name == "then" then Some(Then)
    else if name == "equal" then Some(Equal)
    else if name == "plus" then Some(Plus)
    else if name == "lessthan" then Some(LessThan)
    else if name == "invalid" then Some(Invalid)
    else if name == "end" then Some(End)
    else None
  }

  /** The index of the first `(` at or after `i`, or `|s|` if there is none. */
  function FirstParen(s: string, i: nat): (k: nat)
    requires i <= |s|
    ensures i <= k <= |s|
    decreases |s| - i
  {
    if i == |s| || s[i] == '(' then i else FirstParen(s, i + 1)
  }

  /** Reads a `Token.String` rendering back into the token. */
  function ParseTokenString(s: string): Option<Token> {
    var k := FirstParen(s, 0);
    if k == |s| then
      match KindOfName(s)
      case Some(kind) => Some(Token(kind, ""))
      case None => None
    else if k + 2 < |s| && s[|s| - 1] == ')' then
      match KindOfName(s[..k])
      case Some(kind) => Some(Token(kind, s[k + 1..|s| - 1]))
      case None => None
    else None
  }

  lemma KindNameReadsBack(k: TokenKind)
    requires Named(k)
    ensures KindOfName(KindName(k)) == Some(k)
    ensures forall j :: 0 <= j < |KindName(k)| ==> KindName(k)[j] != '('
  {
  }

  lemma {:induction false} FirstParenAfterName(name: string, rest: string, i: nat)
    requires i <= |name|
    requires forall j :: 0 <= j < |name| ==> name[j] != '('
    requires rest == [] || rest[0] == '('
    ensures FirstParen(name + rest, i) == |name|
    decreases |name| - i
  {
    if i < |name| {
      assert (name + rest)[i] == name[i];
      FirstParenAfterName(name, rest, i + 1);
    }
  }

  lemma TokenStringRoundTrip(t: Token)
    requires Named(t.kind)
    ensures ParseTokenString(TokenString(t)) == Some(t)
  {
    var name := KindName(t.kind);
    KindNameReadsBack(t.kind);
    if t.val == "" {
      assert TokenString(t) == name + [];
      FirstParenAfterName(name, [], 0);
    } else {
      var rest := "(" + t.val + ")";
      var s := name + rest;
      assert TokenString(t) == s;
      FirstParenAfterName(name, rest, 0);
      assert s[..|name|] == name;
      assert s[|name| + 1..|s| - 1] == t.val;
    }
  }

  /** Two tokens of named kinds with the same rendering are the same token. */
  lemma TokenStringInjective(a: Token, b: Token)
    requires Named(a.kind) && Named(b.kind)
    ensures TokenString(a) == TokenString(b) ==> a == b
  {
    TokenStringRoundTrip(a);
    TokenStringRoundTrip(b);
  }
}
