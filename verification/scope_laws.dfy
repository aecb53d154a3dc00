/** What the scope pass decides, stated without the pass itself: the
    program is flattened into the identifier events it performs, in the
    order `scopeInstr` meets them, and a program passes exactly when every
    read is preceded by an assignment to the same name. */
module ScopeLaws {
  import opened Wrappers
  import opened Ast
  import opened Scoping

  /** A read of an identifier, or an assignment to one. */
  datatype Event = Use(name: string) | Def(name: string)

  function Uses(names: seq<string>): (evs: seq<Event>)
    ensures |evs| == |names|
    ensures forall k :: 0 <= k < |evs| ==> evs[k] == Use(names[k])
  {
    if |names| == 0 then [] else [Use(names[0])] + Uses(names[1..])
  }

  /** Events of one instruction: the right-hand side is read before the
      target is assigned; the condition of an `if` before its body. */
  function InstrEvents(x: Instr): seq<Event> {
    match x
    case AssignInstr(id, e) => Uses(ExprUses(e)) + [Def(id)]
    case IfInstr(rel, body) => Uses(RelUses(rel)) + InstrEvents(body)
    case GotoInstr(_) => []
    case OutputInstr(t) => Uses(TermUses(t))
    case LabelInstr(_) => []
  }

  function ProgramEvents(xs: seq<Instr>): seq<Event> {
    if |xs| == 0 then [] else InstrEvents(xs[0]) + ProgramEvents(xs[1..])
  }

  /** The event at `k` is fine: a read of a name that is in the starting
      scope or assigned by an earlier event. */
  predicate BoundAt(s: Scope, evs: seq<Event>, k: nat)
    requires k < |evs|
  {
    evs[k].Use? ==> Has(s, evs[k].name) || Def(evs[k].name) in evs[..k]
  }

  /** Every read is in scope when it happens. */
  predicate WellScoped(s: Scope, evs: seq<Event>) {
    forall k :: 0 <= k < |evs| ==> BoundAt(s, evs, k)
  }

  /** `k` is the first read that is out of scope. */
  predicate FirstUnboundAt(s: Scope, evs: seq<Event>, k: nat) {
    && k < |evs|
    && !BoundAt(s, evs, k)
    && forall j :: 0 <= j < k ==> BoundAt(s, evs, j)
  }

  /** One event at a time, as the pass performs them. */
  function Replay(evs: seq<Event>, s: Scope): Result<Scope, ScopeError>
    decreases |evs|
  {
    if |evs| == 0 then Ok(s)
    else match evs[0]
      case Use(x) => if Has(s, x) then Replay(evs[1..], s) else Err(NotDefined(x))
      case Def(x) => Replay(evs[1..], if Has(s, x) then s else Append(s, x))
  }

  // ---------------------------------------------------------------------
  // The pass is the replay of its events.

  lemma {:induction false} ReplayAppend(a: seq<Event>, b: seq<Event>, s: Scope)
    ensures Replay(a + b, s)
         == match Replay(a, s) case Ok(t) => Replay(b, t) case Err(e) => Err(e)
    decreases |a|
  {
    if |a| == 0 {
      assert a + b == b;
    } else {
      assert (a + b)[0] == a[0];
      assert (a + b)[1..] == a[1..] + b;
      match a[0]
      case Use(x) => ReplayAppend(a[1..], b, s);
      case Def(x) => ReplayAppend(a[1..], b, if Has(s, x) then s else Append(s, x));
    }
  }

  lemma {:induction false} ReplayUses(names: seq<string>, s: Scope)
    ensures Replay(Uses(names), s)
         == if FirstUnbound(s, names).None? then Ok(s) else Err(NotDefined(FirstUnbound(s, names).value))
    decreases |names|
  {
    if |names| > 0 {
      assert Uses(names)[1..] == Uses(names[1..]);
      ReplayUses(names[1..], s);
    }
  }

  lemma {:induction false} ScopeInstrReplay(x: Instr, s: Scope)
    ensures ScopeInstr(x, s) == Replay(InstrEvents(x), s)
  {
    match x
    case AssignInstr(id, e) =>
      ReplayAppend(Uses(ExprUses(e)), [Def(id)], s);
      ReplayUses(ExprUses(e), s);
    case IfInstr(rel, body) =>
      ReplayAppend(Uses(RelUses(rel)), InstrEvents(body), s);
      ReplayUses(RelUses(rel), s);
      ScopeInstrReplay(body, s);
    case GotoInstr(_) =>
    case OutputInstr(t) =>
      ReplayUses(TermUses(t), s);
    case LabelInstr(_) =>
  }

  lemma {:induction false} ScopeInstrsReplay(xs: seq<Instr>, s: Scope)
    ensures ScopeInstrs(xs, s) == Replay(ProgramEvents(xs), s)
    decreases |xs|
  {
    if |xs| > 0 {
      ReplayAppend(InstrEvents(xs[0]), ProgramEvents(xs[1..]), s);
      ScopeInstrReplay(xs[0], s);
      var r := ScopeInstr(xs[0], s);
      if r.Ok? {
        ScopeInstrsReplay(xs[1..], r.value);
      }
    }
  }

  // ---------------------------------------------------------------------
  // What the replay decides.

  /** The scope after one event. */
  function After(e: Event, s: Scope): Scope {
    if e.Def? && !Has(s, e.name) then Append(s, e.name) else s
  }

  /** Dropping the first event: reads after it are bound from the scope it
      leaves exactly when they were bound before it. */
  lemma BoundShift(s: Scope, evs: seq<Event>, k: nat)
    requires 0 < k < |evs|
    requires evs[0].Use? ==> Has(s, evs[0].name)
    ensures BoundAt(s, evs, k) <==> BoundAt(After(evs[0], s), evs[1..], k - 1)
  {
    assert evs[..k] == [evs[0]] + evs[1..][..k - 1];
  }

  lemma {:induction false} ReplayDecides(evs: seq<Event>, s: Scope)
    ensures Replay(evs, s).Ok? <==> WellScoped(s, evs)
    ensures Replay(evs, s).Ok? ==>
      forall y :: Has(Replay(evs, s).value, y) <==> Has(s, y) || Def(y) in evs
    ensures Replay(evs, s).Err? ==>
      exists k: nat :: FirstUnboundAt(s, evs, k) && evs[k] == Use(Replay(evs, s).error.name)
    decreases |evs|
  {
    if |evs| == 0 {
    } else if evs[0].Use? && !Has(s, evs[0].name) {
      assert FirstUnboundAt(s, evs, 0);
    } else {
      var s' := After(evs[0], s);
      var rest := evs[1..];
      assert Replay(evs, s) == Replay(rest, s');
      ReplayDecides(rest, s');
      assert BoundAt(s, evs, 0);
      forall k | 0 < k < |evs|
        ensures BoundAt(s, evs, k) <==> BoundAt(s', rest, k - 1)
      {
        BoundShift(s, evs, k);
      }
      if Replay(rest, s').Ok? {
        forall y
          ensures Has(Replay(evs, s).value, y) <==> Has(s, y) || Def(y) in evs
        {
          assert evs == [evs[0]] + rest;
        }
        assert WellScoped(s, evs) by {
          forall k | 0 <= k < |evs|
            ensures BoundAt(s, evs, k)
          {
            if k > 0 {
              assert BoundAt(s', rest, k - 1);
            }
          }
        }
      } else {
        var k: nat :| FirstUnboundAt(s', rest, k) && rest[k] == Use(Replay(rest, s').error.name);
        BoundShift(s, evs, k + 1);
        assert FirstUnboundAt(s, evs, k + 1) by {
          forall j | 0 <= j < k + 1
            ensures BoundAt(s, evs, j)
          {
            if j > 0 {
              assert BoundAt(s', rest, j - 1);
            }
          }
        }
        assert evs[k + 1] == rest[k];
        assert !WellScoped(s, evs);
      }
    }
  }

  // ---------------------------------------------------------------------
  // The scope pass of a whole program.

  /** The scope pass accepts a program exactly when every identifier is
      assigned, earlier in program order, before it is read; the failure
      names the first read that is not; the final scope holds exactly the
      assigned names, each once. */
  lemma ScopeProgramDecides(p: Program)
    ensures ScopeProgram(p).Ok? <==> WellScoped(EmptyScope, ProgramEvents(p.instrs))
    ensures ScopeProgram(p).Ok? ==>
      forall y :: Has(ScopeProgram(p).value, y) <==> Def(y) in ProgramEvents(p.instrs)
    ensures ScopeProgram(p).Err? ==>
      exists k: nat :: FirstUnboundAt(EmptyScope, ProgramEvents(p.instrs), k)
        && ProgramEvents(p.instrs)[k] == Use(ScopeProgram(p).error.name)
  {
    ScopeInstrsReplay(p.instrs, EmptyScope);
    ReplayDecides(ProgramEvents(p.instrs), EmptyScope);
  }

  /** The names the events assign that are not in `seen`, each at its first
      assignment, in event order. */
  function FirstDefs(evs: seq<Event>, seen: seq<string>): seq<string>
    decreases |evs|
  {
    if |evs| == 0 then []
    else if evs[0].Def? && evs[0].name !in seen then
      [evs[0].name] + FirstDefs(evs[1..], seen + [evs[0].name])
    else FirstDefs(evs[1..], seen)
  }

  /** A successful replay appends the newly assigned names to the scope in
      the order of their first assignment. */
  lemma {:induction false} ReplaySlots(evs: seq<Event>, s: Scope)
    ensures Replay(evs, s).Ok? ==> Replay(evs, s).value.idents == s.idents + FirstDefs(evs, s.idents)
    decreases |evs|
  {
    if |evs| > 0 {
      match evs[0]
      case Use(x) => ReplaySlots(evs[1..], s);
      case Def(x) =>
        if Has(s, x) {
          ReplaySlots(evs[1..], s);
        } else {
          ReplaySlots(evs[1..], Append(s, x));
          assert s.idents + [x] + FirstDefs(evs[1..], s.idents + [x])
              == s.idents + ([x] + FirstDefs(evs[1..], s.idents + [x]));
        }
    }
  }

  /** The scope after a block of instructions extends the one before by the
      names the block assigns first, in program order. */
  lemma ScopeInstrsSlots(xs: seq<Instr>, s: Scope)
    ensures ScopeInstrs(xs, s).Ok? ==>
      ScopeInstrs(xs, s).value.idents == s.idents + FirstDefs(ProgramEvents(xs), s.idents)
  {
    ScopeInstrsReplay(xs, s);
    ReplaySlots(ProgramEvents(xs), s);
  }

  /** The program's slots: every assigned name once, in the order of its
      first assignment in the text. */
  lemma ScopeProgramSlots(p: Program)
    ensures ScopeProgram(p).Ok? ==>
      ScopeProgram(p).value.idents == FirstDefs(ProgramEvents(p.instrs), [])
  {
    ScopeInstrsSlots(p.instrs, EmptyScope);
    assert EmptyScope.idents == [];
  }

  /** Reassignment keeps a name's first slot: `b` is assigned first, `a`
      second, and `b` again last, so `b` keeps slot 0. */
  lemma SlotsByFirstAssignment(a: string, b: string)
    requires a != b
    ensures ScopeProgram(Program([
      AssignInstr(b, SingleExpr(IntTerm("1"))),
      AssignInstr(a, SingleExpr(IdentTerm(b))),
      AssignInstr(b, SingleExpr(IdentTerm(a)))
    ])) == Ok(Scope([b, a]))
  {
    var x0 := AssignInstr(b, SingleExpr(IntTerm("1")));
    var x1 := AssignInstr(a, SingleExpr(IdentTerm(b)));
    var x2 := AssignInstr(b, SingleExpr(IdentTerm(a)));
    var sb, sba := Scope([b]), Scope([b, a]);
    assert ScopeInstr(x0, EmptyScope) == Ok(sb) by {
      assert Append(EmptyScope, b) == sb;
    }
    assert ScopeInstr(x1, sb) == Ok(sba) by {
      assert Has(sb, b) && !Has(sb, a);
      assert Append(sb, a) == sba;
    }
    assert ScopeInstr(x2, sba) == Ok(sba) by {
      assert Has(sba, a) && Has(sba, b);
    }
    ScopeInstrsCons(x2, [], sba, sba);
    ScopeInstrsCons(x1, [x2], sb, sba);
    ScopeInstrsCons(x0, [x1, x2], EmptyScope, sb);
    assert [x0] + [x1, x2] == [x0, x1, x2];
  }

  lemma ScopeInstrsCons(x: Instr, rest: seq<Instr>, s: Scope, s': Scope)
    requires ScopeInstr(x, s) == Ok(s')
    ensures ScopeInstrs([x] + rest, s) == ScopeInstrs(rest, s')
  {
    assert ([x] + rest)[1..] == rest;
  }

  /** A self-referencing first assignment is rejected. */
  lemma SelfReferenceRejected(x: string, rest: seq<Instr>)
    ensures ScopeProgram(Program([AssignInstr(x, PlusExpr(IdentTerm(x), IntTerm("1")))] + rest))
         == Err(NotDefined(x))
  {
    var p := Program([AssignInstr(x, PlusExpr(IdentTerm(x), IntTerm("1")))] + rest);
    assert p.instrs[0] == AssignInstr(x, PlusExpr(IdentTerm(x), IntTerm("1")));
  }

  /** The pass follows the text, not the control flow: a read placed before
      the assignment is rejected even when a jump runs the assignment first. */
  lemma TextOrderNotControlFlow()
    ensures ScopeProgram(Program([
      GotoInstr("set"),
      LabelInstr("show"),
      OutputInstr(IdentTerm("x")),
      LabelInstr("set"),
      AssignInstr("x", SingleExpr(IntTerm("1"))),
      GotoInstr("show")
    ])) == Err(NotDefined("x"))
  {
  }
}
