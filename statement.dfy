/** Statements and the interpreter state of src/statement.rs.

    The state is a stack of scopes, outermost first. The scope functions of
    module Env give lookup and in-place update their meaning; the functions
    here give each statement its meaning over a sequence of scopes; the class
    State runs statements in place and is proved to agree with them.

    Block (crate::block) is not part of this model. Its behaviour here is an
    assumption: a block pushes an empty scope, runs its statements in order,
    pops the scope, and its result is the result of its last statement. */
module Statement {
  import opened Ast
  import opened Results
  import opened Env
  import Eval
  import Atoms

  datatype Declaration = Declaration(lhs: string, rhs: S, alias: bool)

  datatype If = If(cond: S, thenBlock: Block, elseBlock: Block)

  datatype While = While(cond: S, loopBlock: Block)

  datatype Stmt =
    | ExprStmt(expr: S)
    | PrintStmt(expr: S)
    | Dec(dec: Declaration)
    | IfStmt(ifData: If)
    | WhileStmt(whileData: While)

  datatype Block = Block(stmts: seq<Stmt>)

  /** The evaluator's parameters: the operations it leaves uninterpreted and
      its budget for nested re-evaluation. */
  datatype Interp = Interp(prims: Eval.Prims, evalFuel: nat)

  /** The panics of statement execution, and failures of evaluation. */
  datatype ExecError =
    | EvalFailed(cause: Eval.EvalError)
    | MismatchedTypes(name: string)      // declare: value of another variant, no alias
    | Uninitialized(name: string)        // declare: unbound name without alias
    | NoScope                            // declare: last_mut() on an empty stack
    | OutOfFuel                          // the bound on loop iterations ran out

  /** The result of a statement and the scopes after it. */
  datatype Outcome = Outcome(value: Option<Atom>, scopes: seq<Scope>)

  /** eval_expr, with its failures as execution errors. */
  function EvalIn(e: S, sc: seq<Scope>, I: Interp): Result<Eval.Evaluated, ExecError> {
    match Eval.Eval(e, sc, I.prims, I.evalFuel)
    case Ok(v) => Ok(v)
    case Err(err) => Err(EvalFailed(err))
  }

  /** The scopes with a binding stored in the last (innermost) scope. */
  function InsertLast(sc: seq<Scope>, name: string, val: Atom): seq<Scope>
    requires |sc| > 0
  {
    sc[|sc| - 1 := sc[|sc| - 1][name := val]]
  }

  /** declare: the variant check reads the innermost binding; an existing
      name is then overwritten by modify_variable, a fresh aliased one is
      inserted into the last scope. The right-hand side is evaluated in the
      current scopes, and the update applies to the scopes the evaluation
      leaves (a function call may have changed them). */
  function DeclareSpec(dec: Declaration, sc: seq<Scope>, I: Interp): Result<seq<Scope>, ExecError> {
    match Lookup(sc, dec.lhs)
    case Some(current) =>
      var ev :- EvalIn(dec.rhs, sc, I);
      if Atoms.SameVariant(current, ev.value) || dec.alias then Ok(Modified(ev.scopes, dec.lhs, ev.value))
      else Err(MismatchedTypes(dec.lhs))
    case None =>
      if dec.alias then
        var ev :- EvalIn(dec.rhs, sc, I);
        if |ev.scopes| == 0 then Err(NoScope)
        else Ok(InsertLast(ev.scopes, dec.lhs, ev.value))
      else Err(Uninitialized(dec.lhs))
  }

  /** Popping a scope; popping an empty stack leaves it empty. */
  function Pop(sc: seq<Scope>): seq<Scope> {
    if |sc| == 0 then [] else sc[..|sc| - 1]
  }

  /** Stmt::execute. The fuel bounds the iterations of while loops. */
  function Exec(stmt: Stmt, sc: seq<Scope>, I: Interp, fuel: nat): Result<Outcome, ExecError>
    decreases fuel, stmt
  {
    match stmt
    case ExprStmt(e) =>
      var ev :- EvalIn(e, sc, I);
      Ok(Outcome(Some(ev.value), ev.scopes))
    case PrintStmt(e) =>
      var ev :- EvalIn(e, sc, I);
      Ok(Outcome(None, ev.scopes))
    case Dec(d) =>
      var sc' :- DeclareSpec(d, sc, I);
      Ok(Outcome(None, sc'))
    case IfStmt(i) =>
      var c :- EvalIn(i.cond, sc, I);
      if c.value == Bool(true) then ExecBlock(i.thenBlock, c.scopes, I, fuel)
      else ExecBlock(i.elseBlock, c.scopes, I, fuel)
    case WhileStmt(w) => ExecWhile(w, sc, I, fuel)
  }

  /** The loop: the condition is evaluated before every iteration. */
  function ExecWhile(w: While, sc: seq<Scope>, I: Interp, fuel: nat): Result<Outcome, ExecError>
    decreases fuel, w
  {
    var c :- EvalIn(w.cond, sc, I);
    if c.value != Bool(true) then Ok(Outcome(None, c.scopes))
    else if fuel == 0 then Err(OutOfFuel)
    else
      var body :- ExecBlock(w.loopBlock, c.scopes, I, fuel - 1);
      ExecWhile(w, body.scopes, I, fuel - 1)
  }

  /** A block, under the assumption stated for this module. */
  function ExecBlock(b: Block, sc: seq<Scope>, I: Interp, fuel: nat): Result<Outcome, ExecError>
    decreases fuel, b
  {
    var out :- ExecStmts(b.stmts, sc + [map[]], None, I, fuel);
    Ok(Outcome(out.value, Pop(out.scopes)))
  }

  /** Statements in order; the result is that of the last one run. */
  function ExecStmts(stmts: seq<Stmt>, sc: seq<Scope>, last: Option<Atom>, I: Interp, fuel: nat): Result<Outcome, ExecError>
    decreases fuel, stmts
  {
    if stmts == [] then Ok(Outcome(last, sc))
    else
      var o :- Exec(stmts[0], sc, I, fuel);
      ExecStmts(stmts[1..], o.scopes, o.value, I, fuel)
  }

  /** The result a method reports for an outcome. */
  function ValueOf(r: Result<Outcome, ExecError>): Result<Option<Atom>, ExecError> {
    match r
    case Ok(o) => Ok(o.value)
    case Err(e) => Err(e)
  }

  function Done(r: Result<seq<Scope>, ExecError>): Result<(), ExecError> {
    match r
    case Ok(_) => Ok(())
    case Err(e) => Err(e)
  }

  /** The interpreter state (State in src/statement.rs). */
  class State {
    /** The scope stack, outermost first. */
    var scopes: seq<Scope>

    /** State::default: one empty scope. */
    constructor Default()
      ensures scopes == [map[]]
    {
      scopes := [map[]];
    }

    /** get_variable: the binding from the innermost scope holding the name. */
    function GetVariable(name: string): (r: Option<Atom>)
      reads this
      ensures r.None? <==> Unbound(scopes, name)
      ensures forall k: nat :: InnermostAt(scopes, name, k) ==> r == Some(scopes[k][name])
    {
      Lookup(scopes, name)
    }

    /** modify_variable: scans outermost first and overwrites the name in the
        first scope that holds it. */
    method ModifyVariable(name: string, val: Atom)
      modifies this
      ensures scopes == Modified(old(scopes), name, val)
    {
      var i := 0;
      while i < |scopes|
        invariant i <= |scopes| && scopes == old(scopes)
        invariant forall j :: 0 <= j < i ==> name !in scopes[j]
      {
        if name in scopes[i] {
          assert OutermostAt(scopes, name, i);
          scopes := scopes[i := scopes[i][name := val]];
          return;
        }
        i := i + 1;
      }
    }

    /** declare. */
    method Declare(dec: Declaration, I: Interp) returns (r: Result<(), ExecError>)
      modifies this
      ensures r == Done(DeclareSpec(dec, old(scopes), I))
      ensures r.Ok? ==> scopes == DeclareSpec(dec, old(scopes), I).value
    {
      var disc := GetVariable(dec.lhs);
      match disc {
        case Some(current) =>
          var ev := EvalIn(dec.rhs, scopes, I);
          if ev.Err? {
            return Err(ev.error);
          }
          scopes := ev.value.scopes;
          if Atoms.SameVariant(current, ev.value.value) || dec.alias {
            ModifyVariable(dec.lhs, ev.value.value);
            r := Ok(());
          } else {
            r := Err(MismatchedTypes(dec.lhs));
          }
        case None =>
          if !dec.alias {
            return Err(Uninitialized(dec.lhs));
          }
          var ev := EvalIn(dec.rhs, scopes, I);
          if ev.Err? {
            return Err(ev.error);
          }
          scopes := ev.value.scopes;
          if |scopes| == 0 {
            return Err(NoScope);
          }
          scopes := scopes[|scopes| - 1 := scopes[|scopes| - 1][dec.lhs := ev.value.value]];
          r := Ok(());
      }
    }

    /** Stmt::execute. */
    method Execute(stmt: Stmt, I: Interp, fuel: nat) returns (r: Result<Option<Atom>, ExecError>)
      modifies this
      ensures r == ValueOf(Exec(stmt, old(scopes), I, fuel))
      ensures r.Ok? ==> scopes == Exec(stmt, old(scopes), I, fuel).value.scopes
      decreases fuel, stmt, 1
    {
      match stmt {
        case ExprStmt(e) =>
          var ev := EvalIn(e, scopes, I);
          if ev.Err? {
            return Err(ev.error);
          }
          scopes := ev.value.scopes;
          r := Ok(Some(ev.value.value));
        case PrintStmt(e) =>
          var ev := EvalIn(e, scopes, I);
          if ev.Err? {
            return Err(ev.error);
          }
          scopes := ev.value.scopes;
          r := Ok(None);
        case Dec(d) =>
          var done := Declare(d, I);
          if done.Err? {
            return Err(done.error);
          }
          r := Ok(None);
        case IfStmt(i) =>
          var c := EvalIn(i.cond, scopes, I);
          if c.Err? {
            return Err(c.error);
          }
          scopes := c.value.scopes;
          if c.value.value == Bool(true) {
            r := ExecuteBlock(i.thenBlock, I, fuel);
          } else {
            r := ExecuteBlock(i.elseBlock, I, fuel);
          }
        case WhileStmt(w) =>
          r := ExecuteWhile(w, I, fuel);
      }
    }

    /** The while loop of Stmt::execute. */
    method ExecuteWhile(w: While, I: Interp, fuel: nat) returns (r: Result<Option<Atom>, ExecError>)
      modifies this
      ensures r == ValueOf(ExecWhile(w, old(scopes), I, fuel))
      ensures r.Ok? ==> scopes == ExecWhile(w, old(scopes), I, fuel).value.scopes
      decreases fuel, w, 0
    {
      var f: nat := fuel;
      while true
        invariant f <= fuel
        invariant ExecWhile(w, scopes, I, f) == ExecWhile(w, old(scopes), I, fuel)
        decreases f
      {
        var c := EvalIn(w.cond, scopes, I);
        if c.Err? {
          return Err(c.error);
        }
        scopes := c.value.scopes;
        if c.value.value != Bool(true) {
          return Ok(None);
        }
        if f == 0 {
          return Err(OutOfFuel);
        }
        var body := ExecuteBlock(w.loopBlock, I, f - 1);
        if body.Err? {
          return Err(body.error);
        }
        f := f - 1;
      }
    }

    /** Block execution, under the assumption stated for this module. */
    method ExecuteBlock(b: Block, I: Interp, fuel: nat) returns (r: Result<Option<Atom>, ExecError>)
      modifies this
      ensures r == ValueOf(ExecBlock(b, old(scopes), I, fuel))
      ensures r.Ok? ==> scopes == ExecBlock(b, old(scopes), I, fuel).value.scopes
      decreases fuel, b, 0
    {
      scopes := scopes + [map[]];
      var last: Option<Atom> := None;
      var i := 0;
      while i < |b.stmts|
        invariant i <= |b.stmts|
        invariant ExecStmts(b.stmts[i..], scopes, last, I, fuel) == ExecStmts(b.stmts, old(scopes) + [map[]], None, I, fuel)
      {
        assert b.stmts[i..][1..] == b.stmts[i + 1..];
        var o := Execute(b.stmts[i], I, fuel);
        if o.Err? {
          return Err(o.error);
        }
        last := o.value;
        i := i + 1;
      }
      scopes := Pop(scopes);
      r := Ok(last);
    }
  }

  // ------------------------------------------------------------- properties

  /** An expression statement yields its value; print and declaration
      statements yield nothing. */
  lemma ResultShapes(e: S, d: Declaration, sc: seq<Scope>, I: Interp, fuel: nat)
    ensures Exec(ExprStmt(e), sc, I, fuel).Ok? <==> EvalIn(e, sc, I).Ok?
    ensures Exec(ExprStmt(e), sc, I, fuel).Ok? ==>
              Exec(ExprStmt(e), sc, I, fuel).value.value == Some(EvalIn(e, sc, I).value.value)
    ensures Exec(PrintStmt(e), sc, I, fuel).Ok? <==> EvalIn(e, sc, I).Ok?
    ensures Exec(PrintStmt(e), sc, I, fuel).Ok? ==> Exec(PrintStmt(e), sc, I, fuel).value.value == None
    ensures Exec(Dec(d), sc, I, fuel).Ok? <==> DeclareSpec(d, sc, I).Ok?
    ensures Exec(Dec(d), sc, I, fuel).Ok? ==>
              Exec(Dec(d), sc, I, fuel).value == Outcome(None, DeclareSpec(d, sc, I).value)
  {
  }

  /** if runs the then-block exactly when the condition is Bool(true); any
      other value, booleans or not, runs the else-block. */
  lemma IfChoosesBlock(i: If, sc: seq<Scope>, I: Interp, fuel: nat)
    ensures EvalIn(i.cond, sc, I).Err? ==> Exec(IfStmt(i), sc, I, fuel) == Err(EvalIn(i.cond, sc, I).error)
    ensures EvalIn(i.cond, sc, I).Ok? && EvalIn(i.cond, sc, I).value.value == Bool(true) ==>
              Exec(IfStmt(i), sc, I, fuel) == ExecBlock(i.thenBlock, EvalIn(i.cond, sc, I).value.scopes, I, fuel)
    ensures EvalIn(i.cond, sc, I).Ok? && EvalIn(i.cond, sc, I).value.value != Bool(true) ==>
              Exec(IfStmt(i), sc, I, fuel) == ExecBlock(i.elseBlock, EvalIn(i.cond, sc, I).value.scopes, I, fuel)
  {
  }

  /** A loop that finishes yields nothing, and its condition is not Bool(true)
      in the scopes it leaves. */
  lemma {:induction false} WhileEndsOnFalse(w: While, sc: seq<Scope>, I: Interp, fuel: nat)
    requires Eval.CallsReadOnly(I.prims)
    ensures ExecWhile(w, sc, I, fuel).Ok? ==>
              var out := ExecWhile(w, sc, I, fuel).value;
              out.value == None && EvalIn(w.cond, out.scopes, I).Ok? &&
              EvalIn(w.cond, out.scopes, I).value.value != Bool(true)
    decreases fuel
  {
    Eval.EvalReadOnly(w.cond, sc, I.prims, I.evalFuel);
    if EvalIn(w.cond, sc, I).Ok? && EvalIn(w.cond, sc, I).value.value == Bool(true) && fuel > 0 {
      var body := ExecBlock(w.loopBlock, sc, I, fuel - 1);
      if body.Ok? {
        WhileEndsOnFalse(w, body.value.scopes, I, fuel - 1);
      }
    }
  }

  /** A condition that is not Bool(true) at the start means the body never runs. */
  lemma WhileSkipsBody(w: While, sc: seq<Scope>, I: Interp, fuel: nat)
    requires EvalIn(w.cond, sc, I).Ok? && EvalIn(w.cond, sc, I).value.value != Bool(true)
    ensures Exec(WhileStmt(w), sc, I, fuel) == Ok(Outcome(None, EvalIn(w.cond, sc, I).value.scopes))
  {
  }

  /** while true never finishes, whatever its body and however many
      iterations are allowed. */
  lemma {:induction false} WhileTrueNeverEnds(b: Block, sc: seq<Scope>, I: Interp, fuel: nat)
    ensures !ExecWhile(While(S.Atom(Bool(true)), b), sc, I, fuel).Ok?
    decreases fuel
  {
    var w := While(S.Atom(Bool(true)), b);
    Eval.EvalLiteral(Bool(true), sc, I.prims, I.evalFuel);
    if fuel > 0 {
      var body := ExecBlock(b, sc, I, fuel - 1);
      if body.Ok? {
        WhileTrueNeverEnds(b, body.value.scopes, I, fuel - 1);
      }
    }
  }

  /** declare on a bound name: a failing right-hand side is the failure;
      otherwise the variant of the innermost binding decides: a matching
      variant or the alias flag stores the value through modify_variable in
      the scopes the evaluation left, anything else is a type mismatch. */
  lemma DeclareBound(dec: Declaration, sc: seq<Scope>, I: Interp, k: nat)
    requires InnermostAt(sc, dec.lhs, k)
    ensures EvalIn(dec.rhs, sc, I).Err? ==> DeclareSpec(dec, sc, I) == Err(EvalIn(dec.rhs, sc, I).error)
    ensures EvalIn(dec.rhs, sc, I).Ok? ==>
            var ev := EvalIn(dec.rhs, sc, I).value;
            (Atoms.SameVariant(sc[k][dec.lhs], ev.value) || dec.alias ==>
               DeclareSpec(dec, sc, I) == Ok(Modified(ev.scopes, dec.lhs, ev.value))) &&
            (!Atoms.SameVariant(sc[k][dec.lhs], ev.value) && !dec.alias ==>
               DeclareSpec(dec, sc, I) == Err(MismatchedTypes(dec.lhs)))
  {
  }

  /** declare on an unbound name: without alias it fails without evaluating
      anything; with alias a failing right-hand side is the failure, an empty
      stack is an error, and otherwise the name is bound in the last scope the
      evaluation left and nowhere else, where the next read finds it. */
  lemma DeclareUnbound(dec: Declaration, sc: seq<Scope>, I: Interp)
    requires Unbound(sc, dec.lhs)
    ensures !dec.alias ==> DeclareSpec(dec, sc, I) == Err(Uninitialized(dec.lhs))
    ensures dec.alias && EvalIn(dec.rhs, sc, I).Err? ==> DeclareSpec(dec, sc, I) == Err(EvalIn(dec.rhs, sc, I).error)
    ensures dec.alias && EvalIn(dec.rhs, sc, I).Ok? && |EvalIn(dec.rhs, sc, I).value.scopes| > 0 ==>
              var ev := EvalIn(dec.rhs, sc, I).value;
              var n := |ev.scopes|;
              var r := DeclareSpec(dec, sc, I);
              r.Ok? && |r.value| == n && r.value[n - 1] == ev.scopes[n - 1][dec.lhs := ev.value] &&
              (forall j :: 0 <= j < n - 1 ==> r.value[j] == ev.scopes[j]) &&
              Lookup(r.value, dec.lhs) == Some(ev.value)
    ensures dec.alias && EvalIn(dec.rhs, sc, I).Ok? && |EvalIn(dec.rhs, sc, I).value.scopes| == 0 ==>
              DeclareSpec(dec, sc, I) == Err(NoScope)
  {
    if dec.alias && EvalIn(dec.rhs, sc, I).Ok? && |EvalIn(dec.rhs, sc, I).value.scopes| > 0 {
      var ev := EvalIn(dec.rhs, sc, I).value;
      var r := DeclareSpec(dec, sc, I).value;
      assert r == InsertLast(ev.scopes, dec.lhs, ev.value);
      assert InnermostAt(r, dec.lhs, |ev.scopes| - 1);
    }
  }

  /** No branch of declare changes the number of scopes. */
  lemma DeclareKeepsDepth(dec: Declaration, sc: seq<Scope>, I: Interp)
    requires Eval.CallsReadOnly(I.prims)
    ensures DeclareSpec(dec, sc, I).Ok? ==> |DeclareSpec(dec, sc, I).value| == |sc|
  {
    Eval.EvalReadOnly(dec.rhs, sc, I.prims, I.evalFuel);
  }

  /** Under shadowing, declare checks the variant of the innermost binding
      but writes to an outer scope: the name still reads as before. */
  lemma ShadowedDeclareInvisible(dec: Declaration, sc: seq<Scope>, I: Interp, i: nat, j: nat)
    requires Eval.CallsReadOnly(I.prims)
    requires i < j < |sc| && dec.lhs in sc[i] && dec.lhs in sc[j]
    requires DeclareSpec(dec, sc, I).Ok?
    ensures Lookup(DeclareSpec(dec, sc, I).value, dec.lhs) == Lookup(sc, dec.lhs)
  {
    assert !Unbound(sc, dec.lhs);
    var v := EvalIn(dec.rhs, sc, I).value.value;
    Eval.EvalReadOnly(dec.rhs, sc, I.prims, I.evalFuel);
    DeclareBoundModifies(dec, sc, I);
    ShadowedModifyInvisible(sc, dec.lhs, v, i, j);
  }

  /** A successful declare on a bound name is modify_variable with the new
      value, applied to the scopes the evaluation left. */
  lemma DeclareBoundModifies(dec: Declaration, sc: seq<Scope>, I: Interp)
    requires !Unbound(sc, dec.lhs)
    requires DeclareSpec(dec, sc, I).Ok?
    ensures EvalIn(dec.rhs, sc, I).Ok?
    ensures DeclareSpec(dec, sc, I).value == Modified(EvalIn(dec.rhs, sc, I).value.scopes, dec.lhs, EvalIn(dec.rhs, sc, I).value.value)
  {
  }

  /** Without shadowing, a successful declare is visible to the next read. */
  lemma UnshadowedDeclareVisible(dec: Declaration, sc: seq<Scope>, I: Interp, k: nat)
    requires Eval.CallsReadOnly(I.prims)
    requires InnermostAt(sc, dec.lhs, k) && OutermostAt(sc, dec.lhs, k)
    ensures DeclareSpec(dec, sc, I).Ok? ==>
              Lookup(DeclareSpec(dec, sc, I).value, dec.lhs) == Some(EvalIn(dec.rhs, sc, I).value.value)
  {
    Eval.EvalReadOnly(dec.rhs, sc, I.prims, I.evalFuel);
    if DeclareSpec(dec, sc, I).Ok? {
      UnshadowedModifyVisible(sc, dec.lhs, EvalIn(dec.rhs, sc, I).value.value, k);
    }
  }

  // ------------------------------------------------------- scope isolation

  /** The scopes keep their number and names, except that the last scope
      may gain names. */
  predicate GrowsLast(a: seq<Scope>, b: seq<Scope>) {
    |a| == |b| &&
    (forall k :: 0 <= k < |a| - 1 ==> a[k].Keys == b[k].Keys) &&
    (|a| > 0 ==> a[|a| - 1].Keys <= b[|a| - 1].Keys)
  }

  lemma GrowsLastTrans(a: seq<Scope>, b: seq<Scope>, c: seq<Scope>)
    requires GrowsLast(a, b) && GrowsLast(b, c)
    ensures GrowsLast(a, c)
  {
  }

  /** What a block adds to its own scope is gone once the scope is popped. */
  lemma PopRestores(sc: seq<Scope>, out: seq<Scope>)
    requires GrowsLast(sc + [map[]], out)
    ensures SameNames(sc, Pop(out))
  {
    assert forall k :: 0 <= k < |sc| ==> (sc + [map[]])[k] == sc[k];
  }

  /** declare binds new names only in the last scope. */
  lemma DeclareGrowsLast(dec: Declaration, sc: seq<Scope>, I: Interp)
    requires Eval.CallsReadOnly(I.prims)
    ensures DeclareSpec(dec, sc, I).Ok? ==> GrowsLast(sc, DeclareSpec(dec, sc, I).value)
  {
    Eval.EvalReadOnly(dec.rhs, sc, I.prims, I.evalFuel);
    if DeclareSpec(dec, sc, I).Ok? {
      var v := EvalIn(dec.rhs, sc, I).value.value;
      ModifiedKeepsNames(sc, dec.lhs, v);
    }
  }

  /** A statement binds new names only in the innermost scope, and never
      changes the number of scopes. */
  lemma {:induction false} ExecGrowsLast(stmt: Stmt, sc: seq<Scope>, I: Interp, fuel: nat)
    requires Eval.CallsReadOnly(I.prims)
    ensures Exec(stmt, sc, I, fuel).Ok? ==> GrowsLast(sc, Exec(stmt, sc, I, fuel).value.scopes)
    decreases fuel, stmt
  {
    match stmt
    case ExprStmt(e) => Eval.EvalReadOnly(e, sc, I.prims, I.evalFuel);
    case PrintStmt(e) => Eval.EvalReadOnly(e, sc, I.prims, I.evalFuel);
    case Dec(d) => DeclareGrowsLast(d, sc, I);
    case IfStmt(i) =>
      Eval.EvalReadOnly(i.cond, sc, I.prims, I.evalFuel);
      ExecBlockRestores(i.thenBlock, sc, I, fuel);
      ExecBlockRestores(i.elseBlock, sc, I, fuel);
    case WhileStmt(w) => ExecWhileRestores(w, sc, I, fuel);
  }

  /** A loop leaves exactly the names it found: its body is a block. */
  lemma {:induction false} ExecWhileRestores(w: While, sc: seq<Scope>, I: Interp, fuel: nat)
    requires Eval.CallsReadOnly(I.prims)
    ensures ExecWhile(w, sc, I, fuel).Ok? ==> SameNames(sc, ExecWhile(w, sc, I, fuel).value.scopes)
    decreases fuel, w
  {
    Eval.EvalReadOnly(w.cond, sc, I.prims, I.evalFuel);
    if EvalIn(w.cond, sc, I).Ok? && EvalIn(w.cond, sc, I).value.value == Bool(true) && fuel > 0 {
      ExecBlockRestores(w.loopBlock, sc, I, fuel - 1);
      var body := ExecBlock(w.loopBlock, sc, I, fuel - 1);
      if body.Ok? {
        ExecWhileRestores(w, body.value.scopes, I, fuel - 1);
      }
    }
  }

  /** Scope isolation: after a block the stack has the same scopes holding
      the same names, so the block's own declarations are gone; and every
      outer scope is exactly as the block's statements left it, so its
      updates of outer variables remain. */
  lemma {:induction false} ExecBlockRestores(b: Block, sc: seq<Scope>, I: Interp, fuel: nat)
    requires Eval.CallsReadOnly(I.prims)
    ensures ExecBlock(b, sc, I, fuel).Ok? ==> SameNames(sc, ExecBlock(b, sc, I, fuel).value.scopes)
    ensures ExecBlock(b, sc, I, fuel).Ok? ==>
              ExecBlock(b, sc, I, fuel).value.scopes == ExecStmts(b.stmts, sc + [map[]], None, I, fuel).value.scopes[..|sc|]
    decreases fuel, b
  {
    ExecStmtsGrowLast(b.stmts, sc + [map[]], None, I, fuel);
    if ExecBlock(b, sc, I, fuel).Ok? {
      PopRestores(sc, ExecStmts(b.stmts, sc + [map[]], None, I, fuel).value.scopes);
    }
  }

  /** Scope isolation for values: a name bound outside a block reads, after
      the block, the value the block's statements left for it. A declaration
      of such a name inside the block writes the outer binding instead of
      shadowing it, so an outer variable the block reassigned keeps its new
      value. */
  lemma ExecBlockKeepsOuterValues(b: Block, sc: seq<Scope>, I: Interp, fuel: nat, name: string, k: nat)
    requires Eval.CallsReadOnly(I.prims)
    requires k < |sc| && name in sc[k]
    ensures ExecBlock(b, sc, I, fuel).Ok? ==>
              Lookup(ExecBlock(b, sc, I, fuel).value.scopes, name) ==
              Lookup(ExecStmts(b.stmts, sc + [map[]], None, I, fuel).value.scopes, name)
  {
    var inner := sc + [map[]];
    assert NotShadowedInLast(inner, name);
    ExecStmtsGrowLast(b.stmts, inner, None, I, fuel);
    ExecStmtsKeepNotShadowed(b.stmts, inner, None, I, fuel, name);
    if ExecBlock(b, sc, I, fuel).Ok? {
      var out := ExecStmts(b.stmts, inner, None, I, fuel).value.scopes;
      assert inner[k] == sc[k];
      assert name in out[..|out| - 1][k];
      LookupPastInner(out, name);
    }
  }

  /** The innermost scope holds the name only if no scope outside it does. */
  ghost predicate NotShadowedInLast(s: seq<Scope>, name: string) {
    |s| > 0 && name in s[|s| - 1] ==> Unbound(s[..|s| - 1], name)
  }

  lemma SameNamesKeepNotShadowed(a: seq<Scope>, b: seq<Scope>, name: string)
    requires SameNames(a, b) && NotShadowedInLast(a, name)
    ensures NotShadowedInLast(b, name)
  {
    if |b| > 0 && name in b[|b| - 1] {
      assert name in a[|a| - 1];
      assert forall i :: 0 <= i < |a| - 1 ==> a[..|a| - 1][i] == a[i];
      assert forall i :: 0 <= i < |b| - 1 ==> b[..|b| - 1][i] == b[i];
    }
  }

  /** Under read-only calls, a statement never makes the innermost scope
      shadow an outer binding: declare writes a bound name where it is bound. */
  lemma ExecKeepsNotShadowed(stmt: Stmt, s: seq<Scope>, I: Interp, fuel: nat, name: string)
    requires Eval.CallsReadOnly(I.prims) && NotShadowedInLast(s, name)
    ensures Exec(stmt, s, I, fuel).Ok? ==> NotShadowedInLast(Exec(stmt, s, I, fuel).value.scopes, name)
  {
    if Exec(stmt, s, I, fuel).Ok? {
      var after := Exec(stmt, s, I, fuel).value.scopes;
      match stmt
      case ExprStmt(e) => Eval.EvalReadOnly(e, s, I.prims, I.evalFuel);
      case PrintStmt(e) => Eval.EvalReadOnly(e, s, I.prims, I.evalFuel);
      case Dec(d) =>
        Eval.EvalReadOnly(d.rhs, s, I.prims, I.evalFuel);
        var v := EvalIn(d.rhs, s, I).value.value;
        if Lookup(s, d.lhs).Some? {
          ModifiedKeepsNames(s, d.lhs, v);
          SameNamesKeepNotShadowed(s, after, name);
        } else {
          assert after == InsertLast(s, d.lhs, v);
          assert after[..|after| - 1] == s[..|s| - 1];
          if name == d.lhs {
            assert forall i :: 0 <= i < |s| - 1 ==> s[..|s| - 1][i] == s[i];
          }
        }
      case IfStmt(i) =>
        Eval.EvalReadOnly(i.cond, s, I.prims, I.evalFuel);
        ExecBlockRestores(i.thenBlock, s, I, fuel);
        ExecBlockRestores(i.elseBlock, s, I, fuel);
        SameNamesKeepNotShadowed(s, after, name);
      case WhileStmt(w) =>
        ExecWhileRestores(w, s, I, fuel);
        SameNamesKeepNotShadowed(s, after, name);
    }
  }

  lemma {:induction false} ExecStmtsKeepNotShadowed(stmts: seq<Stmt>, s: seq<Scope>, last: Option<Atom>, I: Interp, fuel: nat, name: string)
    requires Eval.CallsReadOnly(I.prims) && NotShadowedInLast(s, name)
    ensures ExecStmts(stmts, s, last, I, fuel).Ok? ==> NotShadowedInLast(ExecStmts(stmts, s, last, I, fuel).value.scopes, name)
    decreases stmts
  {
    if stmts != [] {
      ExecKeepsNotShadowed(stmts[0], s, I, fuel, name);
      var o := Exec(stmts[0], s, I, fuel);
      if o.Ok? {
        ExecStmtsKeepNotShadowed(stmts[1..], o.value.scopes, o.value.value, I, fuel, name);
      }
    }
  }

  lemma {:induction false} ExecStmtsGrowLast(stmts: seq<Stmt>, sc: seq<Scope>, last: Option<Atom>, I: Interp, fuel: nat)
    requires Eval.CallsReadOnly(I.prims)
    ensures ExecStmts(stmts, sc, last, I, fuel).Ok? ==> GrowsLast(sc, ExecStmts(stmts, sc, last, I, fuel).value.scopes)
    decreases fuel, stmts
  {
    if stmts != [] {
      ExecGrowsLast(stmts[0], sc, I, fuel);
      var o := Exec(stmts[0], sc, I, fuel);
      if o.Ok? {
        ExecStmtsGrowLast(stmts[1..], o.value.scopes, o.value.value, I, fuel);
        if ExecStmts(stmts, sc, last, I, fuel).Ok? {
          GrowsLastTrans(sc, o.value.scopes, ExecStmts(stmts, sc, last, I, fuel).value.scopes);
        }
      }
    }
  }
}
