/** Whole-pipeline examples: parsing then evaluating an expression, running
    small programs against the scope stack, and scanning short inputs. */
module Examples {
  import opened Ast
  import opened Results
  import opened Tokens
  import Parser
  import Eval
  import Env
  import Statement
  import Scanner

  /** 3 + 5 * 4 parses with * grouped first and evaluates to 23. */
  lemma ParseThenEvaluate(sc: seq<Env.Scope>, P: Eval.Prims, fuel: nat)
    ensures Parser.ParseBp([Parser.NumTok(3.0), Parser.OpTok(Op.Plus), Parser.NumTok(5.0), Parser.OpTok(Multiply), Parser.NumTok(4.0)], 0)
            == Ok(Parser.Parsed(Cons(Op.Plus, [S.Atom(Num(3.0)), Cons(Multiply, [S.Atom(Num(5.0)), S.Atom(Num(4.0))])]), []))
    ensures Eval.Eval(Cons(Op.Plus, [S.Atom(Num(3.0)), Cons(Multiply, [S.Atom(Num(5.0)), S.Atom(Num(4.0))])]), sc, P, fuel)
            == Ok(Eval.Evaluated(Num(23.0), sc))
  {
    Parser.Precedence(3.0, Op.Plus, 5.0, Multiply, 4.0);
    var prod := Cons(Multiply, [S.Atom(Num(5.0)), S.Atom(Num(4.0))]);
    var operands := [S.Atom(Num(5.0)), S.Atom(Num(4.0))];
    Eval.EvalLiteral(Num(5.0), sc, P, fuel);
    Eval.EvalLiteral(Num(4.0), sc, P, fuel);
    Eval.EvalLiteral(Num(3.0), sc, P, fuel);
    Eval.EvalArithmetic(operands, 5.0, 4.0, sc, sc, sc, P, fuel);
    assert 5.0 * 4.0 == 20.0;
    Eval.EvalArithmetic([S.Atom(Num(3.0)), prod], 3.0, 20.0, sc, sc, sc, P, fuel);
  }

  /** The else-branch runs for a false condition; the block's result is the
      value of its last statement, and its scope is gone afterwards. */
  lemma IfElseProgram(I: Statement.Interp, fuel: nat)
    ensures var prog := Statement.IfStmt(Statement.If(S.Atom(Bool(false)),
                          Statement.Block([Statement.ExprStmt(S.Atom(Atom.Str("hello")))]),
                          Statement.Block([Statement.ExprStmt(S.Atom(Atom.Str("goodbye")))])));
            Statement.Exec(prog, [map[]], I, fuel) == Ok(Statement.Outcome(Some(Atom.Str("goodbye")), [map[]]))
  {
    var cond := S.Atom(Bool(false));
    var thenB := Statement.Block([Statement.ExprStmt(S.Atom(Atom.Str("hello")))]);
    var elseB := Statement.Block([Statement.ExprStmt(S.Atom(Atom.Str("goodbye")))]);
    var prog := Statement.IfStmt(Statement.If(cond, thenB, elseB));
    var inner: seq<Env.Scope> := [map[], map[]];
    Eval.EvalLiteral(Bool(false), [map[]], I.prims, I.evalFuel);
    Eval.EvalLiteral(Atom.Str("goodbye"), inner, I.prims, I.evalFuel);
    assert [map[]] + [map[]] == inner;
    var said := Statement.Outcome(Some(Atom.Str("goodbye")), inner);
    assert Statement.Exec(elseB.stmts[0], inner, I, fuel) == Ok(said);
    assert Statement.ExecStmts(elseB.stmts, inner, None, I, fuel) == Ok(said);
    assert Statement.Pop(inner) == [map[]];
    assert Statement.ExecBlock(elseB, [map[]], I, fuel) == Ok(Statement.Outcome(Some(Atom.Str("goodbye")), [map[]]));
  }

  /** Assigning an outer variable inside a block changes it for good; a
      variable declared inside the block is gone once it ends. */
  lemma BlockScoping(I: Statement.Interp, fuel: nat)
    ensures var prog := Statement.Block([
              Statement.Dec(Statement.Declaration("x", S.Atom(Num(2.0)), false)),
              Statement.Dec(Statement.Declaration("y", S.Atom(Num(7.0)), true))]);
            Statement.ExecBlock(prog, [map["x" := Num(1.0)]], I, fuel)
              == Ok(Statement.Outcome(None, [map["x" := Num(2.0)]]))
  {
    var decX := Statement.Dec(Statement.Declaration("x", S.Atom(Num(2.0)), false));
    var decY := Statement.Dec(Statement.Declaration("y", S.Atom(Num(7.0)), true));
    var outer: seq<Env.Scope> := [map["x" := Num(1.0)]];
    var inner: seq<Env.Scope> := outer + [map[]];
    Eval.EvalLiteral(Num(2.0), inner, I.prims, I.evalFuel);
    assert Env.InnermostAt(inner, "x", 0);
    assert Env.OutermostAt(inner, "x", 0);
    assert Env.Lookup(inner, "x") == Some(Num(1.0));
    var afterX: seq<Env.Scope> := [map["x" := Num(2.0)], map[]];
    assert inner[0]["x" := Num(2.0)] == map["x" := Num(2.0)];
    assert inner[0 := inner[0]["x" := Num(2.0)]] == afterX;
    assert Env.Modified(inner, "x", Num(2.0)) == afterX;
    assert Statement.Exec(decX, inner, I, fuel) == Ok(Statement.Outcome(None, afterX));
    assert Env.Unbound(afterX, "y");
    Eval.EvalLiteral(Num(7.0), afterX, I.prims, I.evalFuel);
    var afterY: seq<Env.Scope> := [map["x" := Num(2.0)], map["y" := Num(7.0)]];
    assert Statement.InsertLast(afterX, "y", Num(7.0)) == afterY;
    assert Statement.Exec(decY, afterX, I, fuel) == Ok(Statement.Outcome(None, afterY));
    assert Statement.ExecStmts([decY], afterX, None, I, fuel) == Ok(Statement.Outcome(None, afterY));
    assert Statement.ExecStmts([decX, decY], inner, None, I, fuel) == Ok(Statement.Outcome(None, afterY));
    assert Statement.Pop(afterY) == [map["x" := Num(2.0)]];
  }

  /** Declaring an unbound name without the alias flag fails. */
  lemma UninitializedProgram(I: Statement.Interp, fuel: nat)
    ensures Statement.Exec(Statement.Dec(Statement.Declaration("z", S.Atom(Num(1.0)), false)), [map[]], I, fuel)
            == Err(Statement.Uninitialized("z"))
  {
    assert Env.Unbound([map[]], "z");
  }

  /** "\r\n" is two line breaks. */
  lemma CarriageReturnLineFeed(parseNum: string -> Option<real>)
    ensures Scanner.Scan("\r\n", 0, 1, parseNum) == [FromTy(NewLine), FromTy(NewLine)]
    ensures Scanner.FinalLine("\r\n", 0, 1, parseNum) == 3
  {
    var s := "\r\n";
    Scanner.ScanUnfold(s, 0, 1, parseNum, Scanner.Step(FromTy(NewLine), 1, 2));
    Scanner.ScanUnfold(s, 1, 2, parseNum, Scanner.Step(FromTy(NewLine), 2, 3));
  }

  /** Identifiers are maximal: "iffy" is one Identifier, not the keyword if. */
  lemma MaximalMunch(parseNum: string -> Option<real>)
    ensures Scanner.Scan("iffy", 0, 1, parseNum) == [Token(TokenType.Identifier, "iffy", NoLiteral, 1)]
  {
    var s := "iffy";
    var tok := Token(TokenType.Identifier, "iffy", NoLiteral, 1);
    IffyIsIdentifier();
    assert Scanner.StepAt(s, 0, 1, parseNum) == Some(Scanner.IdentifierStep(s, 0, 1));
    Scanner.ScanUnfold(s, 0, 1, parseNum, Scanner.Step(tok, 4, 1));
    assert Scanner.Scan(s, 4, 1, parseNum) == [];
  }

  lemma IffyIsIdentifier()
    ensures Scanner.IdentifierStep("iffy", 0, 1) == Scanner.Step(Token(TokenType.Identifier, "iffy", NoLiteral, 1), 4, 1)
  {
    var s := "iffy";
    assert Scanner.TakeWhileEnd(s, 1, Scanner.IsIdentChar) == 4;
    assert s[0..4] == "iffy";
    assert "iffy" !in Scanner.Keywords;
  }
}
