/**
 * The recursive-descent parser. It keeps one lookahead token, the set of
 * declared names, the label counter and the IR vector, and appends to
 * the IR as it recognises each construct.
 *
 * A syntax error ends the parse at once: every procedure returns an
 * Outcome, and a caller that receives Fail returns it unchanged. The
 * diagnostic carries the scanner's line number at that moment.
 *
 * Each procedure hands back, as a ghost result, the tree of what it
 * recognised, and is proved to have moved past exactly that tree's tokens
 * and to have appended exactly that tree's IR. The lookahead is always
 * the next token of the scanner's token stream, so the tokens moved past
 * are a prefix of what the scanner makes of the text.
 */
module Parsing {
  import opened Decimal
  import opened Lexicon
  import opened LexSpec
  import opened Ir
  import opened Syntax
  import opened Scanning

  datatype Message =
    | Expected(expected: string, found: Token)
    | UndefinedVariable(name: string)
    | FactorExpected
    | StatementExpected
    | IdentifierExpected
    | Redefinition(name: string)

  /** The token kinds factor accepts a factor at. */
  predicate FactorStart(kind: string) {
    kind == "identifier" || kind == "numConstant" || kind == "lParen"
  }

  /** The token kinds stmt accepts a statement at. */
  predicate StatementStart(kind: string) {
    kind == "identifier" || kind == "ifSym" || kind == "whileSym" || kind == "endSym"
  }

  datatype Diagnostic = Diagnostic(line: int, message: Message)

  datatype Outcome = Pass | Fail(diag: Diagnostic)

  lemma BinTokens(op: BinOp, l: Expr, r: Expr, taken0: seq<Token>)
    ensures taken0 + ExprTokens(l) + [Token(OpKind(op), NoVal)] + ExprTokens(r) == taken0 + ExprTokens(Bin(op, l, r))
  {
  }

  lemma BinCode(op: BinOp, l: Expr, r: Expr, ir0: seq<Instr>)
    ensures ir0 + CompileExpr(l) + CompileExpr(r) + [Instr(OpMap[OpKind(op)], "")] == ir0 + CompileExpr(Bin(op, l, r))
  {
  }

  /**
   * Between two states of the parser, it moved past exactly e's tokens and
   * emitted exactly e's code, and every name e reads is in the table.
   */
  ghost predicate ExprFits(e: Expr, taken0: seq<Token>, taken1: seq<Token>, ir0: seq<Instr>, ir1: seq<Instr>,
                           table: set<string>) {
    && Vars(e) <= table
    && taken1 == taken0 + ExprTokens(e)
    && ir1 == ir0 + CompileExpr(e)
  }

  /**
   * The bookkeeping of one round of the operator loops in term and
   * expression: from taken0 and ir0, the loop had moved past l's tokens to
   * taken1 and emitted l's code up to ir1; moving past the operator and r,
   * and emitting r's code and the operator's instruction, moves past and
   * emits exactly the left-grouped binary expression's.
   */
  lemma BinParsed(kind: string, l: Expr, r: Expr,
                  taken0: seq<Token>, taken1: seq<Token>, takenOp: seq<Token>, taken2: seq<Token>,
                  ir0: seq<Instr>, ir1: seq<Instr>, irR: seq<Instr>, ir2: seq<Instr>,
                  opToken: Token, table: set<string>)
    requires kind in OpMap && opToken.kind == kind && WellFormed(opToken)
    requires ExprFits(l, taken0, taken1, ir0, ir1, table)
    requires takenOp == taken1 + [opToken] && ExprFits(r, takenOp, taken2, ir1, irR, table)
    requires ir2 == irR + [Instr(OpMap[kind], "")]
    ensures ExprFits(Bin(OpOfKind(kind), l, r), taken0, taken2, ir0, ir2, table)
    ensures (kind == "timesSym" || kind == "divSym") && IsTerm(l) && IsFactor(r) ==> IsTerm(Bin(OpOfKind(kind), l, r))
    ensures (kind == "plusSym" || kind == "minusSym") && IsExpr(l) && IsTerm(r) ==> IsExpr(Bin(OpOfKind(kind), l, r))
  {
    var op := OpOfKind(kind);
    assert opToken == Token(OpKind(op), NoVal);
    BinTokens(op, l, r, taken0);
    BinCode(op, l, r, ir0);
  }

  /** The bookkeeping of factor's parenthesised case. */
  lemma ParenParsed(inner: Expr, taken0: seq<Token>, open: Token, close: Token)
    requires open.kind == "lParen" && close.kind == "rParen" && WellFormed(open) && WellFormed(close)
    ensures taken0 + [open] + ExprTokens(inner) + [close] == taken0 + ExprTokens(Paren(inner))
  {
  }

  /** The tokens cond moves past, in the order it meets them, are an if statement's. */
  lemma CondTokens(g: Expr, k: nat, b: Stmt, ifToken: Token, taken0: seq<Token>)
    requires ifToken.kind == "ifSym" && WellFormed(ifToken)
    ensures taken0 + [ifToken] + ExprTokens(Paren(g)) + StmtTokens(b) == taken0 + StmtTokens(If(g, k, b))
  {
    assert ifToken == Token("ifSym", NoVal);
    Assoc(taken0, [ifToken] + ExprTokens(Paren(g)), StmtTokens(b));
    Assoc(taken0, [ifToken], ExprTokens(Paren(g)));
  }

  /** The code cond emits, in the order it emits it, is an if statement's. */
  lemma CondCode(g: Expr, k: nat, b: Stmt, ir0: seq<Instr>)
    ensures ir0 + CompileExpr(Paren(g)) + [Instr("BZ", LabelName(k))] + CompileStmt(b) + [Instr("LABEL", LabelName(k))]
         == ir0 + CompileStmt(If(g, k, b))
  {
    var guard, jump, body, mark := CompileExpr(Paren(g)), [Instr("BZ", LabelName(k))], CompileStmt(b), [Instr("LABEL", LabelName(k))];
    assert guard == CompileExpr(g);
    Assoc(ir0, guard + jump + body, mark);
    Assoc(ir0, guard + jump, body);
    Assoc(ir0, guard, jump);
  }

  /**
   * The bookkeeping of a guarded statement: from taken0 and ir0, the parser
   * moved past the parenthesised guard g to taken1 and emitted its code and
   * a BZ to skipLabel up to ir1; then the statement b fits from there on.
   */
  ghost predicate GuardFits(g: Expr, b: Stmt, skipLabel: string, taken0: seq<Token>, taken1: seq<Token>, taken2: seq<Token>,
                            ir0: seq<Instr>, ir1: seq<Instr>, ir2: seq<Instr>, label0: int, label2: int, table: set<string>) {
    && IsExpr(g) && Vars(g) <= table
    && taken1 == taken0 + ExprTokens(Paren(g))
    && ir1 == ir0 + CompileExpr(Paren(g)) + [Instr("BZ", skipLabel)]
    && StmtFits(b, taken1, taken2, ir1, ir2, label0, label2, table)
  }

  lemma CondFits(g: Expr, k: nat, b: Stmt, ifToken: Token, taken0: seq<Token>, takenIf: seq<Token>, taken1: seq<Token>,
                 taken2: seq<Token>, ir0: seq<Instr>, ir1: seq<Instr>, ir2: seq<Instr>, ir3: seq<Instr>,
                 label0: int, label2: int, table: set<string>)
    requires ifToken.kind == "ifSym" && WellFormed(ifToken)
    requires label0 >= -1 && k == label0 + 1
    requires takenIf == taken0 + [ifToken]
    requires GuardFits(g, b, LabelName(k), takenIf, taken1, taken2, ir0, ir1, ir2, k, label2, table)
    requires ir3 == ir2 + [Instr("LABEL", LabelName(k))]
    ensures StmtFits(If(g, k, b), taken0, taken2, ir0, ir3, label0, label2, table)
  {
    CondTokens(g, k, b, ifToken, taken0);
    CondCode(g, k, b, ir0);
  }

  /** The tokens loop moves past, in the order it meets them, are a while statement's. */
  lemma LoopTokens(g: Expr, top: nat, b: Stmt, whileToken: Token, taken0: seq<Token>)
    requires whileToken.kind == "whileSym" && WellFormed(whileToken)
    ensures taken0 + [whileToken] + ExprTokens(Paren(g)) + StmtTokens(b) == taken0 + StmtTokens(While(g, top, b))
  {
    assert whileToken == Token("whileSym", NoVal);
    Assoc(taken0, [whileToken] + ExprTokens(Paren(g)), StmtTokens(b));
    Assoc(taken0, [whileToken], ExprTokens(Paren(g)));
  }

  /** The code loop emits, in the order it emits it, is a while statement's. */
  lemma LoopCode(g: Expr, top: nat, b: Stmt, ir0: seq<Instr>)
    ensures ir0 + [Instr("LABEL", LabelName(top))] + CompileExpr(Paren(g)) + [Instr("BZ", LabelName(top + 1))] + CompileStmt(b)
          + [Instr("BR", LabelName(top))] + [Instr("LABEL", LabelName(top + 1))]
         == ir0 + CompileStmt(While(g, top, b))
  {
    var top', guard, jump := [Instr("LABEL", LabelName(top))], CompileExpr(Paren(g)), [Instr("BZ", LabelName(top + 1))];
    var body, back, exit := CompileStmt(b), [Instr("BR", LabelName(top))], [Instr("LABEL", LabelName(top + 1))];
    assert guard == CompileExpr(g);
    Assoc(ir0, top' + guard + jump + body + back, exit);
    Assoc(ir0, top' + guard + jump + body, back);
    Assoc(ir0, top' + guard + jump, body);
    Assoc(ir0, top' + guard, jump);
    Assoc(ir0, top', guard);
  }

  /** Loop's pieces, in the order the parser meets them, make up a while statement. */
  lemma LoopFits(g: Expr, top: nat, b: Stmt, whileToken: Token, taken0: seq<Token>, takenWhile: seq<Token>,
                 taken1: seq<Token>, taken2: seq<Token>, ir0: seq<Instr>, irTop: seq<Instr>, ir1: seq<Instr>, ir2: seq<Instr>, irBack: seq<Instr>, ir3: seq<Instr>, label0: int, label2: int,
                 table: set<string>)
    requires whileToken.kind == "whileSym" && WellFormed(whileToken)
    requires label0 >= -1 && top == label0 + 1
    requires takenWhile == taken0 + [whileToken] && irTop == ir0 + [Instr("LABEL", LabelName(top))]
    requires GuardFits(g, b, LabelName(top + 1), takenWhile, taken1, taken2, irTop, ir1, ir2, top + 1, label2, table)
    requires irBack == ir2 + [Instr("BR", LabelName(top))] && ir3 == irBack + [Instr("LABEL", LabelName(top + 1))]
    ensures StmtFits(While(g, top, b), taken0, taken2, ir0, ir3, label0, label2, table)
  {
    LoopTokens(g, top, b, whileToken, taken0);
    LoopCode(g, top, b, ir0);
  }

  /** The bookkeeping of assignment. */
  lemma AssignParsed(x: string, e: Expr, taken0: seq<Token>, ir0: seq<Instr>, target: Token, assign: Token)
    requires target == Token("identifier", StrVal(x)) && assign.kind == "assignSym" && WellFormed(assign)
    ensures taken0 + [target] + [assign] + ExprTokens(e) == taken0 + StmtTokens(Assign(x, e))
    ensures ir0 + CompileExpr(e) + [Instr("STORE", x)] == ir0 + CompileStmt(Assign(x, e))
  {
  }

  /**
   * From tokens taken0, code ir0 and label counter label0 to taken1, ir1 and
   * label1, the parser moved past s's tokens, emitted s's code and drew s's
   * labels in order; s reads only names in table.
   */
  ghost predicate StmtFits(s: Stmt, taken0: seq<Token>, taken1: seq<Token>, ir0: seq<Instr>, ir1: seq<Instr>,
                           label0: int, label1: int, table: set<string>)
  {
    && StmtShaped(s)
    && StmtReads(s) <= table
    && taken1 == taken0 + StmtTokens(s)
    && ir1 == ir0 + CompileStmt(s)
    && label0 >= -1 && Numbered(s, label0 + 1)
    && label1 == label0 + LabelCount(s)
  }

  /** The same for a statement list. */
  ghost predicate ItemsFit(items: seq<Item>, taken0: seq<Token>, taken1: seq<Token>, ir0: seq<Instr>, ir1: seq<Instr>,
                           label0: int, label1: int, table: set<string>)
  {
    && ItemsShaped(items)
    && ItemsReads(items) <= table
    && taken1 == taken0 + ItemsTokens(items)
    && ir1 == ir0 + CompileItems(items)
    && label0 >= -1 && NumberedItems(items, label0 + 1)
    && label1 == label0 + ItemsLabelCount(items)
  }

  lemma ItemsFitStatement(items: seq<Item>, s: Stmt, taken0: seq<Token>, taken1: seq<Token>, taken2: seq<Token>,
                          ir0: seq<Instr>, ir1: seq<Instr>, ir2: seq<Instr>, label0: int, label1: int, label2: int,
                          table: set<string>)
    requires ItemsFit(items, taken0, taken1, ir0, ir1, label0, label1, table)
    requires StmtFits(s, taken1, taken2, ir1, ir2, label1, label2, table)
    ensures ItemsFit(items + [Statement(s)], taken0, taken2, ir0, ir2, label0, label2, table)
  {
    var it := Statement(s);
    ItemsSnoc(items, it);
    ItemsSnocCounts(items, it, label0 + 1);
    ItemsShapedAppend(items, [it]);
  }

  lemma ItemsFitSemicolon(items: seq<Item>, taken0: seq<Token>, taken1: seq<Token>, ir0: seq<Instr>, ir1: seq<Instr>,
                          label0: int, label1: int, table: set<string>, semicolon: Token)
    requires ItemsFit(items, taken0, taken1, ir0, ir1, label0, label1, table)
    requires semicolon == Token("semicolon", NoVal)
    ensures ItemsFit(items + [Semicolon], taken0, taken1 + [semicolon], ir0, ir1, label0, label1, table)
  {
    ItemsSnoc(items, Semicolon);
    ItemsSnocCounts(items, Semicolon, label0 + 1);
    ItemsShapedAppend(items, [Semicolon]);
  }

  lemma ItemsFitJoin(a: seq<Item>, b: seq<Item>, taken0: seq<Token>, taken1: seq<Token>, taken2: seq<Token>,
                     ir0: seq<Instr>, ir1: seq<Instr>, ir2: seq<Instr>, label0: int, label1: int, label2: int,
                     table: set<string>)
    requires ItemsFit(a, taken0, taken1, ir0, ir1, label0, label1, table)
    requires ItemsFit(b, taken1, taken2, ir1, ir2, label1, label2, table)
    ensures ItemsFit(a + b, taken0, taken2, ir0, ir2, label0, label2, table)
  {
    ItemsAppend(a, b);
    ItemsAppendCounts(a, b, label0 + 1);
    ItemsShapedAppend(a, b);
    Chain(taken0, taken1, taken2, ItemsTokens(a), ItemsTokens(b));
    Chain(ir0, ir1, ir2, CompileItems(a), CompileItems(b));
  }

  /**
   * From tokens taken0 and symbol table table0 to taken1 and table1, the
   * parser moved past the names of group, none of which was declared
   * before or twice, and added them to the table.
   */
  ghost predicate NamesFit(group: seq<Decl>, taken0: seq<Token>, taken1: seq<Token>, table0: set<string>, table1: set<string>) {
    && taken1 == taken0 + MapConcat(DeclTokens, group)
    && Distinct(Names(group))
    && Elements(Names(group)) !! table0
    && table1 == table0 + Elements(Names(group))
  }

  /** The same for whole declaration groups, each of which names at least one variable. */
  ghost predicate DeclsFit(groups: seq<seq<Decl>>, taken0: seq<Token>, taken1: seq<Token>, table0: set<string>, table1: set<string>) {
    && (forall k :: 0 <= k < |groups| ==> groups[k] != [])
    && taken1 == taken0 + MapConcat(GroupTokens, groups)
    && Distinct(Declared(groups))
    && Elements(Declared(groups)) !! table0
    && table1 == table0 + Elements(Declared(groups))
  }

  lemma NamesFitGrow(group: seq<Decl>, d: Decl, taken0: seq<Token>, taken1: seq<Token>, table0: set<string>, table1: set<string>)
    requires NamesFit(group, taken0, taken1, table0, table1) && d.name !in table1
    ensures NamesFit(group + [d], taken0, taken1 + DeclTokens(d), table0, table1 + {d.name})
  {
    MapConcatSnoc(DeclTokens, group, d);
    MapConcatSnoc(DeclName, group, d);
    ElementsAppend(Names(group), [d.name]);
    DistinctAppend(Names(group), [d.name]);
  }

  lemma DeclsFitGroup(groups: seq<seq<Decl>>, group: seq<Decl>, taken0: seq<Token>, taken1: seq<Token>, taken2: seq<Token>,
                      table0: set<string>, table1: set<string>, table2: set<string>, varToken: Token, semicolon: Token)
    requires DeclsFit(groups, taken0, taken1, table0, table1)
    requires group != [] && NamesFit(group, taken1 + [varToken], taken2, table1, table2)
    requires varToken == Token("varSym", NoVal) && semicolon == Token("semicolon", NoVal)
    ensures DeclsFit(groups + [group], taken0, taken2 + [semicolon], table0, table2)
  {
    MapConcatSnoc(GroupTokens, groups, group);
    MapConcatSnoc(Names, groups, group);
    ElementsAppend(Declared(groups), Names(group));
    DistinctAppend(Declared(groups), Names(group));
    forall k | 0 <= k < |groups + [group]|
      ensures (groups + [group])[k] != []
    {
      if k < |groups| {
        assert (groups + [group])[k] == groups[k];
      }
    }
  }

  /**
   * From tokens taken0, code ir0, label counter label0 and symbol table
   * table0 to taken1, ir1, label1 and table1, the parser moved past the
   * tokens of p and emitted its code. The declarations name every variable
   * at most once, the statements read only declared names, and their
   * labels were drawn from the counter in order.
   */
  ghost predicate ProgramFits(p: Program, taken0: seq<Token>, taken1: seq<Token>, ir0: seq<Instr>, ir1: seq<Instr>,
                              label0: int, label1: int, table0: set<string>, table1: set<string>)
  {
    && taken1 == taken0 + ProgramTokens(p)
    && ir1 == ir0 + CompileProgram(p)
    && (forall k :: 0 <= k < |p.decls| ==> p.decls[k] != [])
    && Distinct(Declared(p.decls))
    && Elements(Declared(p.decls)) !! table0
    && table1 == table0 + Elements(Declared(p.decls))
    && ItemsShaped(p.body)
    && ItemsReads(p.body) <= table1
    && label0 >= -1 && NumberedItems(p.body, label0 + 1)
    && label1 == label0 + ItemsLabelCount(p.body)
  }

  lemma ProgramFitsOf(p: Program, taken0: seq<Token>, taken1: seq<Token>, taken2: seq<Token>, ir0: seq<Instr>, ir1: seq<Instr>,
                      label0: int, label1: int, table0: set<string>, table1: set<string>, begin: Token, end: Token)
    requires begin == Token("beginSym", NoVal) && end == Token("endSym", NoVal)
    requires DeclsFit(p.decls, taken0 + [begin], taken1, table0, table1)
    requires ItemsFit(p.body, taken1, taken2, ir0, ir1, label0, label1, table1)
    ensures ProgramFits(p, taken0, taken2 + [end], ir0, ir1, label0, label1, table0, table1)
  {
  }

  class Parser {
    const sc: Scanner
    var lookahead: Token
    var symbolTable: set<string>
    var lastLabel: int
    var ir: seq<Instr>
    /**
     * The tokens the parser has moved past, where the scanner stood when it
     * began, and where it stood before and after each token it returned.
     */
    ghost var taken: seq<Token>
    ghost const origin: nat
    ghost var cuts: seq<nat>

    ghost predicate Valid()
      reads this`lookahead, this`taken, this`cuts, this`lastLabel, sc
    {
      && sc.Valid()
      && Steps(sc.source, cuts, taken + [lookahead])
      && cuts[0] == origin && cuts[|cuts| - 1] == sc.position
      && WellFormed(lookahead)
      && lastLabel >= -1
    }

    /**
     * Shrinks with every token that consumes text. The end-of-input token
     * and the unknown token consume nothing, so they weigh less than the
     * text they stand in front of.
     */
    ghost function Measure(): nat
      reads this`lookahead, this`taken, this`cuts, this`lastLabel, sc
      requires Valid()
    {
      2 * (|sc.source| - sc.position) + (if Consuming(lookahead) then 1 else 0)
    }

    constructor (scanner: Scanner)
      requires scanner.Valid()
      modifies scanner
      ensures Valid()
      ensures sc == scanner && origin == old(scanner.position)
      ensures taken == [] && ir == [] && symbolTable == {} && lastLabel == -1
    {
      sc := scanner;
      origin := scanner.position;
      symbolTable := {};
      lastLabel := -1;
      ir := [];
      taken := [];
      var first := scanner.NextToken();
      lookahead := first;
      cuts := [old(scanner.position), scanner.position];
      assert [] + [first] == [first];
      assert Next(scanner.source, old(scanner.position)) == Scanned(first, scanner.position);
    }

    /** Moves past the lookahead and fetches the next token. */
    method Scan()
      requires Valid()
      modifies this`lookahead, this`taken, this`cuts, sc
      ensures Valid()
      ensures taken == old(taken) + [old(lookahead)]
      ensures Measure() <= old(Measure())
      ensures Consuming(old(lookahead)) ==> Measure() < old(Measure())
    {
      ghost var ts := taken + [lookahead];
      taken := ts;
      lookahead := sc.NextToken();
      StepsSnoc(sc.source, cuts, ts, lookahead, sc.position);
      cuts := cuts + [sc.position];
    }

    /** Moves past a lookahead of kind t (staying on it when t is "endSym"); fails on any other. */
    method Expect(t: string) returns (r: Outcome)
      requires Valid()
      modifies this`lookahead, this`taken, this`cuts, sc
      ensures Valid() && Measure() <= old(Measure())
      ensures r.Pass? <==> old(lookahead).kind == t
      ensures r.Pass? && t != "endSym" ==> taken == old(taken) + [old(lookahead)]
      ensures r.Pass? && t != "endSym" && Consuming(old(lookahead)) ==> Measure() < old(Measure())
      ensures r.Pass? && t == "endSym" ==> taken == old(taken) && lookahead == old(lookahead)
      ensures r.Fail? ==> r.diag == Diagnostic(sc.lineNumber, Expected(t, lookahead))
      ensures r.Fail? ==> taken == old(taken) && lookahead == old(lookahead)
    {
      if lookahead.kind == t {
        if t != "endSym" {
          Scan();
        }
        r := Pass;
      } else {
        var line := sc.GetLineNumber();
        r := Fail(Diagnostic(line, Expected(t, lookahead)));
      }
    }

    /** Draws the next label from the counter. */
    method NewLabel() returns (name: string)
      requires Valid()
      modifies this`lastLabel
      ensures Valid()
      ensures lastLabel == old(lastLabel) + 1 && name == LabelName(lastLabel)
    {
      lastLabel := lastLabel + 1;
      name := LabelName(lastLabel);
    }

    /** Appends one entry to the IR; the entries already there stay as they are. */
    method Emit(tag: string, item: string)
      modifies this`ir
      ensures ir == old(ir) + [Instr(tag, item)]
    {
      ir := ir + [Instr(tag, item)];
    }

    /** Moves past an identifier and returns its name; fails on any other token. */
    method Identifier() returns (r: Outcome, id: string)
      requires Valid()
      modifies this`lookahead, this`taken, this`cuts, sc
      ensures Valid() && Measure() <= old(Measure())
      ensures r.Pass? <==> old(lookahead).kind == "identifier"
      ensures r.Pass? ==> old(lookahead) == Token("identifier", StrVal(id))
      ensures r.Pass? ==> taken == old(taken) + [old(lookahead)] && Measure() < old(Measure())
      ensures r.Fail? ==> r.diag == Diagnostic(sc.lineNumber, IdentifierExpected)
    {
      if lookahead.kind == "identifier" {
        id := lookahead.value.s;
        Scan();
        r := Pass;
      } else {
        var line := sc.GetLineNumber();
        r := Fail(Diagnostic(line, IdentifierExpected));
        id := "";
      }
    }

    /** Since taken0 and ir0, the parser moved past e's tokens and emitted e's code, and e reads only declared names. */
    ghost predicate ExprParsed(e: Expr, taken0: seq<Token>, ir0: seq<Instr>)
      reads this
    {
      ExprFits(e, taken0, taken, ir0, ir, symbolTable)
    }

    method Factor() returns (r: Outcome, ghost e: Expr)
      requires Valid()
      modifies this`lookahead, this`taken, this`cuts, this`ir, sc
      decreases Measure(), 1
      ensures Valid() && Measure() <= old(Measure())
      ensures r.Pass? ==> IsFactor(e) && ExprParsed(e, old(taken), old(ir)) && Measure() < old(Measure())
      ensures r.Fail? ==> r.diag.line == sc.lineNumber
      ensures old(lookahead).kind == "identifier" ==>
        if old(lookahead).value.s in symbolTable then r.Pass?
        else r == Fail(Diagnostic(sc.lineNumber, UndefinedVariable(old(lookahead).value.s)))
      ensures old(lookahead).kind == "numConstant" ==> r.Pass?
      ensures !FactorStart(old(lookahead).kind) ==> r == Fail(Diagnostic(sc.lineNumber, FactorExpected))
    {
      if lookahead.kind == "identifier" {
        var id := lookahead.value.s;
        if id !in symbolTable {
          var line := sc.GetLineNumber();
          return Fail(Diagnostic(line, UndefinedVariable(id))), Var(id);
        }
        Emit("EVAL", id);
        Scan();
        e := Var(id);
        r := Pass;
      } else if lookahead.kind == "numConstant" {
        var n: nat := lookahead.value.i;
        Emit("PUSH", IntToString(n));
        Scan();
        e := Num(n);
        r := Pass;
      } else if lookahead.kind == "lParen" {
        r, e := Parenthesised();
      } else {
        var line := sc.GetLineNumber();
        r := Fail(Diagnostic(line, FactorExpected));
        e := Var("");
      }
    }

    /** A parenthesised expression: the lParen, an expression, the rParen. */
    method Parenthesised() returns (r: Outcome, ghost e: Expr)
      requires Valid() && lookahead.kind == "lParen"
      modifies this`lookahead, this`taken, this`cuts, this`ir, sc
      decreases Measure(), 0
      ensures Valid() && Measure() < old(Measure())
      ensures r.Pass? ==> IsFactor(e) && ExprParsed(e, old(taken), old(ir))
      ensures r.Fail? ==> r.diag.line == sc.lineNumber
    {
      ghost var open := lookahead;
      Scan();
      ghost var inner;
      r, inner := Expression();
      if r.Fail? {
        return r, inner;
      }
      ghost var close := lookahead;
      r := Expect("rParen");
      if r.Fail? {
        return r, inner;
      }
      ParenParsed(inner, old(taken), open, close);
      e := Paren(inner);
    }

    method Term() returns (r: Outcome, ghost e: Expr)
      requires Valid()
      modifies this`lookahead, this`taken, this`cuts, this`ir, sc
      decreases Measure(), 2
      ensures Valid() && Measure() <= old(Measure())
      ensures r.Pass? ==> IsTerm(e) && ExprParsed(e, old(taken), old(ir)) && Measure() < old(Measure())
      ensures r.Pass? ==> lookahead.kind != "timesSym" && lookahead.kind != "divSym"
      ensures r.Fail? ==> r.diag.line == sc.lineNumber
    {
      r, e := Factor();
      if r.Fail? {
        return;
      }
      while lookahead.kind == "timesSym" || lookahead.kind == "divSym"
        invariant Valid() && Measure() < old(Measure())
        invariant r.Pass? && IsTerm(e) && ExprParsed(e, old(taken), old(ir))
        decreases Measure()
      {
        var op := lookahead.kind;
        ghost var opToken, taken1, ir1 := lookahead, taken, ir;
        Scan();
        ghost var takenOp := taken;
        ghost var right;
        r, right := Factor();
        if r.Fail? {
          return;
        }
        ghost var irR := ir;
        Emit(OpMap[op], "");
        BinParsed(op, e, right, old(taken), taken1, takenOp, taken, old(ir), ir1, irR, ir, opToken, symbolTable);
        e := Bin(OpOfKind(op), e, right);
      }
    }

    method Expression() returns (r: Outcome, ghost e: Expr)
      requires Valid()
      modifies this`lookahead, this`taken, this`cuts, this`ir, sc
      decreases Measure(), 3
      ensures Valid() && Measure() <= old(Measure())
      ensures r.Pass? ==> IsExpr(e) && ExprParsed(e, old(taken), old(ir)) && Measure() < old(Measure())
      ensures r.Pass? ==> lookahead.kind != "plusSym" && lookahead.kind != "minusSym"
      ensures r.Fail? ==> r.diag.line == sc.lineNumber
    {
      r, e := Term();
      if r.Fail? {
        return;
      }
      while lookahead.kind == "plusSym" || lookahead.kind == "minusSym"
        invariant Valid() && Measure() < old(Measure())
        invariant r.Pass? && IsExpr(e) && ExprParsed(e, old(taken), old(ir))
        decreases Measure()
      {
        var op := lookahead.kind;
        ghost var opToken, taken1, ir1 := lookahead, taken, ir;
        Scan();
        ghost var takenOp := taken;
        ghost var right;
        r, right := Term();
        if r.Fail? {
          return;
        }
        ghost var irR := ir;
        Emit(OpMap[op], "");
        BinParsed(op, e, right, old(taken), taken1, takenOp, taken, old(ir), ir1, irR, ir, opToken, symbolTable);
        e := Bin(OpOfKind(op), e, right);
      }
    }

    /** StmtFits, from taken0, ir0 and label0 to the parser's present state. */
    ghost predicate StmtParsed(s: Stmt, taken0: seq<Token>, ir0: seq<Instr>, label0: int)
      reads this
    {
      StmtFits(s, taken0, taken, ir0, ir, label0, lastLabel, symbolTable)
    }

    ghost predicate ItemsParsed(items: seq<Item>, taken0: seq<Token>, ir0: seq<Instr>, label0: int)
      reads this
    {
      ItemsFit(items, taken0, taken, ir0, ir, label0, lastLabel, symbolTable)
    }

    /** An identifier, `=`, and an expression; emits the expression's code and then STORE. */
    method Assignment() returns (r: Outcome, ghost s: Stmt)
      requires Valid()
      modifies this`lookahead, this`taken, this`cuts, this`ir, sc
      ensures Valid() && Measure() <= old(Measure())
      ensures r.Pass? ==> s.Assign? && StmtParsed(s, old(taken), old(ir), old(lastLabel)) && Measure() < old(Measure())
      ensures old(lookahead).kind != "identifier" ==> r == Fail(Diagnostic(sc.lineNumber, IdentifierExpected))
      ensures r.Fail? ==> r.diag.line == sc.lineNumber
    {
      ghost var target := lookahead;
      var id;
      r, id := Identifier();
      if r.Fail? {
        return r, Empty;
      }
      ghost var assign := lookahead;
      r := Expect("assignSym");
      if r.Fail? {
        return r, Empty;
      }
      ghost var rhs;
      r, rhs := Expression();
      if r.Fail? {
        return r, Empty;
      }
      Emit("STORE", id);
      AssignParsed(id, rhs, old(taken), old(ir), target, assign);
      s := Assign(id, rhs);
    }

    /**
     * The parenthesised guard of cond and loop, `(`, an expression, `)`,
     * followed by the BZ to skipLabel that both emit after it.
     */
    method Guard(skipLabel: string) returns (r: Outcome, ghost g: Expr)
      requires Valid()
      modifies this`lookahead, this`taken, this`cuts, this`ir, sc
      ensures Valid() && Measure() <= old(Measure())
      ensures r.Pass? ==> IsExpr(g) && Vars(g) <= symbolTable && Measure() < old(Measure())
      ensures r.Pass? ==> taken == old(taken) + ExprTokens(Paren(g))
      ensures r.Pass? ==> ir == old(ir) + CompileExpr(Paren(g)) + [Instr("BZ", skipLabel)]
      ensures r.Fail? ==> r.diag.line == sc.lineNumber
    {
      ghost var open := lookahead;
      r := Expect("lParen");
      if r.Fail? {
        return r, Var("");
      }
      r, g := Expression();
      if r.Fail? {
        return;
      }
      ghost var close := lookahead;
      r := Expect("rParen");
      if r.Fail? {
        return;
      }
      ParenParsed(g, old(taken), open, close);
      Emit("BZ", skipLabel);
    }

    /**
     * What cond and loop share: the guard, its BZ to skipLabel, and the
     * statement it guards.
     */
    method GuardedStmt(skipLabel: string) returns (r: Outcome, ghost g: Expr, ghost b: Stmt,
                                                   ghost taken1: seq<Token>, ghost ir1: seq<Instr>)
      requires Valid()
      modifies this`lookahead, this`taken, this`cuts, this`ir, this`lastLabel, sc
      decreases Measure(), 0
      ensures Valid() && Measure() <= old(Measure())
      ensures r.Pass? ==> GuardFits(g, b, skipLabel, old(taken), taken1, taken, old(ir), ir1, ir,
                                    old(lastLabel), lastLabel, symbolTable)
      ensures r.Fail? ==> r.diag.line == sc.lineNumber
    {
      r, g := Guard(skipLabel);
      if r.Fail? {
        return r, g, Empty, taken, ir;
      }
      taken1, ir1 := taken, ir;
      r, b := Stmt();
    }

    /** `if ( expression ) statement`: BZ to a fresh label past the body. */
    method Cond() returns (r: Outcome, ghost s: Stmt)
      requires Valid() && lookahead.kind == "ifSym"
      modifies this`lookahead, this`taken, this`cuts, this`ir, this`lastLabel, sc
      decreases Measure(), 0
      ensures Valid() && Measure() < old(Measure())
      ensures r.Pass? ==> s.If? && StmtParsed(s, old(taken), old(ir), old(lastLabel))
      ensures r.Fail? ==> r.diag.line == sc.lineNumber
    {
      var skipLabel := NewLabel();
      ghost var k: nat := lastLabel;
      ghost var ifToken := lookahead;
      Scan();
      ghost var takenIf := taken;
      ghost var guard, body, taken1, ir1;
      r, guard, body, taken1, ir1 := GuardedStmt(skipLabel);
      if r.Fail? {
        return r, Empty;
      }
      ghost var ir2 := ir;
      Emit("LABEL", skipLabel);
      CondFits(guard, k, body, ifToken, old(taken), takenIf, taken1, taken, old(ir), ir1, ir2, ir,
               old(lastLabel), lastLabel, symbolTable);
      s := If(guard, k, body);
    }

    /** `while ( expression ) statement`: a repeat label before the guard, an exit label after the body. */
    method Loop() returns (r: Outcome, ghost s: Stmt)
      requires Valid() && lookahead.kind == "whileSym"
      modifies this`lookahead, this`taken, this`cuts, this`ir, this`lastLabel, sc
      decreases Measure(), 0
      ensures Valid() && Measure() < old(Measure())
      ensures r.Pass? ==> s.While? && StmtParsed(s, old(taken), old(ir), old(lastLabel))
      ensures r.Fail? ==> r.diag.line == sc.lineNumber
    {
      var repeatLabel := NewLabel();
      ghost var top: nat := lastLabel;
      var skipLabel := NewLabel();
      assert skipLabel == LabelName(top + 1) && lastLabel == top + 1;
      ghost var whileToken := lookahead;
      Scan();
      ghost var takenWhile := taken;
      Emit("LABEL", repeatLabel);
      ghost var irTop := ir;
      assert taken == takenWhile && lastLabel == top + 1;
      ghost var guard, body, taken1, ir1;
      r, guard, body, taken1, ir1 := GuardedStmt(skipLabel);
      if r.Fail? {
        return r, Empty;
      }
      ghost var ir2 := ir;
      Emit("BR", repeatLabel);
      ghost var irBack := ir;
      Emit("LABEL", skipLabel);
      LoopFits(guard, top, body, whileToken, old(taken), takenWhile, taken1, taken, old(ir), irTop, ir1, ir2, irBack, ir,
               old(lastLabel), lastLabel, symbolTable);
      s := While(guard, top, body);
    }

    /** One statement, chosen by the lookahead; at `end.` it accepts nothing. */
    method Stmt() returns (r: Outcome, ghost s: Stmt)
      requires Valid()
      modifies this`lookahead, this`taken, this`cuts, this`ir, this`lastLabel, sc
      decreases Measure(), 1
      ensures Valid() && Measure() <= old(Measure())
      ensures r.Pass? ==> StmtParsed(s, old(taken), old(ir), old(lastLabel))
      ensures r.Pass? && old(lookahead).kind != "endSym" ==> Measure() < old(Measure())
      ensures old(lookahead).kind == "endSym" ==> r.Pass? && s == Empty
      ensures !StatementStart(old(lookahead).kind) ==> r == Fail(Diagnostic(sc.lineNumber, StatementExpected))
      ensures r.Fail? ==> r.diag.line == sc.lineNumber
    {
      if lookahead.kind == "identifier" {
        r, s := Assignment();
      } else if lookahead.kind == "ifSym" {
        r, s := Cond();
      } else if lookahead.kind == "whileSym" {
        r, s := Loop();
      } else if lookahead.kind == "endSym" {
        r, s := Pass, Empty;
      } else {
        var line := sc.GetLineNumber();
        r, s := Fail(Diagnostic(line, StatementExpected)), Empty;
      }
    }

    /** Statements separated by semicolons; a semicolon directly before `end.` ends the list. */
    method Stmts() returns (r: Outcome, ghost items: seq<Item>)
      requires Valid()
      modifies this`lookahead, this`taken, this`cuts, this`ir, this`lastLabel, sc
      ensures Valid() && Measure() <= old(Measure())
      ensures r.Pass? ==> ItemsParsed(items, old(taken), old(ir), old(lastLabel)) && lookahead.kind != "semicolon"
      ensures r.Pass? && old(lookahead).kind != "endSym" ==> Measure() < old(Measure())
      ensures r.Fail? ==> r.diag.line == sc.lineNumber
    {
      ghost var s;
      r, s := Stmt();
      if r.Fail? {
        return r, [];
      }
      ItemsFitStatement([], s, old(taken), old(taken), taken, old(ir), old(ir), ir,
                        old(lastLabel), old(lastLabel), lastLabel, symbolTable);
      items := [Statement(s)];
      while lookahead.kind == "semicolon"
        invariant Valid() && Measure() <= old(Measure())
        invariant old(lookahead).kind != "endSym" ==> Measure() < old(Measure())
        invariant r.Pass? && ItemsParsed(items, old(taken), old(ir), old(lastLabel))
        decreases Measure()
      {
        ghost var semicolon, taken0 := lookahead, taken;
        r := Expect("semicolon");
        ItemsFitSemicolon(items, old(taken), taken0, old(ir), ir, old(lastLabel), lastLabel, symbolTable, semicolon);
        items := items + [Semicolon];
        if lookahead.kind != "endSym" {
          ghost var taken1, ir1, label1 := taken, ir, lastLabel;
          r, s := Stmt();
          if r.Fail? {
            return;
          }
          ItemsFitStatement(items, s, old(taken), taken1, taken, old(ir), ir1, ir, old(lastLabel), label1, lastLabel, symbolTable);
          items := items + [Statement(s)];
        }
      }
    }

    /** One name of a declaration group that is not yet declared, and its optional comma. */
    method Declarand() returns (r: Outcome, name: string, comma: bool)
      requires Valid()
      modifies this`lookahead, this`taken, this`cuts, sc
      ensures Valid() && Measure() <= old(Measure())
      ensures r.Pass? ==> name !in symbolTable && Measure() < old(Measure())
      ensures r.Pass? ==> old(lookahead) == Token("identifier", StrVal(name))
      ensures r.Pass? ==> taken == old(taken) + DeclTokens(Decl(name, comma))
      ensures r.Fail? ==> r.diag.line == sc.lineNumber
      ensures r.Fail? && r.diag.message.Redefinition? ==> r.diag.message.name in symbolTable
      ensures old(lookahead).kind == "identifier" && old(lookahead).value.StrVal? && old(lookahead).value.s in symbolTable ==>
        r == Fail(Diagnostic(sc.lineNumber, Redefinition(old(lookahead).value.s)))
    {
      r, name := Identifier();
      comma := false;
      if r.Fail? {
        return;
      }
      if name in symbolTable {
        var line := sc.GetLineNumber();
        return Fail(Diagnostic(line, Redefinition(name))), name, comma;
      }
      comma := lookahead.kind == "comma";
      if comma {
        r := Expect("comma");
      }
    }

    /** The names of one declaration group, each followed by an optional comma, as long as names come. */
    method IdentifierList() returns (r: Outcome, ghost group: seq<Decl>)
      requires Valid()
      modifies this`lookahead, this`taken, this`cuts, this`symbolTable, sc
      ensures Valid() && Measure() <= old(Measure())
      ensures r.Pass? ==> group != [] && NamesFit(group, old(taken), taken, old(symbolTable), symbolTable)
      ensures r.Pass? ==> lookahead.kind != "identifier"
      ensures r.Fail? ==> r.diag.line == sc.lineNumber
      ensures r.Fail? && r.diag.message.Redefinition? ==> r.diag.message.name in symbolTable
      ensures old(lookahead).kind == "identifier" && old(lookahead).value.StrVal? && old(lookahead).value.s in old(symbolTable) ==>
        r == Fail(Diagnostic(sc.lineNumber, Redefinition(old(lookahead).value.s)))
    {
      group := [];
      var more := true;
      while more
        invariant Valid() && Measure() <= old(Measure())
        invariant NamesFit(group, old(taken), taken, old(symbolTable), symbolTable)
        invariant !more ==> group != [] && lookahead.kind != "identifier"
        invariant group == [] ==> more && lookahead == old(lookahead) && symbolTable == old(symbolTable)
        invariant group != [] ==> !(old(lookahead).value.StrVal? && old(lookahead).value.s in old(symbolTable))
        decreases Measure(), more
      {
        ghost var taken0 := taken;
        var name, comma;
        r, name, comma := Declarand();
        if r.Fail? {
          return;
        }
        NamesFitGrow(group, Decl(name, comma), old(taken), taken0, old(symbolTable), symbolTable);
        symbolTable := symbolTable + {name};
        group := group + [Decl(name, comma)];
        more := lookahead.kind == "identifier";
      }
      r := Pass;
    }

    /** The declaration groups at the head of a program: `var`, names, `;`, as often as `var` comes. */
    method VarDeclarations() returns (r: Outcome, ghost groups: seq<seq<Decl>>)
      requires Valid()
      modifies this`lookahead, this`taken, this`cuts, this`symbolTable, sc
      ensures Valid() && Measure() <= old(Measure())
      ensures r.Pass? ==> DeclsFit(groups, old(taken), taken, old(symbolTable), symbolTable) && lookahead.kind != "varSym"
      ensures r.Fail? ==> r.diag.line == sc.lineNumber
      ensures r.Fail? && r.diag.message.Redefinition? ==> r.diag.message.name in symbolTable
    {
      groups := [];
      while lookahead.kind == "varSym"
        invariant Valid() && Measure() <= old(Measure())
        invariant DeclsFit(groups, old(taken), taken, old(symbolTable), symbolTable)
        decreases Measure()
      {
        ghost var taken1, table1, varToken := taken, symbolTable, lookahead;
        r := Expect("varSym");
        ghost var group;
        r, group := IdentifierList();
        if r.Fail? {
          return;
        }
        ghost var taken2, semicolon := taken, lookahead;
        r := Expect("semicolon");
        if r.Fail? {
          return;
        }
        DeclsFitGroup(groups, group, old(taken), taken1, taken2, old(symbolTable), table1, symbolTable, varToken, semicolon);
        groups := groups + [group];
      }
      r := Pass;
    }

    /** `begin`, the declarations, statement lists until `end.`, and `end.` itself, which stays the lookahead. */
    method ParseProgram() returns (r: Outcome, ghost p: Program)
      requires Valid()
      modifies this`lookahead, this`taken, this`cuts, this`ir, this`lastLabel, this`symbolTable, sc
      ensures Valid()
      ensures r.Pass? ==> lookahead.kind == "endSym"
      ensures r.Pass? ==> ProgramFits(p, old(taken), taken + [lookahead], old(ir), ir, old(lastLabel), lastLabel,
                                      old(symbolTable), symbolTable)
      ensures old(lookahead).kind != "beginSym" ==> r == Fail(Diagnostic(sc.lineNumber, Expected("beginSym", old(lookahead))))
      ensures r.Fail? ==> r.diag.line == sc.lineNumber
    {
      ghost var begin := lookahead;
      r := Expect("beginSym");
      if r.Fail? {
        return r, Program([], []);
      }
      ghost var groups;
      r, groups := VarDeclarations();
      if r.Fail? {
        return r, Program([], []);
      }
      ghost var taken1, table1 := taken, symbolTable;
      ghost var items: seq<Item> := [];
      ItemsFitJoin([], [], taken1, taken1, taken1, old(ir), old(ir), old(ir), old(lastLabel), old(lastLabel), old(lastLabel), table1);
      while lookahead.kind != "endSym"
        invariant Valid() && symbolTable == table1
        invariant ItemsParsed(items, taken1, old(ir), old(lastLabel))
        decreases Measure()
      {
        ghost var taken2, ir2, label2 := taken, ir, lastLabel;
        ghost var more;
        r, more := Stmts();
        if r.Fail? {
          return r, Program(groups, items);
        }
        ItemsFitJoin(items, more, taken1, taken2, taken, old(ir), ir2, ir, old(lastLabel), label2, lastLabel, symbolTable);
        items := items + more;
      }
      ghost var end := lookahead;
      r := Expect("endSym");
      p := Program(groups, items);
      ProgramFitsOf(p, old(taken), taken1, taken, old(ir), ir, old(lastLabel), lastLabel, old(symbolTable), symbolTable, begin, end);
    }

    /**
     * Parses a whole program. A program that parses ends on `end.`, so the
     * further check for `end.` that follows can never fail.
     */
    method Parse() returns (r: Outcome, ghost p: Program)
      requires Valid()
      modifies this`lookahead, this`taken, this`cuts, this`ir, this`lastLabel, this`symbolTable, sc
      ensures Valid()
      ensures r.Pass? ==> lookahead.kind == "endSym"
      ensures r.Pass? ==> ProgramFits(p, old(taken), taken + [lookahead], old(ir), ir, old(lastLabel), lastLabel,
                                      old(symbolTable), symbolTable)
      ensures r.Fail? ==> r.diag.line == sc.lineNumber
    {
      r, p := ParseProgram();
      if r.Pass? {
        assert lookahead.kind == "endSym";
      }
    }
  }

  /**
   * The whole pipeline on one source text: a scanner over the text, a
   * parser over the scanner, one parse. On success the IR is returned; the
   * program tree that was recognised is a ghost result.
   */
  method Compile(src: string) returns (r: Outcome, code: seq<Instr>, ghost p: Program)
    ensures r.Pass? ==> exists j :: Lexes(src + [EOI], 0, ProgramTokens(p), j)
    ensures r.Pass? ==> code == CompileProgram(p) && Resolved(code)
    ensures r.Pass? ==> Distinct(Declared(p.decls)) && Evaluated(code) <= Elements(Declared(p.decls))
    ensures r.Pass? ==> ItemsShaped(p.body) && NumberedItems(p.body, 0)
    ensures r.Fail? ==> code == []
  {
    var scanner := new Scanner(src);
    var parser := new Parser(scanner);
    r, p := parser.Parse();
    if r.Fail? {
      return r, [], p;
    }
    code := parser.ir;
    assert parser.taken + [parser.lookahead] == ProgramTokens(p);
    StepsLexes(scanner.source, parser.cuts, ProgramTokens(p));
    ProgramResolved(p);
  }
}
