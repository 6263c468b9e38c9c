/**
 * The constructs the parser recognises, as trees: expressions, statements,
 * the statement list with its semicolons, declarations and whole programs.
 * For each there is the token sequence it is written as and the IR the
 * parser emits for it. The parser's procedures are proved to consume the
 * tokens of a tree and to emit its IR; the lemmas here say what that IR
 * is worth: expressions compute their value on a stack machine, labels are
 * defined once, jumps land on defined labels, and EVAL reads only the
 * variables the program reads.
 */
module Syntax {
  import opened Decimal
  import opened Lexicon
  import opened Ir

  datatype BinOp = Plus | Minus | Times | Div

  datatype Expr =
    | Var(name: string)
    | Num(n: nat)
    | Paren(inner: Expr)
    | Bin(op: BinOp, left: Expr, right: Expr)

  /** The parser's opMap: operator token kind to IR tag. */
  const OpMap: map<string, string> :=
    map["plusSym" := "PLUS", "minusSym" := "MINUS", "timesSym" := "TIMES", "divSym" := "DIV"]

  /** The token kind the scanner gives each operator. */
  function OpKind(op: BinOp): (k: string)
    ensures k in OpMap
  {
    match op
    case Plus => "plusSym"
    case Minus => "minusSym"
    case Times => "timesSym"
    case Div => "divSym"
  }

  /** The operator a token kind of opMap stands for. */
  function OpOfKind(kind: string): (op: BinOp)
    requires kind in OpMap
    ensures OpKind(op) == kind
  {
    if kind == "plusSym" then Plus
    else if kind == "minusSym" then Minus
    else if kind == "timesSym" then Times
    else Div
  }

  // ---- Expressions ----

  /** An expression: terms joined by + and -, grouped to the left. */
  predicate IsExpr(e: Expr)
    decreases e, 2
  {
    || IsTerm(e)
    || (e.Bin? && (e.op == Plus || e.op == Minus) && IsExpr(e.left) && IsTerm(e.right))
  }

  /** A term: factors joined by * and /, grouped to the left. */
  predicate IsTerm(e: Expr)
    decreases e, 1
  {
    || IsFactor(e)
    || (e.Bin? && (e.op == Times || e.op == Div) && IsTerm(e.left) && IsFactor(e.right))
  }

  /** A factor: a name, a number or a parenthesised expression. */
  predicate IsFactor(e: Expr)
    decreases e, 0
  {
    e.Var? || e.Num? || (e.Paren? && IsExpr(e.inner))
  }

  /** The tokens an expression is written as. */
  function ExprTokens(e: Expr): seq<Token> {
    match e
    case Var(x) => [Token("identifier", StrVal(x))]
    case Num(n) => [Token("numConstant", IntVal(n))]
    case Paren(inner) => [Token("lParen", NoVal)] + ExprTokens(inner) + [Token("rParen", NoVal)]
    case Bin(op, l, r) => ExprTokens(l) + [Token(OpKind(op), NoVal)] + ExprTokens(r)
  }

  /** The IR the parser emits for an expression: both operands, then the operator. */
  function CompileExpr(e: Expr): seq<Instr> {
    match e
    case Var(x) => [Instr("EVAL", x)]
    case Num(n) => [Instr("PUSH", IntToString(n))]
    case Paren(inner) => CompileExpr(inner)
    case Bin(op, l, r) => CompileExpr(l) + CompileExpr(r) + [Instr(OpMap[OpKind(op)], "")]
  }

  function Vars(e: Expr): set<string> {
    match e
    case Var(x) => {x}
    case Num(_) => {}
    case Paren(inner) => Vars(inner)
    case Bin(_, l, r) => Vars(l) + Vars(r)
  }

  function Apply(op: BinOp, a: int, b: int): Option<int> {
    match op
    case Plus => Some(a + b)
    case Minus => Some(a - b)
    case Times => Some(a * b)
    case Div => if b == 0 then None else Some(TruncDiv(a, b))
  }

  /** The value of an expression; None for an unbound name or a division by zero. */
  function Eval(e: Expr, env: map<string, int>): Option<int> {
    match e
    case Var(x) => if x in env then Some(env[x]) else None
    case Num(n) => Some(n)
    case Paren(inner) => Eval(inner, env)
    case Bin(op, l, r) =>
      match (Eval(l, env), Eval(r, env))
      case (Some(a), Some(b)) => Apply(op, a, b)
      case _ => None
  }

  /** Running one entry in front of more code. */
  lemma RunCons(i: Instr, rest: seq<Instr>, env: map<string, int>, st: seq<int>)
    ensures Run([i] + rest, env, st) == match Step(i, env, st) { case None => None case Some(st') => Run(rest, env, st') }
  {
    assert ([i] + rest)[0] == i && ([i] + rest)[1..] == rest;
  }

  /** An operator entry pops its two operands and pushes what Apply makes of them. */
  lemma RunOperator(op: BinOp, rest: seq<Instr>, env: map<string, int>, st: seq<int>, a: int, b: int)
    ensures Run([Instr(OpMap[OpKind(op)], "")] + rest, env, st + [a] + [b])
         == match Apply(op, a, b) { case None => None case Some(v) => Run(rest, env, st + [v]) }
  {
    var st' := st + [a] + [b];
    assert st'[|st'| - 2] == a && st'[|st'| - 1] == b && st'[..|st'| - 2] == st;
    RunCons(Instr(OpMap[OpKind(op)], ""), rest, env, st');
  }

  /**
   * The postfix code of an expression pushes exactly its value: whatever
   * code follows runs on the old stack with the value on top, and the run
   * is stuck exactly when the value is undefined.
   */
  lemma {:induction false} CompileExprCorrect(e: Expr, rest: seq<Instr>, env: map<string, int>, st: seq<int>)
    ensures Run(CompileExpr(e) + rest, env, st)
         == match Eval(e, env) { case None => None case Some(v) => Run(rest, env, st + [v]) }
    decreases e
  {
    match e
    case Var(x) =>
      RunCons(Instr("EVAL", x), rest, env, st);
    case Num(n) =>
      RunCons(Instr("PUSH", IntToString(n)), rest, env, st);
      ParseIntToString(n);
    case Paren(inner) =>
      CompileExprCorrect(inner, rest, env, st);
    case Bin(op, l, r) =>
      var opInstr := Instr(OpMap[OpKind(op)], "");
      assert CompileExpr(e) + rest == CompileExpr(l) + (CompileExpr(r) + ([opInstr] + rest));
      CompileExprCorrect(l, CompileExpr(r) + ([opInstr] + rest), env, st);
      match Eval(l, env)
      case None =>
      case Some(a) =>
        CompileExprCorrect(r, [opInstr] + rest, env, st + [a]);
        match Eval(r, env)
        case None =>
        case Some(b) =>
          RunOperator(op, rest, env, st, a, b);
  }

  /** Run from an empty stack, an expression's code leaves exactly its value. */
  lemma CompiledExprValue(e: Expr, env: map<string, int>)
    ensures Run(CompileExpr(e), env, []) == match Eval(e, env) { case None => None case Some(v) => Some([v]) }
  {
    CompileExprCorrect(e, [], env, []);
    assert CompileExpr(e) + [] == CompileExpr(e);
    match Eval(e, env)
    case None =>
    case Some(v) => assert [] + [v] == [v];
  }

  /** Expression code defines no label, jumps nowhere, and evaluates exactly the names it mentions. */
  lemma {:induction false} ExprViews(e: Expr)
    ensures DefinedLabels(CompileExpr(e)) == [] && JumpTargets(CompileExpr(e)) == {}
    ensures Evaluated(CompileExpr(e)) == Vars(e)
    decreases e
  {
    match e
    case Var(x) => ViewsSingle(Instr("EVAL", x));
    case Num(n) => ViewsSingle(Instr("PUSH", IntToString(n)));
    case Paren(inner) => ExprViews(inner);
    case Bin(op, l, r) =>
      var opInstr := Instr(OpMap[OpKind(op)], "");
      assert opInstr.tag in {"PLUS", "MINUS", "TIMES", "DIV"};
      ExprViews(l);
      ExprViews(r);
      ViewsSingle(opInstr);
      ViewsAppend(CompileExpr(l), CompileExpr(r));
      ViewsAppend(CompileExpr(l) + CompileExpr(r), [opInstr]);
  }

  /** `a - b - c` groups to the left and compiles to EVAL a, EVAL b, MINUS, EVAL c, MINUS. */
  lemma LeftAssociative(a: string, b: string, c: string)
    ensures var e := Bin(Minus, Bin(Minus, Var(a), Var(b)), Var(c));
      && IsExpr(e)
      && !IsExpr(Bin(Minus, Var(a), Bin(Minus, Var(b), Var(c))))
      && ExprTokens(e) == [Token("identifier", StrVal(a)), Token("minusSym", NoVal), Token("identifier", StrVal(b)),
                           Token("minusSym", NoVal), Token("identifier", StrVal(c))]
      && CompileExpr(e) == [Instr("EVAL", a), Instr("EVAL", b), Instr("MINUS", ""), Instr("EVAL", c), Instr("MINUS", "")]
  {
    var ab := Bin(Minus, Var(a), Var(b));
    assert IsTerm(Var(a)) && IsTerm(Var(b)) && IsTerm(Var(c)) && IsExpr(Var(a));
    assert IsExpr(ab);
    assert !IsTerm(Bin(Minus, Var(b), Var(c)));
    assert !IsTerm(Bin(Minus, Var(a), Bin(Minus, Var(b), Var(c))));
    assert OpMap[OpKind(Minus)] == "MINUS";
    assert ExprTokens(ab) == [Token("identifier", StrVal(a)), Token("minusSym", NoVal), Token("identifier", StrVal(b))];
    assert CompileExpr(ab) == [Instr("EVAL", a), Instr("EVAL", b), Instr("MINUS", "")];
  }

  /** `a + b * c` gives * the tighter grip: the product is the right operand of the sum. */
  lemma TimesBindsTighter(a: string, b: string, c: string)
    ensures var e := Bin(Plus, Var(a), Bin(Times, Var(b), Var(c)));
      && IsExpr(e)
      && !IsExpr(Bin(Times, Bin(Plus, Var(a), Var(b)), Var(c)))
      && CompileExpr(e) == [Instr("EVAL", a), Instr("EVAL", b), Instr("EVAL", c), Instr("TIMES", ""), Instr("PLUS", "")]
  {
    var bc := Bin(Times, Var(b), Var(c));
    assert IsTerm(Var(b)) && IsFactor(Var(c)) && IsExpr(Var(a));
    assert IsTerm(bc);
    assert !IsTerm(Bin(Plus, Var(a), Var(b)));
    assert !IsTerm(Bin(Times, Bin(Plus, Var(a), Var(b)), Var(c)));
    assert OpMap[OpKind(Plus)] == "PLUS" && OpMap[OpKind(Times)] == "TIMES";
    assert CompileExpr(bc) == [Instr("EVAL", b), Instr("EVAL", c), Instr("TIMES", "")];
  }

  // ---- Statements ----

  /**
   * A statement. An if owns one label (its skip label); a while owns two,
   * its repeat label and the next one, its exit label. Empty is what Stmt
   * accepts when it meets `end.`.
   */
  datatype Stmt =
    | Assign(target: string, rhs: Expr)
    | If(guard: Expr, skip: nat, body: Stmt)
    | While(guard: Expr, repeat: nat, body: Stmt)
    | Empty

  function StmtTokens(s: Stmt): seq<Token> {
    match s
    case Assign(x, e) => [Token("identifier", StrVal(x)), Token("assignSym", NoVal)] + ExprTokens(e)
    case If(g, _, b) =>
      [Token("ifSym", NoVal)] + ExprTokens(Paren(g)) + StmtTokens(b)
    case While(g, _, b) =>
      [Token("whileSym", NoVal)] + ExprTokens(Paren(g)) + StmtTokens(b)
    case Empty => []
  }

  function CompileStmt(s: Stmt): seq<Instr> {
    match s
    case Assign(x, e) => CompileExpr(e) + [Instr("STORE", x)]
    case If(g, k, b) =>
      CompileExpr(g) + [Instr("BZ", LabelName(k))] + CompileStmt(b) + [Instr("LABEL", LabelName(k))]
    case While(g, r, b) =>
      [Instr("LABEL", LabelName(r))] + CompileExpr(g) + [Instr("BZ", LabelName(r + 1))]
      + CompileStmt(b) + [Instr("BR", LabelName(r))] + [Instr("LABEL", LabelName(r + 1))]
    case Empty => []
  }

  /** Every guard and right-hand side is an expression in the grammar's sense. */
  predicate StmtShaped(s: Stmt) {
    match s
    case Assign(_, e) => IsExpr(e)
    case If(g, _, b) => IsExpr(g) && StmtShaped(b)
    case While(g, _, b) => IsExpr(g) && StmtShaped(b)
    case Empty => true
  }

  /** The names a statement reads (its assignment targets are not among them unless read). */
  function StmtReads(s: Stmt): set<string> {
    match s
    case Assign(_, e) => Vars(e)
    case If(g, _, b) => Vars(g) + StmtReads(b)
    case While(g, _, b) => Vars(g) + StmtReads(b)
    case Empty => {}
  }

  function LabelCount(s: Stmt): nat {
    match s
    case Assign(_, _) => 0
    case If(_, _, b) => 1 + LabelCount(b)
    case While(_, _, b) => 2 + LabelCount(b)
    case Empty => 0
  }

  /** The labels were drawn from the counter in order, starting at first: an outer statement before its body. */
  predicate Numbered(s: Stmt, first: nat) {
    match s
    case Assign(_, _) => true
    case If(_, k, b) => k == first && Numbered(b, first + 1)
    case While(_, r, b) => r == first && Numbered(b, first + 2)
    case Empty => true
  }

  lemma IfHeadViews(g: Expr, k: nat)
    ensures var head := CompileExpr(g) + [Instr("BZ", LabelName(k))];
      && DefinedLabels(head) == []
      && JumpTargets(head) == {LabelName(k)}
      && Evaluated(head) == Vars(g)
  {
    ExprViews(g);
    JumpViews("BZ", LabelName(k));
    ViewsAppend(CompileExpr(g), [Instr("BZ", LabelName(k))]);
  }

  lemma IfViews(g: Expr, k: nat, b: Stmt)
    ensures DefinedLabels(CompileStmt(If(g, k, b))) == DefinedLabels(CompileStmt(b)) + [LabelName(k)]
    ensures JumpTargets(CompileStmt(If(g, k, b))) == {LabelName(k)} + JumpTargets(CompileStmt(b))
    ensures Evaluated(CompileStmt(If(g, k, b))) == Vars(g) + Evaluated(CompileStmt(b))
  {
    var head := CompileExpr(g) + [Instr("BZ", LabelName(k))];
    var tail := [Instr("LABEL", LabelName(k))];
    assert CompileStmt(If(g, k, b)) == head + CompileStmt(b) + tail;
    IfHeadViews(g, k);
    LabelViews(LabelName(k));
    ViewsAppend3(head, CompileStmt(b), tail);
  }

  lemma WhileHeadViews(g: Expr, r: nat)
    ensures var head := [Instr("LABEL", LabelName(r))] + CompileExpr(g) + [Instr("BZ", LabelName(r + 1))];
      && DefinedLabels(head) == [LabelName(r)]
      && JumpTargets(head) == {LabelName(r + 1)}
      && Evaluated(head) == Vars(g)
  {
    var top, bz := Instr("LABEL", LabelName(r)), Instr("BZ", LabelName(r + 1));
    ExprViews(g);
    LabelViews(LabelName(r));
    JumpViews("BZ", LabelName(r + 1));
    ViewsAppend([top], CompileExpr(g));
    ViewsAppend([top] + CompileExpr(g), [bz]);
  }

  lemma WhileTailViews(r: nat)
    ensures var tail := [Instr("BR", LabelName(r))] + [Instr("LABEL", LabelName(r + 1))];
      && DefinedLabels(tail) == [LabelName(r + 1)]
      && JumpTargets(tail) == {LabelName(r)}
      && Evaluated(tail) == {}
  {
    var br, exit := Instr("BR", LabelName(r)), Instr("LABEL", LabelName(r + 1));
    JumpViews("BR", LabelName(r));
    LabelViews(LabelName(r + 1));
    ViewsAppend([br], [exit]);
  }

  lemma WhileViews(g: Expr, r: nat, b: Stmt)
    ensures DefinedLabels(CompileStmt(While(g, r, b)))
         == [LabelName(r)] + DefinedLabels(CompileStmt(b)) + [LabelName(r + 1)]
    ensures JumpTargets(CompileStmt(While(g, r, b))) == {LabelName(r + 1)} + JumpTargets(CompileStmt(b)) + {LabelName(r)}
    ensures Evaluated(CompileStmt(While(g, r, b))) == Vars(g) + Evaluated(CompileStmt(b))
  {
    var head := [Instr("LABEL", LabelName(r))] + CompileExpr(g) + [Instr("BZ", LabelName(r + 1))];
    var tail := [Instr("BR", LabelName(r))] + [Instr("LABEL", LabelName(r + 1))];
    Assoc(head + CompileStmt(b), [Instr("BR", LabelName(r))], [Instr("LABEL", LabelName(r + 1))]);
    assert CompileStmt(While(g, r, b)) == head + CompileStmt(b) + tail;
    WhileHeadViews(g, r);
    WhileTailViews(r);
    ViewsAppend3(head, CompileStmt(b), tail);
  }

  /**
   * The label and scope facts about a piece of code: no label is defined
   * twice, every label's number is in [lo, hi), every jump has its label
   * defined, and the names it evaluates are names.
   */
  ghost predicate LabelFacts(code: seq<Instr>, lo: nat, hi: nat, names: set<string>) {
    && Distinct(DefinedLabels(code))
    && (forall l :: l in DefinedLabels(code) ==> lo <= LabelNumber(l) < hi)
    && (forall t :: t in JumpTargets(code) ==> t in DefinedLabels(code))
    && Evaluated(code) == names
  }

  lemma IfLabels(g: Expr, k: nat, b: Stmt)
    requires LabelFacts(CompileStmt(b), k + 1, k + 1 + LabelCount(b), StmtReads(b))
    ensures LabelFacts(CompileStmt(If(g, k, b)), k, k + LabelCount(If(g, k, b)), StmtReads(If(g, k, b)))
  {
    IfViews(g, k, b);
    LabelNumberOfName(k);
    DistinctAppend(DefinedLabels(CompileStmt(b)), [LabelName(k)]);
  }

  lemma WhileLabels(g: Expr, r: nat, b: Stmt)
    requires LabelFacts(CompileStmt(b), r + 2, r + 2 + LabelCount(b), StmtReads(b))
    ensures LabelFacts(CompileStmt(While(g, r, b)), r, r + LabelCount(While(g, r, b)), StmtReads(While(g, r, b)))
  {
    WhileViews(g, r, b);
    LabelNumberOfName(r);
    LabelNumberOfName(r + 1);
    DistinctAppend([LabelName(r)], DefinedLabels(CompileStmt(b)));
    DistinctAppend([LabelName(r)] + DefinedLabels(CompileStmt(b)), [LabelName(r + 1)]);
  }

  /** The label and scope facts about one statement's code. */
  lemma {:induction false} StmtLabels(s: Stmt, first: nat)
    requires Numbered(s, first)
    ensures Distinct(DefinedLabels(CompileStmt(s)))
    ensures forall l :: l in DefinedLabels(CompileStmt(s)) ==> first <= LabelNumber(l) < first + LabelCount(s)
    ensures forall t :: t in JumpTargets(CompileStmt(s)) ==> t in DefinedLabels(CompileStmt(s))
    ensures Evaluated(CompileStmt(s)) == StmtReads(s)
    decreases s
  {
    match s
    case Assign(x, e) =>
      ExprViews(e);
      ViewsSingle(Instr("STORE", x));
      ViewsAppend(CompileExpr(e), [Instr("STORE", x)]);
    case If(g, k, b) =>
      StmtLabels(b, first + 1);
      IfLabels(g, k, b);
    case While(g, r, b) =>
      StmtLabels(b, first + 2);
      WhileLabels(g, r, b);
    case Empty =>
  }

  // ---- Statement lists ----

  /** What Stmts consumes: statements, and the semicolons that may separate them. */
  datatype Item = Statement(s: Stmt) | Semicolon

  function ItemTokens(it: Item): seq<Token> {
    match it
    case Statement(s) => StmtTokens(s)
    case Semicolon => [Token("semicolon", NoVal)]
  }

  function ItemCode(it: Item): seq<Instr> {
    match it
    case Statement(s) => CompileStmt(s)
    case Semicolon => []
  }

  function ItemReads(it: Item): set<string> {
    match it
    case Statement(s) => StmtReads(s)
    case Semicolon => {}
  }

  function ItemLabelCount(it: Item): nat {
    match it
    case Statement(s) => LabelCount(s)
    case Semicolon => 0
  }

  predicate ItemNumbered(it: Item, first: nat) {
    match it
    case Statement(s) => Numbered(s, first)
    case Semicolon => true
  }

  function ItemsTokens(items: seq<Item>): seq<Token> {
    MapConcat(ItemTokens, items)
  }

  /** The IR of a statement list: each statement's code in turn. */
  function CompileItems(items: seq<Item>): seq<Instr> {
    MapConcat(ItemCode, items)
  }

  function ItemsReads(items: seq<Item>): set<string> {
    if items == [] then {} else ItemsReads(items[..|items| - 1]) + ItemReads(items[|items| - 1])
  }

  function ItemsLabelCount(items: seq<Item>): nat {
    if items == [] then 0 else ItemsLabelCount(items[..|items| - 1]) + ItemLabelCount(items[|items| - 1])
  }

  /** Each statement's labels continue the counter where the statements before it stopped. */
  predicate NumberedItems(items: seq<Item>, first: nat) {
    if items == [] then true
    else
      && NumberedItems(items[..|items| - 1], first)
      && ItemNumbered(items[|items| - 1], first + ItemsLabelCount(items[..|items| - 1]))
  }

  predicate ItemsShaped(items: seq<Item>) {
    forall k :: 0 <= k < |items| && items[k].Statement? ==> StmtShaped(items[k].s)
  }

  /** Splitting a statement list anywhere splits its tokens and its code the same way. */
  lemma ItemsAppend(a: seq<Item>, b: seq<Item>)
    ensures ItemsTokens(a + b) == ItemsTokens(a) + ItemsTokens(b)
    ensures CompileItems(a + b) == CompileItems(a) + CompileItems(b)
  {
    MapConcatAppend(ItemTokens, a, b);
    MapConcatAppend(ItemCode, a, b);
  }

  lemma ItemsSnoc(items: seq<Item>, it: Item)
    ensures ItemsTokens(items + [it]) == ItemsTokens(items) + ItemTokens(it)
    ensures CompileItems(items + [it]) == CompileItems(items) + ItemCode(it)
  {
    ItemsAppend(items, [it]);
    assert [it][..0] == [];
  }

  /** Splitting a statement list anywhere splits what it reads and the labels it draws. */
  lemma {:induction false} ItemsAppendCounts(a: seq<Item>, b: seq<Item>, first: nat)
    ensures ItemsReads(a + b) == ItemsReads(a) + ItemsReads(b)
    ensures ItemsLabelCount(a + b) == ItemsLabelCount(a) + ItemsLabelCount(b)
    ensures NumberedItems(a, first) && NumberedItems(b, first + ItemsLabelCount(a)) ==> NumberedItems(a + b, first)
    decreases |b|
  {
    if b == [] {
      assert a + b == a;
    } else {
      var b' := b[..|b| - 1];
      assert (a + b)[..|a + b| - 1] == a + b';
      assert (a + b)[|a + b| - 1] == b[|b| - 1];
      ItemsAppendCounts(a, b', first);
    }
  }

  lemma ItemsSnocCounts(items: seq<Item>, it: Item, first: nat)
    ensures ItemsReads(items + [it]) == ItemsReads(items) + ItemReads(it)
    ensures ItemsLabelCount(items + [it]) == ItemsLabelCount(items) + ItemLabelCount(it)
    ensures NumberedItems(items + [it], first)
        <==> NumberedItems(items, first) && ItemNumbered(it, first + ItemsLabelCount(items))
  {
    assert (items + [it])[..|items|] == items;
  }

  lemma ItemsShapedAppend(a: seq<Item>, b: seq<Item>)
    requires ItemsShaped(a) && ItemsShaped(b)
    ensures ItemsShaped(a + b)
  {
    forall k | 0 <= k < |a + b| && (a + b)[k].Statement?
      ensures StmtShaped((a + b)[k].s)
    {
      if k >= |a| {
        assert (a + b)[k] == b[k - |a|];
      }
    }
  }

  lemma {:induction false} ItemsLabels(items: seq<Item>, first: nat)
    requires NumberedItems(items, first)
    ensures Distinct(DefinedLabels(CompileItems(items)))
    ensures forall l :: l in DefinedLabels(CompileItems(items)) ==> first <= LabelNumber(l) < first + ItemsLabelCount(items)
    ensures forall t :: t in JumpTargets(CompileItems(items)) ==> t in DefinedLabels(CompileItems(items))
    ensures Evaluated(CompileItems(items)) == ItemsReads(items)
    decreases |items|
  {
    if items != [] {
      var init, last := items[..|items| - 1], items[|items| - 1];
      ItemsLabels(init, first);
      ItemsSnoc(init, last);
      assert init + [last] == items;
      ViewsAppend(CompileItems(init), ItemCode(last));
      match last
      case Statement(s) =>
        StmtLabels(s, first + ItemsLabelCount(init));
        DistinctAppend(DefinedLabels(CompileItems(init)), DefinedLabels(CompileStmt(s)));
      case Semicolon =>
    }
  }

  // ---- Declarations and programs ----

  /** One declared name, with the comma that may follow it. */
  datatype Decl = Decl(name: string, comma: bool)

  function DeclTokens(d: Decl): seq<Token> {
    [Token("identifier", StrVal(d.name))] + (if d.comma then [Token("comma", NoVal)] else [])
  }

  /** A declaration group is `var`, its names, and a semicolon. */
  function GroupTokens(group: seq<Decl>): seq<Token> {
    [Token("varSym", NoVal)] + MapConcat(DeclTokens, group) + [Token("semicolon", NoVal)]
  }

  function DeclName(d: Decl): seq<string> {
    [d.name]
  }

  function Names(group: seq<Decl>): seq<string> {
    MapConcat(DeclName, group)
  }

  /** Every declared name, in the order of declaration. */
  function Declared(groups: seq<seq<Decl>>): seq<string> {
    MapConcat(Names, groups)
  }

  datatype Program = Program(decls: seq<seq<Decl>>, body: seq<Item>)

  function ProgramTokens(p: Program): seq<Token> {
    [Token("beginSym", NoVal)] + MapConcat(GroupTokens, p.decls) + ItemsTokens(p.body) + [Token("endSym", NoVal)]
  }

  function CompileProgram(p: Program): seq<Instr> {
    CompileItems(p.body)
  }

  /**
   * A program whose labels were numbered from the counter's start has
   * resolved code, and its code evaluates only the names it reads.
   */
  lemma ProgramResolved(p: Program)
    requires NumberedItems(p.body, 0)
    ensures Resolved(CompileProgram(p))
    ensures Evaluated(CompileProgram(p)) == ItemsReads(p.body)
  {
    ItemsLabels(p.body, 0);
  }

  // ---- Worked examples: three small programs, their tokens and their IR ----

  /** The statement list `x = 3 + 4;` is written as these six tokens. */
  lemma AssignmentExampleBody()
    ensures ItemsTokens([Statement(Assign("x", Bin(Plus, Num(3), Num(4)))), Semicolon])
         == [Token("identifier", StrVal("x")), Token("assignSym", NoVal), Token("numConstant", IntVal(3)),
             Token("plusSym", NoVal), Token("numConstant", IntVal(4)), Token("semicolon", NoVal)]
  {
    var s := Assign("x", Bin(Plus, Num(3), Num(4)));
    ItemsSnoc([Statement(s)], Semicolon);
    ItemsSnoc([], Statement(s));
    assert [Statement(s), Semicolon] == [Statement(s)] + [Semicolon];
    assert ExprTokens(s.rhs) == [Token("numConstant", IntVal(3)), Token("plusSym", NoVal), Token("numConstant", IntVal(4))];
  }

  /** `begin var x; x = 3 + 4; end.` is written as these eleven tokens. */
  lemma AssignmentExampleTokens()
    ensures ProgramTokens(Program([[Decl("x", false)]], [Statement(Assign("x", Bin(Plus, Num(3), Num(4)))), Semicolon]))
         == [Token("beginSym", NoVal), Token("varSym", NoVal), Token("identifier", StrVal("x")), Token("semicolon", NoVal),
             Token("identifier", StrVal("x")), Token("assignSym", NoVal), Token("numConstant", IntVal(3)),
             Token("plusSym", NoVal), Token("numConstant", IntVal(4)), Token("semicolon", NoVal), Token("endSym", NoVal)]
  {
    var d := [Decl("x", false)];
    AssignmentExampleBody();
    MapConcatSnoc(GroupTokens, [], d);
    MapConcatSnoc(DeclTokens, [], Decl("x", false));
    var x, semi := Token("identifier", StrVal("x")), Token("semicolon", NoVal);
    assert GroupTokens(d) == [Token("varSym", NoVal), x, semi];
  }

  /** `begin var x; x = 3 + 4; end.` compiles to PUSH 3, PUSH 4, PLUS, STORE x. */
  lemma AssignmentExample()
    ensures var p := Program([[Decl("x", false)]], [Statement(Assign("x", Bin(Plus, Num(3), Num(4)))), Semicolon]);
      && NumberedItems(p.body, 0)
      && CompileProgram(p) == [Instr("PUSH", "3"), Instr("PUSH", "4"), Instr("PLUS", ""), Instr("STORE", "x")]
  {
    var s := Assign("x", Bin(Plus, Num(3), Num(4)));
    ItemsSnoc([Statement(s)], Semicolon);
    ItemsSnocCounts([Statement(s)], Semicolon, 0);
    ItemsSnoc([], Statement(s));
    ItemsSnocCounts([], Statement(s), 0);
    assert [Statement(s), Semicolon] == [Statement(s)] + [Semicolon];
    assert NatToString(3) == "3" && NatToString(4) == "4";
  }

  /** `begin var x; if (x) x = 1; end.` compiles to EVAL x, BZ L0, PUSH 1, STORE x, LABEL L0. */
  lemma ConditionalExample()
    ensures var p := Program([[Decl("x", false)]], [Statement(If(Var("x"), 0, Assign("x", Num(1)))), Semicolon]);
      && NumberedItems(p.body, 0)
      && CompileProgram(p)
         == [Instr("EVAL", "x"), Instr("BZ", "L0"), Instr("PUSH", "1"), Instr("STORE", "x"), Instr("LABEL", "L0")]
  {
    var s := If(Var("x"), 0, Assign("x", Num(1)));
    ItemsSnoc([Statement(s)], Semicolon);
    ItemsSnocCounts([Statement(s)], Semicolon, 0);
    ItemsSnoc([], Statement(s));
    ItemsSnocCounts([], Statement(s), 0);
    assert [Statement(s), Semicolon] == [Statement(s)] + [Semicolon];
    assert LabelName(0) == "L0" && NatToString(1) == "1";
  }

  /** `begin var x; while (x) x = 0; end.` compiles to LABEL L0, EVAL x, BZ L1, PUSH 0, STORE x, BR L0, LABEL L1. */
  lemma LoopExample()
    ensures var p := Program([[Decl("x", false)]], [Statement(While(Var("x"), 0, Assign("x", Num(0)))), Semicolon]);
      && NumberedItems(p.body, 0)
      && CompileProgram(p)
         == [Instr("LABEL", "L0"), Instr("EVAL", "x"), Instr("BZ", "L1"), Instr("PUSH", "0"), Instr("STORE", "x"),
             Instr("BR", "L0"), Instr("LABEL", "L1")]
  {
    var s := While(Var("x"), 0, Assign("x", Num(0)));
    ItemsSnoc([Statement(s)], Semicolon);
    ItemsSnocCounts([Statement(s)], Semicolon, 0);
    ItemsSnoc([], Statement(s));
    ItemsSnocCounts([], Statement(s), 0);
    assert [Statement(s), Semicolon] == [Statement(s)] + [Semicolon];
    assert LabelName(0) == "L0" && LabelName(1) == "L1" && NatToString(0) == "0";
  }
}
