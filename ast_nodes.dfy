/** The syntax tree of the small imperative language `L` and the way each
    node prints itself (`toString`). Every node carries a source position
    that no printer reads. */
module AstNodes {
  import opened Util

  /** `Pair<Int, Int>`; it prints as `(first, second)`. */
  datatype Position = Position(first: int, second: int)

  function PositionText(p: Position): string {
    "(" + IntToString(p.first) + ", " + IntToString(p.second) + ")"
  }

  /** `BinaryExpression.Op`, in declaration order. */
  datatype Op = ADD | SUB | MUL | DIV | MOD | EQ | NEQ | LE | LT | GE | GT | LAND | LOR

  /** `Op.string`, which is also what an operator prints as. */
  function OpText(op: Op): string {
    match op
    case ADD => "+"
    case SUB => "-"
    case MUL => "*"
    case DIV => "/"
    case MOD => "%"
    case EQ => "=="
    case NEQ => "!="
    case LE => "<="
    case LT => "<"
    case GE => ">="
    case GT => ">"
    case LAND => "&&"
    case LOR => "||"
  }

  /** `Op.values()`. */
  const AllOps: seq<Op> := [ADD, SUB, MUL, DIV, MOD, EQ, NEQ, LE, LT, GE, GT, LAND, LOR]

  /** `toMap` of the pairs `(op.string, op)`: a later pair overrides an earlier one. */
  function OpsOf(ops: seq<Op>): (m: map<string, Op>)
    ensures forall o :: o in ops ==> OpText(o) in m
    ensures forall s :: s in m ==> m[s] in ops && OpText(m[s]) == s
  {
    if ops == [] then map[]
    else
      var m := OpsOf(ops[..|ops| - 1]);
      assert forall o :: o in ops ==> o in ops[..|ops| - 1] || o == ops[|ops| - 1];
      m[OpText(ops[|ops| - 1]) := ops[|ops| - 1]]
  }

  /** `BinaryExpression.ops`. */
  function Ops(): map<string, Op> {
    OpsOf(AllOps)
  }

  /** Different operators have different strings. */
  lemma OpTextInjective(a: Op, b: Op)
    requires OpText(a) == OpText(b)
    ensures a == b
  {
    var t := OpText(a);
    assert |t| == 1 ==> t[0] == OpText(b)[0];
    assert |t| == 2 ==> t[0] == OpText(b)[0] && t[1] == OpText(b)[1];
  }

  /** `ops` maps the string of every operator back to that operator, and
      holds no other key. */
  lemma OpsInverse(op: Op)
    ensures OpText(op) in Ops() && Ops()[OpText(op)] == op
    ensures forall s :: s in Ops() <==> exists o: Op :: OpText(o) == s
  {
    AllOpsComplete(op);
    OpTextInjective(Ops()[OpText(op)], op);
    forall s | (exists o: Op :: OpText(o) == s) ensures s in Ops() {
      var o: Op :| OpText(o) == s;
      AllOpsComplete(o);
    }
  }

  lemma AllOpsComplete(o: Op)
    ensures o in AllOps
  {
  }

  datatype Identifier = Identifier(position: Position, text: string)

  datatype Block = Block(position: Position, statements: seq<Statement>)

  datatype BracedBlock = BracedBlock(position: Position, underlyingBlock: Block)

  /** The statements. `FunctionCall`'s argument list is named `arguments`
      here, because a destructor name has one type across a datatype. */
  datatype Statement =
    | FunctionDefinition(position: Position, identifier: Identifier, parameters: seq<Identifier>, body: BracedBlock)
    | VariableDefinition(position: Position, identifier: Identifier, value: Option<Expression>)
    | ReadStatement(position: Position, identifier: Identifier)
    | WriteStatement(position: Position, expression: Expression)
    | WhileCycle(position: Position, condition: Expression, body: BracedBlock)
    | IfClause(position: Position, condition: Expression, thenBody: BracedBlock, elseBody: Option<BracedBlock>)
    | VariableAssignment(position: Position, identifier: Identifier, newValue: Expression)
    | FunctionCall(position: Position, identifier: Identifier, arguments: seq<Expression>)

  /** The expressions; an `Identifier` used as an expression is wrapped. */
  datatype Expression =
    | Name(identifier: Identifier)
    | Number(position: Position, value: int)
    | BracedExpression(position: Position, underlyingExpression: Expression)
    | BinaryExpression(position: Position, left: Expression, operator: Op, right: Expression)

  // Printing

  /** `String.replace("\n", "\n\t")`. */
  function Indent(s: string): string {
    if s == [] then []
    else if s[0] == '\n' then "\n\t" + Indent(s[1..])
    else [s[0]] + Indent(s[1..])
  }

  /** Drops the tab that follows each newline. */
  function Unindent(s: string): string {
    if s == [] then []
    else if s[0] == '\n' && |s| > 1 && s[1] == '\t' then "\n" + Unindent(s[2..])
    else [s[0]] + Unindent(s[1..])
  }

  /** Every newline is followed by a tab. */
  predicate Indented(s: string) {
    forall i :: 0 <= i < |s| && s[i] == '\n' ==> i + 1 < |s| && s[i + 1] == '\t'
  }

  /** Indenting adds one tab after every newline and nothing else: it is
      undone by `Unindent`. */
  lemma {:induction false} IndentInverse(s: string)
    ensures Indented(Indent(s))
    ensures Unindent(Indent(s)) == s
    decreases |s|
  {
    if s != [] {
      IndentInverse(s[1..]);
      var rest := Indent(s[1..]);
      if s[0] == '\n' {
        assert ("\n\t" + rest)[2..] == rest;
        assert s == "\n" + s[1..];
      } else {
        assert ([s[0]] + rest)[1..] == rest;
        assert s == [s[0]] + s[1..];
      }
    }
  }

  function IdentifiersText(ids: seq<Identifier>): string {
    Join(IdentifierTexts(ids), ", ")
  }

  function IdentifierTexts(ids: seq<Identifier>): (ts: seq<string>)
    ensures |ts| == |ids|
    ensures forall i :: 0 <= i < |ids| ==> ts[i] == ids[i].text
  {
    if ids == [] then [] else IdentifierTexts(ids[..|ids| - 1]) + [ids[|ids| - 1].text]
  }

  /** `Block.toString`: the statements one per line. */
  function BlockText(b: Block): string
    decreases b, |b.statements| + 1
  {
    Join(StatementTexts(b, |b.statements|), "\n")
  }

  /** The texts of the first `n` statements of `b`. */
  function StatementTexts(b: Block, n: nat): (ts: seq<string>)
    requires n <= |b.statements|
    ensures |ts| == n
    decreases b, n
  {
    if n == 0 then [] else StatementTexts(b, n - 1) + [StatementText(b.statements[n - 1])]
  }

  /** `BracedBlock.toString`: the block on its own lines, indented by a tab,
      between braces. */
  function BracedBlockText(b: BracedBlock): string
    decreases b, 0
  {
    "{" + Indent("\n" + BlockText(b.underlyingBlock)) + "\n}"
  }

  function StatementText(s: Statement): string
    decreases s, 0
  {
    match s
    case FunctionDefinition(_, id, ps, body) =>
      "fun " + id.text + "(" + IdentifiersText(ps) + ") " + BracedBlockText(body)
    case VariableDefinition(_, id, value) =>
      "val " + id.text + (if value.Some? then " = " + ExpressionText(value.value) else "")
    case ReadStatement(_, id) => "read " + id.text
    case WriteStatement(_, e) => "write " + ExpressionText(e)
    case WhileCycle(_, c, body) => "while (" + ExpressionText(c) + ") " + BracedBlockText(body)
    case IfClause(_, c, t, e) =>
      "if (" + ExpressionText(c) + ") " + BracedBlockText(t) + " " +
      (if e.Some? then "else " + BracedBlockText(e.value) else "")
    case VariableAssignment(_, id, v) => id.text + " = " + ExpressionText(v)
    case FunctionCall(_, id, args) =>
      id.text + "(" + Join(ExpressionTexts(args), ", ") + ")"
  }

  function ExpressionText(e: Expression): string {
    match e
    case Name(id) => id.text
    case Number(_, v) => IntToString(v)
    case BracedExpression(_, inner) => "(" + ExpressionText(inner) + ")"
    case BinaryExpression(_, l, op, r) => ExpressionText(l) + " " + OpText(op) + " " + ExpressionText(r)
  }

  function ExpressionTexts(es: seq<Expression>): (ts: seq<string>)
    ensures |ts| == |es|
    ensures forall i :: 0 <= i < |es| ==> ts[i] == ExpressionText(es[i])
  {
    if es == [] then [] else ExpressionTexts(es[..|es| - 1]) + [ExpressionText(es[|es| - 1])]
  }

  // Positions

  const Origin := Position(0, 0)

  /** The same tree with every position replaced by `Origin`. */
  function EraseIdentifier(id: Identifier): Identifier {
    Identifier(Origin, id.text)
  }

  function EraseBlock(b: Block): Block
    decreases b, |b.statements| + 1
  {
    Block(Origin, EraseStatements(b, |b.statements|))
  }

  function EraseStatements(b: Block, n: nat): (ss: seq<Statement>)
    requires n <= |b.statements|
    ensures |ss| == n
    decreases b, n
  {
    if n == 0 then [] else EraseStatements(b, n - 1) + [EraseStatement(b.statements[n - 1])]
  }

  function EraseBraced(b: BracedBlock): BracedBlock
    decreases b, 0
  {
    BracedBlock(Origin, EraseBlock(b.underlyingBlock))
  }

  function EraseIdentifiers(ids: seq<Identifier>): (r: seq<Identifier>)
    ensures |r| == |ids|
    ensures forall i :: 0 <= i < |ids| ==> r[i] == EraseIdentifier(ids[i])
  {
    if ids == [] then [] else EraseIdentifiers(ids[..|ids| - 1]) + [EraseIdentifier(ids[|ids| - 1])]
  }

  function EraseExpressions(es: seq<Expression>): (r: seq<Expression>)
    ensures |r| == |es|
    ensures forall i :: 0 <= i < |es| ==> r[i] == EraseExpression(es[i])
  {
    if es == [] then [] else EraseExpressions(es[..|es| - 1]) + [EraseExpression(es[|es| - 1])]
  }

  function EraseStatement(s: Statement): Statement
    decreases s, 0
  {
    match s
    case FunctionDefinition(_, id, ps, body) =>
      FunctionDefinition(Origin, EraseIdentifier(id), EraseIdentifiers(ps), EraseBraced(body))
    case VariableDefinition(_, id, value) =>
      VariableDefinition(Origin, EraseIdentifier(id), if value.Some? then Some(EraseExpression(value.value)) else None)
    case ReadStatement(_, id) => ReadStatement(Origin, EraseIdentifier(id))
    case WriteStatement(_, e) => WriteStatement(Origin, EraseExpression(e))
    case WhileCycle(_, c, body) => WhileCycle(Origin, EraseExpression(c), EraseBraced(body))
    case IfClause(_, c, t, e) =>
      IfClause(Origin, EraseExpression(c), EraseBraced(t), if e.Some? then Some(EraseBraced(e.value)) else None)
    case VariableAssignment(_, id, v) => VariableAssignment(Origin, EraseIdentifier(id), EraseExpression(v))
    case FunctionCall(_, id, args) =>
      FunctionCall(Origin, EraseIdentifier(id), EraseExpressions(args))
  }

  function EraseExpression(e: Expression): Expression {
    match e
    case Name(id) => Name(EraseIdentifier(id))
    case Number(_, v) => Number(Origin, v)
    case BracedExpression(_, inner) => BracedExpression(Origin, EraseExpression(inner))
    case BinaryExpression(_, l, op, r) => BinaryExpression(Origin, EraseExpression(l), op, EraseExpression(r))
  }

  /** No printer reads a position: trees that differ only in positions
      print the same. */
  lemma {:induction false} ExpressionTextErased(e: Expression)
    ensures ExpressionText(EraseExpression(e)) == ExpressionText(e)
  {
    match e
    case Name(_) =>
    case Number(_, _) =>
    case BracedExpression(_, inner) => ExpressionTextErased(inner);
    case BinaryExpression(_, l, _, r) => ExpressionTextErased(l); ExpressionTextErased(r);
  }

  lemma {:induction false} BlockTextErased(b: Block)
    ensures BlockText(EraseBlock(b)) == BlockText(b)
    decreases b, |b.statements| + 1
  {
    StatementTextsErased(b, |b.statements|);
  }

  lemma {:induction false} StatementTextsErased(b: Block, n: nat)
    requires n <= |b.statements|
    ensures StatementTexts(EraseBlock(b), n) == StatementTexts(b, n)
    decreases b, n
  {
    if n > 0 {
      StatementTextsErased(b, n - 1);
      StatementTextErased(b.statements[n - 1]);
      EraseStatementsAt(b, |b.statements|, n - 1);
    }
  }

  lemma {:induction false} EraseStatementsAt(b: Block, n: nat, i: nat)
    requires i < n <= |b.statements|
    ensures EraseStatements(b, n)[i] == EraseStatement(b.statements[i])
    decreases n
  {
    if i < n - 1 {
      EraseStatementsAt(b, n - 1, i);
    }
  }

  lemma {:induction false} BracedTextErased(b: BracedBlock)
    ensures BracedBlockText(EraseBraced(b)) == BracedBlockText(b)
    decreases b, 0
  {
    BlockTextErased(b.underlyingBlock);
  }

  lemma {:induction false} StatementTextErased(s: Statement)
    ensures StatementText(EraseStatement(s)) == StatementText(s)
    decreases s, 0
  {
    match s
    case FunctionDefinition(_, id, ps, body) =>
      BracedTextErased(body);
      assert IdentifierTexts(EraseIdentifiers(ps)) == IdentifierTexts(ps);
    case VariableDefinition(_, _, value) =>
      if value.Some? { ExpressionTextErased(value.value); }
    case ReadStatement(_, _) =>
    case WriteStatement(_, e) => ExpressionTextErased(e);
    case WhileCycle(_, c, body) => ExpressionTextErased(c); BracedTextErased(body);
    case IfClause(_, c, t, e) =>
      ExpressionTextErased(c);
      BracedTextErased(t);
      if e.Some? { BracedTextErased(e.value); }
    case VariableAssignment(_, _, v) => ExpressionTextErased(v);
    case FunctionCall(_, _, args) =>
      forall i | 0 <= i < |args| ensures ExpressionText(EraseExpressions(args)[i]) == ExpressionText(args[i]) {
        ExpressionTextErased(args[i]);
      }
      assert ExpressionTexts(EraseExpressions(args)) == ExpressionTexts(args);
  }

  /** Two statements that differ only in their positions print the same. */
  lemma SamePrintedText(s: Statement, t: Statement)
    requires EraseStatement(s) == EraseStatement(t)
    ensures StatementText(s) == StatementText(t)
  {
    StatementTextErased(s);
    StatementTextErased(t);
  }

  /** A braced block is `{`, then the block's text, each of whose lines starts
      on a new line after a tab, then a newline and `}`. */
  lemma BracedBlockShape(b: BracedBlock)
    ensures exists body ::
      BracedBlockText(b) == "{" + body + "\n}" && Indented(body) &&
      Unindent(body) == "\n" + BlockText(b.underlyingBlock)
  {
    IndentInverse("\n" + BlockText(b.underlyingBlock));
  }
}
