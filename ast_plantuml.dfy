/** `PlantUMLConverter`: a depth-first walk of a syntax tree that numbers
    the nodes it draws with a counter and collects the lines of a PlantUML
    state diagram. */
module AstPlantUml {
  import opened Util
  import opened AstNodes

  /** `ASTNode`: any node can be the root of a conversion. */
  datatype Node =
    | BlockNode(block: Block)
    | BracedBlockNode(braced: BracedBlock)
    | StatementNode(statement: Statement)
    | ExpressionNode(expression: Expression)

  /** The kinds of line the converter writes. */
  datatype Line =
    | OpenState(title: string, id: nat)
    | LeafState(title: string, id: nat)
    | Separator
    | CloseState
    | Description(id: nat, entry: Entry)
    | Edge(from: nat, to: nat, edgeLabel: string)

  function LineText(l: Line): string {
    match l
    case OpenState(title, id) => "state \"" + title + "\" as " + NatToString(id) + " {"
    case LeafState(title, id) => "state \"" + title + "\" as " + NatToString(id)
    case Separator => "||"
    case CloseState => "}"
    case Description(id, entry) => NatToString(id) + ": " + EntryText(entry)
    case Edge(from, to, title) => NatToString(from) + " --> " + NatToString(to) + ": " + title
  }

  /** The text of each line, in order. */
  function Texts(lines: seq<Line>): (ts: seq<string>)
    ensures |ts| == |lines|
  {
    if lines == [] then [] else Texts(lines[..|lines| - 1]) + [LineText(lines[|lines| - 1])]
  }

  lemma {:induction false} TextsAppend(a: seq<Line>, b: seq<Line>)
    ensures Texts(a + b) == Texts(a) + Texts(b)
    decreases |b|
  {
    if b == [] {
      assert a + b == a;
    } else {
      var b' := b[..|b| - 1];
      assert (a + b)[..|a + b| - 1] == a + b';
      TextsAppend(a, b');
    }
  }

  /** Writing `b` and `c` after `a` one at a time writes `b + c`. */
  lemma AppendTwo<T>(a: seq<T>, b: seq<T>, c: seq<T>)
    ensures a + (b + c) == a + b + c
  {
  }

  /** Writing `b`, `c` and `d` after `a` one at a time writes `b + c + d`. */
  lemma AppendThree<T>(a: seq<T>, b: seq<T>, c: seq<T>, d: seq<T>)
    ensures a + (b + c + d) == a + b + c + d
  {
  }

  /** The lines one walk writes, the id it returns and the counter after it. */
  datatype Emission = Emission(lines: seq<Line>, id: nat, next: nat)

  /** The lines a walk over a list writes, the ids of the list's nodes and
      the counter after it. */
  datatype Batch = Batch(lines: seq<Line>, ids: seq<nat>, next: nat)

  /** The lines `description.mapTo(intermediateResult) { "$id: $it" }` adds. */
  function Descriptions(id: nat, entries: seq<Entry>): (ls: seq<Line>)
    ensures |ls| == |entries|
  {
    if entries == [] then []
    else Descriptions(id, entries[..|entries| - 1]) + [Description(id, entries[|entries| - 1])]
  }

  /** `addVertex` with an empty body. */
  function Vertex(id: nat, title: string, entries: seq<Entry>): seq<Line> {
    [LeafState(title, id)] + Descriptions(id, entries)
  }

  function Quoted(s: string): string { "\"" + s + "\"" }

  /** One entry of a vertex's `description` list, printed by `EntryText`. */
  datatype Entry =
    | PositionEntry(position: Position)
    | NameEntry(name: string)
    | IdentifierEntry(name: string)
    | ValueEntry(value: int)
    | OperatorEntry(operator: Op)
    | ParameterEntry(name: string)

  function EntryText(e: Entry): string {
    match e
    case PositionEntry(p) => "position: " + PositionText(p)
    case NameEntry(name) => "name: " + Quoted(name)
    case IdentifierEntry(name) => "identifier: " + Quoted(name)
    case ValueEntry(v) => "value: " + IntToString(v)
    case OperatorEntry(op) => "operator: " + Quoted(OpText(op))
    case ParameterEntry(name) => name
  }

  /** `parameters.map { identifier -> identifier.text }`. */
  function ParameterEntries(ps: seq<Identifier>): (es: seq<Entry>)
    ensures |es| == |ps|
  {
    if ps == [] then [] else ParameterEntries(ps[..|ps| - 1]) + [ParameterEntry(ps[|ps| - 1].text)]
  }

  /** `dfsBlock`: a composite state whose sub-diagrams, one per statement, are
      separated by `||`; a block without statements is a plain state. */
  function EmitBlock(b: Block, n: nat): Emission
    decreases b, |b.statements| + 1
  {
    var body := EmitStatements(b, |b.statements|, n + 1);
    var vertex :=
      if |b.statements| > 0 then [OpenState("code block", n)] + body.lines + [CloseState]
      else [LeafState("code block", n)];
    Emission(vertex + Descriptions(n, [PositionEntry(b.position)]), n, body.next)
  }

  /** One unfolding of `EmitBlock`, for the converter's proof. */
  lemma EmitBlockShape(b: Block, n: nat)
    ensures var body := EmitStatements(b, |b.statements|, n + 1);
      EmitBlock(b, n) ==
      Emission((if |b.statements| > 0 then [OpenState("code block", n)] + body.lines + [CloseState]
                else [LeafState("code block", n)]) + Descriptions(n, [PositionEntry(b.position)]), n, body.next)
  {
  }

  /** The walks over the first `k` statements of `b`, separated by `||`. */
  function EmitStatements(b: Block, k: nat, m: nat): (r: Batch)
    requires k <= |b.statements|
    ensures |r.ids| == k
    decreases b, k
  {
    if k == 0 then Batch([], [], m)
    else
      var prev := EmitStatements(b, k - 1, m);
      var s := EmitStatement(b.statements[k - 1], prev.next);
      Batch(prev.lines + (if k == 1 then [] else [Separator]) + s.lines, prev.ids + [s.id], s.next)
  }

  /** `dfs` on a `BracedBlock`: the walk of the block inside. */
  function EmitBraced(b: BracedBlock, n: nat): Emission
    decreases b, 0
  {
    EmitBlock(b.underlyingBlock, n)
  }

  /** `dfs` on a statement. */
  function EmitStatement(s: Statement, n: nat): Emission
    decreases s, 1
  {
    match s
    case FunctionDefinition(_, _, _, _) => EmitFunctionDefinition(s, n)
    case VariableDefinition(_, _, _) => EmitVariableDefinition(s, n)
    case ReadStatement(pos, id) =>
      Emission(Vertex(n, "read", [PositionEntry(pos), IdentifierEntry(id.text)]), n, n + 1)
    case WriteStatement(_, _) => EmitWriteStatement(s, n)
    case WhileCycle(_, _, _) => EmitWhileCycle(s, n)
    case IfClause(_, _, _, _) => EmitIfClause(s, n)
    case VariableAssignment(_, _, _) => EmitVariableAssignment(s, n)
    case FunctionCall(_, _, _) => EmitFunctionCall(s, n)
  }

  /** `addEdge(id, dfs(child), title)` after the lines written so far. */
  function WithChild(lines: seq<Line>, id: nat, child: Emission, title: string): seq<Line> {
    lines + child.lines + [Edge(id, child.id, title)]
  }

  function EmitFunctionDefinition(s: Statement, n: nat): Emission
    requires s.FunctionDefinition?
    decreases s, 0
  {
    var c := EmitBraced(s.body, n + 1);
    var v := Vertex(n, "function definition",
                    [NameEntry(s.identifier.text), PositionEntry(s.position)] + ParameterEntries(s.parameters));
    Emission(WithChild(v, n, c, "body"), n, c.next)
  }

  function EmitVariableDefinition(s: Statement, n: nat): Emission
    requires s.VariableDefinition?
    decreases s, 0
  {
    var v := Vertex(n, "variable definition", [NameEntry(s.identifier.text), PositionEntry(s.position)]);
    if s.value.Some? then
      var c := EmitExpression(s.value.value, n + 1);
      Emission(WithChild(v, n, c, "value"), n, c.next)
    else Emission(v, n, n + 1)
  }

  function EmitWriteStatement(s: Statement, n: nat): Emission
    requires s.WriteStatement?
    decreases s, 0
  {
    var c := EmitExpression(s.expression, n + 1);
    Emission(WithChild(Vertex(n, "write", [PositionEntry(s.position)]), n, c, "value"), n, c.next)
  }

  function EmitWhileCycle(s: Statement, n: nat): Emission
    requires s.WhileCycle?
    decreases s, 0
  {
    var c := EmitExpression(s.condition, n + 1);
    var d := EmitBraced(s.body, c.next);
    Emission(WithChild(WithChild(Vertex(n, "while", [PositionEntry(s.position)]), n, c, "condition"), n, d, "body"),
             n, d.next)
  }

  function EmitIfClause(s: Statement, n: nat): Emission
    requires s.IfClause?
    decreases s, 0
  {
    var c := EmitExpression(s.condition, n + 1);
    var d := EmitBraced(s.thenBody, c.next);
    var lines := WithChild(WithChild(Vertex(n, "if", [PositionEntry(s.position)]), n, c, "condition"), n, d, "then");
    if s.elseBody.Some? then
      var f := EmitBraced(s.elseBody.value, d.next);
      Emission(WithChild(lines, n, f, "else"), n, f.next)
    else Emission(lines, n, d.next)
  }

  function EmitVariableAssignment(s: Statement, n: nat): Emission
    requires s.VariableAssignment?
    decreases s, 0
  {
    var c := EmitExpression(s.newValue, n + 1);
    var v := Vertex(n, "variable assignment", [NameEntry(s.identifier.text), PositionEntry(s.position)]);
    Emission(WithChild(v, n, c, "new value"), n, c.next)
  }

  function EmitFunctionCall(s: Statement, n: nat): Emission
    requires s.FunctionCall?
    decreases s, 0
  {
    var c := EmitArguments(s.arguments, n + 1);
    var v := Vertex(n, "function call", [NameEntry(s.identifier.text), PositionEntry(s.position)]);
    Emission(v + c.lines + ParameterEdges(n, c.ids), n, c.next)
  }

  /** `forEachIndexed { index, parameterId -> addEdge(id, parameterId, "parameter #$index") }`. */
  function ParameterEdges(n: nat, ids: seq<nat>): (ls: seq<Line>)
    ensures |ls| == |ids|
  {
    if ids == [] then []
    else ParameterEdges(n, ids[..|ids| - 1]) + [Edge(n, ids[|ids| - 1], "parameter #" + NatToString(|ids| - 1))]
  }

  /** `parameters.map { dfs(it) }`: the walks over the arguments, one after the other. */
  function EmitArguments(es: seq<Expression>, m: nat): (r: Batch)
    ensures |r.ids| == |es|
  {
    if es == [] then Batch([], [], m)
    else
      var prev := EmitArguments(es[..|es| - 1], m);
      var e := EmitExpression(es[|es| - 1], prev.next);
      Batch(prev.lines + e.lines, prev.ids + [e.id], e.next)
  }

  /** `dfs` on an expression; a braced expression draws nothing of its own. */
  function EmitExpression(e: Expression, n: nat): Emission
    decreases e, 1
  {
    match e
    case Name(id) =>
      Emission(Vertex(n, "identifier reference", [NameEntry(id.text), PositionEntry(id.position)]), n, n + 1)
    case Number(pos, v) =>
      Emission(Vertex(n, "number", [PositionEntry(pos), ValueEntry(v)]), n, n + 1)
    case BracedExpression(_, inner) =>
      EmitExpression(inner, n)
    case BinaryExpression(_, _, _, _) => EmitBinaryExpression(e, n)
  }

  function EmitBinaryExpression(e: Expression, n: nat): Emission
    requires e.BinaryExpression?
    decreases e, 0
  {
    var c := EmitExpression(e.left, n + 1);
    var d := EmitExpression(e.right, c.next);
    var v := Vertex(n, "binary expression", [PositionEntry(e.position), OperatorEntry(e.operator)]);
    Emission(WithChild(WithChild(v, n, c, "left"), n, d, "right"), n, d.next)
  }

  /** `dfs`. */
  function Emit(node: Node, n: nat): Emission {
    match node
    case BlockNode(b) => EmitBlock(b, n)
    case BracedBlockNode(b) => EmitBraced(b, n)
    case StatementNode(s) => EmitStatement(s, n)
    case ExpressionNode(e) => EmitExpression(e, n)
  }

  /** `AST.toPlantUML`. */
  function PlantUml(root: Node): string {
    "@startuml\n" + Join(Texts(Emit(root, 0).lines), "\n") + "\n@enduml"
  }

  // The converter

  class PlantUmlConverter {
    const root: Node
    var nodeCount: nat
    /** The diagram's lines so far; each is printed by `LineText`. */
    var intermediateResult: seq<Line>
    var result: string

    /** Runs `convert` once, as the initialiser of `result` does. */
    constructor(root: Node)
      ensures this.root == root
      ensures result == PlantUml(root)
      ensures nodeCount == Emit(root, 0).next
    {
      this.root := root;
      nodeCount := 0;
      intermediateResult := [];
      result := "";
      new;
      result := Convert();
    }

    method Convert() returns (r: string)
      requires nodeCount == 0 && intermediateResult == []
      modifies this
      ensures r == PlantUml(root)
      ensures nodeCount == Emit(root, 0).next
    {
      var _ := Dfs(root);
      assert intermediateResult == Emit(root, 0).lines;
      r := "@startuml\n" + Join(Texts(intermediateResult), "\n") + "\n@enduml";
    }

    /** Writes one line of the diagram. */
    method AddLine(l: Line)
      modifies this
      ensures intermediateResult == old(intermediateResult) + [l] && nodeCount == old(nodeCount)
    {
      intermediateResult := intermediateResult + [l];
    }

    method AddEdge(from: nat, to: nat, title: string)
      modifies this
      ensures intermediateResult == old(intermediateResult) + [Edge(from, to, title)] && nodeCount == old(nodeCount)
    {
      AddLine(Edge(from, to, title));
    }

    /** `addVertex` for the nodes that pass no body. */
    method AddVertex(id: nat, title: string, description: seq<Entry>)
      modifies this
      ensures intermediateResult == old(intermediateResult) + Vertex(id, title, description) && nodeCount == old(nodeCount)
    {
      AddLine(LeafState(title, id));
      AddDescription(id, description);
    }

    /** `description.mapTo(intermediateResult) { "$id: $it" }`. */
    method AddDescription(id: nat, description: seq<Entry>)
      modifies this
      ensures intermediateResult == old(intermediateResult) + Descriptions(id, description) && nodeCount == old(nodeCount)
    {
      for i := 0 to |description|
        invariant intermediateResult == old(intermediateResult) + Descriptions(id, description[..i])
        invariant nodeCount == old(nodeCount)
      {
        assert description[..i + 1][..i] == description[..i];
        AddLine(Description(id, description[i]));
      }
      assert description[..|description|] == description;
    }

    /** `dfsBlock`, with the body part of `addVertex`: the statements'
        sub-diagrams inside the state, separated by `||`. */
    method DfsBlock(b: Block) returns (id: nat)
      modifies this
      ensures var e := EmitBlock(b, old(nodeCount));
        intermediateResult == old(intermediateResult) + e.lines && nodeCount == e.next && id == e.id
      decreases b, |b.statements| + 2
    {
      id := nodeCount;
      nodeCount := nodeCount + 1;
      ghost var body := EmitStatements(b, |b.statements|, id + 1);
      if |b.statements| > 0 {
        AddLine(OpenState("code block", id));
        DfsBody(b);
        AddLine(CloseState);
        AppendThree(old(intermediateResult), [OpenState("code block", id)], body.lines, [CloseState]);
      } else {
        AddLine(LeafState("code block", id));
      }
      ghost var vertex := if |b.statements| > 0 then [OpenState("code block", id)] + body.lines + [CloseState]
                          else [LeafState("code block", id)];
      AddDescription(id, [PositionEntry(b.position)]);
      AppendTwo(old(intermediateResult), vertex, Descriptions(id, [PositionEntry(b.position)]));
      EmitBlockShape(b, id);
    }

    /** The body part of `addVertex`: each statement's sub-diagram, with `||`
        between one and the next. */
    method DfsBody(b: Block)
      modifies this
      ensures var r := EmitStatements(b, |b.statements|, old(nodeCount));
        intermediateResult == old(intermediateResult) + r.lines && nodeCount == r.next
      decreases b, |b.statements| + 1
    {
      var statements := b.statements;
      for k := 0 to |statements|
        invariant var r := EmitStatements(b, k, old(nodeCount));
          intermediateResult == old(intermediateResult) + r.lines && nodeCount == r.next
      {
        ghost var prev := EmitStatements(b, k, old(nodeCount));
        if k > 0 {
          AddLine(Separator);
        }
        var _ := DfsStatement(statements[k]);
        AppendThree(old(intermediateResult), prev.lines, if k == 0 then [] else [Separator],
                    EmitStatement(statements[k], prev.next).lines);
      }
    }

    /** `dfs` on a `BracedBlock`. */
    method DfsBraced(b: BracedBlock) returns (id: nat)
      modifies this
      ensures var e := EmitBraced(b, old(nodeCount));
        intermediateResult == old(intermediateResult) + e.lines && nodeCount == e.next && id == e.id
      decreases b, 0
    {
      id := DfsBlock(b.underlyingBlock);
    }

    /** `dfs` on a statement. */
    method DfsStatement(s: Statement) returns (id: nat)
      modifies this
      ensures var e := EmitStatement(s, old(nodeCount));
        intermediateResult == old(intermediateResult) + e.lines && nodeCount == e.next && id == e.id
      decreases s, 1
    {
      match s
      case FunctionDefinition(_, _, _, _) => id := DfsFunctionDefinition(s);
      case VariableDefinition(_, _, _) => id := DfsVariableDefinition(s);
      case ReadStatement(_, _) => id := DfsReadStatement(s);
      case WriteStatement(_, _) => id := DfsWriteStatement(s);
      case WhileCycle(_, _, _) => id := DfsWhileCycle(s);
      case IfClause(_, _, _, _) => id := DfsIfClause(s);
      case VariableAssignment(_, _, _) => id := DfsVariableAssignment(s);
      case FunctionCall(_, _, _) => id := DfsFunctionCall(s);
    }

    method DfsFunctionDefinition(s: Statement) returns (id: nat)
      requires s.FunctionDefinition?
      modifies this
      ensures var e := EmitFunctionDefinition(s, old(nodeCount));
        intermediateResult == old(intermediateResult) + e.lines && nodeCount == e.next && id == e.id
      decreases s, 0
    {
      id := nodeCount;
      nodeCount := nodeCount + 1;
      var description := [NameEntry(s.identifier.text), PositionEntry(s.position)] + ParameterEntries(s.parameters);
      AddVertex(id, "function definition", description);
      var body := DfsBraced(s.body);
      AddEdge(id, body, "body");
      AppendThree(old(intermediateResult), Vertex(id, "function definition", description),
                  EmitBraced(s.body, id + 1).lines, [Edge(id, body, "body")]);
    }

    method DfsVariableDefinition(s: Statement) returns (id: nat)
      requires s.VariableDefinition?
      modifies this
      ensures var e := EmitVariableDefinition(s, old(nodeCount));
        intermediateResult == old(intermediateResult) + e.lines && nodeCount == e.next && id == e.id
      decreases s, 0
    {
      id := nodeCount;
      nodeCount := nodeCount + 1;
      AddVertex(id, "variable definition", [NameEntry(s.identifier.text), PositionEntry(s.position)]);
      if s.value.Some? {
        var value := DfsExpression(s.value.value);
        AddEdge(id, value, "value");
        AppendThree(old(intermediateResult), Vertex(id, "variable definition", [NameEntry(s.identifier.text), PositionEntry(s.position)]),
                    EmitExpression(s.value.value, id + 1).lines, [Edge(id, value, "value")]);
      }
    }

    method DfsReadStatement(s: Statement) returns (id: nat)
      requires s.ReadStatement?
      modifies this
      ensures var e := EmitStatement(s, old(nodeCount));
        intermediateResult == old(intermediateResult) + e.lines && nodeCount == e.next && id == e.id
    {
      id := nodeCount;
      nodeCount := nodeCount + 1;
      AddVertex(id, "read", [PositionEntry(s.position), IdentifierEntry(s.identifier.text)]);
    }

    method DfsWriteStatement(s: Statement) returns (id: nat)
      requires s.WriteStatement?
      modifies this
      ensures var e := EmitWriteStatement(s, old(nodeCount));
        intermediateResult == old(intermediateResult) + e.lines && nodeCount == e.next && id == e.id
      decreases s, 0
    {
      id := nodeCount;
      nodeCount := nodeCount + 1;
      AddVertex(id, "write", [PositionEntry(s.position)]);
      var value := DfsExpression(s.expression);
      AddEdge(id, value, "value");
      AppendThree(old(intermediateResult), Vertex(id, "write", [PositionEntry(s.position)]),
                  EmitExpression(s.expression, id + 1).lines, [Edge(id, value, "value")]);
    }

    method DfsWhileCycle(s: Statement) returns (id: nat)
      requires s.WhileCycle?
      modifies this
      ensures var e := EmitWhileCycle(s, old(nodeCount));
        intermediateResult == old(intermediateResult) + e.lines && nodeCount == e.next && id == e.id
      decreases s, 0
    {
      id := nodeCount;
      nodeCount := nodeCount + 1;
      ghost var v := Vertex(id, "while", [PositionEntry(s.position)]);
      AddVertex(id, "while", [PositionEntry(s.position)]);
      ghost var c := EmitExpression(s.condition, id + 1);
      var condition := DfsExpression(s.condition);
      AddEdge(id, condition, "condition");
      AppendThree(old(intermediateResult), v, c.lines, [Edge(id, condition, "condition")]);
      var body := DfsBraced(s.body);
      AddEdge(id, body, "body");
      AppendThree(old(intermediateResult), WithChild(v, id, c, "condition"), EmitBraced(s.body, c.next).lines, [Edge(id, body, "body")]);
    }

    method DfsIfClause(s: Statement) returns (id: nat)
      requires s.IfClause?
      modifies this
      ensures var e := EmitIfClause(s, old(nodeCount));
        intermediateResult == old(intermediateResult) + e.lines && nodeCount == e.next && id == e.id
      decreases s, 0
    {
      id := nodeCount;
      nodeCount := nodeCount + 1;
      ghost var v := Vertex(id, "if", [PositionEntry(s.position)]);
      AddVertex(id, "if", [PositionEntry(s.position)]);
      ghost var c := EmitExpression(s.condition, id + 1);
      var condition := DfsExpression(s.condition);
      AddEdge(id, condition, "condition");
      AppendThree(old(intermediateResult), v, c.lines, [Edge(id, condition, "condition")]);
      ghost var d := EmitBraced(s.thenBody, c.next);
      var thenBody := DfsBraced(s.thenBody);
      AddEdge(id, thenBody, "then");
      AppendThree(old(intermediateResult), WithChild(v, id, c, "condition"), d.lines, [Edge(id, thenBody, "then")]);
      if s.elseBody.Some? {
        var elseBody := DfsBraced(s.elseBody.value);
        AddEdge(id, elseBody, "else");
        AppendThree(old(intermediateResult), WithChild(WithChild(v, id, c, "condition"), id, d, "then"),
                    EmitBraced(s.elseBody.value, d.next).lines, [Edge(id, elseBody, "else")]);
      }
    }

    method DfsVariableAssignment(s: Statement) returns (id: nat)
      requires s.VariableAssignment?
      modifies this
      ensures var e := EmitVariableAssignment(s, old(nodeCount));
        intermediateResult == old(intermediateResult) + e.lines && nodeCount == e.next && id == e.id
      decreases s, 0
    {
      id := nodeCount;
      nodeCount := nodeCount + 1;
      AddVertex(id, "variable assignment", [NameEntry(s.identifier.text), PositionEntry(s.position)]);
      var newValue := DfsExpression(s.newValue);
      AddEdge(id, newValue, "new value");
      AppendThree(old(intermediateResult), Vertex(id, "variable assignment", [NameEntry(s.identifier.text), PositionEntry(s.position)]),
                  EmitExpression(s.newValue, id + 1).lines, [Edge(id, newValue, "new value")]);
    }

    method DfsFunctionCall(s: Statement) returns (id: nat)
      requires s.FunctionCall?
      modifies this
      ensures var e := EmitFunctionCall(s, old(nodeCount));
        intermediateResult == old(intermediateResult) + e.lines && nodeCount == e.next && id == e.id
      decreases s, 0
    {
      id := nodeCount;
      nodeCount := nodeCount + 1;
      AddVertex(id, "function call", [NameEntry(s.identifier.text), PositionEntry(s.position)]);
      var ids := DfsArguments(s.arguments);
      ghost var c := EmitArguments(s.arguments, id + 1);
      AddParameterEdges(id, ids);
      AppendThree(old(intermediateResult), Vertex(id, "function call", [NameEntry(s.identifier.text), PositionEntry(s.position)]),
                  c.lines, ParameterEdges(id, ids));
    }

    /** `forEachIndexed { index, parameterId -> addEdge(id, parameterId, "parameter #$index") }`. */
    method AddParameterEdges(id: nat, ids: seq<nat>)
      modifies this
      ensures intermediateResult == old(intermediateResult) + ParameterEdges(id, ids) && nodeCount == old(nodeCount)
    {
      for i := 0 to |ids|
        invariant intermediateResult == old(intermediateResult) + ParameterEdges(id, ids[..i])
        invariant nodeCount == old(nodeCount)
      {
        assert ids[..i + 1][..i] == ids[..i];
        AddEdge(id, ids[i], "parameter #" + NatToString(i));
        AppendTwo(old(intermediateResult), ParameterEdges(id, ids[..i]), [Edge(id, ids[i], "parameter #" + NatToString(i))]);
      }
      assert ids[..|ids|] == ids;
    }

    /** `parameters.map { dfs(it) }`. */
    method DfsArguments(es: seq<Expression>) returns (ids: seq<nat>)
      modifies this
      ensures var r := EmitArguments(es, old(nodeCount));
        intermediateResult == old(intermediateResult) + r.lines && nodeCount == r.next && ids == r.ids
      decreases es
    {
      ids := [];
      for k := 0 to |es|
        invariant var r := EmitArguments(es[..k], old(nodeCount));
          intermediateResult == old(intermediateResult) + r.lines && nodeCount == r.next && ids == r.ids
      {
        assert es[..k + 1][..k] == es[..k];
        var child := DfsExpression(es[k]);
        ids := ids + [child];
      }
      assert es[..|es|] == es;
    }

    /** `dfs` on an expression. */
    method DfsExpression(e: Expression) returns (id: nat)
      modifies this
      ensures var r := EmitExpression(e, old(nodeCount));
        intermediateResult == old(intermediateResult) + r.lines && nodeCount == r.next && id == r.id
      decreases e, 1
    {
      match e
      case Name(_) => id := DfsIdentifier(e);
      case Number(_, _) => id := DfsNumber(e);
      case BracedExpression(_, _) => id := DfsBracedExpression(e);
      case BinaryExpression(_, _, _, _) => id := DfsBinaryExpression(e);
    }

    method DfsIdentifier(e: Expression) returns (id: nat)
      requires e.Name?
      modifies this
      ensures var r := EmitExpression(e, old(nodeCount));
        intermediateResult == old(intermediateResult) + r.lines && nodeCount == r.next && id == r.id
    {
      id := nodeCount;
      nodeCount := nodeCount + 1;
      AddVertex(id, "identifier reference", [NameEntry(e.identifier.text), PositionEntry(e.identifier.position)]);
    }

    method DfsNumber(e: Expression) returns (id: nat)
      requires e.Number?
      modifies this
      ensures var r := EmitExpression(e, old(nodeCount));
        intermediateResult == old(intermediateResult) + r.lines && nodeCount == r.next && id == r.id
    {
      id := nodeCount;
      nodeCount := nodeCount + 1;
      AddVertex(id, "number", [PositionEntry(e.position), ValueEntry(e.value)]);
    }

    method DfsBracedExpression(e: Expression) returns (id: nat)
      requires e.BracedExpression?
      modifies this
      ensures var r := EmitExpression(e, old(nodeCount));
        intermediateResult == old(intermediateResult) + r.lines && nodeCount == r.next && id == r.id
      decreases e, 0
    {
      id := DfsExpression(e.underlyingExpression);
    }

    method DfsBinaryExpression(e: Expression) returns (id: nat)
      requires e.BinaryExpression?
      modifies this
      ensures var r := EmitBinaryExpression(e, old(nodeCount));
        intermediateResult == old(intermediateResult) + r.lines && nodeCount == r.next && id == r.id
      decreases e, 0
    {
      id := nodeCount;
      nodeCount := nodeCount + 1;
      ghost var v := Vertex(id, "binary expression", [PositionEntry(e.position), OperatorEntry(e.operator)]);
      AddVertex(id, "binary expression", [PositionEntry(e.position), OperatorEntry(e.operator)]);
      ghost var c := EmitExpression(e.left, id + 1);
      var left := DfsExpression(e.left);
      AddEdge(id, left, "left");
      AppendThree(old(intermediateResult), v, c.lines, [Edge(id, left, "left")]);
      var right := DfsExpression(e.right);
      AddEdge(id, right, "right");
      AppendThree(old(intermediateResult), WithChild(v, id, c, "left"), EmitExpression(e.right, c.next).lines, [Edge(id, right, "right")]);
    }

    /** `dfs`. */
    method Dfs(node: Node) returns (id: nat)
      modifies this
      ensures var r := Emit(node, old(nodeCount));
        intermediateResult == old(intermediateResult) + r.lines && nodeCount == r.next && id == r.id
    {
      match node
      case BlockNode(b) => id := DfsBlock(b);
      case BracedBlockNode(b) => id := DfsBraced(b);
      case StatementNode(s) => id := DfsStatement(s);
      case ExpressionNode(e) => id := DfsExpression(e);
    }
  }
}
