/** What the PlantUML walk guarantees about the diagram it writes: the
    counter numbers the drawn nodes consecutively in pre-order, every edge
    goes from a node to one drawn after it inside the same walk, and the
    composite states are properly nested. */
module AstPlantUmlFacts {
  import opened Util
  import opened AstNodes
  import opened AstPlantUml

  /** A drawn state: its title and the id the counter gave it. */
  datatype Drawn = Drawn(title: string, id: nat)

  /** The states the lines draw, in order. */
  function States(lines: seq<Line>): seq<Drawn> {
    if lines == [] then [] else StateOf(lines[0]) + States(lines[1..])
  }

  /** The state a single line draws, if it draws one. */
  function StateOf(l: Line): seq<Drawn> {
    match l
    case OpenState(title, id) => [Drawn(title, id)]
    case LeafState(title, id) => [Drawn(title, id)]
    case _ => []
  }

  /** `titles` numbered consecutively from `n`. */
  function Numbered(titles: seq<string>, n: nat): (r: seq<Drawn>)
    ensures |r| == |titles|
  {
    if titles == [] then [] else [Drawn(titles[0], n)] + Numbered(titles[1..], n + 1)
  }

  /** Reads the lines with `depth` composite states open: `None` when a `}`
      or a `||` appears outside every composite state, otherwise the depth
      at the end. */
  function Scan(lines: seq<Line>, depth: nat): Option<nat> {
    if lines == [] then Some(depth)
    else
      match lines[0]
      case OpenState(_, _) => Scan(lines[1..], depth + 1)
      case CloseState => if depth == 0 then None else Scan(lines[1..], depth - 1)
      case Separator => if depth == 0 then None else Scan(lines[1..], depth)
      case _ => Scan(lines[1..], depth)
  }

  /** Every edge leads from a node to a later one, both numbered in `[lo, hi)`. */
  ghost predicate EdgesWithin(lines: seq<Line>, lo: nat, hi: nat) {
    forall i :: 0 <= i < |lines| && lines[i].Edge? ==> lo <= lines[i].from < lines[i].to < hi
  }

  /** The lines draw `titles` numbered from `n` and are balanced when read
      with `depth` states open. */
  ghost predicate Drawing(lines: seq<Line>, n: nat, titles: seq<string>, depth: nat) {
    States(lines) == Numbered(titles, n) && Scan(lines, depth) == Some(depth)
  }

  /** What one walk from counter `n` promises, `titles` being the node kinds
      it draws in pre-order. */
  ghost predicate Sound(e: Emission, n: nat, titles: seq<string>) {
    e.id == n && e.next == n + |titles| && Drawing(e.lines, n, titles, 0) && EdgesWithin(e.lines, n, e.next)
  }

  // Pre-order listings of the node kinds, independent of the walk

  function PreorderBlock(b: Block): (r: seq<string>)
    ensures |r| > 0
    decreases b, |b.statements| + 1
  {
    ["code block"] + PreorderStatements(b, |b.statements|)
  }

  function PreorderStatements(b: Block, k: nat): seq<string>
    requires k <= |b.statements|
    decreases b, k
  {
    if k == 0 then [] else PreorderStatements(b, k - 1) + PreorderStatement(b.statements[k - 1])
  }

  function PreorderBraced(b: BracedBlock): (r: seq<string>)
    ensures |r| > 0
    decreases b, 0
  {
    PreorderBlock(b.underlyingBlock)
  }

  function PreorderStatement(s: Statement): (r: seq<string>)
    ensures |r| > 0
    decreases s, 0
  {
    match s
    case FunctionDefinition(_, _, _, body) => ["function definition"] + PreorderBraced(body)
    case VariableDefinition(_, _, value) =>
      ["variable definition"] + (if value.Some? then PreorderExpression(value.value) else [])
    case ReadStatement(_, _) => ["read"]
    case WriteStatement(_, e) => ["write"] + PreorderExpression(e)
    case WhileCycle(_, c, body) => ["while"] + PreorderExpression(c) + PreorderBraced(body)
    case IfClause(_, c, t, e) =>
      ["if"] + PreorderExpression(c) + PreorderBraced(t) + (if e.Some? then PreorderBraced(e.value) else [])
    case VariableAssignment(_, _, v) => ["variable assignment"] + PreorderExpression(v)
    case FunctionCall(_, _, args) => ["function call"] + PreorderArguments(args)
  }

  function PreorderArguments(es: seq<Expression>): seq<string> {
    if es == [] then [] else PreorderArguments(es[..|es| - 1]) + PreorderExpression(es[|es| - 1])
  }

  function PreorderExpression(e: Expression): (r: seq<string>)
    ensures |r| > 0
  {
    match e
    case Name(_) => ["identifier reference"]
    case Number(_, _) => ["number"]
    case BracedExpression(_, inner) => PreorderExpression(inner)
    case BinaryExpression(_, l, _, r) => ["binary expression"] + PreorderExpression(l) + PreorderExpression(r)
  }

  // Building blocks

  lemma {:induction false} StatesAppend(a: seq<Line>, b: seq<Line>)
    ensures States(a + b) == States(a) + States(b)
    decreases |a|
  {
    if a == [] {
      assert a + b == b;
    } else {
      var ab := a + b;
      assert ab[0] == a[0];
      assert ab[1..] == a[1..] + b;
      StatesAppend(a[1..], b);
      assert States(ab) == StateOf(a[0]) + (States(a[1..]) + States(b));
    }
  }

  lemma {:induction false} NumberedIndex(titles: seq<string>, n: nat, i: nat)
    requires i < |titles|
    ensures Numbered(titles, n)[i] == Drawn(titles[i], n + i)
    decreases i
  {
    if i > 0 {
      NumberedIndex(titles[1..], n + 1, i - 1);
    }
  }

  lemma {:induction false} NumberedAppend(ta: seq<string>, tb: seq<string>, n: nat)
    ensures Numbered(ta + tb, n) == Numbered(ta, n) + Numbered(tb, n + |ta|)
    decreases |ta|
  {
    if ta == [] {
      assert ta + tb == tb;
    } else {
      assert (ta + tb)[1..] == ta[1..] + tb;
      NumberedAppend(ta[1..], tb, n + 1);
    }
  }

  lemma {:induction false} ScanAppend(a: seq<Line>, b: seq<Line>, depth: nat)
    requires Scan(a, depth).Some?
    ensures Scan(a + b, depth) == Scan(b, Scan(a, depth).value)
    decreases |a|
  {
    if a == [] {
      assert a + b == b;
    } else {
      assert (a + b)[0] == a[0];
      assert (a + b)[1..] == a[1..] + b;
      match a[0]
      case OpenState(_, _) => ScanAppend(a[1..], b, depth + 1);
      case CloseState => ScanAppend(a[1..], b, depth - 1);
      case _ => ScanAppend(a[1..], b, depth);
    }
  }

  /** Edges below one bound are below any larger one. */
  lemma EdgesWiden(lines: seq<Line>, lo: nat, hi: nat, hi': nat)
    requires EdgesWithin(lines, lo, hi) && hi <= hi'
    ensures EdgesWithin(lines, lo, hi')
  {
  }

  /** Lines balanced with no state open stay balanced inside one more. */
  lemma {:induction false} ScanShift(lines: seq<Line>, depth: nat)
    requires Scan(lines, depth).Some?
    ensures Scan(lines, depth + 1) == Some(Scan(lines, depth).value + 1)
    decreases |lines|
  {
    if lines != [] {
      match lines[0]
      case OpenState(_, _) => ScanShift(lines[1..], depth + 1);
      case CloseState => ScanShift(lines[1..], depth - 1);
      case _ => ScanShift(lines[1..], depth);
    }
  }

  lemma DrawingAppend(a: seq<Line>, b: seq<Line>, n: nat, ta: seq<string>, tb: seq<string>, depth: nat)
    requires Drawing(a, n, ta, depth) && Drawing(b, n + |ta|, tb, depth)
    ensures Drawing(a + b, n, ta + tb, depth)
  {
    StatesAppend(a, b);
    NumberedAppend(ta, tb, n);
    ScanAppend(a, b, depth);
  }

  lemma EdgesAppend(a: seq<Line>, b: seq<Line>, lo: nat, hi: nat)
    requires EdgesWithin(a, lo, hi) && EdgesWithin(b, lo, hi)
    ensures EdgesWithin(a + b, lo, hi)
  {
    forall i | 0 <= i < |a + b| && (a + b)[i].Edge?
      ensures lo <= (a + b)[i].from < (a + b)[i].to < hi
    {
      if i >= |a| {
        assert (a + b)[i] == b[i - |a|];
      }
    }
  }

  lemma {:induction false} DescriptionsDrawNothing(id: nat, entries: seq<Entry>, depth: nat)
    ensures Drawing(Descriptions(id, entries), id, [], depth)
    ensures EdgesWithin(Descriptions(id, entries), 0, 0)
    decreases |entries|
  {
    if entries != [] {
      var last := entries[|entries| - 1];
      DescriptionsDrawNothing(id, entries[..|entries| - 1], depth);
      DrawingAppend(Descriptions(id, entries[..|entries| - 1]), [Description(id, last)], id, [], [], depth);
      EdgesAppend(Descriptions(id, entries[..|entries| - 1]), [Description(id, last)], 0, 0);
    }
  }

  lemma VertexDrawsItself(id: nat, title: string, entries: seq<Entry>, hi: nat)
    ensures Drawing(Vertex(id, title, entries), id, [title], 0)
    ensures EdgesWithin(Vertex(id, title, entries), id, hi)
  {
    DescriptionsDrawNothing(id, entries, 0);
    DrawingAppend([LeafState(title, id)], Descriptions(id, entries), id, [title], [], 0);
    assert [title] + [] == [title];
    EdgesAppend([LeafState(title, id)], Descriptions(id, entries), id, hi);
  }

  /** `addEdge(id, dfs(child), title)` after a drawing that starts at `id`. */
  lemma WithChildSound(lines: seq<Line>, id: nat, ts: seq<string>, c: Emission, cts: seq<string>, title: string, hi: nat)
    requires Drawing(lines, id, ts, 0) && |ts| > 0 && |cts| > 0
    requires Sound(c, id + |ts|, cts) && c.next <= hi
    requires EdgesWithin(lines, id, hi)
    ensures Drawing(WithChild(lines, id, c, title), id, ts + cts, 0)
    ensures EdgesWithin(WithChild(lines, id, c, title), id, hi)
  {
    DrawingAppend(lines, c.lines, id, ts, cts, 0);
    DrawingAppend(lines + c.lines, [Edge(id, c.id, title)], id, ts + cts, [], 0);
    assert ts + cts + [] == ts + cts;
    assert EdgesWithin(c.lines, id, hi);
    EdgesAppend(lines, c.lines, id, hi);
    EdgesAppend(lines + c.lines, [Edge(id, c.id, title)], id, hi);
  }

  // The walk over each kind of node

  /** `addVertex` with a non-empty body: the body's lines inside `{` and `}`. */
  lemma FramedSound(n: nat, body: seq<Line>, ts: seq<string>, hi: nat)
    requires Drawing(body, n + 1, ts, 1) && EdgesWithin(body, n, hi)
    ensures Drawing([OpenState("code block", n)] + body + [CloseState], n, ["code block"] + ts, 0)
    ensures EdgesWithin([OpenState("code block", n)] + body + [CloseState], n, hi)
  {
    var open: seq<Line> := [OpenState("code block", n)];
    StatesAppend(open, body);
    StatesAppend(open + body, [CloseState]);
    NumberedAppend(["code block"], ts, n);
    ScanAppend(open, body, 0);
    ScanAppend(open + body, [CloseState], 0);
    EdgesAppend(open, body, n, hi);
    EdgesAppend(open + body, [CloseState], n, hi);
  }

  lemma {:induction false} BlockSound(b: Block, n: nat)
    ensures Sound(EmitBlock(b, n), n, PreorderBlock(b))
    decreases b, |b.statements| + 1
  {
    var body := EmitStatements(b, |b.statements|, n + 1);
    StatementsSound(b, |b.statements|, n + 1);
    var ts := PreorderStatements(b, |b.statements|);
    var vertex :=
      if |b.statements| > 0 then [OpenState("code block", n)] + body.lines + [CloseState]
      else [LeafState("code block", n)];
    if |b.statements| > 0 {
      FramedSound(n, body.lines, ts, body.next);
    } else {
      assert ts == [];
    }
    DescriptionsDrawNothing(n, [PositionEntry(b.position)], 0);
    EdgesAppend(vertex, Descriptions(n, [PositionEntry(b.position)]), n, body.next);
    DrawingAppend(vertex, Descriptions(n, [PositionEntry(b.position)]), n, ["code block"] + ts, [], 0);
    assert ["code block"] + ts + [] == ["code block"] + ts;
    EmitBlockShape(b, n);
  }

  /** One more statement's walk, after a separator unless it is the first,
      extends the drawing of the statements before it. */
  lemma SeparatedStep(prev: seq<Line>, m: nat, tp: seq<string>, first: bool, s: Emission, ts: seq<string>)
    requires Drawing(prev, m, tp, 1) && EdgesWithin(prev, m, s.next)
    requires Sound(s, m + |tp|, ts)
    ensures var sep: seq<Line> := if first then [] else [Separator];
      Drawing(prev + sep + s.lines, m, tp + ts, 1) && EdgesWithin(prev + sep + s.lines, m, s.next)
  {
    var sep: seq<Line> := if first then [] else [Separator];
    ScanShift(s.lines, 0);
    DrawingAppend(prev, sep, m, tp, [], 1);
    assert tp + [] == tp;
    DrawingAppend(prev + sep, s.lines, m, tp, ts, 1);
    EdgesAppend(prev, sep, m, s.next);
    EdgesAppend(prev + sep, s.lines, m, s.next);
  }

  /** The statements of a block, drawn inside its composite state. */
  lemma {:induction false} StatementsSound(b: Block, k: nat, m: nat)
    requires k <= |b.statements|
    ensures var r := EmitStatements(b, k, m);
      r.next == m + |PreorderStatements(b, k)| &&
      Drawing(r.lines, m, PreorderStatements(b, k), 1) && EdgesWithin(r.lines, m, r.next)
    decreases b, k
  {
    if k > 0 {
      var prev := EmitStatements(b, k - 1, m);
      StatementsSound(b, k - 1, m);
      var st := b.statements[k - 1];
      var s := EmitStatement(st, prev.next);
      StatementSound(st, prev.next);
      var tp := PreorderStatements(b, k - 1);
      EdgesWiden(prev.lines, m, prev.next, s.next);
      SeparatedStep(prev.lines, m, tp, k == 1, s, PreorderStatement(st));
      var sep: seq<Line> := if k == 1 then [] else [Separator];
      assert EmitStatements(b, k, m).lines == prev.lines + sep + s.lines;
      assert PreorderStatements(b, k) == tp + PreorderStatement(st);
    }
  }

  lemma {:induction false} BracedSound(b: BracedBlock, n: nat)
    ensures Sound(EmitBraced(b, n), n, PreorderBraced(b))
    decreases b, 0
  {
    BlockSound(b.underlyingBlock, n);
  }

  lemma {:induction false} StatementSound(s: Statement, n: nat)
    ensures Sound(EmitStatement(s, n), n, PreorderStatement(s))
    decreases s, 2
  {
    match s
    case FunctionDefinition(pos, id, ps, body) =>
      var c := EmitBraced(body, n + 1);
      BracedSound(body, n + 1);
      var v := Vertex(n, "function definition", [NameEntry(id.text), PositionEntry(pos)] + ParameterEntries(ps));
      VertexDrawsItself(n, "function definition", [NameEntry(id.text), PositionEntry(pos)] + ParameterEntries(ps), c.next);
      WithChildSound(v, n, ["function definition"], c, PreorderBraced(body), "body", c.next);
    case VariableDefinition(pos, id, value) =>
      var v := Vertex(n, "variable definition", [NameEntry(id.text), PositionEntry(pos)]);
      if value.Some? {
        var c := EmitExpression(value.value, n + 1);
        ExpressionSound(value.value, n + 1);
        VertexDrawsItself(n, "variable definition", [NameEntry(id.text), PositionEntry(pos)], c.next);
        WithChildSound(v, n, ["variable definition"], c, PreorderExpression(value.value), "value", c.next);
      } else {
        VertexDrawsItself(n, "variable definition", [NameEntry(id.text), PositionEntry(pos)], n + 1);
        assert ["variable definition"] + [] == ["variable definition"];
      }
    case ReadStatement(pos, id) =>
      VertexDrawsItself(n, "read", [PositionEntry(pos), IdentifierEntry(id.text)], n + 1);
    case WriteStatement(pos, e) =>
      var c := EmitExpression(e, n + 1);
      ExpressionSound(e, n + 1);
      VertexDrawsItself(n, "write", [PositionEntry(pos)], c.next);
      WithChildSound(Vertex(n, "write", [PositionEntry(pos)]), n, ["write"], c, PreorderExpression(e), "value", c.next);
    case WhileCycle(pos, cond, body) =>
      WhileSound(s, n);
    case IfClause(pos, cond, t, e) =>
      IfSound(s, n);
    case VariableAssignment(pos, id, e) =>
      var c := EmitExpression(e, n + 1);
      ExpressionSound(e, n + 1);
      var v := Vertex(n, "variable assignment", [NameEntry(id.text), PositionEntry(pos)]);
      VertexDrawsItself(n, "variable assignment", [NameEntry(id.text), PositionEntry(pos)], c.next);
      WithChildSound(v, n, ["variable assignment"], c, PreorderExpression(e), "new value", c.next);
    case FunctionCall(pos, id, args) =>
      CallSound(s, n);
  }

  lemma {:induction false} WhileSound(s: Statement, n: nat)
    requires s.WhileCycle?
    ensures Sound(EmitStatement(s, n), n, PreorderStatement(s))
    decreases s, 0
  {
    var c := EmitExpression(s.condition, n + 1);
    ExpressionSound(s.condition, n + 1);
    var d := EmitBraced(s.body, c.next);
    BracedSound(s.body, c.next);
    var v := Vertex(n, "while", [PositionEntry(s.position)]);
    VertexDrawsItself(n, "while", [PositionEntry(s.position)], d.next);
    WithChildSound(v, n, ["while"], c, PreorderExpression(s.condition), "condition", d.next);
    WithChildSound(WithChild(v, n, c, "condition"), n, ["while"] + PreorderExpression(s.condition), d,
                   PreorderBraced(s.body), "body", d.next);
  }

  /** The `if` vertex with its condition and then-branch drawn below it. */
  lemma {:induction false} IfHeadSound(s: Statement, n: nat, hi: nat)
    requires s.IfClause?
    requires EmitBraced(s.thenBody, EmitExpression(s.condition, n + 1).next).next <= hi
    ensures var c := EmitExpression(s.condition, n + 1);
            var d := EmitBraced(s.thenBody, c.next);
            var ts := ["if"] + PreorderExpression(s.condition) + PreorderBraced(s.thenBody);
            var lines := WithChild(WithChild(Vertex(n, "if", [PositionEntry(s.position)]), n, c, "condition"), n, d, "then");
            d.next == n + |ts| && Drawing(lines, n, ts, 0) && EdgesWithin(lines, n, hi)
    decreases s, 0
  {
    var c := EmitExpression(s.condition, n + 1);
    ExpressionSound(s.condition, n + 1);
    var d := EmitBraced(s.thenBody, c.next);
    BracedSound(s.thenBody, c.next);
    var v := Vertex(n, "if", [PositionEntry(s.position)]);
    VertexDrawsItself(n, "if", [PositionEntry(s.position)], hi);
    WithChildSound(v, n, ["if"], c, PreorderExpression(s.condition), "condition", hi);
    WithChildSound(WithChild(v, n, c, "condition"), n, ["if"] + PreorderExpression(s.condition), d,
                   PreorderBraced(s.thenBody), "then", hi);
  }

  lemma {:induction false} IfSound(s: Statement, n: nat)
    requires s.IfClause?
    ensures Sound(EmitStatement(s, n), n, PreorderStatement(s))
    decreases s, 1
  {
    var c := EmitExpression(s.condition, n + 1);
    var d := EmitBraced(s.thenBody, c.next);
    var ts := ["if"] + PreorderExpression(s.condition) + PreorderBraced(s.thenBody);
    var lines := WithChild(WithChild(Vertex(n, "if", [PositionEntry(s.position)]), n, c, "condition"), n, d, "then");
    if s.elseBody.Some? {
      var f := EmitBraced(s.elseBody.value, d.next);
      BracedSound(s.elseBody.value, d.next);
      IfHeadSound(s, n, f.next);
      WithChildSound(lines, n, ts, f, PreorderBraced(s.elseBody.value), "else", f.next);
    } else {
      IfHeadSound(s, n, d.next);
      assert ts + [] == ts;
    }
  }

  lemma {:induction false} CallSound(s: Statement, n: nat)
    requires s.FunctionCall?
    ensures Sound(EmitStatement(s, n), n, PreorderStatement(s))
    decreases s, 0
  {
    var c := EmitArguments(s.arguments, n + 1);
    ArgumentsSound(s.arguments, n + 1);
    var v := Vertex(n, "function call", [NameEntry(s.identifier.text), PositionEntry(s.position)]);
    VertexDrawsItself(n, "function call", [NameEntry(s.identifier.text), PositionEntry(s.position)], c.next);
    DrawingAppend(v, c.lines, n, ["function call"], PreorderArguments(s.arguments), 0);
    ParameterEdgesSound(n, c.ids, c.next);
    DrawingAppend(v + c.lines, ParameterEdges(n, c.ids), n, ["function call"] + PreorderArguments(s.arguments), [], 0);
    assert ["function call"] + PreorderArguments(s.arguments) + [] == ["function call"] + PreorderArguments(s.arguments);
    assert EdgesWithin(c.lines, n, c.next);
    EdgesAppend(v, c.lines, n, c.next);
    EdgesAppend(v + c.lines, ParameterEdges(n, c.ids), n, c.next);
  }

  /** The edges `parameter #i` lead from the call to each argument. */
  lemma {:induction false} ParameterEdgesSound(n: nat, ids: seq<nat>, hi: nat)
    requires forall i :: 0 <= i < |ids| ==> n < ids[i] < hi
    ensures Drawing(ParameterEdges(n, ids), n, [], 0)
    ensures EdgesWithin(ParameterEdges(n, ids), n, hi)
    decreases |ids|
  {
    if ids != [] {
      var last := Edge(n, ids[|ids| - 1], "parameter #" + NatToString(|ids| - 1));
      ParameterEdgesSound(n, ids[..|ids| - 1], hi);
      DrawingAppend(ParameterEdges(n, ids[..|ids| - 1]), [last], n, [], [], 0);
      EdgesAppend(ParameterEdges(n, ids[..|ids| - 1]), [last], n, hi);
    }
  }

  /** The arguments of a call, drawn one after the other; each id is the
      counter value its walk started from. */
  lemma {:induction false} ArgumentsSound(es: seq<Expression>, m: nat)
    ensures var r := EmitArguments(es, m);
      r.next == m + |PreorderArguments(es)| &&
      Drawing(r.lines, m, PreorderArguments(es), 0) && EdgesWithin(r.lines, m, r.next) &&
      forall i :: 0 <= i < |r.ids| ==> m <= r.ids[i] < r.next
    decreases |es|
  {
    if es != [] {
      var prev := EmitArguments(es[..|es| - 1], m);
      ArgumentsSound(es[..|es| - 1], m);
      var e := EmitExpression(es[|es| - 1], prev.next);
      ExpressionSound(es[|es| - 1], prev.next);
      DrawingAppend(prev.lines, e.lines, m, PreorderArguments(es[..|es| - 1]), PreorderExpression(es[|es| - 1]), 0);
      assert EdgesWithin(e.lines, m, e.next);
      EdgesAppend(prev.lines, e.lines, m, e.next);
    }
  }

  lemma {:induction false} ExpressionSound(e: Expression, n: nat)
    ensures Sound(EmitExpression(e, n), n, PreorderExpression(e))
    decreases e, 1
  {
    match e
    case Name(id) =>
      VertexDrawsItself(n, "identifier reference", [NameEntry(id.text), PositionEntry(id.position)], n + 1);
    case Number(pos, v) =>
      VertexDrawsItself(n, "number", [PositionEntry(pos), ValueEntry(v)], n + 1);
    case BracedExpression(_, inner) =>
      ExpressionSound(inner, n);
    case BinaryExpression(_, _, _, _) =>
      BinarySound(e, n);
  }

  lemma {:induction false} BinarySound(e: Expression, n: nat)
    requires e.BinaryExpression?
    ensures Sound(EmitExpression(e, n), n, PreorderExpression(e))
    decreases e, 0
  {
    var c := EmitExpression(e.left, n + 1);
    ExpressionSound(e.left, n + 1);
    var d := EmitExpression(e.right, c.next);
    ExpressionSound(e.right, c.next);
    var v := Vertex(n, "binary expression", [PositionEntry(e.position), OperatorEntry(e.operator)]);
    VertexDrawsItself(n, "binary expression", [PositionEntry(e.position), OperatorEntry(e.operator)], d.next);
    WithChildSound(v, n, ["binary expression"], c, PreorderExpression(e.left), "left", d.next);
    WithChildSound(WithChild(v, n, c, "left"), n, ["binary expression"] + PreorderExpression(e.left), d,
                   PreorderExpression(e.right), "right", d.next);
  }

  function PreorderNode(node: Node): seq<string> {
    match node
    case BlockNode(b) => PreorderBlock(b)
    case BracedBlockNode(b) => PreorderBraced(b)
    case StatementNode(s) => PreorderStatement(s)
    case ExpressionNode(e) => PreorderExpression(e)
  }

  /** The converter's diagram: the i-th node in pre-order is drawn as state
      `i`, the counter ends at the number of nodes drawn, every edge leads
      from a state to a later one, every `}` closes a `{` and every `||`
      stands inside a composite state. */
  lemma DiagramSound(root: Node)
    ensures var e := Emit(root, 0);
      var nodes := PreorderNode(root);
      e.id == 0 && e.next == |nodes| &&
      |States(e.lines)| == |nodes| &&
      (forall i :: 0 <= i < |nodes| ==> States(e.lines)[i] == Drawn(nodes[i], i)) &&
      (forall i :: 0 <= i < |e.lines| && e.lines[i].Edge? ==> e.lines[i].from < e.lines[i].to < e.next) &&
      Scan(e.lines, 0) == Some(0)
  {
    match root {
      case BlockNode(b) => BlockSound(b, 0);
      case BracedBlockNode(b) => BracedSound(b, 0);
      case StatementNode(s) => StatementSound(s, 0);
      case ExpressionNode(e) => ExpressionSound(e, 0);
    }
    var nodes := PreorderNode(root);
    forall i | 0 <= i < |nodes|
      ensures States(Emit(root, 0).lines)[i] == Drawn(nodes[i], i)
    {
      NumberedIndex(nodes, 0, i);
    }
  }

  /** A braced expression or block draws nothing of its own: it is drawn as
      the node inside it, under the same id. */
  lemma BracesAreTransparent(inner: Expression, pos: Position, b: Block, n: nat)
    ensures EmitExpression(BracedExpression(pos, inner), n) == EmitExpression(inner, n)
    ensures EmitBraced(BracedBlock(pos, b), n) == EmitBlock(b, n)
  {
  }
}
