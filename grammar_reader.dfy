/** `readGrammar`: the textual grammar format `S: a B  B: b`, where a token
    ending in `:` opens a rule and the tokens up to the next such token are
    its right-hand side. */
module GrammarReader {
  import opened Util
  import opened GrammarNodes

  /** Why `readGrammar` gives up: `first()` on an empty start label, an
      `InvalidRuleException`, or one of its two assertions. */
  datatype ReadError =
    | EmptyStartLabel
    | InvalidRule(symbol: string)
    | ExpectedRuleDefinition
    | ExpectedRuleProductions

  /** The separator characters tab, newline and space. */
  predicate IsSeparator(c: char) { c == '\t' || c == '\n' || c == ' ' }

  /** A non-empty piece of text without separators. */
  predicate IsWord(w: string) {
    |w| > 0 && forall i :: 0 <= i < |w| ==> !IsSeparator(w[i])
  }

  /** The length of the separator-free run at the front of `s`. */
  function WordLength(s: string): (n: nat)
    ensures n <= |s|
    ensures forall i :: 0 <= i < n ==> !IsSeparator(s[i])
    ensures n < |s| ==> IsSeparator(s[n])
  {
    if s == [] || IsSeparator(s[0]) then 0 else 1 + WordLength(s[1..])
  }

  /** Splitting at runs of separators and dropping the empty pieces. */
  function Tokens(s: string): (ts: seq<string>)
    ensures forall i :: 0 <= i < |ts| ==> IsWord(ts[i])
    decreases |s|
  {
    if s == [] then []
    else if IsSeparator(s[0]) then Tokens(s[1..])
    else var n := WordLength(s); [s[..n]] + Tokens(s[n..])
  }

  /** `isSymbolToken`: a rule head is longer than one character and ends in `:`. */
  predicate IsSymbolToken(token: string) {
    |token| > 1 && token[|token| - 1] == ':'
  }

  /** `takeWhile { it != ':' }`. */
  function BeforeColon(s: string): (p: string)
    ensures p <= s && ':' !in p
    ensures |p| < |s| ==> s[|p|] == ':'
  {
    if s == [] || s[0] == ':' then [] else [s[0]] + BeforeColon(s[1..])
  }

  /** The symbol of a token, which is never empty. */
  function SymbolOf(token: string): (s: Symbol)
    requires |token| > 0
    ensures s.text == token && Classified(s)
  {
    MakeSymbol(token).value
  }

  /** The symbols of `tokens[lo..hi]`. */
  function SymbolsIn(tokens: seq<string>, lo: nat, hi: nat): (ss: seq<Symbol>)
    requires lo <= hi <= |tokens| && forall i :: 0 <= i < |tokens| ==> |tokens[i]| > 0
    ensures |ss| == hi - lo
    ensures forall i :: 0 <= i < hi - lo ==> ss[i] == SymbolOf(tokens[lo + i])
    decreases hi - lo
  {
    if lo == hi then [] else SymbolsIn(tokens, lo, hi - 1) + [SymbolOf(tokens[hi - 1])]
  }

  /** Where the right-hand side starting at `pos` ends: the next rule head. */
  function RhsEnd(tokens: seq<string>, pos: nat): (e: nat)
    requires pos <= |tokens|
    ensures pos <= e <= |tokens|
    ensures forall i :: pos <= i < e ==> !IsSymbolToken(tokens[i])
    ensures e < |tokens| ==> IsSymbolToken(tokens[e])
    decreases |tokens| - pos
  {
    if pos == |tokens| || IsSymbolToken(tokens[pos]) then pos else RhsEnd(tokens, pos + 1)
  }

  /** `prefix` in front of a list of productions, or the failure unchanged. */
  function Prepend(prefix: seq<Production>, r: Result<seq<Production>, ReadError>): Result<seq<Production>, ReadError> {
    match r
    case Success(ps) => Success(prefix + ps)
    case Failure(e) => Failure(e)
  }

  /** The rules read from `tokens[pos..]`. */
  function Rules(tokens: seq<string>, pos: nat): Result<seq<Production>, ReadError>
    requires pos <= |tokens|
    requires forall i :: 0 <= i < |tokens| ==> |tokens[i]| > 0
    decreases |tokens| - pos
  {
    if pos == |tokens| then Success([])
    else if !IsSymbolToken(tokens[pos]) then Failure(ExpectedRuleDefinition)
    else
      var head := SymbolOf(tokens[pos][..|tokens[pos]| - 1]);
      if !head.NonTerminal? then Failure(InvalidRule(head.text))
      else
        var end := RhsEnd(tokens, pos + 1);
        if end == pos + 1 then Failure(ExpectedRuleProductions)
        else
          Prepend([Production(head, SymbolsIn(tokens, pos + 1, end))], Rules(tokens, end))
  }

  /** One rule read at `pos`, when it is well formed. */
  lemma RulesOfRule(tokens: seq<string>, pos: nat)
    requires pos < |tokens| && forall i :: 0 <= i < |tokens| ==> |tokens[i]| > 0
    requires IsSymbolToken(tokens[pos]) && SymbolOf(tokens[pos][..|tokens[pos]| - 1]).NonTerminal?
    requires RhsEnd(tokens, pos + 1) > pos + 1
    ensures Rules(tokens, pos) ==
      Prepend([Production(SymbolOf(tokens[pos][..|tokens[pos]| - 1]), SymbolsIn(tokens, pos + 1, RhsEnd(tokens, pos + 1)))],
              Rules(tokens, RhsEnd(tokens, pos + 1)))
  {
  }

  lemma PrependPrepend(a: seq<Production>, b: seq<Production>, r: Result<seq<Production>, ReadError>)
    ensures Prepend(a, Prepend(b, r)) == Prepend(a + b, r)
    ensures Prepend([], r) == r
  {
    if r.Success? {
      assert a + (b + r.value) == (a + b) + r.value;
      assert [] + r.value == r.value;
    }
  }

  /** What `readGrammar(definition)` returns or throws. */
  function Read(definition: string): Result<Grammar, ReadError> {
    var initial := MakeSymbol(BeforeColon(definition));
    if initial.None? then Failure(EmptyStartLabel)
    else if !initial.value.NonTerminal? then Failure(InvalidRule(initial.value.text))
    else match Rules(Tokens(definition), 0)
      case Success(ps) => Success(Grammar(initial.value, ps))
      case Failure(e) => Failure(e)
  }

  /** `readGrammar`: the start label first, then a position advanced through
      the tokens by two nested loops. */
  method ReadGrammar(definition: string) returns (r: Result<Grammar, ReadError>)
    ensures r == Read(definition)
  {
    var tokens := Tokens(definition);
    var initial := MakeSymbol(BeforeColon(definition));
    if initial.None? {
      return Failure(EmptyStartLabel);
    }
    if !initial.value.NonTerminal? {
      return Failure(InvalidRule(initial.value.text));
    }
    var rules := ReadRules(tokens);
    match rules
    case Success(productions) =>
      r := Success(Grammar(initial.value, productions));
    case Failure(e) =>
      r := Failure(e);
  }

  /** The loop of `readGrammar` over the tokens. */
  method ReadRules(tokens: seq<string>) returns (r: Result<seq<Production>, ReadError>)
    requires forall i :: 0 <= i < |tokens| ==> |tokens[i]| > 0
    ensures r == Rules(tokens, 0)
  {
    var productions: seq<Production> := [];
    var pos := 0;
    PrependPrepend([], [], Rules(tokens, 0));
    while pos < |tokens|
      invariant pos <= |tokens|
      invariant Rules(tokens, 0) == Prepend(productions, Rules(tokens, pos))
      decreases |tokens| - pos
    {
      var token := tokens[pos];
      if !IsSymbolToken(token) {
        return Failure(ExpectedRuleDefinition);
      }
      var symbol := SymbolOf(token[..|token| - 1]);
      if !symbol.NonTerminal? {
        return Failure(InvalidRule(symbol.text));
      }
      var products: seq<Symbol>;
      ghost var first := pos + 1;
      products, pos := ReadProducts(tokens, pos + 1);
      if products == [] {
        return Failure(ExpectedRuleProductions);
      }
      RulesOfRule(tokens, first - 1);
      PrependPrepend(productions, [Production(symbol, products)], Rules(tokens, pos));
      productions := productions + [Production(symbol, products)];
    }
    assert productions + [] == productions;
    r := Success(productions);
  }

  /** The inner loop of `readGrammar`: the symbols of the tokens up to the next rule head. */
  method ReadProducts(tokens: seq<string>, first: nat) returns (products: seq<Symbol>, pos: nat)
    requires first <= |tokens| && forall i :: 0 <= i < |tokens| ==> |tokens[i]| > 0
    ensures pos == RhsEnd(tokens, first)
    ensures products == SymbolsIn(tokens, first, pos)
  {
    pos := first;
    products := [];
    while pos < |tokens| && !IsSymbolToken(tokens[pos])
      invariant first <= pos <= |tokens|
      invariant RhsEnd(tokens, first) == RhsEnd(tokens, pos)
      invariant |products| == pos - first
      invariant forall i :: 0 <= i < |products| ==> products[i] == SymbolOf(tokens[first + i])
      decreases |tokens| - pos
    {
      products := products + [SymbolOf(tokens[pos])];
      pos := pos + 1;
    }
  }

  // Tokens and separators

  lemma {:induction false} WordLengthOfWord(w: string, rest: string)
    requires IsWord(w) && (rest == [] || IsSeparator(rest[0]))
    ensures WordLength(w + rest) == |w|
    decreases |w|
  {
    if |w| > 1 {
      assert (w + rest)[1..] == w[1..] + rest;
      WordLengthOfWord(w[1..], rest);
    } else {
      assert (w + rest)[1..] == rest;
    }
  }

  /** A separator splits the tokens of the text around it. */
  lemma {:induction false} TokensSplit(a: string, c: char, b: string)
    requires IsSeparator(c)
    ensures Tokens(a + [c] + b) == Tokens(a) + Tokens(b)
    decreases |a|
  {
    var s := a + [c] + b;
    if a == [] {
      assert s[1..] == b;
      assert Tokens(s) == Tokens(b);
      assert Tokens(a) + Tokens(b) == Tokens(b);
    } else if IsSeparator(a[0]) {
      assert s[1..] == a[1..] + [c] + b;
      TokensSplit(a[1..], c, b);
      assert Tokens(s) == Tokens(s[1..]);
      assert Tokens(a) == Tokens(a[1..]);
    } else {
      var n := WordLength(a);
      var w := a[..n];
      assert a == w + a[n..];
      assert s == w + (a[n..] + [c] + b);
      assert IsWord(w);
      WordLengthOfWord(w, a[n..]);
      WordLengthOfWord(w, a[n..] + [c] + b);
      assert s[..n] == w && s[n..] == a[n..] + [c] + b;
      TokensSplit(a[n..], c, b);
      assert Tokens(s) == [w] + Tokens(s[n..]);
      assert Tokens(a) == [w] + Tokens(a[n..]);
      assert [w] + (Tokens(a[n..]) + Tokens(b)) == ([w] + Tokens(a[n..])) + Tokens(b);
    }
  }

  lemma TokensOfWord(w: string)
    requires IsWord(w)
    ensures Tokens(w) == [w]
  {
    WordLengthOfWord(w, []);
    assert w + [] == w;
    assert w[|w|..] == [];
  }

  /** Words joined by spaces split back into the same words. */
  lemma {:induction false} TokensOfJoin(ws: seq<string>)
    requires forall i :: 0 <= i < |ws| ==> IsWord(ws[i])
    ensures Tokens(Join(ws, " ")) == ws
    decreases |ws|
  {
    if |ws| == 1 {
      TokensOfWord(ws[0]);
    } else if |ws| > 1 {
      var init := ws[..|ws| - 1];
      TokensOfJoin(init);
      TokensSplit(Join(init, " "), ' ', ws[|ws| - 1]);
      assert Join(init, " ") + " " + ws[|ws| - 1] == Join(init, " ") + [' '] + ws[|ws| - 1];
      TokensOfWord(ws[|ws| - 1]);
      assert init + [ws[|ws| - 1]] == ws;
    }
  }

  // Rendering a grammar in the format the reader accepts

  function Texts(ss: seq<Symbol>): (ts: seq<string>)
    ensures |ts| == |ss|
    ensures forall i :: 0 <= i < |ss| ==> ts[i] == ss[i].text
  {
    if ss == [] then [] else Texts(ss[..|ss| - 1]) + [ss[|ss| - 1].text]
  }

  /** The tokens of a list of rules: each head with its `:`, then its right-hand side. */
  function RuleTokens(ps: seq<Production>): seq<string> {
    if ps == [] then []
    else [ps[0].from.text + ":"] + Texts(ps[0].to) + RuleTokens(ps[1..])
  }

  /** A production the format can express: classified symbols written as
      words, no right-hand-side symbol that reads as a rule head, and a
      non-empty right-hand side. */
  predicate Expressible(p: Production) {
    Classified(p.from) && IsWord(p.from.text) && |p.to| > 0 &&
    forall i :: 0 <= i < |p.to| ==>
      Classified(p.to[i]) && IsWord(p.to[i].text) && !IsSymbolToken(p.to[i].text)
  }

  /** The text of a grammar whose first rule is for its start symbol. */
  function Render(g: Grammar): string {
    Join(RuleTokens(g.productions), " ")
  }

  lemma {:induction false} RuleTokensAreWords(ps: seq<Production>)
    requires forall k :: 0 <= k < |ps| ==> Expressible(ps[k])
    ensures forall i :: 0 <= i < |RuleTokens(ps)| ==> IsWord(RuleTokens(ps)[i])
    decreases |ps|
  {
    if ps != [] {
      RuleTokensAreWords(ps[1..]);
      var head := [ps[0].from.text + ":"];
      assert IsWord(head[0]);
      assert RuleTokens(ps) == head + Texts(ps[0].to) + RuleTokens(ps[1..]);
    }
  }

  /** Reading the tokens of expressible rules gives those rules back. */
  lemma {:induction false} RulesOfRuleTokens(ps: seq<Production>, before: seq<string>)
    requires forall k :: 0 <= k < |ps| ==> Expressible(ps[k])
    requires forall i :: 0 <= i < |before| ==> |before[i]| > 0
    ensures forall i :: 0 <= i < |before + RuleTokens(ps)| ==> |(before + RuleTokens(ps))[i]| > 0
    ensures Rules(before + RuleTokens(ps), |before|) == Success(ps)
    decreases |ps|
  {
    RuleTokensAreWords(ps);
    var tokens := before + RuleTokens(ps);
    if ps != [] {
      var pos := |before|;
      var before' := FirstRuleTokens(ps, before);
      RulesOfRuleTokens(ps[1..], before');
      RulesOfRule(tokens, pos);
      assert [ps[0]] + ps[1..] == ps;
    }
  }

  /** The texts of classified word symbols read back as those symbols. */
  lemma SymbolsOfTexts(tokens: seq<string>, lo: nat, to: seq<Symbol>)
    requires lo + |to| <= |tokens| && forall i :: 0 <= i < |tokens| ==> |tokens[i]| > 0
    requires forall i :: 0 <= i < |to| ==> tokens[lo + i] == to[i].text && Classified(to[i])
    ensures SymbolsIn(tokens, lo, lo + |to|) == to
  {
    forall i | 0 <= i < |to| ensures SymbolOf(tokens[lo + i]) == to[i] {
      MakeSymbolInverse(to[i]);
    }
  }

  /** Every token of `a + b` is non-empty when those of `a` and `b` are. */
  lemma NonEmptyTokens(a: seq<string>, b: seq<string>)
    requires forall i :: 0 <= i < |a| ==> |a[i]| > 0
    requires forall i :: 0 <= i < |b| ==> |b[i]| > 0
    ensures forall i :: 0 <= i < |a + b| ==> |(a + b)[i]| > 0
  {
    forall i | 0 <= i < |a + b| ensures |(a + b)[i]| > 0 {
      if i >= |a| { assert (a + b)[i] == b[i - |a|]; }
    }
  }

  /** A head token followed by non-head tokens and then a head or the end:
      its right-hand side is exactly those tokens. */
  lemma RuleAt(before: seq<string>, head: string, rhs: seq<string>, after: seq<string>)
    requires IsSymbolToken(head)
    requires forall i :: 0 <= i < |rhs| ==> !IsSymbolToken(rhs[i])
    requires after != [] ==> IsSymbolToken(after[0])
    ensures var tokens := before + [head] + rhs + after; var pos := |before|;
      tokens[pos] == head &&
      RhsEnd(tokens, pos + 1) == pos + 1 + |rhs| &&
      forall i :: 0 <= i < |rhs| ==> tokens[pos + 1 + i] == rhs[i]
  {
    var tokens := before + [head] + rhs + after;
    var pos := |before|;
    var end := pos + 1 + |rhs|;
    assert forall i :: 0 <= i < |rhs| ==> tokens[pos + 1 + i] == rhs[i];
    assert end < |tokens| ==> tokens[end] == after[0];
    RhsEndAt(tokens, pos + 1, end);
  }

  /** The tokens of the first of `ps` read as that rule; returns the tokens up to the next rule. */
  lemma FirstRuleTokens(ps: seq<Production>, before: seq<string>) returns (before': seq<string>)
    requires |ps| > 0 && forall k :: 0 <= k < |ps| ==> Expressible(ps[k])
    requires forall i :: 0 <= i < |before| ==> |before[i]| > 0
    requires forall i :: 0 <= i < |RuleTokens(ps)| ==> |RuleTokens(ps)[i]| > 0
    ensures before + RuleTokens(ps) == before' + RuleTokens(ps[1..])
    ensures forall i :: 0 <= i < |before'| ==> |before'[i]| > 0
    ensures var tokens := before + RuleTokens(ps); var pos := |before|;
      |before'| <= |tokens| && pos + 1 < |before'| &&
      (forall i :: 0 <= i < |tokens| ==> |tokens[i]| > 0) &&
      IsSymbolToken(tokens[pos]) && SymbolOf(tokens[pos][..|tokens[pos]| - 1]) == ps[0].from &&
      RhsEnd(tokens, pos + 1) == |before'| &&
      SymbolsIn(tokens, pos + 1, |before'|) == ps[0].to
  {
    var tokens := before + RuleTokens(ps);
    NonEmptyTokens(before, RuleTokens(ps));
    var p := ps[0];
    var head := p.from.text + ":";
    var rhs := Texts(p.to);
    var after := RuleTokens(ps[1..]);
    assert RuleTokens(ps) == [head] + rhs + after;
    assert tokens == before + [head] + rhs + after;
    before' := before + [head] + rhs;
    assert after != [] ==> after[0] == ps[1].from.text + ":";
    RuleAt(before, head, rhs, after);
    assert head[..|head| - 1] == p.from.text;
    MakeSymbolInverse(p.from);
    assert Expressible(p);
    forall i | 0 <= i < |p.to| ensures tokens[|before| + 1 + i] == p.to[i].text && Classified(p.to[i]) {
      assert tokens[|before| + 1 + i] == rhs[i];
    }
    SymbolsOfTexts(tokens, |before| + 1, p.to);
    assert |before'| == |before| + 1 + |p.to|;
    forall i | 0 <= i < |before'| ensures |before'[i]| > 0 {
      assert before'[i] == tokens[i];
    }
  }

  lemma RhsEndAt(tokens: seq<string>, pos: nat, end: nat)
    requires pos <= end <= |tokens|
    requires forall i :: pos <= i < end ==> !IsSymbolToken(tokens[i])
    requires end < |tokens| ==> IsSymbolToken(tokens[end])
    ensures RhsEnd(tokens, pos) == end
    decreases end - pos
  {
    if pos < end {
      RhsEndAt(tokens, pos + 1, end);
    }
  }

  /** A successful read at `pos` is one rule followed by the rules read from where it ends. */
  lemma RulesFirst(tokens: seq<string>, pos: nat, ps: seq<Production>) returns (end: nat, rest: seq<Production>)
    requires pos < |tokens| && forall i :: 0 <= i < |tokens| ==> |tokens[i]| > 0
    requires Rules(tokens, pos) == Success(ps)
    ensures IsSymbolToken(tokens[pos]) && pos + 1 < end == RhsEnd(tokens, pos + 1)
    ensures Rules(tokens, end) == Success(rest)
    ensures ps == [Production(SymbolOf(tokens[pos][..|tokens[pos]| - 1]), SymbolsIn(tokens, pos + 1, end))] + rest
  {
    end := RhsEnd(tokens, pos + 1);
    rest := Rules(tokens, end).value;
  }

  /** Every rule read is a head token stripped of `:` followed by the symbols
      of the tokens up to the next head: rendering the rules gives back the
      tokens they came from. */
  lemma {:induction false} RuleTokensOfRules(tokens: seq<string>, pos: nat, ps: seq<Production>)
    requires pos <= |tokens| && forall i :: 0 <= i < |tokens| ==> |tokens[i]| > 0
    requires Rules(tokens, pos) == Success(ps)
    ensures RuleTokens(ps) == tokens[pos..]
    decreases |tokens| - pos
  {
    if pos < |tokens| {
      var end, rest := RulesFirst(tokens, pos, ps);
      RuleTokensOfRules(tokens, end, rest);
      RuleTokensOfRule(tokens, pos, end, ps[0]);
      assert ps[1..] == rest;
      assert tokens[pos..] == tokens[pos..end] + tokens[end..];
    }
  }

  /** The tokens of one rule read from `tokens[pos..end]` are those tokens. */
  lemma RuleTokensOfRule(tokens: seq<string>, pos: nat, end: nat, p: Production)
    requires pos < end <= |tokens| && forall i :: 0 <= i < |tokens| ==> |tokens[i]| > 0
    requires IsSymbolToken(tokens[pos])
    requires p.from == SymbolOf(tokens[pos][..|tokens[pos]| - 1]) && p.to == SymbolsIn(tokens, pos + 1, end)
    ensures [p.from.text + ":"] + Texts(p.to) == tokens[pos..end]
  {
    var token := tokens[pos];
    assert p.from.text + ":" == token by {
      assert p.from.text == token[..|token| - 1];
      assert token == token[..|token| - 1] + [token[|token| - 1]];
    }
    assert Texts(p.to) == tokens[pos + 1..end] by {
      forall i | 0 <= i < end - (pos + 1) ensures Texts(p.to)[i] == tokens[pos + 1 + i] {
        assert p.to[i] == SymbolOf(tokens[pos + 1 + i]);
      }
    }
    assert tokens[pos..end] == [token] + tokens[pos + 1..end];
  }

  /** Every rule read has a non-empty right-hand side. */
  lemma {:induction false} RulesNonEmpty(tokens: seq<string>, pos: nat, ps: seq<Production>)
    requires pos <= |tokens| && forall i :: 0 <= i < |tokens| ==> |tokens[i]| > 0
    requires Rules(tokens, pos) == Success(ps)
    ensures forall k :: 0 <= k < |ps| ==> |ps[k].to| > 0
    decreases |tokens| - pos
  {
    if pos < |tokens| {
      var end, rest := RulesFirst(tokens, pos, ps);
      RulesNonEmpty(tokens, end, rest);
      assert forall k :: 1 <= k < |ps| ==> ps[k] == rest[k - 1];
    }
  }

  /** `readGrammar` reads back the rendering of any grammar it can express
      whose first rule is for the start symbol and whose start label has no `:`. */
  lemma ReadRender(g: Grammar)
    requires |g.productions| > 0 && g.productions[0].from == g.start
    requires ':' !in g.start.text
    requires forall k :: 0 <= k < |g.productions| ==> Expressible(g.productions[k])
    ensures Read(Render(g)) == Success(g)
  {
    var ps := g.productions;
    var text := Render(g);
    RuleTokensAreWords(ps);
    TokensOfJoin(RuleTokens(ps));
    RulesOfRuleTokens(ps, []);
    assert [] + RuleTokens(ps) == RuleTokens(ps);
    StartLabelOfRender(g);
    MakeSymbolInverse(g.start);
  }

  lemma StartLabelOfRender(g: Grammar)
    requires |g.productions| > 0 && g.productions[0].from == g.start
    requires ':' !in g.start.text
    ensures BeforeColon(Render(g)) == g.start.text
  {
    var ts := RuleTokens(g.productions);
    var head := g.start.text + ":";
    assert ts[0] == head;
    JoinStartsWithFirst(ts, " ");
    BeforeColonOf(g.start.text, Render(g)[|head|..]);
    assert Render(g) == g.start.text + ":" + Render(g)[|head|..];
  }

  lemma {:induction false} JoinStartsWithFirst(xs: seq<string>, sep: string)
    requires |xs| > 0
    ensures xs[0] <= Join(xs, sep)
    decreases |xs|
  {
    if |xs| > 1 {
      JoinStartsWithFirst(xs[..|xs| - 1], sep);
    }
  }

  lemma {:induction false} BeforeColonOf(w: string, rest: string)
    requires ':' !in w
    ensures BeforeColon(w + ":" + rest) == w
    decreases |w|
  {
    if w != [] {
      assert (w + ":" + rest)[1..] == w[1..] + ":" + rest;
      BeforeColonOf(w[1..], rest);
    } else {
      assert w + ":" + rest == [':'] + rest;
    }
  }

  /** What a successful read returns: a start that is the classified label
      before the first `:`, and rules that render back to the tokens, each
      with a non-empty right-hand side. */
  lemma ReadSuccess(definition: string)
    requires Read(definition).Success?
    ensures Read(definition).value.start.text == BeforeColon(definition)
    ensures Classified(Read(definition).value.start)
    ensures RuleTokens(Read(definition).value.productions) == Tokens(definition)
    ensures forall k :: 0 <= k < |Read(definition).value.productions| ==> |Read(definition).value.productions[k].to| > 0
  {
    RuleTokensOfRules(Tokens(definition), 0, Read(definition).value.productions);
    RulesNonEmpty(Tokens(definition), 0, Read(definition).value.productions);
  }
}
