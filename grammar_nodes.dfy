/** The second grammar model, used by the grammar reader and the LR(0)
    builder: symbols that carry their kind, productions with a non-terminal
    head, and grammars with a start symbol and an ordered production list.
    Equality of all three is structural, as for Kotlin data classes. */
module GrammarNodes {
  import opened Util

  /** `Terminal` and `NonTerminal`; `text` is the `string` both print as. */
  datatype Symbol = Terminal(text: string) | NonTerminal(text: string)

  type NonTerminalSymbol = s: Symbol | s.NonTerminal? witness NonTerminal("S")

  /** The end-of-input marker. */
  const EOF: Symbol := Terminal("$")

  datatype Production = Production(from: NonTerminalSymbol, to: seq<Symbol>)

  datatype Grammar = Grammar(start: NonTerminalSymbol, productions: seq<Production>)

  /** A symbol whose kind agrees with the first character of its text. */
  predicate Classified(s: Symbol) {
    |s.text| > 0 && (s.NonTerminal? <==> IsUpper(s.text[0]))
  }

  /** `Symbol.makeSymbol`: `first()` fails on an empty string, otherwise an
      upper-case first character makes a non-terminal. */
  function MakeSymbol(text: string): (r: Option<Symbol>)
    ensures r.None? <==> text == []
    ensures r.Some? ==> r.value.text == text && Classified(r.value)
  {
    if text == [] then None
    else if IsUpper(text[0]) then Some(NonTerminal(text))
    else Some(Terminal(text))
  }

  /** `makeSymbol` recovers exactly the classified symbols from their text, so
      `Terminal(x)` and `NonTerminal(x)` are never both produced for one `x`. */
  lemma MakeSymbolInverse(s: Symbol)
    ensures MakeSymbol(s.text) == Some(s) <==> Classified(s)
  {
    if Classified(s) {
      match s
      case Terminal(t) =>
      case NonTerminal(t) =>
    }
  }

  /** `EOF` is the terminal `makeSymbol` builds for `$`. */
  lemma EofIsTerminal()
    ensures EOF.Terminal? && MakeSymbol("$") == Some(EOF)
  {
    MakeSymbolInverse(EOF);
  }
}
