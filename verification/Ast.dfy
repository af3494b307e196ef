/** The syntax tree that the compiler passes work on (crates/compiler/src/ast/types.rs). */
module Ast {
  import opened Wrappers

  /** Position of a token. */
  datatype Span = Span(line: nat, column: nat, length: nat)

  datatype Pattern =
    | Variant(name: string)
    | VariantWithBindings(name: string, bindings: seq<string>)

  datatype MatchArm = MatchArm(pattern: Pattern, body: seq<Statement>)

  /** The optional else branch of a conditional. */
  datatype ElseBranch = NoElse | Else(body: seq<Statement>)

  datatype Statement =
    | IntLiteral(i: int)
    | FloatLiteral(f: real)
    | BoolLiteral(b: bool)
    | StringLiteral(bytes: seq<bv8>)
    | Symbol(symbol: string)
    | WordCall(name: string, span: Option<Span>)
    | If(thenBranch: seq<Statement>, elseBranch: ElseBranch, span: Option<Span>)
    | Quotation(id: nat, body: seq<Statement>)
    | Match(arms: seq<MatchArm>, span: Option<Span>)

  datatype WordDef = WordDef(name: string, body: seq<Statement>)

  datatype Program = Program(words: seq<WordDef>)
  {
    /** The names a program defines. */
    function Names(): set<string> {
      set w | w in words :: w.name
    }
  }
}
