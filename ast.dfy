/** The type-annotated syntax tree the back end consumes: one constructor per
    node class the code generator visits. */
module Ast {
  import opened Types

  /** A resolved symbol: `id` stands for the identity of the symbol object
      (two declarations of the same name are different symbols), `name` is
      its source identifier and `typ` its resolved type. */
  datatype Symbol = Symbol(id: nat, name: string, typ: Type)

  /** The comparison operators; the generator prints them lower-cased. */
  datatype Operation = EQ | NE | LT | LE | GT | GE

  /** A float literal's value, kept as an uninterpreted constant (its printed
      text): the back end only copies it into a `li.s` instruction. */
  datatype FloatValue = FloatValue(text: string)

  datatype Command =
    | ExpressionList(items: seq<Command>)
    | DeclarationList(items: seq<Command>)
    | StatementList(items: seq<Command>)
    | AddressOf(symbol: Symbol)
      /** `ordinal` is the ordinal of the literal's boolean enum constant. */
    | LiteralBool(ordinal: nat)
    | LiteralFloat(floatValue: FloatValue)
    | LiteralInt(intValue: int)
    | VariableDeclaration(symbol: Symbol)
    | ArrayDeclaration(symbol: Symbol)
    | FunctionDefinition(func: Symbol, arguments: seq<Symbol>, body: Command)
    | Addition(leftSide: Command, rightSide: Command)
    | Subtraction(leftSide: Command, rightSide: Command)
    | Multiplication(leftSide: Command, rightSide: Command)
    | Division(leftSide: Command, rightSide: Command)
    | LogicalAnd(leftSide: Command, rightSide: Command)
    | LogicalOr(leftSide: Command, rightSide: Command)
    | LogicalNot(expression: Command)
    | Comparison(operation: Operation, leftSide: Command, rightSide: Command)
    | Dereference(expression: Command)
    | Index(base: Command, amount: Command)
    | Assignment(destination: Command, source: Command)
    | Call(func: Symbol, args: seq<Command>)
    | IfElseBranch(condition: Command, thenBlock: Command, elseBlock: Command)
    | WhileLoop(condition: Command, body: Command)
    | Return(argument: Command)
      /** The error sentinel; `text` is the node's printed form. */
    | Error(text: string)

  /** The type checker, given: the resolved type of every node. */
  type TypeOracle = Command -> Type
}
