/** The resolved types the type checker attaches to the syntax tree, and the
    storage size the back end gives to each of them. */
module Types {

  /** The variants of a resolved type. Equivalence of types is structural,
      so it is Dafny's `==` on this datatype. */
  datatype Type =
    | BoolType
    | IntType
    | FloatType
    | VoidType
    | ArrayType(extent: nat, base: Type)
    | AddressType(base: Type)
    | FuncType(arguments: seq<Type>, returnType: Type)

  /** The types `numBytes` knows a size for: booleans, integers, floats and
      arrays of those (nested to any depth). Every other type makes
      `numBytes` raise an exception. */
  predicate Storable(t: Type) {
    match t
    case BoolType => true
    case IntType => true
    case FloatType => true
    case ArrayType(_, base) => Storable(base)
    case _ => false
  }

  /** `ActivationRecord.numBytes`: one word for a scalar, `extent` times the
      element size for an array; always a whole number of words. */
  function NumBytes(t: Type): (n: nat)
    requires Storable(t)
    ensures n % 4 == 0
  {
    match t
    case BoolType => 4
    case IntType => 4
    case FloatType => 4
    case ArrayType(extent, base) =>
      WordMultiple(extent, NumBytes(base));
      extent * NumBytes(base)
  }

  /** A multiple of a whole number of words is a whole number of words. */
  lemma WordMultiple(a: nat, b: nat)
    requires b % 4 == 0
    ensures (a * b) % 4 == 0
  {
    assert a * b == 4 * (a * (b / 4));
  }

  /** The storage size where it is known, and 0 elsewhere; used only where
      the lowering has already checked `Storable`. */
  function Bytes(t: Type): nat {
    if Storable(t) then NumBytes(t) else 0
  }

  /** Independent reference: the number of scalar cells a storable type holds. */
  function ScalarCount(t: Type): nat
    requires Storable(t)
  {
    match t
    case ArrayType(extent, base) => extent * ScalarCount(base)
    case _ => 1
  }

  /** The size of a storable type is one word per scalar cell it holds, so it
      is always a whole number of words. */
  lemma {:induction false} NumBytesIsWordsPerCell(t: Type)
    requires Storable(t)
    ensures NumBytes(t) == 4 * ScalarCount(t)
    ensures NumBytes(t) % 4 == 0
  {
    match t
    case ArrayType(extent, base) =>
      NumBytesIsWordsPerCell(base);
      calc {
        NumBytes(t);
        extent * NumBytes(base);
        extent * (4 * ScalarCount(base));
        { MulCommutes(extent, ScalarCount(base)); }
        4 * (extent * ScalarCount(base));
        4 * ScalarCount(t);
      }
    case _ =>
  }

  lemma MulCommutes(a: nat, b: nat)
    ensures a * (4 * b) == 4 * (a * b)
  {
  }
}
