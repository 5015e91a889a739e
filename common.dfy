/** Shared value types of the model: optional values, results carrying a .NET exception
    type name, run-time values, and 32-bit integer arithmetic. */
module Common {

  datatype Option<+T> = None | Some(value: T)

  /** A computation that returns a value or throws the named .NET exception type. */
  datatype Result<+T> = Ok(value: T) | Err(exception: string)

  /** A .NET type, identified by its full name. */
  type TypeName = string

  const VoidType: TypeName := "System.Void"

  /** A run-time value as the generator sees it: null, a string, a primitive given by its
      type name and its ToString() text, or any other object given by its type name, an
      identity and its ToString() text. */
  datatype Value =
    | Null
    | Str(s: string)
    | Primitive(primType: TypeName, text: string)
    | Object(objType: TypeName, id: nat, text: string)

  const TwoTo31: int := 0x8000_0000
  const TwoTo32: int := 0x1_0000_0000

  predicate IsInt32(x: int) {
    -TwoTo31 <= x < TwoTo31
  }

  /** Two's-complement wrap-around of C# unchecked `int` arithmetic. */
  function Wrap32(x: int): (r: int)
    ensures IsInt32(r)
    ensures IsInt32(x) ==> r == x
  {
    var m := x % TwoTo32;
    if m >= TwoTo31 then m - TwoTo32 else m
  }

  /** Wrap-around depends only on the residue modulo 2^32, so an `int` accumulator may be
      wrapped after every addition or once at the end. */
  lemma Wrap32Add(a: int, b: int)
    ensures Wrap32(Wrap32(a) + b) == Wrap32(a + b)
  {
    var m := TwoTo32;
    assert (Wrap32(a) + b) % m == (a + b) % m;
  }

  /** `Type.IsPrimitive`. */
  predicate IsPrimitiveType(t: TypeName) {
    t in {"System.Boolean", "System.Byte", "System.SByte", "System.Int16", "System.UInt16",
          "System.Int32", "System.UInt32", "System.Int64", "System.UInt64", "System.IntPtr",
          "System.UIntPtr", "System.Char", "System.Double", "System.Single"}
  }

  /** `o.ToString()`; calling it on null throws. */
  function ToStringOf(v: Value): Result<string> {
    match v
    case Null => Err("System.NullReferenceException")
    case Str(s) => Ok(s)
    case Primitive(_, text) => Ok(text)
    case Object(_, _, text) => Ok(text)
  }

  /** Appending a line and then more lines is appending both at once. */
  lemma Regroup<T>(prefix: seq<T>, line: T, rest: seq<T>)
    ensures prefix + [line] + rest == prefix + ([line] + rest)
  {
  }

  /** A non-empty sequence is its front followed by its last element. */
  lemma SnocSplit<T>(xs: seq<T>)
    requires |xs| > 0
    ensures xs == xs[..|xs| - 1] + [xs[|xs| - 1]]
  {
  }

  /** The front of a sequence with one more element is the sequence. */
  lemma SnocFront<T>(xs: seq<T>, x: T)
    ensures (xs + [x])[..|xs|] == xs
  {
  }

  lemma AppendNil<T>(xs: seq<T>)
    ensures xs + [] == xs
  {
  }

  lemma AppendAssoc<T>(xs: seq<T>, ys: seq<T>, zs: seq<T>)
    ensures (xs + ys) + zs == xs + (ys + zs)
  {
  }

  /** The prefix one longer ends with the next element. */
  lemma PrefixStep<T>(xs: seq<T>, i: nat)
    requires i < |xs|
    ensures xs[..i + 1][..i] == xs[..i] && xs[..i + 1][i] == xs[i] && |xs[..i + 1]| == i + 1
  {
  }

  lemma TakeAll<T>(xs: seq<T>)
    ensures xs[..|xs|] == xs
  {
  }

  /** `ResultTuple(receiver)`, and the array builder's `ResultTuple(arrayBuilder, array)`: a
      tuple of exactly one value. */
  function SingleTuple(v: Value): (r: seq<Value>)
    ensures |r| == 1 && r[0] == v
  {
    [v]
  }
}
