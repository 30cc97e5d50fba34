/**
  The slice of Python 2 that pyop2/utils.py relies on: values, truth testing,
  `==`, `<=`, `isinstance`, the exceptions it raises, and the runtime services
  (numpy, iteration over arbitrary objects) that the model takes as given.
 */
module Python {

  datatype Option<+T> = None | Some(value: T)

  /** The Python values the utilities inspect.  `Obj` stands for any other
      object (a class instance, a numpy array, a dictionary, ...), known by its
      identity only: it is true and equal only to itself, so empty containers,
      arrays whose truth test raises and user-defined `__eq__` are not
      distinguished.  A float is a real number; there is no NaN. */
  datatype Value =
    | NoneV
    | Bool(b: bool)
    | Int(i: int)
    | Float(r: real)
    | Str(s: string)
    | List(elems: seq<Value>)
    | Tuple(items: seq<Value>)
    | Obj(id: nat)

  /** bool, int and float compare with one another by numeric value. */
  predicate IsNumber(v: Value) {
    v.Bool? || v.Int? || v.Float?
  }

  function NumberOf(v: Value): real
    requires IsNumber(v)
  {
    match v
    case Bool(b) => if b then 1.0 else 0.0
    case Int(i) => i as real
    case Float(r) => r
  }

  /** Python truth testing: `not v`.  Objects are taken to be true, as for
      instances of classes without `__nonzero__` or `__len__`. */
  predicate Falsy(v: Value) {
    match v
    case NoneV => true
    case Bool(b) => !b
    case Int(i) => i == 0
    case Float(r) => r == 0.0
    case Str(s) => s == []
    case List(xs) => xs == []
    case Tuple(xs) => xs == []
    case Obj(_) => false
  }

  /** Python 2 `a == b` for the values above: numbers by value, strings by
      content, lists and tuples element-wise (a list never equals a tuple),
      other objects by identity. */
  predicate Eq(a: Value, b: Value)
    decreases a
  {
    if IsNumber(a) && IsNumber(b) then NumberOf(a) == NumberOf(b)
    else if a.NoneV? then b.NoneV?
    else if a.Str? then b.Str? && a.s == b.s
    else if a.List? then
      b.List? && |a.elems| == |b.elems| &&
      forall k :: 0 <= k < |a.elems| ==> Eq(a.elems[k], b.elems[k])
    else if a.Tuple? then
      b.Tuple? && |a.items| == |b.items| &&
      forall k :: 0 <= k < |a.items| ==> Eq(a.items[k], b.items[k])
    else if a.Obj? then b.Obj? && a.id == b.id
    else false
  }

  /** Python's `x in values` for a list or tuple of values. */
  predicate Contains(values: seq<Value>, x: Value) {
    exists k :: 0 <= k < |values| && Eq(x, values[k])
  }

  lemma {:induction false} EqReflexive(a: Value)
    ensures Eq(a, a)
    decreases a
  {
    match a
    case List(xs) =>
      forall k | 0 <= k < |xs| ensures Eq(xs[k], xs[k]) { EqReflexive(xs[k]); }
    case Tuple(xs) =>
      forall k | 0 <= k < |xs| ensures Eq(xs[k], xs[k]) { EqReflexive(xs[k]); }
    case _ =>
  }

  /** Every element of a list is `in` it. */
  lemma MemberIsContained(values: seq<Value>, k: nat)
    requires k < |values|
    ensures Contains(values, values[k])
  {
    EqReflexive(values[k]);
  }

  /** A type argument of `isinstance`: a class, or a (possibly nested) tuple of them. */
  datatype PyType = Class(name: string) | Types(alts: seq<PyType>)

  /** A class object is true; a tuple of types is true unless it is empty. */
  predicate TypeIsTruthy(t: PyType) {
    !(t.Types? && t.alts == [])
  }

  /** numpy element-type descriptors, by their canonical name. */
  datatype DType = DType(name: string)

  /** What the model does not interpret, as given total functions. */
  datatype Runtime = Runtime(
    // isinstance(v, C) for the class C of the given name
    instanceOf: (Value, string) -> bool,
    // tuple(o) for an object o; None when that raises TypeError or NotImplementedError
    iterObj: nat -> Option<seq<Value>>,
    // the truth of Python 2 `a <= b` when a and b are not both numbers, or the
    // exception raised by the comparison (TypeError for a complex number) or
    // by testing the truth of its result (ValueError for a numpy array)
    otherLe: (Value, Value) -> Result<bool>,
    // np.dtype(x), or the exception it raises
    dtypeOf: Value -> Result<DType>,
    // the elements of np.asarray(data, dtype=t), in C order, or the exception it raises
    asArray: (Value, Option<DType>) -> Result<seq<Value>>,
    // the dtype np.asarray(data) chooses when no dtype is given
    inferDType: Value -> DType,
    // np.asarray(data).size
    sizeOf: Value -> nat)

  /** isinstance(v, t) */
  predicate IsInstance(rt: Runtime, v: Value, t: PyType)
    decreases t
  {
    match t
    case Class(c) => rt.instanceOf(v, c)
    case Types(ts) => exists k :: 0 <= k < |ts| && IsInstance(rt, v, ts[k])
  }

  /** The truth of Python 2 `a <= b`, or the exception that computing it raises. */
  function Le(rt: Runtime, a: Value, b: Value): Result<bool> {
    if IsNumber(a) && IsNumber(b) then Ok(NumberOf(a) <= NumberOf(b)) else rt.otherLe(a, b)
  }

  /** Exception classes raised by the utilities; `User` is one chosen by a decorator's caller. */
  datatype Exc =
    | AttributeError
    | IndexError
    | ValueError
    | TypeError
    | ZeroDivisionError
    | DataTypeError
    | DataValueError
    | User(name: string)

  /** What an exception's message reports, without its formatting. */
  datatype Diag =
    | NoDiag
    | At(file: string, line: int, arg: Value)     // "<file>:<line> <arg> must ..."
    | Culprit(v: Value)                           // the offending value
    | Counts(expected: int, got: int)             // "expected <n> values, got <m>"

  /** A return value or a raised exception. */
  datatype Result<+T> = Ok(value: T) | Raise(exc: Exc, diag: Diag)

  /** The value that `"...%s..." % v` shows, or the TypeError that Python
      raises when `v` is a tuple of other than one item: the `%` operator then
      takes the tuple as its whole argument list. */
  function FormatOne(v: Value): Result<Value> {
    if v.Tuple? then
      if |v.items| == 1 then Ok(v.items[0]) else Raise(TypeError, NoDiag)
    else Ok(v)
  }

  /** `raise exc("...%s..." % v)`: the exception `exc` reporting the value
      shown, or the TypeError of the formatting itself. */
  function RaiseShowing<T>(exc: Exc, v: Value): Result<T> {
    match FormatOne(v)
    case Raise(e, m) => Raise(e, m)
    case Ok(shown) => Raise(exc, Culprit(shown))
  }
}
