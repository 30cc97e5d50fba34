/**
  `as_tuple(item, type=None, length=None)` of pyop2/utils.py: turn an item
  into a tuple (None into the empty tuple, an iterable into the tuple of its
  items, anything else into `length or 1` copies of itself), then, when the
  `type_check` option is on, check the length and the element types.
 */
module AsTuple {
  import opened Python

  /** `(v,) * n`: n copies of v, none when n is not positive. */
  function Repeat(v: Value, n: int): (r: seq<Value>)
    ensures |r| == if n > 0 then n else 0
    ensures forall k :: 0 <= k < |r| ==> r[k] == v
    decreases n
  {
    if n <= 0 then [] else [v] + Repeat(v, n - 1)
  }

  /** `tuple(v)`; None where that raises TypeError (or NotImplementedError). */
  function Iterate(rt: Runtime, v: Value): Option<seq<Value>> {
    match v
    case List(xs) => Some(xs)
    case Tuple(xs) => Some(xs)
    case Str(s) => Some(seq(|s|, k requires 0 <= k < |s| => Str([s[k]])))
    case Obj(id) => rt.iterObj(id)
    case _ => None
  }

  /** `length` is true: given and not 0. */
  predicate LengthGiven(length: Option<int>) {
    length.Some? && length.value != 0
  }

  /** `length or 1` */
  function LengthOrOne(length: Option<int>): int {
    if LengthGiven(length) then length.value else 1
  }

  /** The tuple `t` before the checks. */
  function Coerce(rt: Runtime, item: Value, length: Option<int>): seq<Value> {
    if item.NoneV? then []
    else match Iterate(rt, item)
      case Some(xs) => xs
      case None => Repeat(item, LengthOrOne(length))
  }

  /** The length check passes: no length is given, or `t` has it. */
  predicate LengthOk(t: seq<Value>, length: Option<int>) {
    LengthGiven(length) ==> |t| == length.value
  }

  /** The type check passes: no (true) type is given, or every element is an instance of it. */
  predicate TypesOk(rt: Runtime, t: seq<Value>, typ: Option<PyType>) {
    typ.Some? && TypeIsTruthy(typ.value) ==> forall k :: 0 <= k < |t| ==> IsInstance(rt, t[k], typ.value)
  }

  function AsTuple(rt: Runtime, item: Value, typ: Option<PyType>, length: Option<int>, typeCheck: bool)
    : (r: Result<seq<Value>>)
    ensures r.Ok? ==> r.value == Coerce(rt, item, length)
    ensures !typeCheck ==> r.Ok?
    ensures typeCheck ==>
      (r.Ok? <==> LengthOk(Coerce(rt, item, length), length) && TypesOk(rt, Coerce(rt, item, length), typ))
    ensures r.Raise? ==>
      r.exc == (if LengthOk(Coerce(rt, item, length), length) then TypeError else ValueError)
  {
    var t := Coerce(rt, item, length);
    if typeCheck && !LengthOk(t, length) then Raise(ValueError, Culprit(Int(length.value)))
    else if typeCheck && !TypesOk(rt, t, typ) then Raise(TypeError, NoDiag)
    else Ok(t)
  }

  /** None gives the empty tuple; an iterable gives its items. */
  lemma NoneAndIterables(rt: Runtime, item: Value, length: Option<int>)
    ensures item.NoneV? ==> Coerce(rt, item, length) == []
    ensures !item.NoneV? && Iterate(rt, item).Some? ==> Coerce(rt, item, length) == Iterate(rt, item).value
  {
  }

  /** Anything else gives `length or 1` copies of itself. */
  lemma ScalarRepeated(rt: Runtime, item: Value, length: Option<int>)
    requires !item.NoneV? && Iterate(rt, item).None?
    ensures var t := Coerce(rt, item, length);
      && |t| == (if !LengthGiven(length) then 1 else if length.value > 0 then length.value else 0)
      && forall k :: 0 <= k < |t| ==> t[k] == item
  {
  }

  /** A string is split into its characters. */
  lemma StringSplit(rt: Runtime, s: string)
    ensures var t := Coerce(rt, Str(s), None);
      |t| == |s| && forall k :: 0 <= k < |s| ==> t[k] == Str([s[k]])
  {
  }

  /** A scalar with a length asked for passes the length check iff the length is positive. */
  lemma ScalarMeetsPositiveLength(rt: Runtime, item: Value, n: int)
    requires !item.NoneV? && Iterate(rt, item).None? && n != 0
    ensures LengthOk(Coerce(rt, item, Some(n)), Some(n)) <==> n > 0
  {
  }
}
