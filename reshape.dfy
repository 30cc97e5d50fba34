/**
  `verify_reshape(data, dtype, shape, allow_none=False)` of pyop2/utils.py:
  check the dtype, convert the data with numpy and impose the shape in place,
  or raise DataTypeError / DataValueError; exceptions of numpy that the code
  does not catch pass through.
 */
module Reshape {
  import opened Python

  /** A numpy array: element type, shape and elements in C order. */
  datatype NdArray = NdArray(dtype: DType, shape: seq<nat>, flat: seq<Value>)

  /** np.prod(shape); 1 for the empty shape of a scalar. */
  function Prod(shape: seq<nat>): nat {
    if shape == [] then 1 else shape[0] * Prod(shape[1..])
  }

  /** The dtype numpy gives np.asarray([]) when none is requested. */
  const DEFAULT_DTYPE := DType("float64")

  /** The first `try` block: the target type `t`, None (numpy chooses) when
      `dtype` is None and np.dtype(dtype) otherwise, with its TypeError turned
      into DataTypeError and any other exception of np.dtype passed on. */
  function Target(rt: Runtime, dtype: Value): Result<Option<DType>> {
    if dtype.NoneV? then Ok(None)
    else match rt.dtypeOf(dtype)
      case Ok(d) => Ok(Some(d))
      case Raise(e, m) => if e == TypeError then RaiseShowing(DataTypeError, dtype) else Raise(e, m)
  }

  function VerifyReshape(rt: Runtime, data: Value, dtype: Value, shape: seq<nat>, allowNone: bool): (r: Result<NdArray>)
    ensures r.Ok? ==> |r.value.flat| == Prod(r.value.shape)
    ensures r.Raise? ==>
      || r.exc == DataTypeError || r.exc == DataValueError
      // the message of the DataTypeError or DataValueError could not be formatted
      || (r.exc == TypeError && dtype.Tuple? && |dtype.items| != 1)
      // np.dtype raised something other than TypeError
      || (!dtype.NoneV? && rt.dtypeOf(dtype).Raise? && rt.dtypeOf(dtype).exc == r.exc && r.exc != TypeError)
      // np.asarray raised something other than ValueError
      || (Target(rt, dtype).Ok? && rt.asArray(data, Target(rt, dtype).value).Raise?
          && rt.asArray(data, Target(rt, dtype).value).exc == r.exc && r.exc != ValueError)
  {
    match Target(rt, dtype)
    case Raise(e, m) => Raise(e, m)
    case Ok(t) =>
      if data.NoneV? && allowNone then
        Ok(NdArray(if t.Some? then t.value else DEFAULT_DTYPE, [0], []))
      else if data.NoneV? then
        Raise(DataValueError, NoDiag)
      else match rt.asArray(data, t)
        case Raise(e, m) => if e == ValueError then RaiseShowing(DataValueError, dtype) else Raise(e, m)
        case Ok(flat) =>
          // a.shape = shape succeeds iff the element count is unchanged
          if |flat| == Prod(shape) then
            Ok(NdArray(if t.Some? then t.value else rt.inferDType(data), shape, flat))
          else
            Raise(DataValueError, Counts(Prod(shape), rt.sizeOf(data)))
  }

  /** A dtype np.dtype rejects with TypeError fails before the data are looked
      at: with DataTypeError showing the dtype, or, for a tuple of other than
      one item, with the TypeError of formatting that message. */
  lemma InvalidDTypeFirst(rt: Runtime, data1: Value, data2: Value, dtype: Value, shape: seq<nat>, allowNone: bool)
    requires !dtype.NoneV? && rt.dtypeOf(dtype).Raise? && rt.dtypeOf(dtype).exc == TypeError
    ensures !dtype.Tuple? ==> VerifyReshape(rt, data1, dtype, shape, allowNone) == Raise(DataTypeError, Culprit(dtype))
    ensures dtype.Tuple? && |dtype.items| == 1 ==>
      VerifyReshape(rt, data1, dtype, shape, allowNone) == Raise(DataTypeError, Culprit(dtype.items[0]))
    ensures dtype.Tuple? && |dtype.items| != 1 ==>
      VerifyReshape(rt, data1, dtype, shape, allowNone) == Raise(TypeError, NoDiag)
    ensures VerifyReshape(rt, data1, dtype, shape, allowNone) == VerifyReshape(rt, data2, dtype, shape, allowNone)
  {
  }

  /** Any other exception of np.dtype escapes `except TypeError` unchanged. */
  lemma DTypeOtherErrorEscapes(rt: Runtime, data: Value, dtype: Value, shape: seq<nat>, allowNone: bool)
    requires !dtype.NoneV? && rt.dtypeOf(dtype).Raise? && rt.dtypeOf(dtype).exc != TypeError
    ensures VerifyReshape(rt, data, dtype, shape, allowNone) == Raise(rt.dtypeOf(dtype).exc, rt.dtypeOf(dtype).diag)
  {
  }

  /** With a valid dtype, absent data give an empty array of that dtype when
      allowed and DataValueError otherwise. */
  lemma AbsentData(rt: Runtime, dtype: Value, shape: seq<nat>, allowNone: bool)
    requires Target(rt, dtype).Ok?
    ensures allowNone ==> VerifyReshape(rt, NoneV, dtype, shape, allowNone).Ok?
    ensures allowNone && !dtype.NoneV? ==>
      VerifyReshape(rt, NoneV, dtype, shape, allowNone) == Ok(NdArray(rt.dtypeOf(dtype).value, [0], []))
    ensures !allowNone ==> VerifyReshape(rt, NoneV, dtype, shape, allowNone) == Raise(DataValueError, NoDiag)
  {
  }

  /** Data np.asarray rejects with ValueError raise DataValueError showing the
      dtype, whatever the shape, or, for a tuple dtype of other than one item,
      the TypeError of formatting that message. */
  lemma Inconvertible(rt: Runtime, data: Value, dtype: Value, shape: seq<nat>, allowNone: bool)
    requires Target(rt, dtype).Ok? && !data.NoneV?
    requires rt.asArray(data, Target(rt, dtype).value).Raise?
    requires rt.asArray(data, Target(rt, dtype).value).exc == ValueError
    ensures !dtype.Tuple? ==> VerifyReshape(rt, data, dtype, shape, allowNone) == Raise(DataValueError, Culprit(dtype))
    ensures dtype.Tuple? && |dtype.items| == 1 ==>
      VerifyReshape(rt, data, dtype, shape, allowNone) == Raise(DataValueError, Culprit(dtype.items[0]))
    ensures dtype.Tuple? && |dtype.items| != 1 ==>
      VerifyReshape(rt, data, dtype, shape, allowNone) == Raise(TypeError, NoDiag)
  {
  }

  /** Any other exception of np.asarray (a TypeError, say, for an element
      numpy cannot turn into a number) escapes `except ValueError` unchanged. */
  lemma ConversionOtherErrorEscapes(rt: Runtime, data: Value, dtype: Value, shape: seq<nat>, allowNone: bool)
    requires Target(rt, dtype).Ok? && !data.NoneV?
    requires rt.asArray(data, Target(rt, dtype).value).Raise?
    requires rt.asArray(data, Target(rt, dtype).value).exc != ValueError
    ensures VerifyReshape(rt, data, dtype, shape, allowNone) ==
      Raise(rt.asArray(data, Target(rt, dtype).value).exc, rt.asArray(data, Target(rt, dtype).value).diag)
  {
  }

  /** Converted data succeed iff their element count is the product of the
      shape; the array then has exactly that shape, the requested dtype and the
      converted elements, and otherwise the error reports both counts. */
  lemma ShapeDecides(rt: Runtime, data: Value, dtype: Value, shape: seq<nat>, allowNone: bool)
    requires Target(rt, dtype).Ok? && !data.NoneV?
    requires rt.asArray(data, Target(rt, dtype).value).Ok?
    ensures var flat := rt.asArray(data, Target(rt, dtype).value).value;
      var r := VerifyReshape(rt, data, dtype, shape, allowNone);
      && (r.Ok? <==> |flat| == Prod(shape))
      && (r.Ok? ==> r.value.shape == shape && r.value.flat == flat)
      && (r.Ok? && !dtype.NoneV? ==> r.value.dtype == rt.dtypeOf(dtype).value)
      && (r.Raise? ==> r == Raise(DataValueError, Counts(Prod(shape), rt.sizeOf(data))))
  {
  }

  /** verify_reshape([1, 2, 3], int, (2,)) reports 2 values expected and 3 given. */
  lemma ThreeValuesIntoTwo(rt: Runtime, data: Value, dtype: Value)
    requires rt.dtypeOf(dtype) == Ok(DType("int64")) && !dtype.NoneV?
    requires data == List([Int(1), Int(2), Int(3)])
    requires rt.asArray(data, Some(DType("int64"))) == Ok([Int(1), Int(2), Int(3)])
    requires rt.sizeOf(data) == 3
    ensures VerifyReshape(rt, data, dtype, [2], false) == Raise(DataValueError, Counts(2, 3))
  {
  }

  /** verify_reshape([1, 2, 3, 4], int, (2, 2)) is a 2 x 2 int64 array. */
  lemma FourValuesIntoSquare(rt: Runtime, data: Value, dtype: Value)
    requires rt.dtypeOf(dtype) == Ok(DType("int64")) && !dtype.NoneV?
    requires data == List([Int(1), Int(2), Int(3), Int(4)])
    requires rt.asArray(data, Some(DType("int64"))) == Ok([Int(1), Int(2), Int(3), Int(4)])
    ensures VerifyReshape(rt, data, dtype, [2, 2], false) == Ok(NdArray(DType("int64"), [2, 2], [Int(1), Int(2), Int(3), Int(4)]))
  {
  }

  /** verify_reshape([1, None], np.int32, (2,)): numpy's TypeError for the
      None element is not caught and leaves verify_reshape as it is. */
  lemma NoneElementEscapes(rt: Runtime, dtype: Value)
    requires rt.dtypeOf(dtype) == Ok(DType("int32")) && !dtype.NoneV?
    requires rt.asArray(List([Int(1), NoneV]), Some(DType("int32"))) == Raise(TypeError, NoDiag)
    ensures VerifyReshape(rt, List([Int(1), NoneV]), dtype, [2], false) == Raise(TypeError, NoDiag)
  {
  }

  /** verify_reshape(data, ('foo', 2), shape): np.dtype rejects the dtype, and
      formatting "Invalid data type: %s" with a two-item tuple raises TypeError. */
  lemma TwoItemDTypeMessageFails(rt: Runtime, data: Value, shape: seq<nat>)
    requires rt.dtypeOf(Tuple([Str("foo"), Int(2)])).Raise?
    requires rt.dtypeOf(Tuple([Str("foo"), Int(2)])).exc == TypeError
    ensures VerifyReshape(rt, data, Tuple([Str("foo"), Int(2)]), shape, false) == Raise(TypeError, NoDiag)
  {
  }
}
