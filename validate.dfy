/**
  The argument-validation decorators of pyop2/utils.py: `validate_base` and its
  four kinds `validate_type`, `validate_in`, `validate_range` and
  `validate_dtype`.  A decorator holds declarations `(argname, cond, exception)`;
  on every call of the decorated function, when the `type_check` option is on,
  it copies the function's code attributes into its own fields and checks each
  declaration in turn against the actual arguments, then calls the function.
 */
module Validate {
  import opened Python

  /** The second entry of a declaration, read according to the decorator's kind. */
  datatype Condition =
    | IsA(argtype: PyType)             // validate_type: isinstance(arg, argtype)
    | OneOf(values: seq<Value>)        // validate_in: arg in values
    | Within(lo: Value, hi: Value)     // validate_range: range[0] <= arg <= range[1]
    | ValidDType                       // validate_dtype: np.dtype(arg) succeeds

  datatype Declaration = Declaration(argname: string, cond: Condition, exception: Exc)

  /** A Python function: the code attributes the wrapper reads, and its behaviour. */
  datatype PyFunction = PyFunction(
    argcount: nat,                 // func_code.co_argcount
    varnames: seq<string>,         // func_code.co_varnames: parameters, then locals
    filename: string,              // func_code.co_filename
    firstlineno: int,              // func_code.co_firstlineno
    defaults: Option<seq<Value>>,  // func_defaults
    call: (seq<Value>, map<string, Value>) -> Result<Value>)

  /** The fields a decorator fills in before checking: nargs, defaults, varnames, file, line. */
  datatype Introspection = Introspection(
    nargs: nat, defaults: seq<Value>, varnames: seq<string>, file: string, line: int)

  /** What the wrapper copies off `f` on a gated call. */
  function Introspect(f: PyFunction): Introspection {
    Introspection(f.argcount, DefaultsOrEmpty(f.defaults), f.varnames, f.filename, f.firstlineno + 1)
  }

  /** `f.func_defaults or ()` */
  function DefaultsOrEmpty(defaults: Option<seq<Value>>): seq<Value> {
    match defaults
    case None => []
    case Some(d) => d
  }

  /** The test of the kind-specific `check_arg`: Ok(true) when `arg` passes,
      Ok(false) when it is rejected, and the exception when the test itself
      raises one that `check_arg` does not catch. */
  function Accepts(rt: Runtime, cond: Condition, arg: Value): Result<bool> {
    match cond
    case IsA(t) => Ok(IsInstance(rt, arg, t))
    case OneOf(values) => Ok(Contains(values, arg))
    case Within(lo, hi) =>
      // the chained comparison evaluates `arg <= range[1]` only when `range[0] <= arg` is true
      (match Le(rt, lo, arg)
       case Raise(e, m) => Raise(e, m)
       case Ok(below) => if below then Le(rt, arg, hi) else Ok(false))
    case ValidDType =>
      (match rt.dtypeOf(arg)
       case Ok(_) => Ok(true)
       case Raise(e, m) => if e == TypeError then Ok(false) else Raise(e, m))
  }

  /** `names.index(name)`; None where Python raises ValueError. */
  function IndexOf(names: seq<string>, name: string): (r: Option<nat>)
    ensures r.None? <==> name !in names
    ensures r.Some? ==> r.value < |names| && names[r.value] == name && name !in names[..r.value]
  {
    if names == [] then None
    else if names[0] == name then Some(0)
    else match IndexOf(names[1..], name)
      case None => None
      case Some(i) =>
        assert names[..i + 1] == [names[0]] + names[1..][..i];
        Some(i + 1)
  }

  /** `kwargs.get(name)` */
  function KeywordValue(kwargs: map<string, Value>, name: string): Value {
    if name in kwargs then kwargs[name] else NoneV
  }

  /** The position of a formal parameter and the actual argument found for it. */
  datatype Bound = Bound(index: nat, arg: Value)

  /** The actual argument for `name`, or None when the declaration is ignored:
      `name` is no formal parameter, or the keyword value is absent or false and
      there is no positional argument at its index. */
  function Resolve(varnames: seq<string>, args: seq<Value>, kwargs: map<string, Value>, name: string): Option<Bound> {
    match IndexOf(varnames, name)
    case None => None
    case Some(i) =>
      var kw := KeywordValue(kwargs, name);
      if !Falsy(kw) then Some(Bound(i, kw))
      else if i < |args| then Some(Bound(i, args[i]))
      else None
  }

  /** One iteration of `check_args`. */
  function CheckDecl(rt: Runtime, info: Introspection, d: Declaration,
                     args: seq<Value>, kwargs: map<string, Value>): Result<()>
  {
    match Resolve(info.varnames, args, kwargs, d.argname)
    case None => Ok(())
    case Some(Bound(i, arg)) =>
      var defaultIndex := i - info.nargs + |info.defaults|;
      if defaultIndex >= 0 && defaultIndex >= |info.defaults| then Raise(IndexError, NoDiag)
      else if defaultIndex >= 0 && Eq(arg, info.defaults[defaultIndex]) then Ok(())
      else match Accepts(rt, d.cond, arg)
        case Raise(e, m) => Raise(e, m)
        case Ok(passes) => if passes then Ok(()) else Raise(d.exception, At(info.file, info.line, arg))
  }

  /** `check_args`: the declarations in order, stopping at the first that raises. */
  function CheckAll(rt: Runtime, info: Introspection, decls: seq<Declaration>,
                    args: seq<Value>, kwargs: map<string, Value>): Result<()>
    decreases |decls|
  {
    if decls == [] then Ok(())
    else match CheckDecl(rt, info, decls[0], args, kwargs)
      case Raise(e, m) => Raise(e, m)
      case Ok(_) => CheckAll(rt, info, decls[1..], args, kwargs)
  }

  /** A decorator instance.  Python leaves the five introspection fields unset
      until the first gated call: `introspected` says whether they are set, and
      until then they hold placeholders. */
  class Validator {
    const checks: seq<Declaration>
    var introspected: bool
    var nargs: nat
    var defaults: seq<Value>
    var varnames: seq<string>
    var file: string
    var line: int

    constructor (checks: seq<Declaration>)
      ensures this.checks == checks && !introspected
    {
      this.checks := checks;
      introspected := false;
      nargs, defaults, varnames, file, line := 0, [], [], "", 0;
    }

    function Info(): Introspection
      reads this
    {
      Introspection(nargs, defaults, varnames, file, line)
    }

    /** `wrapper` called with the arguments the decorator library passes it,
        `typeCheck` being `configuration["type_check"]`. */
    method Call(rt: Runtime, f: PyFunction, args: seq<Value>, kwargs: map<string, Value>, typeCheck: bool)
      returns (r: Result<Value>)
      modifies this
      ensures !typeCheck ==> r == f.call(args, kwargs) && unchanged(this)
      ensures typeCheck ==>
        && introspected
        && nargs == f.argcount && defaults == DefaultsOrEmpty(f.defaults) && varnames == f.varnames
        && file == f.filename && line == f.firstlineno + 1
      ensures typeCheck && CheckAll(rt, Introspect(f), checks, args, kwargs).Ok? ==> r == f.call(args, kwargs)
      ensures typeCheck && CheckAll(rt, Introspect(f), checks, args, kwargs).Raise? ==>
        r == Raise(CheckAll(rt, Introspect(f), checks, args, kwargs).exc,
                   CheckAll(rt, Introspect(f), checks, args, kwargs).diag)
    {
      if typeCheck {
        introspected := true;
        nargs := f.argcount;
        defaults := DefaultsOrEmpty(f.defaults);
        varnames := f.varnames;
        file := f.filename;
        line := f.firstlineno + 1;
        var c := CheckArgs(rt, args, kwargs);
        if c.Raise? {
          return Raise(c.exc, c.diag);
        }
      }
      r := f.call(args, kwargs);
    }

    /** `check_args` over the fields the last gated call wrote.  Before any
        gated call, the first declaration's `self.varnames` raises AttributeError. */
    method CheckArgs(rt: Runtime, args: seq<Value>, kwargs: map<string, Value>) returns (r: Result<()>)
      ensures !introspected && checks != [] ==> r == Raise(AttributeError, NoDiag)
      ensures introspected || checks == [] ==> r == CheckAll(rt, Info(), checks, args, kwargs)
    {
      if !introspected && checks != [] {
        return Raise(AttributeError, NoDiag);
      }
      var k := 0;
      while k < |checks|
        invariant k <= |checks|
        invariant CheckAll(rt, Info(), checks[k..], args, kwargs) == CheckAll(rt, Info(), checks, args, kwargs)
      {
        var d := checks[k];
        assert checks[k..][1..] == checks[k + 1..];
        k := k + 1;
        // a name that is no formal parameter is ignored
        var i := IndexOf(varnames, d.argname);
        if i.None? {
          continue;
        }
        // by keyword first, by position second; ignored when not given
        var arg := KeywordValue(kwargs, d.argname);
        if Falsy(arg) {
          if i.value >= |args| {
            continue;
          }
          arg := args[i.value];
        }
        // a value equal to the parameter's default is accepted
        var defaultIndex := i.value - nargs + |defaults|;
        if defaultIndex >= 0 {
          if defaultIndex >= |defaults| {
            return Raise(IndexError, NoDiag);
          }
          if Eq(arg, defaults[defaultIndex]) {
            continue;
          }
        }
        var test := Accepts(rt, d.cond, arg);
        if test.Raise? {
          return Raise(test.exc, test.diag);
        }
        if !test.value {
          return Raise(d.exception, At(file, line, arg));
        }
      }
      return Ok(());
    }
  }

  // ---------------------------------------------------------------------------
  // Skip rules

  /** A declaration naming no formal parameter never raises. */
  lemma UnknownNameIgnored(rt: Runtime, info: Introspection, d: Declaration,
                           args: seq<Value>, kwargs: map<string, Value>)
    requires d.argname !in info.varnames
    ensures CheckDecl(rt, info, d, args, kwargs) == Ok(())
  {
  }

  /** A declaration whose keyword value is absent or false, and whose position
      lies beyond the positional arguments, never raises. */
  lemma UnsuppliedIgnored(rt: Runtime, info: Introspection, d: Declaration,
                          args: seq<Value>, kwargs: map<string, Value>, i: nat)
    requires IndexOf(info.varnames, d.argname) == Some(i) && i >= |args|
    requires Falsy(KeywordValue(kwargs, d.argname))
    ensures CheckDecl(rt, info, d, args, kwargs) == Ok(())
  {
  }

  /** A resolved value equal to the parameter's default is never checked. */
  lemma DefaultExempt(rt: Runtime, info: Introspection, d: Declaration,
                      args: seq<Value>, kwargs: map<string, Value>, i: nat, arg: Value)
    requires Resolve(info.varnames, args, kwargs, d.argname) == Some(Bound(i, arg))
    requires 0 <= i - info.nargs + |info.defaults| < |info.defaults|
    requires Eq(arg, info.defaults[i - info.nargs + |info.defaults|])
    ensures CheckDecl(rt, info, d, args, kwargs) == Ok(())
  {
  }

  /** A name found past the positional parameters (a local or `*args`) that
      resolves to an argument makes the default lookup raise IndexError. */
  lemma PastPositionalRaisesIndexError(rt: Runtime, info: Introspection, d: Declaration,
                                       args: seq<Value>, kwargs: map<string, Value>, i: nat, arg: Value)
    requires Resolve(info.varnames, args, kwargs, d.argname) == Some(Bound(i, arg))
    requires i >= info.nargs
    ensures CheckDecl(rt, info, d, args, kwargs) == Raise(IndexError, NoDiag)
  {
  }

  // ---------------------------------------------------------------------------
  // Argument resolution

  /** The argument is the keyword value when that is true; otherwise the
      positional one at the parameter's first index in `varnames`, if any. */
  lemma ResolveKeywordFirst(varnames: seq<string>, args: seq<Value>, kwargs: map<string, Value>, name: string)
    requires name in varnames
    ensures var i := IndexOf(varnames, name).value;
      && i < |varnames| && varnames[i] == name && name !in varnames[..i]
      && (!Falsy(KeywordValue(kwargs, name)) ==> Resolve(varnames, args, kwargs, name) == Some(Bound(i, kwargs[name])))
      && (Falsy(KeywordValue(kwargs, name)) && i < |args| ==> Resolve(varnames, args, kwargs, name) == Some(Bound(i, args[i])))
      && (Falsy(KeywordValue(kwargs, name)) && i >= |args| ==> Resolve(varnames, args, kwargs, name) == None)
  {
  }

  // ---------------------------------------------------------------------------
  // The predicates

  /** A declaration that applies (resolved, within the positional parameters,
      and not equal to its default) passes when its test accepts the argument,
      raises its own exception reporting file, line and the argument when the
      test rejects it, and raises what the test raised otherwise. */
  lemma AppliedDeclaration(rt: Runtime, info: Introspection, d: Declaration,
                           args: seq<Value>, kwargs: map<string, Value>, i: nat, arg: Value)
    requires Resolve(info.varnames, args, kwargs, d.argname) == Some(Bound(i, arg))
    requires i < info.nargs
    requires var di := i - info.nargs + |info.defaults|; di < 0 || !Eq(arg, info.defaults[di])
    ensures Accepts(rt, d.cond, arg) == Ok(true) ==> CheckDecl(rt, info, d, args, kwargs) == Ok(())
    ensures Accepts(rt, d.cond, arg) == Ok(false) ==>
      CheckDecl(rt, info, d, args, kwargs) == Raise(d.exception, At(info.file, info.line, arg))
    ensures Accepts(rt, d.cond, arg).Raise? ==>
      CheckDecl(rt, info, d, args, kwargs) == Raise(Accepts(rt, d.cond, arg).exc, Accepts(rt, d.cond, arg).diag)
  {
  }

  /** validate_range on numbers: never raises, accepted iff lo <= arg <= hi numerically. */
  lemma RangeOnNumbers(rt: Runtime, lo: Value, hi: Value, arg: Value)
    requires IsNumber(lo) && IsNumber(hi) && IsNumber(arg)
    ensures Accepts(rt, Within(lo, hi), arg) == Ok(NumberOf(lo) <= NumberOf(arg) <= NumberOf(hi))
  {
  }

  /** validate_range when `range[0] <= arg` raises (a complex argument, or an
      array whose truth is ambiguous): the exception escapes `check_arg`, and
      when it is false, `arg <= range[1]` is never evaluated. */
  lemma RangeLowerComparison(rt: Runtime, lo: Value, hi: Value, arg: Value)
    ensures Le(rt, lo, arg).Raise? ==> Accepts(rt, Within(lo, hi), arg) == Le(rt, lo, arg)
    ensures Le(rt, lo, arg) == Ok(false) ==> Accepts(rt, Within(lo, hi), arg) == Ok(false)
    ensures Le(rt, lo, arg) == Ok(true) ==> Accepts(rt, Within(lo, hi), arg) == Le(rt, arg, hi)
  {
  }

  /** validate_dtype: accepted iff np.dtype succeeds, rejected iff it raises
      TypeError, and any other exception of np.dtype escapes. */
  lemma DTypeTest(rt: Runtime, arg: Value)
    ensures Accepts(rt, ValidDType, arg) == Ok(true) <==> rt.dtypeOf(arg).Ok?
    ensures Accepts(rt, ValidDType, arg) == Ok(false) <==> rt.dtypeOf(arg).Raise? && rt.dtypeOf(arg).exc == TypeError
    ensures Accepts(rt, ValidDType, arg).Raise? <==> rt.dtypeOf(arg).Raise? && rt.dtypeOf(arg).exc != TypeError
    ensures Accepts(rt, ValidDType, arg).Raise? ==>
      Accepts(rt, ValidDType, arg) == Raise(rt.dtypeOf(arg).exc, rt.dtypeOf(arg).diag)
  {
    match rt.dtypeOf(arg)
    case Ok(_) =>
    case Raise(e, m) =>
  }

  /** An applied validate_range declaration on numbers raises its exception
      exactly when the argument lies outside [lo, hi]. */
  lemma RangeViolationRaises(rt: Runtime, info: Introspection, d: Declaration,
                             args: seq<Value>, kwargs: map<string, Value>, i: nat, arg: Value)
    requires d.cond.Within? && IsNumber(d.cond.lo) && IsNumber(d.cond.hi) && IsNumber(arg)
    requires Resolve(info.varnames, args, kwargs, d.argname) == Some(Bound(i, arg))
    requires i < info.nargs
    requires var di := i - info.nargs + |info.defaults|; di < 0 || !Eq(arg, info.defaults[di])
    ensures CheckDecl(rt, info, d, args, kwargs) ==
      if NumberOf(d.cond.lo) <= NumberOf(arg) <= NumberOf(d.cond.hi) then Ok(())
      else Raise(d.exception, At(info.file, info.line, arg))
  {
    AppliedDeclaration(rt, info, d, args, kwargs, i, arg);
    RangeOnNumbers(rt, d.cond.lo, d.cond.hi, arg);
  }

  /** validate_in: every listed value is accepted, and an accepted value equals a listed one. */
  lemma MembershipMeaning(rt: Runtime, values: seq<Value>, arg: Value)
    ensures Accepts(rt, OneOf(values), arg).Ok?
    ensures (exists k :: 0 <= k < |values| && values[k] == arg) ==> Accepts(rt, OneOf(values), arg) == Ok(true)
    ensures Accepts(rt, OneOf(values), arg) == Ok(true) <==> exists k :: 0 <= k < |values| && Eq(arg, values[k])
  {
    if k :| 0 <= k < |values| && values[k] == arg {
      MemberIsContained(values, k);
    }
  }

  // ---------------------------------------------------------------------------
  // Declaration order

  /** `check_args` passes iff every declaration passes, and when it raises, it
      raises what the first failing declaration raises. */
  lemma {:induction false} FirstFailureWins(rt: Runtime, info: Introspection, decls: seq<Declaration>,
                                            args: seq<Value>, kwargs: map<string, Value>)
    ensures CheckAll(rt, info, decls, args, kwargs).Ok? <==>
      forall k :: 0 <= k < |decls| ==> CheckDecl(rt, info, decls[k], args, kwargs).Ok?
    ensures CheckAll(rt, info, decls, args, kwargs).Raise? ==>
      exists k :: 0 <= k < |decls| && CheckDecl(rt, info, decls[k], args, kwargs) == CheckAll(rt, info, decls, args, kwargs)
        && forall j :: 0 <= j < k ==> CheckDecl(rt, info, decls[j], args, kwargs).Ok?
    decreases |decls|
  {
    if decls != [] {
      FirstFailureWins(rt, info, decls[1..], args, kwargs);
      if CheckDecl(rt, info, decls[0], args, kwargs).Ok? {
        forall k | 0 <= k < |decls[1..]| ensures decls[1..][k] == decls[k + 1] { }
        if CheckAll(rt, info, decls, args, kwargs).Raise? {
          var k :| 0 <= k < |decls[1..]| && CheckDecl(rt, info, decls[1..][k], args, kwargs) == CheckAll(rt, info, decls[1..], args, kwargs)
            && forall j :: 0 <= j < k ==> CheckDecl(rt, info, decls[1..][j], args, kwargs).Ok?;
          assert CheckDecl(rt, info, decls[k + 1], args, kwargs) == CheckAll(rt, info, decls, args, kwargs);
          forall j | 0 <= j < k + 1 ensures CheckDecl(rt, info, decls[j], args, kwargs).Ok? {
            if j > 0 { assert decls[j] == decls[1..][j - 1]; }
          }
        }
      }
    }
  }

  /** What one declaration can raise: IndexError from the default lookup, its
      own exception, or what its test raised on some argument. */
  lemma DeclarationRaises(rt: Runtime, info: Introspection, d: Declaration,
                          args: seq<Value>, kwargs: map<string, Value>)
    ensures var c := CheckDecl(rt, info, d, args, kwargs);
      c.Raise? ==>
        || c.exc == IndexError || c.exc == d.exception
        || exists arg :: Accepts(rt, d.cond, arg) == Raise(c.exc, c.diag)
  {
    match Resolve(info.varnames, args, kwargs, d.argname)
    case None =>
    case Some(Bound(i, arg)) =>
      assert Accepts(rt, d.cond, arg).Raise? ==>
        Accepts(rt, d.cond, arg) == Raise(Accepts(rt, d.cond, arg).exc, Accepts(rt, d.cond, arg).diag);
  }

  /** Only the declared exceptions, IndexError from the default lookup, and
      what a declaration's test itself raised, can be raised. */
  lemma {:induction false} RaisesOnlyDeclared(rt: Runtime, info: Introspection, decls: seq<Declaration>,
                                              args: seq<Value>, kwargs: map<string, Value>)
    ensures var c := CheckAll(rt, info, decls, args, kwargs);
      c.Raise? ==>
        || c.exc == IndexError
        || (exists k :: 0 <= k < |decls| && decls[k].exception == c.exc)
        || (exists k, arg :: 0 <= k < |decls| && Accepts(rt, decls[k].cond, arg) == Raise(c.exc, c.diag))
    decreases |decls|
  {
    if decls != [] {
      var c := CheckAll(rt, info, decls, args, kwargs);
      if CheckDecl(rt, info, decls[0], args, kwargs).Ok? {
        RaisesOnlyDeclared(rt, info, decls[1..], args, kwargs);
        assert c == CheckAll(rt, info, decls[1..], args, kwargs);
        if c.Raise? && c.exc != IndexError {
          if k :| 0 <= k < |decls[1..]| && decls[1..][k].exception == c.exc {
            assert decls[k + 1] == decls[1..][k];
          } else {
            var k, arg :| 0 <= k < |decls[1..]| && Accepts(rt, decls[1..][k].cond, arg) == Raise(c.exc, c.diag);
            assert decls[k + 1] == decls[1..][k];
          }
        }
      } else {
        DeclarationRaises(rt, info, decls[0], args, kwargs);
        assert c == CheckDecl(rt, info, decls[0], args, kwargs);
      }
    }
  }

  /** Declarations whose tests never raise (any isinstance or `in` test, and
      ranges over numbers on numeric arguments among them) raise only their
      own exceptions or IndexError. */
  lemma NonRaisingTestsRaiseOnlyDeclared(rt: Runtime, info: Introspection, decls: seq<Declaration>,
                                         args: seq<Value>, kwargs: map<string, Value>)
    requires forall k, arg :: 0 <= k < |decls| ==> Accepts(rt, decls[k].cond, arg).Ok?
    ensures var c := CheckAll(rt, info, decls, args, kwargs);
      c.Raise? ==> c.exc == IndexError || exists k :: 0 <= k < |decls| && decls[k].exception == c.exc
  {
    RaisesOnlyDeclared(rt, info, decls, args, kwargs);
  }

  /** Declarations that all name non-parameters never raise, whatever the arguments. */
  lemma {:induction false} UnknownNamesNeverRaise(rt: Runtime, info: Introspection, decls: seq<Declaration>,
                                                  args: seq<Value>, kwargs: map<string, Value>)
    requires forall k :: 0 <= k < |decls| ==> decls[k].argname !in info.varnames
    ensures CheckAll(rt, info, decls, args, kwargs) == Ok(())
    decreases |decls|
  {
    if decls != [] {
      UnknownNameIgnored(rt, info, decls[0], args, kwargs);
      assert forall k :: 0 <= k < |decls[1..]| ==> decls[1..][k] == decls[k + 1];
      UnknownNamesNeverRaise(rt, info, decls[1..], args, kwargs);
    }
  }

  // ---------------------------------------------------------------------------
  // `check_args` for `def f(x, y=3)` under validate_range(('x', (1, 5), E), ('y', (5, 9), E))

  function ExampleInfo(): Introspection {
    Introspection(2, [Int(3)], ["x", "y"], "example.py", 11)
  }

  function ExampleChecks(): seq<Declaration> {
    [Declaration("x", Within(Int(1), Int(5)), User("E")), Declaration("y", Within(Int(5), Int(9)), User("E"))]
  }

  /** `check_args((0,), {})`: x = 0 is out of range and raises E. */
  lemma PositionalZeroRejected(rt: Runtime)
    ensures CheckAll(rt, ExampleInfo(), ExampleChecks(), [Int(0)], map[]) == Raise(User("E"), At("example.py", 11, Int(0)))
  {
  }

  /** `check_args((), {'x': 0, 'y': 3})`: the false keyword value 0 finds no
      positional argument, so x is not checked; y equals its default 3 and is
      not checked either. */
  lemma KeywordZeroAndDefaultPass(rt: Runtime)
    ensures CheckAll(rt, ExampleInfo(), ExampleChecks(), [], map["x" := Int(0), "y" := Int(3)]) == Ok(())
  {
    assert IndexOf(["x", "y"], "y") == Some(1);
  }

  /** `f(x=0, y=3)` through the decorator library's wrapper: named parameters
      arrive by position with their defaults bound, as `check_args((0, 3), {})`,
      so x = 0 is checked and raises E. */
  lemma BoundKeywordZeroRejected(rt: Runtime)
    ensures CheckAll(rt, ExampleInfo(), ExampleChecks(), [Int(0), Int(3)], map[]) == Raise(User("E"), At("example.py", 11, Int(0)))
  {
  }
}
