# PyOP2 utilities: argument validation, reshaping and text helpers

A Dafny model of the core of `pyop2/utils.py`. It covers these parts:

- **The argument-validation decorators.** `validate_base` and its four kinds `validate_type`, `validate_in`, `validate_range` and `validate_dtype` are modelled as one class `Validate.Validator`. A `Condition` variant says which kind each declaration is.
  - On every call with the `type_check` option on, the wrapper copies the code attributes of the decorated function into the instance fields. Then `check_args` walks the declarations in order. It skips unknown parameter names, unsupplied arguments and values equal to their defaults. It raises the declared exception for the first argument its predicate rejects.
- **`verify_reshape`** (`Reshape`): the dtype check, the `None` handling, the numpy conversion and the element-count check on the shape. Each failure gives its own `DataTypeError` or `DataValueError`, except that a tuple `dtype` of other than one item makes the message's formatting raise TypeError, and numpy exceptions the code does not catch pass through.
- **`as_tuple`** (`AsTuple`), **`align`** (`Arith`, with Python's flooring `//`), **`flatten`** and **`uniquify`** (`Sequences`).
- **`trim`** and **`strip`** (`Text`). `trim` is PEP 257 docstring dedenting. `strip` drops blank lines and lines holding only `;`. `Text` also models the Python 2 byte-string methods these two use: `expandtabs` with tab size 8, `splitlines` at `\n`, `\r` and `\r\n`, `strip`/`lstrip`/`rstrip` on the six `isspace` characters, and `'\n'.join`.

The code changes state in some places:

- the decorator's fields;
- the `check_args` loop with its `continue`s;
- the three loops and the pops of `trim`;
- the set that `uniquify` grows.

Those parts are a class and methods with loops. Each method is proved against a specification function (`CheckAll`, `Trimmed`, `Dedent`, `DropBlankEnds`) or against a direct statement (`Uniquify`). Lemmas then prove what the source promises about those functions. The check predicates and the other helpers are pure functions.

The model does not interpret these Python, numpy and introspection services. Instead, `Python.Runtime` holds each one as a given total function:

- `isinstance` against a named class;
- `tuple()` on an arbitrary object;
- the truth of Python 2 `<=` on values that are not numbers, or the exception that the comparison or the truth test of its result raises;
- `np.dtype`, with the exception it raises;
- `np.asarray`, with the exception it raises, and the dtype it infers;
- `.size`.

An exception from one of these services that the code does not catch passes through unchanged. `np.dtype` is caught only for TypeError (`pyop2/utils.py:216-217`, `226-227`) and `np.asarray` only for ValueError (`235-236`).

The `type_check` configuration value is a parameter. The decorated function is a `PyFunction` record: its code attributes plus its behaviour as a function from arguments to a result.

Behaviour of the code that a reader may not expect, which the model keeps:

- **When the signature is read.** The code copies the signature attributes on every call made with `type_check` on (`pyop2/utils.py:124-129`). They are not captured once at decoration time.
- **Keyword lookup.** The code uses `kwargs.get(name) or args[i]` (`pyop2/utils.py:146-147`), so a keyword value that is false (`0`, `''`, `None`, `False`) falls back to the positional argument. When that index is out of range, the declaration is ignored. Through the decorator library's wrapper, named parameters always arrive by position (see "## Left out"), so this concerns `check_args` called directly, and names past `co_argcount`.
- **Names past the positional parameters.** For a name in `co_varnames` beyond `co_argcount` (a local, or `*args`), the default index is at least `len(defaults)`. Looking it up raises `IndexError` (`pyop2/utils.py:153-154`).
- **Messages formatted with a tuple.** `"Invalid data type: %s" % dtype` and `"... cannot convert to %s!" % dtype` (`pyop2/utils.py:228`, `237`) take a tuple `dtype` as the whole argument list. With one item, the message shows that item. With any other number of items, the formatting raises TypeError in place of DataTypeError or DataValueError.
- **Before the first gated call.** `check_args` reads `self.varnames`, which only a gated call sets, so calling it earlier with any declaration raises AttributeError (`pyop2/utils.py:139`).
- **Empty arrays without a dtype.** With `dtype=None` the empty array for absent data has numpy's default dtype (float64), not a caller-given one.

## Model

| member | source | states |
|---|---|---|
| Validate.Validator.Call | pyop2/utils.py:122-132 | with the gate off: `f`'s own result, and the fields unchanged; with it on: `nargs` = co_argcount, `defaults` = func_defaults or the empty tuple, `varnames`, `file`, and `line` = co_firstlineno + 1, and either the first failing declaration's exception is raised or `f`'s result is returned |
| Validate.Validator.CheckArgs | pyop2/utils.py:134-156 | AttributeError when no gated call has set the fields and there is a declaration; otherwise the loop with its `continue`s returns exactly `CheckAll` over the declarations and the current fields |
| Validate.Introspect | pyop2/utils.py:125-129 | definition: the five attributes a gated call reads off `f`: `co_argcount`, `func_defaults or ()`, `co_varnames`, `co_filename` and `co_firstlineno + 1` |
| Validate.DefaultsOrEmpty | pyop2/utils.py:126 | definition: `f.func_defaults or ()` |
| Validate.KeywordValue | pyop2/utils.py:146 | definition: `kwargs.get(argname)`, None when the name is absent |
| Validate.CheckAll | pyop2/utils.py:135-156 | definition: the declarations in order, the first raise ending the loop |
| Validate.CheckDecl | pyop2/utils.py:136-156 | definition: one loop iteration: skip when unresolved, IndexError when the default index is past the defaults, skip when `==` to the default, else the kind's check |
| Validate.Resolve | pyop2/utils.py:138-150 | definition: `varnames.index(name)`, then `kwargs.get(name) or args[i]`, none where ValueError or IndexError leads to `continue` |
| Validate.Accepts | pyop2/utils.py:168-219 | definition: the test of each `check_arg`: `isinstance(arg, argtype)`, `arg in values`, the chained `range[0] <= arg <= range[1]`, or `np.dtype(arg)` not raising TypeError; an exception of `<=` or of `np.dtype` other than TypeError is passed on |
| Validate.IndexOf | pyop2/utils.py:138-142 | `tuple.index`: absent iff the name is not in the tuple; otherwise the position of its first occurrence |
| Validate.UnknownNameIgnored | pyop2/utils.py:136-142 | a declaration naming no formal parameter never raises |
| Validate.UnknownNamesNeverRaise | pyop2/utils.py:115-117 | declarations that all name non-parameters never raise, for any arguments |
| Validate.UnsuppliedIgnored | pyop2/utils.py:143-150 | a name whose keyword value is missing or false, with no positional argument at its index, never raises |
| Validate.ResolveKeywordFirst | pyop2/utils.py:143-150 | the argument is a true keyword value if there is one, else the positional one at the first index of the name, else none |
| Validate.DefaultExempt | pyop2/utils.py:151-155 | a resolved value equal (Python `==`) to the parameter's default is not checked |
| Validate.PastPositionalRaisesIndexError | pyop2/utils.py:153-154 | a resolved name at or past `nargs` raises IndexError from the default lookup |
| Validate.AppliedDeclaration | pyop2/utils.py:151-156 | a declaration that applies passes when its test accepts the argument, raises its own exception reporting file, line and argument when the test rejects it, and raises what the test raised otherwise |
| Validate.RangeOnNumbers | pyop2/utils.py:199-202 | `range[0] <= arg <= range[1]` on bools, ints and floats never raises and is the numeric interval test |
| Validate.RangeLowerComparison | pyop2/utils.py:200 | an exception of `range[0] <= arg` escapes `check_arg`; when that comparison is false the range test fails without evaluating `arg <= range[1]`, and when it is true the test is `arg <= range[1]` |
| Validate.DTypeTest | pyop2/utils.py:215-219 | validate_dtype accepts iff `np.dtype(arg)` succeeds, rejects iff it raises TypeError, and passes any other exception of `np.dtype` on |
| Validate.RangeViolationRaises | pyop2/utils.py:199-202 | an applied range declaration on numbers raises its exception exactly when the argument is outside `[lo, hi]` |
| Validate.MembershipMeaning | pyop2/utils.py:183-186 | `arg in values` never raises, and holds iff the argument equals (Python `==`) some listed value; every listed value passes |
| Validate.FirstFailureWins | pyop2/utils.py:135-156 | `check_args` passes iff every declaration passes; when it raises, it raises what the first failing declaration raises |
| Validate.DeclarationRaises | pyop2/utils.py:136-156 | one declaration raises only IndexError, its own exception, or what its test raised on some argument |
| Validate.RaisesOnlyDeclared | pyop2/utils.py:135-156 | the only exceptions raised are the declared ones, IndexError, and those a declaration's test (`<=`, `np.dtype`) raised |
| Validate.NonRaisingTestsRaiseOnlyDeclared | pyop2/utils.py:135-156 | when no declaration's test can raise, the only exceptions raised are the declared ones and IndexError |
| Validate.PositionalZeroRejected | pyop2/utils.py:199-202 | `check_args((0,), {})` under the range (1, 5) on `x` raises the declared exception at the function's file and line |
| Validate.KeywordZeroAndDefaultPass | pyop2/utils.py:145-155 | `check_args((), {'x': 0, 'y': 3})` passes: the false keyword value finds no positional argument, and `y` equals its default |
| Validate.BoundKeywordZeroRejected | pyop2/utils.py:145-156 | `check_args((0, 3), {})`, which is what `f(x=0, y=3)` passes through the wrapper, raises the declared exception for `x` |
| Python.Falsy | pyop2/utils.py:147 | definition: Python truth testing, as `arg or args[i]` uses it |
| Python.Eq | pyop2/utils.py:154 | definition: Python 2 `==` on the modelled values |
| Python.Contains | pyop2/utils.py:184 | definition: `x in values` for a list or tuple |
| Python.Le | pyop2/utils.py:200 | definition: the truth of Python 2 `<=`, numeric on numbers, or the exception computing it raises |
| Python.FormatOne | pyop2/utils.py:228 | definition: the value `"%s" % v` shows, the single item of a one-item tuple, and TypeError for a tuple of any other length |
| Python.RaiseShowing | pyop2/utils.py:228 | definition: `raise exc("... %s" % v)`, or the TypeError of formatting the message |
| Python.IsInstance | pyop2/utils.py:169 | definition: `isinstance` with a class or a nested tuple of classes |
| Python.EqReflexive | pyop2/utils.py:154 | the model of `==` is reflexive on every value, nested lists and tuples included |
| Python.MemberIsContained | pyop2/utils.py:184 | every element of a list is `in` it |
| Reshape.Target | pyop2/utils.py:225-228 | definition: `np.dtype(dtype) if dtype is not None else None`; its TypeError becomes DataTypeError showing the dtype, and any other exception is passed on |
| Reshape.Prod | pyop2/utils.py:245 | definition: `np.prod(shape)`, 1 for the empty shape |
| Reshape.VerifyReshape | pyop2/utils.py:222-245 | a returned array has exactly as many elements as its shape's product; every failure is DataTypeError, DataValueError, the TypeError of formatting a message with a tuple dtype of other than one item, an exception of `np.dtype` other than TypeError, or an exception of `np.asarray` other than ValueError |
| Reshape.InvalidDTypeFirst | pyop2/utils.py:225-228 | a dtype that `np.dtype` rejects with TypeError raises DataTypeError showing it, whatever the data; for a tuple dtype of other than one item, the TypeError of formatting the message |
| Reshape.DTypeOtherErrorEscapes | pyop2/utils.py:225-227 | an exception of `np.dtype` other than TypeError leaves `verify_reshape` unchanged |
| Reshape.AbsentData | pyop2/utils.py:229-232 | `None` data give an empty array of the requested dtype when allowed, and DataValueError otherwise |
| Reshape.Inconvertible | pyop2/utils.py:234-237 | data that `np.asarray` rejects with ValueError raise DataValueError showing the dtype, whatever the shape; for a tuple dtype of other than one item, the TypeError of formatting the message |
| Reshape.ConversionOtherErrorEscapes | pyop2/utils.py:234-236 | an exception of `np.asarray` other than ValueError leaves `verify_reshape` unchanged |
| Reshape.ShapeDecides | pyop2/utils.py:238-245 | converted data succeed iff their count is the product of the shape; the array then has that shape, dtype and those elements, and otherwise the error reports both counts |
| Reshape.ThreeValuesIntoTwo | pyop2/utils.py:238-245 | `[1, 2, 3]` into shape `(2,)` reports 2 values expected and 3 given |
| Reshape.FourValuesIntoSquare | pyop2/utils.py:238-242 | `[1, 2, 3, 4]` into shape `(2, 2)` is a 2 x 2 array of the requested dtype |
| Reshape.NoneElementEscapes | pyop2/utils.py:234-236 | `verify_reshape([1, None], np.int32, (2,))` raises numpy's TypeError uncaught |
| Reshape.TwoItemDTypeMessageFails | pyop2/utils.py:225-228 | `verify_reshape(data, ('foo', 2), shape)` with `np.dtype` raising TypeError raises TypeError from the message's formatting |
| AsTuple.Iterate | pyop2/utils.py:75-78 | definition: `tuple(item)`, none where TypeError or NotImplementedError is raised |
| AsTuple.Coerce | pyop2/utils.py:70-79 | definition: the tuple before the checks |
| AsTuple.LengthOrOne | pyop2/utils.py:79 | definition: `length or 1` |
| AsTuple.LengthOk | pyop2/utils.py:81 | definition: the negation of `length and not len(t) == length` |
| AsTuple.TypesOk | pyop2/utils.py:83 | definition: the negation of `type and not all(isinstance(i, type) for i in t)` |
| Python.TypeIsTruthy | pyop2/utils.py:83 | definition: the truth of `type`: a class is true, a tuple of types is true unless empty |
| AsTuple.AsTuple | pyop2/utils.py:69-85 | with the gate off the tuple is always returned; with it on, a result is returned iff the length and type checks both pass; a wrong length raises ValueError, and otherwise a failed type check raises TypeError |
| AsTuple.Repeat | pyop2/utils.py:79 | `(v,) * n` has `max(n, 0)` elements, all `v` |
| AsTuple.NoneAndIterables | pyop2/utils.py:71-76 | `None` gives the empty tuple; an iterable gives its items |
| AsTuple.ScalarRepeated | pyop2/utils.py:78-79 | a non-iterable gives `length or 1` copies of itself, none for a negative length |
| AsTuple.StringSplit | pyop2/utils.py:76 | a string gives the tuple of its characters |
| AsTuple.ScalarMeetsPositiveLength | pyop2/utils.py:79-82 | a non-iterable with a nonzero length passes the length check iff the length is positive |
| Arith.Align | pyop2/utils.py:248-250 | definition: `((bytes + alignment - 1) // alignment) * alignment`, ZeroDivisionError for alignment 0 |
| Arith.AlignDefault | pyop2/utils.py:248-250 | with the default alignment 16 the result is a multiple of 16 in `[bytes, bytes + 16)` |
| Arith.FloorDiv | pyop2/utils.py:250 | Python `//`: for either sign of divisor, the quotient rounds towards minus infinity |
| Arith.AlignRoundsUp | pyop2/utils.py:248-250 | for a positive alignment the result is a multiple of it, at least `bytes` and less than `bytes + alignment` |
| Arith.AlignIsLeast | pyop2/utils.py:248-250 | the result is the least multiple of the alignment that is at least `bytes` |
| Arith.AlignIdempotent | pyop2/utils.py:248-250 | aligning an aligned value changes nothing |
| Sequences.Flatten | pyop2/utils.py:253-255 | definition: the items of the inner sequences, in order |
| Sequences.FlattenAppend | pyop2/utils.py:253-255 | flattening distributes over concatenation of the outer sequence |
| Sequences.FlattenConcat | pyop2/utils.py:253-255 | one more inner sequence adds exactly its items at the end |
| Sequences.FlattenLength | pyop2/utils.py:253-255 | the result holds as many items as all the inner sequences together |
| Sequences.FlattenMembers | pyop2/utils.py:253-255 | an item is in the result iff it is in one of the inner sequences |
| Sequences.FirstIndex | pyop2/utils.py:261 | the position of an item's first occurrence |
| Sequences.Uniquify | pyop2/utils.py:258-261 | the result has the same items as the input, each once, in the order of their first occurrences |
| Text.LStripWs | pyop2/utils.py:325 | definition: `s.lstrip()` |
| Text.RStripWs | pyop2/utils.py:332 | definition: `s.rstrip()` |
| Text.StripWs | pyop2/utils.py:329 | definition: `s.strip()` |
| Text.ExpandTabs | pyop2/utils.py:321 | definition: `s.expandtabs()` from column 0 |
| Text.Join | pyop2/utils.py:339 | definition: `'\n'.join(lines)` |
| Text.LeadingSpacesSpan | pyop2/utils.py:325 | `lstrip` removes exactly the leading whitespace: all characters before the cut are whitespace, and the one after it is not |
| Text.TextEndSpan | pyop2/utils.py:332 | `rstrip` removes exactly the trailing whitespace |
| Text.LeadingSpaces | pyop2/utils.py:325 | definition: the number of leading whitespace characters, `len(s) - len(s.lstrip())`; at most `len(s)` |
| Text.TextEnd | pyop2/utils.py:332 | definition: `len(s.rstrip())`; at most `len(s)` |
| Text.ExpandTabsFrom | pyop2/utils.py:321 | `expandtabs` leaves no tab and never shortens the text |
| Text.ExpandTabsIdentity | pyop2/utils.py:321 | text without tabs is left as it is |
| Text.LineEnd | pyop2/utils.py:321 | the first line ends at the first `\n` or `\r`, or at the end of the text |
| Text.SplitLines | pyop2/utils.py:321 | non-empty text has at least one line, and no line holds a line break |
| Text.SplitJoin | pyop2/utils.py:321 | `splitlines` undoes `'\n'.join` for lines without breaks whose last line is not empty |
| Text.MinIndent | pyop2/utils.py:323-327 | definition: the indentation loop's result over the given lines; at most MAXINT |
| Text.Indentation | pyop2/utils.py:327 | definition: `len(line) - len(line.lstrip())` |
| Text.HasText | pyop2/utils.py:325-326 | definition: `line.lstrip()` is not empty |
| Text.MinIndentIsLeast | pyop2/utils.py:323-327 | the indentation found is the least of the lines with text, and is MAXINT when none has text |
| Text.Dedent | pyop2/utils.py:329-332 | definition: the stripped first line, then `line[indent:].rstrip()` for each later line when some later line has text |
| Text.Drop | pyop2/utils.py:332 | definition: `line[indent:]` for a non-negative `indent`, empty past the end |
| Text.DedentEach | pyop2/utils.py:331-332 | definition: `line[indent:].rstrip()` for each line, one output per line |
| Text.LaterLinesDedented | pyop2/utils.py:323-332 | every later line loses exactly the common indentation, which is whitespace on each line with text and the full indentation of at least one of them; lines without text become empty |
| Text.DedentLines | pyop2/utils.py:322-332 | the indentation loop and the dedent loop build exactly `Dedent` of the lines |
| Text.PopBlankEnds | pyop2/utils.py:333-337 | the two pop loops leave exactly `DropBlankEnds` of the list |
| Text.DropBlankEndsIsSlice | pyop2/utils.py:333-337 | what remains is a contiguous slice with only empty lines removed at either end, and neither of its ends is empty |
| Text.DropBlankEnds | pyop2/utils.py:333-337 | definition: the list without its trailing, then its leading, empty lines |
| Text.Trimmed | pyop2/utils.py:317-337 | definition: no lines for a false docstring, else the dedented lines without empty ends |
| Text.DocLines | pyop2/utils.py:321 | definition: `docstring.expandtabs().splitlines()`, at least one line for a non-empty docstring |
| Text.Trim | pyop2/utils.py:314-339 | `trim` returns the trimmed lines joined by newlines |
| Text.TrimEmpty | pyop2/utils.py:317-318 | an absent or empty docstring gives the empty string |
| Text.FirstLineStripped | pyop2/utils.py:329 | a first line with text stays first, fully stripped |
| Text.TrimSplitsBack | pyop2/utils.py:314-339 | splitting the result of `trim` gives exactly the trimmed lines back |
| Text.CodeLines | pyop2/utils.py:343 | definition: the lines whose stripped text is neither empty nor `;`, in order |
| Text.IsCodeLine | pyop2/utils.py:343 | definition: `l.strip() and l.strip() != ';'` |
| Text.Filter | pyop2/utils.py:343 | definition: `[x for x in s if keep(x)]` |
| Text.Strip | pyop2/utils.py:342-343 | definition: the code lines of `code.splitlines()` joined by newlines |
| Text.FilterAppend | pyop2/utils.py:343 | a list comprehension with a condition distributes over concatenation |
| Text.FilterCount | pyop2/utils.py:343 | a kept item occurs as often as in the input; any other item not at all |
| Text.FilterFrom | pyop2/utils.py:343 | every kept item meets the condition and comes from the input |
| Text.CodeLinesAppend | pyop2/utils.py:343 | `strip` filters line by line: a single line is kept iff its stripped text is neither empty nor `;`, in order |
| Text.CodeLinesCount | pyop2/utils.py:343 | each code line is kept as often as it occurs, and no other line is kept |
| Text.CodeLinesShape | pyop2/utils.py:343 | every kept line is a non-empty code line without a line break |
| Text.StripSplitsBack | pyop2/utils.py:342-343 | splitting the result of `strip` gives exactly the kept lines back |

## Left out

- The parts of `pyop2/utils.py` outside this core are not modelled. These are `cached_property`, `as_type`, `tuplify`, `parser`, `parse_args`, `maybe_setflags`, `preprocess`, `get_petsc_dir`, `get_papi_dir`, `randomize_map` and the SNAPR/IACA shims. They are argument parsing, subprocesses, environment lookups, randomness and numpy flag handling.
- How numpy converts data, how `isinstance` resolves classes, `tuple()` on arbitrary objects, and `<=` between values that are not both numbers are not modelled. They are given functions in `Python.Runtime`, which may return an exception. `isinstance`, `tuple()` on an arbitrary object, the dtype numpy infers and `.size` are taken never to raise an exception past the handler.
- Reshape.VerifyReshape: an array that is not contiguous enough to reshape in place is not modelled, nor is the aliasing of the returned array with `data`. A shape entry of `-1` (numpy's inferred dimension) is not modelled either: shape entries are non-negative.
- Validate.Validator.Call: the decorator library's signature-preserving wrapper and the stacking of several decorators are not modelled. `decorator(wrapper, f)` generates a function with `f`'s signature that passes every named parameter to `wrapper` by position, with its default filled in, and leaves in `kwargs` only the extras of a `**kw` parameter. `args` and `kwargs` here are what `wrapper` receives, so for a call through the wrapper the keyword fallback and the skip of an unsupplied argument matter only for names past `co_argcount`. Nor is the global configuration object: the gate is a parameter. Exceptions raised by `f` itself are part of the result of `PyFunction.call`.
- Validate.Validator: one instance may hold declarations of different kinds. This generalises the four subclasses, in each of which all declarations share one kind. Before the first gated call the Python instance has no introspection fields. The model starts them from placeholders, with `introspected` false until a gated call writes them; `CheckArgs` then raises AttributeError, as `self.varnames` does.
- Exception messages are not formatted. `Python.Diag` keeps part of what a message reports: the file, line and argument of a failed check, the offending value, or the two counts. It leaves out the violated domain (the type, the list of values, the range) of the validate messages, and the type named by `as_tuple`'s TypeError, which has `NoDiag`.
- Python.Falsy: every `Obj` is true. An empty dict is false in Python, and the truth test of a numpy array of several elements raises ValueError; the model has neither, at `arg or args[i]` or at the `and` of the default test.
- Python.Eq: an `Obj` equals only itself. A user-defined `__eq__`, and numpy's element-wise `==`, which decide `arg == default` in Python, are not modelled.
- Python.Value: a float is a `real`, so there is no NaN. Python's `lo <= nan <= hi` is false, so validate_range raises for NaN; the model cannot express that input.
- Validate.Condition: the domain of validate_in is a list or tuple of values. A str domain, where `in` is a substring test, and dict or set domains are not modelled.
- Sequences.Uniquify: Dafny equality stands in for Python's hash-and-equality, so `1`, `1.0` and `True` count as distinct here. Every item is taken to be hashable: Python raises TypeError at `x not in uniq` (`pyop2/utils.py:261`) for an unhashable item such as a list, so `uniquify([[1], [1]])` raises there, while the model gives `[[1]]`. The generators of `flatten` and `uniquify` are modelled by their whole output as a sequence, so laziness is not modelled.
- Text.Trim: `lines[1:]` is a copy in the source; the model reads the same lines. The methods `DedentLines` and `PopBlankEnds` hold the loops of the single source function. `sys.maxint` is taken to be that of a 64-bit build. Unicode docstrings, whose `splitlines` and `isspace` recognise more characters, are not modelled.
- Arith.Align: nothing is proved about a negative alignment beyond the definition, which follows Python's flooring division; an alignment of 0 raises ZeroDivisionError.
- AsTuple.AsTuple: the messages of ValueError and TypeError are not modelled. A `length` that is not an integer is not modelled.
