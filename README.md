# st: a verified model of a tiny Go assertion package

`st` gives Go tests four one-line assertions. `Expect` and `Reject` report
through `t.Errorf`, so the test goes on. `Assert` and `Refute` report through
`t.Fatalf`, so the test stops. `Expect` and `Assert` want `act` and `exp` to
be deep-equal; `Reject` and `Refute` want them to differ. A report names the
file and line of the failing assertion (from `caller`), an optional
example-number prefix (from `exampleNum`), and both values with their
dynamic types.

This project models that core in Dafny:

- `Values` (`values.dfy`): a small typed value model standing in for
  `interface{}` values. A value is the untyped nil, or a dynamic type with a
  payload. A struct type is its sequence of named fields, and a defined type
  (`type egg struct{}`, `type S string`) is its name over its underlying
  type. `DeepEqual` is the equality verdict. It is proved to coincide with
  identity of the whole value, so it is type-strict and a typed nil is never
  the untyped nil.
- `CallSite` (`callsite.dfy`): `LastIndex`, `Basename`, the function
  `Resolve` and the method `Caller`. `Resolve` states which site `caller`
  reports for a given lookup. `Caller` makes the same step-by-step
  reassignments as `caller` and is proved to end at `Resolve`'s site. The
  stack lookup `runtime.Caller(2)` is an input, a `Lookup(file, line, ok)`.
- `Messages` (`messages.dfy`): the two templates `equal` and `unequal`. It has
  the message record, which holds the format arguments rather than the
  rendered text, and the argument list in the order the dispatchers pass it.
  It also has `%d` decimal rendering with its parser, and `ExampleNum`.
- `St` (`st.dfy`): the four assertions. Each is a method that returns an
  `Outcome`: `NoReport`, `Error(msg)` for the continue channel or
  `Fatal(msg)` for the abort channel.
- `Wrappers` (`wrappers.dfy`): `Option`.

Where the code and its tests or comments disagree, the model follows the code:

- `exampleNum` (st.go:83) prints the index unchanged, so `[0]` gives `"0."`.
  Its table test (st_test.go:91-94) expects the one-based `"1."`, `"2."`,
  `"3."`. `Messages.ExampleNumIsZeroBased` proves that for every index `k`
  the prefix is `Decimal(k) + "."` and never `Decimal(k + 1) + "."`.
  `Messages.ExampleNumTableExpectations` proves that each of the test's
  three expectations fails.
- The doc comment of `Refute` (st.go:54-55) says it fires when
  `act != exp`. The code fires when the values are deep-equal, and the model
  does the same.

## Model

| member | source | states |
|---|---|---|
| `Values.TypeOf` | st.go:23-24 | the `%T` argument has no type exactly for the untyped nil, and is a typed value's own dynamic type otherwise |
| `Values.DataEqual` | st.go:30 | the structural payload comparison holds exactly when the payloads are identical, element by element |
| `Values.DeepEqual` | st.go:30 | the verdict holds exactly when both values are the untyped nil or have the same dynamic type and structurally equal payloads; equal values have equal dynamic types |
| `Values.DeepEqualIsEquivalence` | st_test.go:24-26 | the verdict is reflexive, symmetric and transitive |
| `Values.DifferentTypesNeverEqual` | st_test.go:29-32 | values of different dynamic types are never equal, whatever their payloads |
| `Values.TypedNeverEqualsUntypedNil` | readme/readme_test.go:40-41 | a typed value, a typed nil included, is never equal to the untyped nil, in either argument order |
| `Values.TestSuiteVerdicts` | st_test.go:22-85 | the verdicts the package's tests rely on: `"a"`/`"a"`, `42`/`42`, nil/nil, `ex`/`ex` and `&ex`/`&ex` are equal; `"a"`/`"A"`, `42` against `int64(42)`, `42.0` and `"42"`, the empty `[]string{}` and `[]stTest{}` against nil, and `ex` against `&ex`, `0`, `""` and `byte('a')` are not |
| `Values.ReadmeVerdicts` | readme/readme_test.go:9-54 | the verdicts of the readme examples: `42`/`int64(42)` and `ex`/`&ex` differ, a typed nil pointer is not nil, `egg{}`/`chicken{}` differ, `42`/`7*6` are equal; `struct{ a, t string }` is not `struct{ a, b string }`, and a defined string type is not `string` |
| `CallSite.LastIndex` | st.go:71 | the result is -1 or an index of the character, and the character does not occur after it |
| `CallSite.Basename` | st.go:71-74 | the result has no `/`; it is a suffix of the path; it is the whole path when there is no `/`, and otherwise it is what follows the last `/` |
| `CallSite.BasenameIdempotent` | st.go:71-74 | trimming a trimmed path changes nothing |
| `CallSite.BasenameOfJoin` | st_test.go:11-17 | for any directory `dir` and slash-free name `n`, `dir/n` is trimmed to `n` |
| `CallSite.Resolve` | st.go:64-77 | a failed lookup gives exactly `("???", 1)`; otherwise the line passes through and the file is the slash-free suffix after the last `/` of the path, or the path itself when it has none |
| `CallSite.Caller` | st.go:64-77 | the step-by-step reassignment of `file` and `line` ends at exactly the site `Resolve` describes |
| `Messages.Args` | st.go:32 | a message gives seven format arguments, in the order file, line, prefix, type of `have`, `have`, type of `want`, `want`, with `exp` as `have` and `act` as `want` |
| `Messages.ReportShowsBothTypes` | st.go:22-32 | when the two values have different dynamic types, the report's two `%T` arguments are those two types, so they differ |
| `Messages.TemplateLaidOut` | st.go:22-25 | both templates are 68 characters of three lines (line breaks at the start and just before the `have` and last lines), with every `%` at the named offsets of the verbs and nowhere else |
| `Messages.TemplateVerbs` | st.go:22-25 | both templates hold the verbs `%s %d %s %T %+v %T %+v`, in that order |
| `Messages.ArgsFitTemplate` | st.go:23-32 | every message has one argument per verb of its template, and each argument is of a kind its verb prints |
| `Messages.TemplatesDiffer` | st.go:23-24 | the `equal` and `unequal` templates differ, so a report shows its polarity |
| `Messages.Digits` | st.go:83 | `%d` of a natural number is a non-empty string of digits with no leading zero |
| `Messages.Decimal` | st.go:83 | `%d` of an int starts with `-` exactly when it is negative, and the rest is a non-empty canonical digit string; `Digits` and `DecimalRoundTrip` pin its value |
| `Messages.DecimalRoundTrip` | st.go:83 | reading back the decimal rendering of any int gives that int |
| `Messages.DecimalInjective` | st.go:83 | distinct ints render differently |
| `Messages.ExampleNum` | st.go:81-86 | any number of indices other than one gives `""`; one index `n` gives exactly `Decimal(n)` followed by `.`, a string whose part before the dot reads back as `n` |
| `Messages.ExampleNumIsZeroBased` | st.go:83 | the prefix of `[k]` is `Decimal(k) + "."` and never the one-based `Decimal(k + 1) + "."` |
| `Messages.ExampleNumTableExpectations` | st_test.go:87-95 | `[]` gives `""`; `[0]`, `[1]`, `[2]` give `"0."`, `"1."`, `"2."`, not the `"1."`, `"2."`, `"3."` the test expects |
| `St.Expect` | st.go:29-34 | silent exactly when `act` and `exp` are deep-equal; otherwise a continue-channel report with the `equal` template, the resolved call site, `ExampleNum(iter)`, `exp` as `have` and `act` as `want` |
| `St.Reject` | st.go:38-43 | reports exactly when the values are deep-equal, so exactly when `Expect` is silent; the report is on the continue channel, with the `unequal` template and the same argument order |
| `St.Assert` | st.go:47-52 | the condition of `Expect`, reported on the abort channel with the `equal` template and an empty prefix |
| `St.Refute` | st.go:56-61 | the condition of `Reject`, reported on the abort channel with the `unequal` template and an empty prefix |

## Left out

- How `reflect.DeepEqual` works inside. The value model has no pointer
  identity, no maps (unordered keys), no cyclic values and no
  functions, channels or nested interfaces. Floats hold integers only, so
  fractional values and NaN are not represented, so the verdict of
  `ex` against `float64(5.9)` (st_test.go:50, 83) is not among the proved
  ones.
- Defined types are identified by name only. Go also tells apart types of
  the same name declared in different scopes or packages; the model does
  not.
- The stack inspection of `runtime.Caller(2)`. Whether a depth of two
  frames points at the user's assertion depends on the Go runtime. Here the
  lookup's answer is an input.
- The text that `fmt` renders for `%T` and `%+v`, and the rendered message as
  a whole. A message is the record of its format arguments. Only the `%d.`
  prefix is rendered, as decimal digits.
- The reporting surface `testing.TB`. A returned `Outcome` stands in for the
  calls to `t.Errorf` and `t.Fatalf`, so the model does not capture that
  `Fatalf` ends the test's goroutine.
- `Messages.Decimal`: Go's `int` is 64 bits wide, but the model renders
  unbounded integers, because `%d` has no wrap-around to model.
- Go strings are bytes, and the model uses `seq<char>`. The only character it
  searches for is the one-byte `/`, so the trimming does not depend on the
  encoding.
- The tests, benchmarks and readme examples are not modelled as code. Their
  assertions appear as the lemmas cited above.
