# env: resolving struct fields from the environment

This project models `var.go` of the Go library `env`, in Dafny. `var.go` turns one field of a
configuration struct into a `Var` descriptor. It proceeds in three steps:

1. It reads the field's `env` struct tag: `key=`, `required`, `default=`, `options=a,b,c`
   and `decode=`.
2. It looks the key up through a caller-supplied function (`os.Getenv` in production).
3. It converts the text into a value of the field's type. Then it applies the required,
   default and options policy.

The model is organised in modules, one per part of the program:

| module | file | models |
|---|---|---|
| `GoTypes` | gotypes.dfy | the slice of `reflect` the code uses: type names and kinds, values, `reflect.Zero`, comparability under `==` |
| `Strings` | strings.dfy | `strings.Split` on one character, and ASCII `strings.ToUpper` |
| `Strconv` | strconv.dfy | `strconv.Atoi` over the 64-bit range, `strconv.Itoa`, and `strconv.ParseBool` with Go's exact spelling list |
| `Durations` | durations.dfy | an integer-only `time.ParseDuration`, used as the duration parser in the scenarios |
| `Converter` | convert.dfy | `convert`, `convertWithKind`, `convertWithType`, `parseInt`, `parseBool`, and `parseYaml` with its forwarders |
| `Tags` | tags.dfy | `Var`, `SetKey` and `Parse` |
| `Resolve` | resolve.dfy | `NewVarWithFunc` and `optionsContains` |
| `Scenarios` | scenarios.dfy | concrete tags and environments resolved end to end |

Some parts of the program are foreign to this model. They become parameters:

- The environment lookup is a function `get: string -> string`.
- `time.ParseDuration` and `yaml.Unmarshal` are the fields of an `Externals` record.
- Go does not fix the iteration order of a map, and `Parse` walks its directive map in that
  order. The model takes the order as a parameter `order`, which may be any arrangement of
  the four directives `key`, `required`, `default` and `options`.

The headline properties are these:

- A successful `Parse` does not depend on that order, and it yields a descriptor stated
  without reference to any order (`Tags.ParseSpec`).
- A failing `Parse` does depend on the order (`Scenarios.OrderMattersOnFailure`).
- `NewVarWithFunc` discards the error of `Parse` (var.go:36). A tag whose default does not
  convert therefore resolves silently to the zero value (`Scenarios.BadDefaultIgnored`).

Some behaviours of the code differ from what a reader of the tag syntax might expect. The model
keeps them as written:

- A token's value is the second piece of a split on `=`. `default=a=b` gives the default
  `a`, not `a=b`.
- `required=false` marks the field as required: only the presence of the directive counts.
- `ParseBool` accepts exactly `1 t T TRUE true True 0 f F FALSE false False`. It is
  case-sensitive, so `tRUE` and `yes` are errors.
- An unknown `decode` strategy is an error only when there is a non-empty text to convert.
- The unset strategy tries the type path first. It falls back to the kind path on any error
  of the type path. So a malformed `time.Duration` is reported as `unsupported int64`, never
  with the duration parser's own error.

In the Go code, `optionsContains` panics in two cases: when an option is an invalid value
(an empty element of the list), and when it compares two values of the same slice or map
type. A slice compared with a string is simply unequal. The model makes this
panic an explicit outcome (`Panicked`) instead of a precondition, so the callers that reach
it are characterised too.

## Model

| member | source | states |
|---|---|---|
| `GoTypes.Zero` | var.go:60 | the zero value is `""`, `0`, `false` and `0ns` for `string`, `int`, `bool` and `time.Duration`; for every other type, a named type of a builtin kind included, it is an opaque zero of exactly that type, so it equals no string, int, bool or duration value |
| `Converter.BuiltinZeros` | var.go:60 | the zero values of `int`, `bool` and `time.Duration` are what `0`, `false` and `0` convert to, and the zero string is empty |
| `Strings.Split` | var.go:143-152 | there is at least one piece, and no piece contains the separator |
| `Strings.JoinSplit` | var.go:143 | joining the pieces with the separator gives back the text |
| `Strings.SplitJoin` | var.go:187 | splitting a join of separator-free pieces gives back the pieces |
| `Strings.SplitAfterPiece` | var.go:148 | a text that starts with a separator-free piece splits into that piece followed by the split of the rest |
| `Strings.ToUpper` | var.go:124 | the result has the same length, contains no lower-case letter, keeps every other character, and replaces each lower-case letter by its capital |
| `Strings.ToUpperFixesUpper` | var.go:124 | upper-casing leaves a text unchanged exactly when it has no lower-case letter, so it is idempotent |
| `Strconv.Atoi` | var.go:291 | an accepted text is an optional sign followed by digits, its value is a 64-bit integer, and the sign decides the sign of the value |
| `Strconv.AtoiShortNumerals` | var.go:291 | every numeral of 1 to 18 digits is accepted with its decimal value |
| `Strconv.AtoiItoa` | var.go:291 | the decimal rendering of every 64-bit integer parses back to that integer |
| `Strconv.DigitsValueOfNatToString` | var.go:291 | the digits rendered for a natural number have that number as their value |
| `Strconv.DigitsValueBound` | var.go:291 | n digits have a value below 10^n |
| `Strconv.ParseBool` | var.go:302 | an accepted text has 1 to 5 characters, and true and false are spelled from disjoint first characters |
| `Strconv.ParseBoolFormatBool` | var.go:302 | the rendering of either boolean parses back to it |
| `Strconv.ParseBoolIsCaseSensitive` | var.go:302 | `tRUE`, `yes` and `maybe` are rejected |
| `Durations.ParseDuration` | var.go:263 | an accepted duration fits in 64 bits, and the empty text is rejected |
| `Durations.HourAndHalf` | var.go:263 | `1h30m` is ninety minutes |
| `Durations.NanosecondsRoundTrip` | var.go:263 | every non-negative 64-bit count written as `<n>ns` parses back to itself |
| `Durations.SingleComponent` | var.go:263 | digits followed by a known unit denote the digits' value times the unit |
| `Converter.ParseInt` | var.go:287-296 | a non-empty text is accepted exactly when `Atoi` accepts it, yielding that integer; a rejection is a conversion error naming the text and `int` |
| `Converter.ParseBool` | var.go:298-307 | a non-empty text is accepted exactly when `ParseBool` accepts it, yielding that boolean; a rejection is a conversion error naming the text and `bool` |
| `Converter.ParseYaml` | var.go:319-340 | succeeds exactly when the decoder accepts the text, with the decoded value; a failure is a conversion error naming the text, the kind and the type |
| `Converter.ConvertWithKind` | var.go:234-256 | empty text is no value; strings pass through; ints and bools succeed exactly when their parser accepts; slices and maps go to the YAML decoder; any other kind is an `unsupported <kind>` error; every error names the text and the target: `int`, `bool`, or the YAML description of the kind and type |
| `Converter.ConvertWithType` | var.go:258-268 | succeeds exactly for `time.Duration` when the duration parser accepts the text; the parser's failure is its own error; any other type is an `unsupported type <name>` error |
| `Converter.Convert` | var.go:207-232 | empty text is no value under every strategy; a non-empty success carries a value; an unknown strategy is an `unsupported decode` error naming the strategy; only the `type` strategy lets the duration parser's error through; `kind`, `type` and `yaml` take the kind path, the type path and the YAML decoder |
| `Converter.UnsetStrategy` | var.go:215-222 | without a strategy, a type other than `time.Duration` converts exactly as under `kind`, and a malformed duration is reported as `unsupported int64` while `type` reports the parser's error |
| `Converter.ExplicitStrategies` | var.go:223-228 | under `yaml` any type succeeds exactly when the decoder accepts the text, with the decoded value; under `type` every type but `time.Duration` is an `unsupported type <name>` error; under `kind` a `time.Duration` is an `unsupported int64` error and a string kind passes through |
| `Converter.IntRoundTrip` | var.go:245-246 | an int field converts the rendering of every 64-bit integer back to it, under `kind` and without a strategy |
| `Converter.BoolRoundTrip` | var.go:247-248 | a bool field converts the rendering of either boolean back to it |
| `Converter.MalformedBool` | var.go:302-305 | `maybe` is a bool conversion error under `kind` and without a strategy |
| `Tags.SetKey` | var.go:116-125 | the key becomes the upper-cased text: the same length, each lower-case letter replaced by its capital, every other character kept, and no other field changes |
| `Tags.ParamsOfKeys` | var.go:145-155 | a directive is in the map exactly when some token names it |
| `Tags.LastOccurrenceWins` | var.go:154 | a directive maps to the value of the last token naming it |
| `Tags.ConvertAll` | var.go:187-197 | the options convert exactly when every element converts, element by element in order; otherwise the error is that of the first element that fails |
| `Tags.Apply` | var.go:167-198 | one directive succeeds exactly when the conversion it performs, if any, succeeds, and it never changes the name, the type, the value or the strategy |
| `Tags.ApplyDirectives` | var.go:166-199 | the loop keeps name, type, value and strategy; the key stays or becomes the upper-cased `key` value; `required` is set only by the directive; only conversion errors stop it |
| `Tags.ApplyDirectivesSucceeds` | var.go:166-199 | the loop over distinct directives succeeds exactly when each present directive applies on its own |
| `Tags.ApplyDirectivesResult` | var.go:166-199 | when all present directives apply, the loop sets exactly the fields they name and keeps the others |
| `Tags.Parse` | var.go:127-202 | the key has no lower-case letter and is the upper-cased name or `key` value; name and type come from the field; an empty tag gives the initial descriptor without error; the strategy is the `decode` value; `required` comes only from the directive; only conversion errors are reported |
| `Tags.EmptyTagParams` | var.go:135-137 | the empty tag has no directive of the loop |
| `Tags.ParseSpec` | var.go:127-202 | in every iteration order, parsing succeeds exactly when the default and every option convert with the tag's strategy, and then it yields the order-free descriptor |
| `Tags.ParseOrderIndependent` | var.go:166 | two iteration orders agree on success, and on success they give the same descriptor |
| `Resolve.OptionsContains` | var.go:73-80 | `Found` means the value is an option; `Missing` means it is not; there is no panic when every option is present and no option is compared with a value that is uncomparable like itself, in particular when the value is comparable; a panic needs an absent option or two uncomparable values |
| `Resolve.ScanOrder` | var.go:74-79 | the scan finds the value exactly when an option equal to it comes before any option that panics, and panics exactly when such an option comes before any option equal to the value |
| `Resolve.ListAgainstScalars` | var.go:73-80 | a decoded list compared with present, comparable options is reported missing, not a panic, because values of different dynamic types compare unequal |
| `Resolve.NewVarWithFunc` | var.go:33-71 | the key is upper-case; success carries a value, which is one of the options when there are options; a required error names the key the source left empty; a not-allowed error names the key and a value outside the options; a panic needs options |
| `Resolve.ConversionErrorFirst` | var.go:41-45 | a conversion error of the looked-up text is returned with the parsed descriptor and no value |
| `Resolve.RequiredBeforeDefault` | var.go:49-52 | an empty text for a required field is an error naming the key, even with a default |
| `Resolve.AbsentFallsBack` | var.go:54-61 | an empty text for an optional field without options becomes the default, or else the zero value of the type |
| `Resolve.PresentValueKept` | var.go:41-47 | a convertible text for a field without options becomes its value |
| `Resolve.OptionsGate` | var.go:64-68 | with options that cannot panic, resolution succeeds exactly when the final value is an option, and otherwise reports the key, the value and the options |
| `Scenarios.RequiredMissing` | var.go:49-52 | a required field with `default=5` whose variable is unset is an error naming the upper-cased key |
| `Scenarios.DefaultFive` | var.go:54-57 | an unset int field with `default=5` resolves to 5 |
| `Scenarios.OptionsAbc` | var.go:64-68 | with `options=a,b,c`, the value `d` is not allowed and the value `b` is accepted |
| `Scenarios.ParsedAbc` | var.go:186-197 | `options=a,b,c` gives the three string options in order |
| `Scenarios.NinetyMinutes` | var.go:262-264 | a `time.Duration` field set to `1h30m` resolves to ninety minutes |
| `Scenarios.MaybeIsNotABool` | var.go:302-305 | a bool field set to `maybe` is a conversion error and has no value |
| `Scenarios.BadDefaultIgnored` | var.go:36 | a default that does not convert makes parsing fail, yet resolution returns the zero value without error |
| `Scenarios.SkipUntilDefault` | var.go:166-185 | with only a failing `default` directive, the loop stops at it with the descriptor unchanged |
| `Scenarios.OrderMattersOnFailure` | var.go:166-184 | when the default fails, the `key` directive has taken effect if it came first and has not if it came after |
| `Scenarios.RequiredFalseIsRequired` | var.go:171-174 | `required=false` marks the field required |
| `Scenarios.SecondEqualsCutsValue` | var.go:148-152 | `default=a=b` gives the default `a` |
| `Scenarios.EmptyOptionParsed` | var.go:187-196 | `options=a,,b` keeps an absent option in the middle |
| `Scenarios.EmptyOptionElement` | var.go:73-80 | with `options=a,,b`, the value `a` is accepted before the absent option is reached, and the value `b` panics on it |
| `Scenarios.NamedZeroNotAnOption` | var.go:58-67 | an unset field of a named int type with `options=0` falls back to that type's zero value, which is not the plain int option, so it is not allowed |
| `Scenarios.UnknownStrategy` | var.go:207-230 | `decode=json` is an `unsupported decode` error for a set variable and yields the empty string for an unset one |

## Left out

- `NewVar` (var.go:28-30) only passes `os.Getenv` to `NewVarWithFunc`. The environment is the parameter `get`.
- The trivial setters (var.go:82-114) are record updates in the model. `SetKey` is modelled because it upper-cases.
- `field.Tag.Get("env")` (var.go:133) is not modelled. A `Field` carries the tag's value directly, with "" for a missing tag.
- The internals of `yaml.Unmarshal` are not modelled. The decoder is a parameter, and the `fmt.Print` of its error (var.go:335) is an output side effect.
- `time.ParseDuration` is a parameter of the converter. `Durations.ParseDuration` models only integer components and is used in the scenarios. Fractional components such as `1.5h` are outside the model.
- Durations.ParseDuration: its contract states only the 64-bit range and the rejection of the empty text; the grammar of components is stated by `HourAndHalf`, `SingleComponent` and `NanosecondsRoundTrip`. Go accumulates the components in an unsigned 64-bit sum that can wrap around: for `9223372036854775808ns9223372036854775808ns` the sum wraps to 0 and Go returns 0. The model sums unbounded integers and rejects that text.
- `parseFloat` (var.go:309-315) is never called from the core and is not modelled.
- Reflection is reduced to a type name, a kind and a small value datatype. Types of the form `*T`, structs, arrays and named-type conversions are not modelled. A slice or map value decoded by YAML is an opaque value from the decoder.
- The text of the error messages is not rendered. Each error is a datatype carrying the parts that Go formats with `%s` and `%v`.
- The `case "decode"` branch of the loop (var.go:177-179) cannot be reached, because `decode` is deleted before the loop. The directive set has no `decode`.
- The zero `reflect.Kind` that `parseInt` and `parseBool` return for an empty text (var.go:288-289, 299-300) cannot be reached from `convert`. It is modelled as written as `KindZero`.
- Strconv.ParseBool: its contract states the length and first character of an accepted text; the exact spelling list is its definition, and `ParseBoolFormatBool` and `ParseBoolIsCaseSensitive` state its behaviour on the renderings and on near misses.
- Strings.ToUpper: upper-cases ASCII letters only. Go's `strings.ToUpper` also maps non-ASCII letters.
- Resolve.OptionsContains: the panic of Go's `==` is approximated by the shape of the values. It panics when both sides are lists or maps (decoded, or zero values of slice or map type), which are taken to share their type. In Go, two such values of different types are unequal instead of panicking. A struct holding a slice is treated as comparable, although Go panics on it.
- Resolve.NewVarWithFunc: the panic is a bare outcome, without the partially built descriptor. The concrete descriptor of each error is stated in the lemmas of `Resolve`.
- Strconv.Atoi: its contract states the shape and the sign of an accepted text, not that every in-range numeral is accepted; the converse is stated for numerals of up to 18 digits (`AtoiShortNumerals`) and for canonical renderings (`AtoiItoa`). Underscores, other bases and whitespace are rejected, as in Go's base-10 `Atoi`. The distinction between a syntax error and a range error is not kept.
