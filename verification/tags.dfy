/** The tag parser of var.go: reads a field's `env` tag into a descriptor. */
module Tags {
  import opened Wrappers
  import opened GoTypes
  import opened Strings
  import opened Converter

  /** A struct field as the parser sees it: its name, its type and the value of
      its `env` tag (`field.Tag.Get("env")`, "" when the tag is missing). */
  datatype Field = Field(name: string, typ: GoType, tag: string)

  /** The descriptor `Var`. `None` stands for an invalid `reflect.Value`: no
      value, no default, or an options element that converted to nothing. */
  datatype Var = Var(
    name: string,
    key: string,
    typ: GoType,
    value: Option<Value>,
    required: bool,
    decode: string,
    default: Option<Value>,
    options: seq<Option<Value>>)

  /** The directives processed after `decode`. Any other directive name is
      ignored, and `decode` has been removed before they are processed. */
  datatype Directive = KeyDirective | RequiredDirective | DefaultDirective | OptionsDirective

  function DirectiveName(d: Directive): string
  {
    match d
    case KeyDirective => "key"
    case RequiredDirective => "required"
    case DefaultDirective => "default"
    case OptionsDirective => "options"
  }

  /** Go leaves the iteration order of a map unspecified, so the order in which
      the remaining directives are processed is a parameter: any arrangement of
      the four directives, each once. */
  predicate IsIterationOrder(order: seq<Directive>)
  {
    && (forall i, j :: 0 <= i < j < |order| ==> order[i] != order[j])
    && KeyDirective in order && RequiredDirective in order
    && DefaultDirective in order && OptionsDirective in order
  }

  /** `SetKey`: the key becomes the upper-cased text; nothing else changes. */
  function SetKey(v: Var, s: string): (r: Var)
    ensures IsUpper(r.key) && |r.key| == |s|
    ensures forall i :: 0 <= i < |s| && !IsLower(s[i]) ==> r.key[i] == s[i]
    ensures forall i :: 0 <= i < |s| && IsLower(s[i]) ==> r.key[i] as int == s[i] as int - 32
    ensures r.(key := v.key) == v
  {
    v.(key := ToUpper(s))
  }

  /** The descriptor before any directive: name, type and key from the field. */
  function Initial(f: Field): Var
  {
    SetKey(Var(f.name, "", f.typ, None, false, "", None, []), f.name)
  }

  /** One tag parameter cut at '=': the directive and the second piece as its
      value ("" when there is no '='). Text after a second '=' is dropped. */
  function Param(token: string): (string, string)
  {
    var parts := Split(token, '=');
    (parts[0], if |parts| > 1 then parts[1] else "")
  }

  /** The parameters of a sequence of tokens, entered into a map left to right. */
  function ParamsOf(tokens: seq<string>): map<string, string>
    decreases |tokens|
  {
    if tokens == [] then map[]
    else
      var p := Param(tokens[|tokens| - 1]);
      ParamsOf(tokens[..|tokens| - 1])[p.0 := p.1]
  }

  /** The directive map of a tag: its space-separated tokens entered in order. */
  function TagParams(tag: string): map<string, string>
  {
    ParamsOf(Split(tag, ' '))
  }

  /** A directive is in the map exactly when some token names it. */
  lemma {:induction false} ParamsOfKeys(tokens: seq<string>, k: string)
    ensures k in ParamsOf(tokens) <==> exists i :: 0 <= i < |tokens| && Param(tokens[i]).0 == k
    decreases |tokens|
  {
    if tokens != [] {
      var init := tokens[..|tokens| - 1];
      ParamsOfKeys(init, k);
      if k in ParamsOf(init) {
        var i :| 0 <= i < |init| && Param(init[i]).0 == k;
        assert tokens[i] == init[i];
      }
      if exists i :: 0 <= i < |tokens| && Param(tokens[i]).0 == k {
        var i :| 0 <= i < |tokens| && Param(tokens[i]).0 == k;
        if i < |init| {
          assert tokens[i] == init[i];
        }
      }
    }
  }

  /** A directive maps to the value of the LAST token naming it. */
  lemma {:induction false} LastOccurrenceWins(tokens: seq<string>, k: string, j: int)
    requires 0 <= j < |tokens| && Param(tokens[j]).0 == k
    requires forall i :: j < i < |tokens| ==> Param(tokens[i]).0 != k
    ensures k in ParamsOf(tokens) && ParamsOf(tokens)[k] == Param(tokens[j]).1
    decreases |tokens|
  {
    if j < |tokens| - 1 {
      var init := tokens[..|tokens| - 1];
      assert Param(tokens[|tokens| - 1]).0 != k;
      assert init[j] == tokens[j];
      assert forall i :: j < i < |init| ==> init[i] == tokens[i];
      LastOccurrenceWins(init, k, j);
    }
  }

  /** Element `i` is the first whose conversion fails, and it fails with `e`. */
  predicate FailsFirstAt(ext: Externals, t: GoType, items: seq<string>, decode: string, e: Error, i: int)
  {
    && 0 <= i < |items|
    && Convert(ext, t, items[i], decode) == Err(e)
    && forall j :: 0 <= j < i ==> Convert(ext, t, items[j], decode).Ok?
  }

  /** Some element is the first to fail, with `e`. */
  predicate FirstFailure(ext: Externals, t: GoType, items: seq<string>, decode: string, e: Error)
  {
    exists i :: 0 <= i < |items| && FailsFirstAt(ext, t, items, decode, e, i)
  }

  /** `convert` applied to every element in turn; the first failure aborts. */
  function ConvertAll(ext: Externals, t: GoType, items: seq<string>, decode: string): (r: Result<seq<Option<Value>>, Error>)
    ensures r.Ok? <==> forall i :: 0 <= i < |items| ==> Convert(ext, t, items[i], decode).Ok?
    ensures r.Ok? ==> |r.value| == |items|
    ensures r.Ok? ==> forall i :: 0 <= i < |items| ==> Convert(ext, t, items[i], decode) == Ok(r.value[i])
    ensures r.Err? ==> FirstFailure(ext, t, items, decode, r.error)
    decreases |items|
  {
    if items == [] then Ok([])
    else
      match Convert(ext, t, items[0], decode)
      case Err(e) =>
        assert FailsFirstAt(ext, t, items, decode, e, 0);
        Err(e)
      case Ok(v) =>
        var rest := ConvertAll(ext, t, items[1..], decode);
        if rest.Err? then
          assert FirstFailure(ext, t, items, decode, rest.error) by {
            var i :| 0 <= i < |items| - 1 && FailsFirstAt(ext, t, items[1..], decode, rest.error, i);
            assert forall j :: 1 <= j <= i + 1 ==> items[j] == items[1..][j - 1];
            assert FailsFirstAt(ext, t, items, decode, rest.error, i + 1);
          }
          Err(rest.error)
        else Ok([v] + rest.value)
  }

  /** Whether the conversion a directive performs, if any, succeeds. */
  predicate Converts(v: Var, d: Directive, value: string, ext: Externals)
  {
    match d
    case DefaultDirective => Convert(ext, v.typ, value, v.decode).Ok?
    case OptionsDirective => ConvertAll(ext, v.typ, Split(value, ','), v.decode).Ok?
    case _ => true
  }

  /** The effect of one directive with its value on the descriptor. `default`
      and `options` convert with the descriptor's current type and strategy. */
  function Apply(v: Var, d: Directive, value: string, ext: Externals): (r: Result<Var, Error>)
    ensures r.Ok? <==> Converts(v, d, value, ext)
    ensures r.Ok? ==> r.value.name == v.name && r.value.typ == v.typ && r.value.value == v.value && r.value.decode == v.decode
  {
    match d
    case KeyDirective => Ok(SetKey(v, value))
    case RequiredDirective => Ok(v.(required := true))
    case DefaultDirective =>
      (match Convert(ext, v.typ, value, v.decode)
       case Err(e) => Err(e)
       case Ok(dv) => Ok(v.(default := dv)))
    case OptionsDirective =>
      (match ConvertAll(ext, v.typ, Split(value, ','), v.decode)
       case Err(e) => Err(e)
       case Ok(vs) => Ok(v.(options := vs)))
  }

  /** The outcome of `Parse`: the descriptor as far as it got, and the error that
      stopped it, if any. */
  datatype ParseResult = ParseResult(v: Var, err: Option<Error>)

  /** The loop over the remaining directives in the given order; the first
      failing conversion returns, keeping what earlier directives applied. */
  function ApplyDirectives(v: Var, order: seq<Directive>, params: map<string, string>, ext: Externals): (r: ParseResult)
    ensures r.v.name == v.name && r.v.typ == v.typ && r.v.value == v.value && r.v.decode == v.decode
    ensures r.v.key == v.key || ("key" in params && r.v.key == ToUpper(params["key"]))
    ensures r.v.required ==> v.required || "required" in params
    ensures r.err.Some? ==> r.err.value.ConversionError? || r.err.value.DurationError?
    decreases |order|
  {
    if order == [] then ParseResult(v, None)
    else
      var name := DirectiveName(order[0]);
      if name !in params then ApplyDirectives(v, order[1..], params, ext)
      else
        match Apply(v, order[0], params[name], ext)
        case Err(e) => ParseResult(v, Some(e))
        case Ok(next) => ApplyDirectives(next, order[1..], params, ext)
  }

  /** The strategy the tag selects: the value of `decode`, else unset. */
  function DecodeOf(f: Field): string
  {
    var params := TagParams(f.tag);
    if "decode" in params then params["decode"] else ""
  }

  /** `Parse`: name, type and upper-cased name as key first; then, for a
      non-empty tag, `decode` before everything else and the other directives in
      the given iteration order. */
  function Parse(f: Field, ext: Externals, order: seq<Directive>): (r: ParseResult)
    requires IsIterationOrder(order)
    ensures IsUpper(r.v.key)
    ensures r.v.name == f.name && r.v.typ == f.typ && r.v.value == None
    ensures f.tag == "" ==> r == ParseResult(Initial(f), None)
    ensures r.v.decode == (if f.tag == "" then "" else DecodeOf(f))
    ensures r.v.key == ToUpper(f.name)
      || (f.tag != "" && "key" in TagParams(f.tag) && r.v.key == ToUpper(TagParams(f.tag)["key"]))
    ensures r.v.required ==> f.tag != "" && "required" in TagParams(f.tag)
    ensures r.err.Some? ==> r.err.value.ConversionError? || r.err.value.DurationError?
  {
    var base := Initial(f);
    if f.tag == "" then ParseResult(base, None)
    else
      var params := TagParams(f.tag);
      var v := if "decode" in params then base.(decode := params["decode"]) else base;
      ApplyDirectives(v, order, params - {"decode"}, ext)
  }

  /** Whether a directive, if the tag has it, applies without a conversion error. */
  predicate StepOk(v: Var, d: Directive, params: map<string, string>, ext: Externals)
  {
    DirectiveName(d) !in params || Converts(v, d, params[DirectiveName(d)], ext)
  }

  /** The descriptor `v` with every directive of `ds` that the map has applied. */
  function Target(v: Var, ds: seq<Directive>, params: map<string, string>, ext: Externals): Var
    requires forall d :: d in ds ==> StepOk(v, d, params, ext)
  {
    assert DefaultDirective in ds ==> StepOk(v, DefaultDirective, params, ext);
    assert OptionsDirective in ds ==> StepOk(v, OptionsDirective, params, ext);
    Var(
      v.name,
      if KeyDirective in ds && "key" in params then ToUpper(params["key"]) else v.key,
      v.typ,
      v.value,
      if RequiredDirective in ds && "required" in params then true else v.required,
      v.decode,
      if DefaultDirective in ds && "default" in params
      then Convert(ext, v.typ, params["default"], v.decode).value else v.default,
      if OptionsDirective in ds && "options" in params
      then ConvertAll(ext, v.typ, Split(params["options"], ','), v.decode).value else v.options)
  }

  /** Whether a directive applies depends on the descriptor only through its type
      and strategy, which no directive changes. */
  lemma StepOkFrame(v: Var, w: Var, d: Directive, params: map<string, string>, ext: Externals)
    requires v.typ == w.typ && v.decode == w.decode
    ensures StepOk(v, d, params, ext) == StepOk(w, d, params, ext)
  {
  }

  /** The elements of a sequence without duplicates are distinct after its head. */
  lemma DistinctTail(order: seq<Directive>)
    requires order != []
    requires forall i, j :: 0 <= i < j < |order| ==> order[i] != order[j]
    ensures forall i, j :: 0 <= i < j < |order[1..]| ==> order[1..][i] != order[1..][j]
    ensures order[0] !in order[1..]
    ensures order == [order[0]] + order[1..]
  {
    forall i | 0 <= i < |order[1..]| ensures order[1..][i] != order[0] {
      assert order[1..][i] == order[i + 1];
    }
  }

  /** Processing distinct directives in order succeeds exactly when each of them
      applies on its own. */
  lemma {:induction false} ApplyDirectivesSucceeds(v: Var, order: seq<Directive>, params: map<string, string>, ext: Externals)
    requires forall i, j :: 0 <= i < j < |order| ==> order[i] != order[j]
    ensures ApplyDirectives(v, order, params, ext).err.None? <==> forall d :: d in order ==> StepOk(v, d, params, ext)
    decreases |order|
  {
    if order != [] {
      DistinctTail(order);
      var d, rest := order[0], order[1..];
      var name := DirectiveName(d);
      if name !in params {
        ApplyDirectivesSucceeds(v, rest, params, ext);
      } else {
        var step := Apply(v, d, params[name], ext);
        if step.Ok? {
          var next := step.value;
          assert ApplyDirectives(v, order, params, ext) == ApplyDirectives(next, rest, params, ext);
          ApplyDirectivesSucceeds(next, rest, params, ext);
          forall e | e in rest ensures StepOk(next, e, params, ext) == StepOk(v, e, params, ext) {
            StepOkFrame(next, v, e, params, ext);
          }
        } else {
          assert !StepOk(v, d, params, ext);
        }
      }
    }
  }

  /** Applying the head directive first and the rest afterwards reaches the same
      descriptor as applying them all. */
  lemma TargetStep(v: Var, d: Directive, rest: seq<Directive>, params: map<string, string>, ext: Externals)
    requires d !in rest
    requires forall e :: e in [d] + rest ==> StepOk(v, e, params, ext)
    requires DirectiveName(d) in params
    ensures Apply(v, d, params[DirectiveName(d)], ext).Ok?
    ensures var next := Apply(v, d, params[DirectiveName(d)], ext).value;
      (forall e :: e in rest ==> StepOk(next, e, params, ext))
      && Target(next, rest, params, ext) == Target(v, [d] + rest, params, ext)
  {
    assert d in [d] + rest;
    var next := Apply(v, d, params[DirectiveName(d)], ext).value;
    forall e | e in rest ensures StepOk(next, e, params, ext) {
      assert e in [d] + rest;
      StepOkFrame(next, v, e, params, ext);
    }
  }

  /** After processing distinct directives that all apply, every field a
      directive names is set and the others are kept. */
  lemma {:induction false} ApplyDirectivesResult(v: Var, order: seq<Directive>, params: map<string, string>, ext: Externals)
    requires forall i, j :: 0 <= i < j < |order| ==> order[i] != order[j]
    requires forall d :: d in order ==> StepOk(v, d, params, ext)
    ensures ApplyDirectives(v, order, params, ext).v == Target(v, order, params, ext)
    decreases |order|
  {
    if order != [] {
      DistinctTail(order);
      var d, rest := order[0], order[1..];
      var name := DirectiveName(d);
      if name !in params {
        ApplyDirectivesResult(v, rest, params, ext);
        assert Target(v, rest, params, ext) == Target(v, order, params, ext);
      } else {
        TargetStep(v, d, rest, params, ext);
        var next := Apply(v, d, params[name], ext).value;
        assert ApplyDirectives(v, order, params, ext) == ApplyDirectives(next, rest, params, ext);
        ApplyDirectivesResult(next, rest, params, ext);
      }
    }
  }

  /** Whether the tag's `default` and `options` convert with the tag's strategy. */
  predicate Convertible(f: Field, ext: Externals)
  {
    var params := TagParams(f.tag);
    && ("default" in params ==> Convert(ext, f.typ, params["default"], DecodeOf(f)).Ok?)
    && ("options" in params ==> ConvertAll(ext, f.typ, Split(params["options"], ','), DecodeOf(f)).Ok?)
  }

  /** The descriptor a tag describes, independent of any iteration order: the
      key is the upper-cased `key` value or name, `required` is the presence of
      the directive, and `default` and `options` are converted with the tag's
      strategy. */
  function Expected(f: Field, ext: Externals): Var
    requires Convertible(f, ext)
  {
    var params := TagParams(f.tag);
    var decode := DecodeOf(f);
    Var(
      f.name,
      ToUpper(if "key" in params then params["key"] else f.name),
      f.typ,
      None,
      "required" in params,
      decode,
      if "default" in params then Convert(ext, f.typ, params["default"], decode).value else None,
      if "options" in params then ConvertAll(ext, f.typ, Split(params["options"], ','), decode).value else [])
  }

  /** The empty tag has no directive. */
  lemma EmptyTagParams()
    ensures TagParams("") == map["" := ""]
  {
    assert Split("", '=') == [""];
  }

  /** For a non-empty tag, `Parse` is the directive loop run on the initial
      descriptor with the tag's strategy. */
  lemma ParseNonEmpty(f: Field, ext: Externals, order: seq<Directive>)
    requires IsIterationOrder(order) && f.tag != ""
    ensures Parse(f, ext, order)
      == ApplyDirectives(Initial(f).(decode := DecodeOf(f)), order, TagParams(f.tag) - {"decode"}, ext)
  {
  }

  /** Removing `decode` from the map keeps every directive the loop handles. */
  lemma WithoutDecodeKeeps(f: Field)
    ensures var params := TagParams(f.tag);
      var rest := params - {"decode"};
      && (forall k :: k in {"key", "required", "default", "options"} ==> (k in rest <==> k in params))
      && (forall k :: k in rest ==> rest[k] == params[k])
  {
  }

  /** Removing `decode` from the map changes none of the directives the loop handles. */
  lemma StepOkWithoutDecode(f: Field, ext: Externals)
    ensures var v := Initial(f).(decode := DecodeOf(f));
      var rest := TagParams(f.tag) - {"decode"};
      && StepOk(v, KeyDirective, rest, ext)
      && StepOk(v, RequiredDirective, rest, ext)
      && (StepOk(v, DefaultDirective, rest, ext) && StepOk(v, OptionsDirective, rest, ext) <==> Convertible(f, ext))
  {
    WithoutDecodeKeeps(f);
  }

  /** With `decode` removed, the four directives build the order-free descriptor. */
  lemma TargetWithoutDecode(f: Field, ext: Externals)
    requires Convertible(f, ext)
    ensures var v := Initial(f).(decode := DecodeOf(f));
      var rest := TagParams(f.tag) - {"decode"};
      && (forall d :: d in [KeyDirective, RequiredDirective, DefaultDirective, OptionsDirective] ==> StepOk(v, d, rest, ext))
      && Target(v, [KeyDirective, RequiredDirective, DefaultDirective, OptionsDirective], rest, ext) == Expected(f, ext)
  {
    StepOkWithoutDecode(f, ext);
    WithoutDecodeKeeps(f);
  }

  /** Whatever the iteration order, `Parse` succeeds exactly when the default and
      every option convert, and then yields the order-free descriptor. */
  lemma ParseSpec(f: Field, ext: Externals, order: seq<Directive>)
    requires IsIterationOrder(order)
    ensures Parse(f, ext, order).err.None? <==> Convertible(f, ext)
    ensures Convertible(f, ext) ==> Parse(f, ext, order).v == Expected(f, ext)
  {
    if f.tag == "" {
      EmptyTagParams();
    } else {
      var v := Initial(f).(decode := DecodeOf(f));
      var rest := TagParams(f.tag) - {"decode"};
      ParseNonEmpty(f, ext, order);
      ApplyDirectivesSucceeds(v, order, rest, ext);
      StepOkWithoutDecode(f, ext);
      if Convertible(f, ext) {
        TargetWithoutDecode(f, ext);
      }
      var all := [KeyDirective, RequiredDirective, DefaultDirective, OptionsDirective];
      assert forall d :: d in order <==> d in all;
      if Convertible(f, ext) {
        ApplyDirectivesResult(v, order, rest, ext);
        assert Target(v, order, rest, ext) == Target(v, all, rest, ext);
      }
    }
  }

  /** The iteration order cannot be observed when parsing succeeds. */
  lemma ParseOrderIndependent(f: Field, ext: Externals, o1: seq<Directive>, o2: seq<Directive>)
    requires IsIterationOrder(o1) && IsIterationOrder(o2)
    ensures Parse(f, ext, o1).err.None? <==> Parse(f, ext, o2).err.None?
    ensures Parse(f, ext, o1).err.None? ==> Parse(f, ext, o1).v == Parse(f, ext, o2).v
  {
    ParseSpec(f, ext, o1);
    ParseSpec(f, ext, o2);
  }
}
