/** The value converter of var.go: turns a raw text into a value of a target type
    following a decode strategy. */
module Converter {
  import opened Wrappers
  import opened GoTypes
  import Strconv

  /** The errors the core reports. */
  datatype Error =
      /** `errConversion`: the offending text (or decode token) and a description of
          the target it could not become. */
    | ConversionError(value: string, target: string)
      /** The error `time.ParseDuration` returns for a text it rejects. */
    | DurationError(text: string)
      /** "<KEY> required". */
    | RequiredError(key: string)
      /** "<KEY>="<value>" not in allowed options: <options>". */
    | NotAllowedError(key: string, actual: Value, options: seq<Option<Value>>)

  /** The foreign code the converter calls: `time.ParseDuration` (nanoseconds or
      failure) and `yaml.Unmarshal` into a fresh value of the given type (the
      decoded value or failure). */
  datatype Externals = Externals(
    parseDuration: string -> Option<int>,
    unmarshal: (GoType, string) -> Option<Value>)

  /** What a conversion produces: `Ok(None)` is the "no value" sentinel. */
  type Conversion = Result<Option<Value>, Error>

  /** The decode strategies `convert` recognises. */
  const Strategies: set<string> := {"", "kind", "type", "yaml"}

  /** The zero value of `reflect.Kind` that `parseInt` and `parseBool` return for
      an empty text. */
  const KindZero: Value := VZero(GoType("reflect.Kind", KOther("uint")))

  /** `parseInt`: the text as a Go `int`, or a conversion error naming "int". */
  function ParseInt(text: string): (r: Conversion)
    ensures text != "" ==> (r.Ok? <==> Strconv.Atoi(text).Some?)
    ensures text != "" && r.Ok? ==> r.value == Some(VInt(Strconv.Atoi(text).value))
    ensures r.Err? ==> r.error == ConversionError(text, "int")
  {
    if text == "" then Ok(Some(KindZero))
    else
      match Strconv.Atoi(text)
      case Some(i) => Ok(Some(VInt(i)))
      case None => Err(ConversionError(text, "int"))
  }

  /** `parseBool`: the text as a Go `bool`, or a conversion error naming "bool". */
  function ParseBool(text: string): (r: Conversion)
    ensures text != "" ==> (r.Ok? <==> Strconv.ParseBool(text).Some?)
    ensures text != "" && r.Ok? ==> r.value == Some(VBool(Strconv.ParseBool(text).value))
    ensures r.Err? ==> r.error == ConversionError(text, "bool")
  {
    if text == "" then Ok(Some(KindZero))
    else
      match Strconv.ParseBool(text)
      case Some(b) => Ok(Some(VBool(b)))
      case None => Err(ConversionError(text, "bool"))
  }

  /** `parseYaml` (and `parseSlice`, `parseMap`, `convertWithYaml`, which only
      forward to it): the decoder's value, or a conversion error naming the
      target's kind and type. */
  function ParseYaml(ext: Externals, t: GoType, text: string): (r: Conversion)
    ensures r.Ok? <==> ext.unmarshal(t, text).Some?
    ensures r.Ok? ==> r.value == Some(ext.unmarshal(t, text).value)
    ensures r.Err? ==> r.error == ConversionError(text, "yaml conversion error; Kind(): " + KindName(t.kind) + "; Type(): " + t.name)
  {
    match ext.unmarshal(t, text)
    case Some(v) => Ok(Some(v))
    case None => Err(ConversionError(text, "yaml conversion error; Kind(): " + KindName(t.kind) + "; Type(): " + t.name))
  }

  /** `convertWithKind`: dispatch on the type's kind. Strings pass through,
      integers and booleans are parsed, slices and maps are decoded as YAML, and
      every other kind is an error rather than a zero value. */
  function ConvertWithKind(ext: Externals, t: GoType, text: string): (r: Conversion)
    ensures text == "" ==> r == Ok(None)
    ensures text != "" && r.Ok? ==> r.value.Some?
    ensures text != "" && t.kind == KString ==> r == Ok(Some(VString(text)))
    ensures text != "" && t.kind == KInt ==>
      (r.Ok? <==> Strconv.Atoi(text).Some?) && (r.Ok? ==> r.value.value == VInt(Strconv.Atoi(text).value))
    ensures text != "" && t.kind == KBool ==>
      (r.Ok? <==> Strconv.ParseBool(text).Some?) && (r.Ok? ==> r.value.value == VBool(Strconv.ParseBool(text).value))
    ensures text != "" && (t.kind == KSlice || t.kind == KMap) ==>
      (r.Ok? <==> ext.unmarshal(t, text).Some?) && (r.Ok? ==> r.value.value == ext.unmarshal(t, text).value)
    ensures text != "" && t.kind.KOther? ==> r == Err(ConversionError(text, "unsupported " + t.kind.name))
    ensures text != "" && t.kind == KInt && r.Err? ==> r.error == ConversionError(text, "int")
    ensures text != "" && t.kind == KBool && r.Err? ==> r.error == ConversionError(text, "bool")
    ensures text != "" && (t.kind == KSlice || t.kind == KMap) && r.Err? ==>
      r.error == ConversionError(text, "yaml conversion error; Kind(): " + KindName(t.kind) + "; Type(): " + t.name)
    ensures r.Err? ==> r.error.ConversionError? && r.error.value == text
  {
    if text == "" then Ok(None)
    else
      match t.kind
      case KString => Ok(Some(VString(text)))
      case KInt => ParseInt(text)
      case KBool => ParseBool(text)
      case KSlice => ParseYaml(ext, t, text)
      case KMap => ParseYaml(ext, t, text)
      case KOther(_) => Err(ConversionError(text, "unsupported " + KindName(t.kind)))
  }

  /** `convertWithType`: dispatch on the type's name. Only `time.Duration` is
      known; every other name is an "unsupported type" error. */
  function ConvertWithType(ext: Externals, t: GoType, text: string): (r: Conversion)
    ensures r.Ok? <==> t.name == "time.Duration" && ext.parseDuration(text).Some?
    ensures r.Ok? ==> r.value == Some(VDuration(ext.parseDuration(text).value))
    ensures t.name != "time.Duration" ==> r == Err(ConversionError(text, "unsupported type " + t.name))
    ensures t.name == "time.Duration" && r.Err? ==> r.error == DurationError(text)
  {
    if t.name == "time.Duration" then
      match ext.parseDuration(text)
      case Some(d) => Ok(Some(VDuration(d)))
      case None => Err(DurationError(text))
    else Err(ConversionError(text, "unsupported type " + t.name))
  }

  /** `convert`: the empty text is "no value" whatever the strategy; otherwise
      the strategy picks the path, the unset strategy trying the type path and
      falling back to the kind path on any error of it. */
  function Convert(ext: Externals, t: GoType, text: string, decode: string): (r: Conversion)
    ensures text == "" ==> r == Ok(None)
    ensures text != "" && r.Ok? ==> r.value.Some?
    ensures text != "" && decode !in Strategies ==> r == Err(ConversionError(decode, "unsupported decode"))
    ensures r.Err? ==> r.error.ConversionError? || (r.error.DurationError? && decode == "type")
    ensures text != "" && decode == "kind" ==> r == ConvertWithKind(ext, t, text)
    ensures text != "" && decode == "type" ==> r == ConvertWithType(ext, t, text)
    ensures text != "" && decode == "yaml" ==> r == ParseYaml(ext, t, text)
  {
    if text == "" then Ok(None)
    else if decode == "" then
      var byType := ConvertWithType(ext, t, text);
      if byType.Err? then ConvertWithKind(ext, t, text) else byType
    else if decode == "kind" then ConvertWithKind(ext, t, text)
    else if decode == "type" then ConvertWithType(ext, t, text)
    else if decode == "yaml" then ParseYaml(ext, t, text)
    else Err(ConversionError(decode, "unsupported decode"))
  }

  /** Under the unset strategy a type other than `time.Duration` is converted by
      its kind; a duration is taken from the duration parser when it accepts the
      text and otherwise falls to the kind path, whose int64 kind is unsupported,
      so a malformed duration is reported as "unsupported int64" and never with
      the duration parser's own error. */
  lemma UnsetStrategy(ext: Externals, t: GoType, text: string)
    requires text != ""
    ensures t.name != "time.Duration" ==> Convert(ext, t, text, "") == Convert(ext, t, text, "kind")
    ensures t.name == "time.Duration" && ext.parseDuration(text).Some? ==>
      Convert(ext, t, text, "") == Ok(Some(VDuration(ext.parseDuration(text).value)))
    ensures t == DurationType && ext.parseDuration(text).None? ==>
      Convert(ext, t, text, "") == Err(ConversionError(text, "unsupported int64"))
      && Convert(ext, t, text, "type") == Err(DurationError(text))
  {
    assert "unsupported " + KindName(DurationType.kind) == "unsupported int64";
  }

  /** Each explicit strategy takes its own path whatever the type: `yaml` always
      asks the decoder, even for a string or an int field; `type` knows only
      `time.Duration`; `kind` knows no `time.Duration`, whose kind is int64. */
  lemma ExplicitStrategies(ext: Externals, t: GoType, text: string)
    requires text != ""
    ensures Convert(ext, t, text, "yaml").Ok? <==> ext.unmarshal(t, text).Some?
    ensures Convert(ext, t, text, "yaml").Ok? ==> Convert(ext, t, text, "yaml").value == Some(ext.unmarshal(t, text).value)
    ensures t.name != "time.Duration" ==> Convert(ext, t, text, "type") == Err(ConversionError(text, "unsupported type " + t.name))
    ensures Convert(ext, DurationType, text, "kind") == Err(ConversionError(text, "unsupported int64"))
    ensures t.kind == KString ==> Convert(ext, t, text, "kind") == Ok(Some(VString(text)))
  {
    assert "unsupported " + KindName(DurationType.kind) == "unsupported int64";
  }

  /** The zero values `reflect.Zero` gives the builtin types are the values their
      conversions give for the zero renderings: `0` as an int, `false` as a bool,
      and `0` as a duration whenever the duration parser reads it as zero. */
  lemma BuiltinZeros(ext: Externals)
    ensures Convert(ext, GoType("int", KInt), "0", "kind") == Ok(Some(Zero(GoType("int", KInt))))
    ensures Convert(ext, GoType("bool", KBool), "false", "kind") == Ok(Some(Zero(GoType("bool", KBool))))
    ensures ext.parseDuration("0") == Some(0) ==> Convert(ext, DurationType, "0", "type") == Ok(Some(Zero(DurationType)))
    ensures Zero(GoType("string", KString)) == VString("")
  {
    Strconv.AtoiShortNumerals("0");
    assert Strconv.DigitsValue("0") == 0;
    Strconv.ParseBoolFormatBool(false);
  }

  /** The integer kind converts the decimal rendering of any 64-bit integer back
      to that integer, under the kind strategy and, for types other than
      `time.Duration`, under the unset strategy. */
  lemma IntRoundTrip(ext: Externals, t: GoType, n: int)
    requires t.kind == KInt && Strconv.InIntRange(n)
    ensures Convert(ext, t, Strconv.Itoa(n), "kind") == Ok(Some(VInt(n)))
    ensures t.name != "time.Duration" ==> Convert(ext, t, Strconv.Itoa(n), "") == Ok(Some(VInt(n)))
  {
    Strconv.AtoiItoa(n);
  }

  /** The boolean kind converts the rendering of either boolean back to it. */
  lemma BoolRoundTrip(ext: Externals, t: GoType, b: bool)
    requires t.kind == KBool
    ensures Convert(ext, t, Strconv.FormatBool(b), "kind") == Ok(Some(VBool(b)))
    ensures t.name != "time.Duration" ==> Convert(ext, t, Strconv.FormatBool(b), "") == Ok(Some(VBool(b)))
  {
    Strconv.ParseBoolFormatBool(b);
  }

  /** A malformed boolean is an error under the unset and kind strategies, never a
      zero value. */
  lemma MalformedBool(ext: Externals, t: GoType)
    requires t.kind == KBool && t.name != "time.Duration"
    ensures Convert(ext, t, "maybe", "") == Err(ConversionError("maybe", "bool"))
    ensures Convert(ext, t, "maybe", "kind") == Err(ConversionError("maybe", "bool"))
  {
    Strconv.ParseBoolIsCaseSensitive();
  }
}
