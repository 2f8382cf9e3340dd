/** Concrete resolutions: tags and environments worked through end to end,
    including the behaviours that follow from the code as written. */
module Scenarios {
  import opened Wrappers
  import opened GoTypes
  import opened Strings
  import opened Converter
  import opened Tags
  import opened Resolve
  import Durations

  const StringType: GoType := GoType("string", KString)
  const IntType: GoType := GoType("int", KInt)
  const BoolType: GoType := GoType("bool", KBool)

  /** A named type of the int kind, as `type Port int` declares it. */
  const PortType: GoType := GoType("main.Port", KInt)

  /** The collaborators: the integer-only duration parser and a YAML decoder
      that rejects everything (no scenario here reaches it). */
  const Ext: Externals := Externals(Durations.ParseDuration, (t: GoType, s: string) => None)

  /** One order in which Go may visit the map, and another one. */
  const KeyFirst: seq<Directive> := [KeyDirective, RequiredDirective, DefaultDirective, OptionsDirective]
  const DefaultFirst: seq<Directive> := [DefaultDirective, KeyDirective, RequiredDirective, OptionsDirective]

  /** A token without '=' is a bare directive with an empty value. */
  lemma BareParam(k: string)
    requires '=' !in k
    ensures Param(k) == (k, "")
  {
    SplitNoSeparator(k, '=');
  }

  /** A token "k=v" is the directive k with value v. */
  lemma ValueParam(k: string, v: string, token: string)
    requires '=' !in k && '=' !in v && token == k + ['='] + v
    ensures Param(token) == (k, v)
  {
    SplitAfterPiece(k, v, '=');
    SplitNoSeparator(v, '=');
  }

  /** A tag of one token. */
  lemma OneToken(tag: string)
    requires ' ' !in tag
    ensures TagParams(tag) == map[Param(tag).0 := Param(tag).1]
  {
    SplitNoSeparator(tag, ' ');
    var tokens := [tag];
    assert tokens[..0] == [];
    assert ParamsOf(tokens) == ParamsOf([])[Param(tag).0 := Param(tag).1];
  }

  /** A tag of two tokens. */
  lemma TwoTokens(t1: string, t2: string, tag: string)
    requires ' ' !in t1 && ' ' !in t2 && tag == t1 + [' '] + t2
    ensures TagParams(tag) == map[Param(t1).0 := Param(t1).1][Param(t2).0 := Param(t2).1]
  {
    SplitAfterPiece(t1, t2, ' ');
    SplitNoSeparator(t2, ' ');
    var tokens := [t1, t2];
    assert tokens[..1] == [t1];
    assert [t1][..0] == [];
    assert ParamsOf([t1]) == ParamsOf([])[Param(t1).0 := Param(t1).1];
    assert ParamsOf(tokens) == ParamsOf([t1])[Param(t2).0 := Param(t2).1];
  }

  /** Upper-casing a literal, character by character. */
  lemma Upper(s: string, t: string)
    requires |s| == |t| && forall i :: 0 <= i < |s| ==> UpperChar(s[i]) == t[i]
    ensures ToUpper(s) == t
  {
  }

  /** Three comma-separated pieces. */
  lemma ThreePieces(a: string, b: string, c: string, s: string)
    requires ',' !in a && ',' !in b && ',' !in c && s == a + [','] + (b + [','] + c)
    ensures Split(s, ',') == [a, b, c]
  {
    SplitAfterPiece(a, b + [','] + c, ',');
    SplitAfterPiece(b, c, ',');
    SplitNoSeparator(c, ',');
  }

  /** The directive maps of the scenario tags. */
  lemma BareAndValueTag(b: string, k: string, d: string, tag: string)
    requires '=' !in b && ' ' !in b && '=' !in k && ' ' !in k && '=' !in d && ' ' !in d
    requires tag == b + " " + (k + "=" + d)
    ensures TagParams(tag) == map[b := "", k := d]
  {
    BareParam(b);
    ValueParam(k, d, k + "=" + d);
    TwoTokens(b, k + "=" + d, tag);
  }

  lemma RequiredDefaultTag(tag: string)
    requires tag == "required" + " " + ("default" + "=" + "5")
    ensures TagParams(tag) == map["required" := "", "default" := "5"]
  {
    BareAndValueTag("required", "default", "5", tag);
  }

  /** The descriptor of an `options=…` tag whose elements all convert. */
  lemma OptionsTag(name: string, t: GoType, ext: Externals, order: seq<Directive>, list: string, converted: seq<Option<Value>>, tag: string)
    requires IsIterationOrder(order)
    requires '=' !in list && ' ' !in list && tag == "options" + "=" + list
    requires ConvertAll(ext, t, Split(list, ','), "") == Ok(converted)
    ensures Parse(Field(name, t, tag), ext, order) == ParseResult(Var(name, ToUpper(name), t, None, false, "", None, converted), None)
  {
    OneValueTag("options", list, tag);
    ParseSpec(Field(name, t, tag), ext, order);
  }

  lemma OneValueTag(k: string, v: string, tag: string)
    requires '=' !in k && '=' !in v && ' ' !in k && ' ' !in v
    requires tag == k + "=" + v
    ensures TagParams(tag) == map[k := v]
  {
    ValueParam(k, v, tag);
    OneToken(tag);
  }

  /** "5" is the integer 5 under the unset strategy. */
  lemma FiveConverts(ext: Externals)
    ensures Convert(ext, IntType, "5", "") == Ok(Some(VInt(5)))
  {
    Strconv.AtoiShortNumerals("5");
    assert Strconv.DigitsValue("5") == 5;
  }

  /** A required field the source does not set is an error naming the upper-cased
      key, although the tag also gives a default. (Each scenario takes its tag as
      a parameter that its precondition fixes to the concatenation of the pieces
      the helper lemmas above take apart; the verifier would otherwise unfold
      the literal text character by character.) */
  lemma RequiredMissing(name: string, get: string -> string, ext: Externals, order: seq<Directive>, tag: string)
    requires IsIterationOrder(order) && get(ToUpper(name)) == ""
    requires tag == "required" + " " + ("default" + "=" + "5")
    ensures NewVarWithFunc(Field(name, IntType, tag), get, ext, order)
      == Returned(Var(name, ToUpper(name), IntType, None, true, "", Some(VInt(5)), []), Some(RequiredError(ToUpper(name))))
  {
    var f := Field(name, IntType, tag);
    RequiredDefaultTag(tag);
    FiveConverts(ext);
    ParseSpec(f, ext, order);
    assert Parse(f, ext, order).v == Var(name, ToUpper(name), IntType, None, true, "", Some(VInt(5)), []);
  }

  /** A field with `default=5` that the source does not set resolves to 5. */
  lemma DefaultFive(name: string, get: string -> string, ext: Externals, order: seq<Directive>, tag: string)
    requires IsIterationOrder(order) && get(ToUpper(name)) == ""
    requires tag == "default" + "=" + "5"
    ensures NewVarWithFunc(Field(name, IntType, tag), get, ext, order)
      == Returned(Var(name, ToUpper(name), IntType, Some(VInt(5)), false, "", Some(VInt(5)), []), None)
  {
    var f := Field(name, IntType, tag);
    OneValueTag("default", "5", tag);
    FiveConverts(ext);
    ParseSpec(f, ext, order);
    assert Parse(f, ext, order).v == Var(name, ToUpper(name), IntType, None, false, "", Some(VInt(5)), []);
  }

  /** The three options of `options=a,b,c` as values. */
  lemma AbcConverts(ext: Externals, s: string)
    requires s == "a" + "," + "b" + "," + "c"
    ensures ConvertAll(ext, StringType, Split(s, ','), "") == Ok([Some(VString("a")), Some(VString("b")), Some(VString("c"))])
  {
    ThreePieces("a", "b", "c", s);
    var items := ["a", "b", "c"];
    forall i | 0 <= i < |items| ensures Convert(ext, StringType, items[i], "") == Ok(Some(VString(items[i]))) {
      assert items[i] != "";
    }
    var r := ConvertAll(ext, StringType, items, "");
    assert r.Ok? && |r.value| == 3;
    assert r.value[0] == Some(VString("a")) && r.value[1] == Some(VString("b")) && r.value[2] == Some(VString("c"));
    assert r.value == [Some(VString("a")), Some(VString("b")), Some(VString("c"))];
    assert Split(s, ',') == items;
  }

  /** The descriptor `options=a,b,c` yields for a string field. */
  lemma ParsedAbc(name: string, ext: Externals, order: seq<Directive>, tag: string)
    requires IsIterationOrder(order)
    requires tag == "options" + "=" + ("a" + "," + "b" + "," + "c")
    ensures Parse(Field(name, StringType, tag), ext, order) == ParseResult(
      Var(name, ToUpper(name), StringType, None, false, "", None, [Some(VString("a")), Some(VString("b")), Some(VString("c"))]), None)
  {
    AbcConverts(ext, "a" + "," + "b" + "," + "c");
    OptionsTag(name, StringType, ext, order, "a" + "," + "b" + "," + "c", [Some(VString("a")), Some(VString("b")), Some(VString("c"))], tag);
  }

  /** With `options=a,b,c`, the value "d" is rejected naming the key and the value,
      and the value "b" is accepted as is. */
  lemma OptionsAbc(name: string, get: string -> string, ext: Externals, order: seq<Directive>, tag: string)
    requires IsIterationOrder(order)
    requires tag == "options" + "=" + ("a" + "," + "b" + "," + "c")
    ensures var options := [Some(VString("a")), Some(VString("b")), Some(VString("c"))];
      var base := Var(name, ToUpper(name), StringType, None, false, "", None, options);
      && (get(ToUpper(name)) == "d" ==>
            NewVarWithFunc(Field(name, StringType, tag), get, ext, order)
            == Returned(base.(value := Some(VString("d"))), Some(NotAllowedError(ToUpper(name), VString("d"), options))))
      && (get(ToUpper(name)) == "b" ==>
            NewVarWithFunc(Field(name, StringType, tag), get, ext, order)
            == Returned(base.(value := Some(VString("b"))), None))
  {
    ParsedAbc(name, ext, order, tag);
  }

  /** A `time.Duration` field without a strategy takes "1h30m" as ninety minutes. */
  lemma NinetyMinutes(name: string, get: string -> string, order: seq<Directive>)
    requires IsIterationOrder(order) && get(ToUpper(name)) == "1h30m"
    ensures NewVarWithFunc(Field(name, DurationType, ""), get, Ext, order)
      == Returned(Var(name, ToUpper(name), DurationType, Some(VDuration(90 * 60 * 1_000_000_000)), false, "", None, []), None)
  {
    Durations.HourAndHalf();
  }

  /** A boolean field whose source says "maybe" is a conversion error, never a
      zero value. */
  lemma MaybeIsNotABool(name: string, get: string -> string, ext: Externals, order: seq<Directive>)
    requires IsIterationOrder(order) && get(ToUpper(name)) == "maybe"
    ensures var r := NewVarWithFunc(Field(name, BoolType, ""), get, ext, order);
      r.Returned? && r.err == Some(ConversionError("maybe", "bool")) && r.v.value.None?
  {
    MalformedBool(ext, BoolType);
  }

  /** `Parse` fails on a default that does not convert, but its error is
      dropped: the field resolves to the zero value without any error. */
  lemma BadDefaultIgnored(name: string, get: string -> string, ext: Externals, order: seq<Directive>, tag: string)
    requires IsIterationOrder(order) && get(ToUpper(name)) == ""
    requires tag == "default" + "=" + "abc"
    ensures Parse(Field(name, IntType, tag), ext, order).err == Some(ConversionError("abc", "int"))
    ensures NewVarWithFunc(Field(name, IntType, tag), get, ext, order)
      == Returned(Var(name, ToUpper(name), IntType, Some(VInt(0)), false, "", None, []), None)
  {
    var f := Field(name, IntType, tag);
    OneValueTag("default", "abc", tag);
    assert Strconv.Atoi("abc") == None by {
      assert !Strconv.IsDigit('a');
    }
    assert Convert(ext, IntType, "abc", "") == Err(ConversionError("abc", "int"));
    ParseNonEmpty(f, ext, order);
    var v := Initial(f);
    assert Initial(f).(decode := DecodeOf(f)) == v;
    var rest := map["default" := "abc"];
    assert TagParams(f.tag) - {"decode"} == rest;
    SkipUntilDefault(v, order, rest, ext);
  }

  /** With only a `default` directive, the loop reaches it with the descriptor
      unchanged and stops there if it fails. */
  lemma {:induction false} SkipUntilDefault(v: Var, order: seq<Directive>, rest: map<string, string>, ext: Externals)
    requires DefaultDirective in order
    requires forall d :: d in order && d != DefaultDirective ==> DirectiveName(d) !in rest
    requires "default" in rest && Convert(ext, v.typ, rest["default"], v.decode).Err?
    ensures ApplyDirectives(v, order, rest, ext) == ParseResult(v, Some(Convert(ext, v.typ, rest["default"], v.decode).error))
    decreases |order|
  {
    if order[0] != DefaultDirective {
      assert order[0] in order;
      assert forall d :: d in order[1..] ==> d in order;
      SkipUntilDefault(v, order[1..], rest, ext);
    }
  }

  /** "x" is not an integer. */
  lemma XFails(ext: Externals)
    ensures Convert(ext, IntType, "x", "") == Err(ConversionError("x", "int"))
  {
    assert Strconv.Atoi("x") == None by {
      assert !Strconv.IsDigit('x');
    }
  }

  /** The directive map of a `key=… default=…` tag. */
  lemma KeyAndDefaultTag(k: string, d: string, tag: string)
    requires '=' !in k && ' ' !in k && '=' !in d && ' ' !in d
    requires tag == ("key" + "=" + k) + " " + ("default" + "=" + d)
    ensures TagParams(tag) == map["key" := k, "default" := d]
  {
    ValueParam("key", k, "key" + "=" + k);
    ValueParam("default", d, "default" + "=" + d);
    TwoTokens("key" + "=" + k, "default" + "=" + d, tag);
  }

  /** The directive map of `key=addr default=x`. */
  lemma KeyAndBadDefaultTag(tag: string)
    requires tag == ("key" + "=" + "addr") + " " + ("default" + "=" + "x")
    ensures TagParams(tag) == map["key" := "addr", "default" := "x"]
  {
    KeyAndDefaultTag("addr", "x", tag);
  }

  /** When `Parse` fails, the iteration order decides which directives took
      effect: processing `key` before the failing `default` changes the key the
      source is asked for, processing it after does not. */
  lemma OrderMattersOnFailure(name: string, ext: Externals, tag: string)
    requires tag == ("key" + "=" + "addr") + " " + ("default" + "=" + "x")
    ensures Parse(Field(name, IntType, tag), ext, KeyFirst)
      == ParseResult(Var(name, "ADDR", IntType, None, false, "", None, []), Some(ConversionError("x", "int")))
    ensures Parse(Field(name, IntType, tag), ext, DefaultFirst)
      == ParseResult(Var(name, ToUpper(name), IntType, None, false, "", None, []), Some(ConversionError("x", "int")))
  {
    KeyFirstOnFailure(name, ext, tag);
    DefaultFirstOnFailure(name, ext, tag);
  }

  lemma KeyFirstOnFailure(name: string, ext: Externals, tag: string)
    requires tag == ("key" + "=" + "addr") + " " + ("default" + "=" + "x")
    ensures Parse(Field(name, IntType, tag), ext, KeyFirst)
      == ParseResult(Var(name, "ADDR", IntType, None, false, "", None, []), Some(ConversionError("x", "int")))
  {
    var f := Field(name, IntType, tag);
    KeyAndBadDefaultTag(tag);
    var rest := TagParams(tag) - {"decode"};
    assert "decode" !in TagParams(tag);
    assert rest["key"] == "addr" && rest["default"] == "x" && "required" !in rest && "options" !in rest;
    XFails(ext);
    assert UpperChar('a') == 'A' && UpperChar('d') == 'D' && UpperChar('r') == 'R';
    Upper("addr", "ADDR");
    ParseNonEmpty(f, ext, KeyFirst);
    var v := Initial(f);
    assert Initial(f).(decode := DecodeOf(f)) == v;
    var keyed := v.(key := "ADDR");
    assert ApplyDirectives(v, KeyFirst, rest, ext) == ApplyDirectives(keyed, KeyFirst[1..], rest, ext);
    assert ApplyDirectives(keyed, KeyFirst[1..], rest, ext) == ApplyDirectives(keyed, KeyFirst[2..], rest, ext);
  }

  lemma DefaultFirstOnFailure(name: string, ext: Externals, tag: string)
    requires tag == ("key" + "=" + "addr") + " " + ("default" + "=" + "x")
    ensures Parse(Field(name, IntType, tag), ext, DefaultFirst)
      == ParseResult(Var(name, ToUpper(name), IntType, None, false, "", None, []), Some(ConversionError("x", "int")))
  {
    var f := Field(name, IntType, tag);
    KeyAndBadDefaultTag(tag);
    assert "decode" !in TagParams(tag);
    XFails(ext);
    ParseNonEmpty(f, ext, DefaultFirst);
    assert Initial(f).(decode := DecodeOf(f)) == Initial(f);
  }

  /** `required` takes effect by its presence alone, even as `required=false`. */
  lemma RequiredFalseIsRequired(name: string, t: GoType, ext: Externals, order: seq<Directive>, tag: string)
    requires IsIterationOrder(order)
    requires tag == "required" + "=" + "false"
    ensures Parse(Field(name, t, tag), ext, order) == ParseResult(Var(name, ToUpper(name), t, None, true, "", None, []), None)
  {
    OneValueTag("required", "false", tag);
    ParseSpec(Field(name, t, tag), ext, order);
  }

  /** A second '=' cuts the value: `default=a=b` gives the default "a". */
  lemma SecondEqualsCutsValue(name: string, ext: Externals, order: seq<Directive>, tag: string)
    requires IsIterationOrder(order)
    requires tag == "default" + "=" + ("a" + "=" + "b")
    ensures Parse(Field(name, StringType, tag), ext, order)
      == ParseResult(Var(name, ToUpper(name), StringType, None, false, "", Some(VString("a")), []), None)
  {
    SplitAfterPiece("default", "a" + "=" + "b", '=');
    SplitAfterPiece("a", "b", '=');
    SplitNoSeparator("b", '=');
    assert Split("a" + "=" + "b", '=') == ["a", "b"];
    assert Split(tag, '=') == ["default", "a", "b"];
    OneToken(tag);
    assert TagParams(tag) == map["default" := "a"];
    ParseSpec(Field(name, StringType, tag), ext, order);
  }

  /** The elements of `a,,b` as values: the empty one is absent. */
  lemma EmptyElementConverts(ext: Externals, list: string)
    requires list == "a" + "," + "" + "," + "b"
    ensures ConvertAll(ext, StringType, Split(list, ','), "") == Ok([Some(VString("a")), None, Some(VString("b"))])
  {
    ThreePieces("a", "", "b", list);
    var items := ["a", "", "b"];
    var r := ConvertAll(ext, StringType, items, "");
    assert Convert(ext, StringType, items[0], "") == Ok(Some(VString("a")));
    assert Convert(ext, StringType, items[1], "") == Ok(None);
    assert Convert(ext, StringType, items[2], "") == Ok(Some(VString("b")));
    assert r.Ok? && |r.value| == 3;
    assert r.value == [Some(VString("a")), None, Some(VString("b"))];
  }

  /** An empty element in `options=a,,b` is kept as an absent option. */
  lemma EmptyOptionParsed(name: string, ext: Externals, order: seq<Directive>, tag: string)
    requires IsIterationOrder(order)
    requires tag == "options" + "=" + ("a" + "," + "" + "," + "b")
    ensures Parse(Field(name, StringType, tag), ext, order)
      == ParseResult(Var(name, ToUpper(name), StringType, None, false, "", None, [Some(VString("a")), None, Some(VString("b"))]), None)
  {
    var list := "a" + "," + "" + "," + "b";
    EmptyElementConverts(ext, list);
    OptionsTag(name, StringType, ext, order, list, [Some(VString("a")), None, Some(VString("b"))], tag);
  }

  /** With the absent option in the middle, resolving a value found before it
      succeeds, and any value that has to be compared with it panics. */
  lemma EmptyOptionElement(name: string, get: string -> string, ext: Externals, order: seq<Directive>, tag: string)
    requires IsIterationOrder(order)
    requires tag == "options" + "=" + ("a" + "," + "" + "," + "b")
    ensures get(ToUpper(name)) == "a" ==>
      NewVarWithFunc(Field(name, StringType, tag), get, ext, order)
      == Returned(Var(name, ToUpper(name), StringType, Some(VString("a")), false, "", None, [Some(VString("a")), None, Some(VString("b"))]), None)
    ensures get(ToUpper(name)) == "b" ==> NewVarWithFunc(Field(name, StringType, tag), get, ext, order) == Panicked
  {
    EmptyOptionParsed(name, ext, order, tag);
    var options := [Some(VString("a")), None, Some(VString("b"))];
    var key := ToUpper(name);
    assert Parse(Field(name, StringType, tag), ext, order).v.key == key;
    assert OptionsContains(VString("a"), options) == Found;
    assert OptionsContains(VString("b"), options) == Panics by {
      assert options[1..] == [None, Some(VString("b"))];
    }
    assert Convert(ext, StringType, "a", "") == Ok(Some(VString("a")));
    assert Convert(ext, StringType, "b", "") == Ok(Some(VString("b")));
  }

  /** An unknown strategy is only an error once there is text to convert. */
  lemma UnknownStrategy(name: string, get: string -> string, ext: Externals, order: seq<Directive>, tag: string)
    requires IsIterationOrder(order)
    requires tag == "decode" + "=" + "json"
    ensures get(ToUpper(name)) == "x" ==>
      NewVarWithFunc(Field(name, StringType, tag), get, ext, order)
      == Returned(Var(name, ToUpper(name), StringType, None, false, "json", None, []), Some(ConversionError("json", "unsupported decode")))
    ensures get(ToUpper(name)) == "" ==>
      NewVarWithFunc(Field(name, StringType, tag), get, ext, order)
      == Returned(Var(name, ToUpper(name), StringType, Some(VString("")), false, "json", None, []), None)
  {
    DecodeJsonParsed(name, ext, order, tag);
    assert Convert(ext, StringType, "x", "json") == Err(ConversionError("json", "unsupported decode"));
    assert Convert(ext, StringType, "", "json") == Ok(None);
  }

  /** `decode=json` is recorded as the strategy whatever it names. */
  lemma DecodeJsonParsed(name: string, ext: Externals, order: seq<Directive>, tag: string)
    requires IsIterationOrder(order)
    requires tag == "decode" + "=" + "json"
    ensures Parse(Field(name, StringType, tag), ext, order)
      == ParseResult(Var(name, ToUpper(name), StringType, None, false, "json", None, []), None)
  {
    OneValueTag("decode", "json", tag);
    ParseSpec(Field(name, StringType, tag), ext, order);
  }

  /** The single option `0` of a `main.Port` field is converted through the int
      kind, so it is a plain `int`. */
  lemma PortZeroOption(ext: Externals, list: string)
    requires list == "0"
    ensures ConvertAll(ext, PortType, Split(list, ','), "") == Ok([Some(VInt(0))])
  {
    SplitNoSeparator(list, ',');
    Strconv.AtoiShortNumerals(list);
    assert Strconv.DigitsValue(list) == 0;
    assert Convert(ext, PortType, list, "") == Ok(Some(VInt(0)));
    var items := [list];
    assert items[1..] == [];
    assert ConvertAll(ext, PortType, items[1..], "") == Ok([]);
    assert ConvertAll(ext, PortType, items, "") == Ok([Some(VInt(0))] + []);
    assert Split(list, ',') == items;
    assert [Some(VInt(0))] + [] == [Some(VInt(0))];
  }

  /** An unset field of a named integer type falls back to the zero value of that
      type, which equals no option converted through the int kind: even
      `options=0` rejects it. */
  lemma NamedZeroNotAnOption(name: string, get: string -> string, ext: Externals, order: seq<Directive>, tag: string)
    requires IsIterationOrder(order) && get(ToUpper(name)) == ""
    requires tag == "options" + "=" + "0"
    ensures NewVarWithFunc(Field(name, PortType, tag), get, ext, order)
      == Returned(
           Var(name, ToUpper(name), PortType, Some(VZero(PortType)), false, "", None, [Some(VInt(0))]),
           Some(NotAllowedError(ToUpper(name), VZero(PortType), [Some(VInt(0))])))
  {
    PortZeroOption(ext, "0");
    OptionsTag(name, PortType, ext, order, "0", [Some(VInt(0))], tag);
    assert Zero(PortType) == VZero(PortType);
    assert OptionsContains(VZero(PortType), [Some(VInt(0))]) == Missing;
  }
}
