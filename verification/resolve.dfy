/** The driver-facing entry point of var.go: parse a field's tag, convert the
    looked-up text, then apply the required, default and options policy. */
module Resolve {
  import opened Wrappers
  import opened GoTypes
  import opened Strings
  import opened Converter
  import opened Tags

  /** What a scan of the options finds. `Panics` stands for the run-time panic
      of the Go code. */
  datatype Membership = Found | Missing | Panics

  /** Whether comparing `s` with option `o` can panic: Go's `==` on interface
      values first compares the dynamic types, and panics only when both sides
      hold the same uncomparable type; a list or map against a scalar is simply
      unequal. Two uncomparable values are taken to share their type, as the
      value and the options are converted for the same field. */
  predicate ComparisonPanics(s: Value, o: Value)
  {
    !Comparable(s) && !Comparable(o)
  }

  /** Whether the scan cannot panic: every option is present and none of them
      is compared with a value of its own uncomparable type. */
  predicate PanicFree(s: Value, options: seq<Option<Value>>)
  {
    forall i :: 0 <= i < |options| ==> options[i].Some? && !ComparisonPanics(s, options[i].value)
  }

  /** `optionsContains`: the options in order, each compared with Go's `==` on
      interface values. An absent option (an empty element of the list) panics
      when its `Interface()` is taken, and so does comparing two slices or two
      maps. */
  function OptionsContains(s: Value, options: seq<Option<Value>>): (r: Membership)
    ensures r == Found ==> Some(s) in options
    ensures r == Missing ==> Some(s) !in options
    ensures PanicFree(s, options) ==> r != Panics
    ensures Comparable(s) && (forall i :: 0 <= i < |options| ==> options[i].Some?) ==> r != Panics
    ensures r == Panics ==> exists i :: 0 <= i < |options| && (options[i].None? || ComparisonPanics(s, options[i].value))
    decreases |options|
  {
    if options == [] then Missing
    else
      match options[0]
      case None => Panics
      case Some(o) =>
        if ComparisonPanics(s, o) then Panics
        else if s == o then Found
        else
          var r := OptionsContains(s, options[1..]);
          assert r == Panics ==> exists i :: 1 <= i < |options| && (options[i].None? || ComparisonPanics(s, options[i].value)) by {
            if r == Panics {
              var i :| 0 <= i < |options[1..]| && (options[1..][i].None? || ComparisonPanics(s, options[1..][i].value));
              assert options[i + 1] == options[1..][i];
            }
          }
          assert PanicFree(s, options) ==> PanicFree(s, options[1..]) by {
            if PanicFree(s, options) {
              forall i | 0 <= i < |options[1..]| ensures options[1..][i].Some? && !ComparisonPanics(s, options[1..][i].value) {
                assert options[1..][i] == options[i + 1];
              }
            }
          }
          assert (forall i :: 0 <= i < |options| ==> options[i].Some?) ==> (forall i :: 0 <= i < |options[1..]| ==> options[1..][i].Some?) by {
            forall i | 0 <= i < |options[1..]| ensures options[1..][i] == options[i + 1] {
            }
          }
          r
  }

  /** The scan reaches option `i` and finds the value there. */
  predicate MatchAt(s: Value, options: seq<Option<Value>>, i: int)
  {
    0 <= i < |options| && options[i] == Some(s) && PanicFree(s, options[..i + 1])
  }

  /** Option `i` panics when compared, and no earlier option is the value. */
  predicate PanicAt(s: Value, options: seq<Option<Value>>, i: int)
  {
    && 0 <= i < |options|
    && (options[i].None? || ComparisonPanics(s, options[i].value))
    && forall j :: 0 <= j < i ==> options[j] != Some(s)
  }

  /** The scan goes in order: it finds the value exactly when an option equal
      to it comes before any option that panics, and it panics exactly when a
      panicking option comes before any option equal to the value. */
  lemma {:induction false} ScanOrder(s: Value, options: seq<Option<Value>>)
    ensures OptionsContains(s, options) == Found <==> exists i :: MatchAt(s, options, i)
    ensures OptionsContains(s, options) == Panics <==> exists i :: PanicAt(s, options, i)
    decreases |options|
  {
    if options != [] {
      var tail := options[1..];
      assert forall i :: 0 <= i < |tail| ==> tail[i] == options[i + 1];
      if options[0].None? || ComparisonPanics(s, options[0].value) {
        assert PanicAt(s, options, 0);
        forall i | 0 <= i < |options| ensures !MatchAt(s, options, i) {
          assert options[..i + 1][0] == options[0];
        }
      } else if options[0] == Some(s) {
        assert options[..1] == [options[0]];
        assert MatchAt(s, options, 0);
        forall i | 0 <= i < |options| ensures !PanicAt(s, options, i) {
          if i > 0 {
            assert options[0] == Some(s);
          }
        }
      } else {
        ScanOrder(s, tail);
        forall i | 0 <= i < |tail| ensures MatchAt(s, tail, i) <==> MatchAt(s, options, i + 1) {
          PrefixShift(s, options, i);
        }
        forall i | 0 <= i < |tail| ensures PanicAt(s, tail, i) <==> PanicAt(s, options, i + 1) {
          forall j | 0 <= j < i ensures tail[j] == options[j + 1] {
          }
          if PanicAt(s, options, i + 1) {
            forall j | 0 <= j < i ensures tail[j] != Some(s) {
              assert options[j + 1] != Some(s);
            }
          }
        }
        assert !MatchAt(s, options, 0) && !PanicAt(s, options, 0);
        if exists i :: MatchAt(s, options, i) {
          var i :| MatchAt(s, options, i);
          assert MatchAt(s, tail, i - 1);
        }
        if exists i :: PanicAt(s, options, i) {
          var i :| PanicAt(s, options, i);
          assert PanicAt(s, tail, i - 1);
        }
      }
    }
  }

  /** Dropping a first option that neither panics nor matches shifts the
      prefixes the scan has passed by one. */
  lemma PrefixShift(s: Value, options: seq<Option<Value>>, i: int)
    requires 0 <= i < |options| - 1
    requires options[0].Some? && !ComparisonPanics(s, options[0].value)
    ensures PanicFree(s, options[1..][..i + 1]) <==> PanicFree(s, options[..i + 2])
  {
    var tail, whole := options[1..][..i + 1], options[..i + 2];
    assert |whole| == |tail| + 1;
    assert forall j :: 0 <= j < |tail| ==> tail[j] == whole[j + 1];
    if PanicFree(s, tail) {
      forall j | 0 <= j < |whole|
        ensures whole[j].Some? && !ComparisonPanics(s, whole[j].value)
      {
        if j > 0 {
          assert whole[j] == tail[j - 1];
        }
      }
    }
    if PanicFree(s, whole) {
      forall j | 0 <= j < |tail|
        ensures tail[j].Some? && !ComparisonPanics(s, tail[j].value)
      {
        assert tail[j] == whole[j + 1];
      }
    }
  }

  /** A decoded list compared with options of comparable values is unequal to
      each of them: the scan reports it missing rather than panicking. */
  lemma {:induction false} ListAgainstScalars(elems: seq<Value>, options: seq<Option<Value>>)
    requires forall i :: 0 <= i < |options| ==> options[i].Some? && Comparable(options[i].value)
    ensures OptionsContains(VList(elems), options) == Missing
    decreases |options|
  {
    if options != [] {
      assert options[0].Some? && Comparable(options[0].value);
      forall i | 0 <= i < |options[1..]| ensures options[1..][i].Some? && Comparable(options[1..][i].value) {
        assert options[1..][i] == options[i + 1];
      }
      ListAgainstScalars(elems, options[1..]);
    }
  }

  /** The end of a resolution: the descriptor with the error, if any, or a panic. */
  datatype Outcome = Returned(v: Var, err: Option<Error>) | Panicked

  /** The value a descriptor falls back to when the source has none: its
      default if it has one, else the zero value of its type. */
  function Fallback(p: Var): Value
  {
    if p.default.Some? then p.default.value else Zero(p.typ)
  }

  /** `NewVarWithFunc`: parse the tag (discarding its error), convert the text
      `get` returns for the key, then in order: a conversion error ends it; an
      absent value of a required field is an error; an absent value becomes the
      default or the zero value; a non-empty options list must contain the value. */
  function NewVarWithFunc(f: Field, get: string -> string, ext: Externals, order: seq<Directive>): (r: Outcome)
    requires IsIterationOrder(order)
    ensures r.Returned? ==> IsUpper(r.v.key) && r.v.name == f.name && r.v.typ == f.typ
    ensures r.Returned? && r.err.None? ==> r.v.value.Some?
    ensures r.Returned? && r.err.None? && |r.v.options| > 0 ==> r.v.value in r.v.options
    ensures r.Returned? && r.err.Some? && r.err.value.RequiredError? ==>
      r.err.value.key == r.v.key && r.v.required && r.v.value.None? && get(r.v.key) == ""
    ensures r.Returned? && r.err.Some? && r.err.value.NotAllowedError? ==>
      r.err.value.key == r.v.key && r.v.value == Some(r.err.value.actual)
      && r.err.value.options == r.v.options && Some(r.err.value.actual) !in r.v.options
    ensures r.Panicked? ==> |Parse(f, ext, order).v.options| > 0
  {
    var p := Parse(f, ext, order).v;
    match Convert(ext, p.typ, get(p.key), p.decode)
    case Err(e) => Returned(p, Some(e))
    case Ok(value) =>
      var withValue := p.(value := value);
      if value.None? && p.required then Returned(withValue, Some(RequiredError(p.key)))
      else
        var final := if value.Some? then withValue else withValue.(value := Some(Fallback(p)));
        if |p.options| > 0 then
          match OptionsContains(final.value.value, p.options)
          case Panics => Panicked
          case Missing => Returned(final, Some(NotAllowedError(p.key, final.value.value, p.options)))
          case Found => Returned(final, None)
        else Returned(final, None)
  }

  /** The text the source gives for the parsed key. */
  function Looked(f: Field, get: string -> string, ext: Externals, order: seq<Directive>): string
    requires IsIterationOrder(order)
  {
    get(Parse(f, ext, order).v.key)
  }

  /** A conversion error of the looked-up text is returned before any required,
      default or options logic, with the descriptor as parsed. */
  lemma ConversionErrorFirst(f: Field, get: string -> string, ext: Externals, order: seq<Directive>)
    requires IsIterationOrder(order)
    requires var p := Parse(f, ext, order).v; Convert(ext, p.typ, get(p.key), p.decode).Err?
    ensures var p := Parse(f, ext, order).v;
      NewVarWithFunc(f, get, ext, order) == Returned(p, Some(Convert(ext, p.typ, get(p.key), p.decode).error))
      && p.value.None?
  {
  }

  /** An absent value of a required field is an error naming the key, even when
      the field has a default and whatever its options. */
  lemma RequiredBeforeDefault(f: Field, get: string -> string, ext: Externals, order: seq<Directive>)
    requires IsIterationOrder(order)
    requires Looked(f, get, ext, order) == "" && Parse(f, ext, order).v.required
    ensures var p := Parse(f, ext, order).v;
      NewVarWithFunc(f, get, ext, order) == Returned(p, Some(RequiredError(p.key)))
  {
  }

  /** An absent value of an optional field without options becomes the default,
      or the zero value of the type when there is no default, without error. */
  lemma AbsentFallsBack(f: Field, get: string -> string, ext: Externals, order: seq<Directive>)
    requires IsIterationOrder(order)
    requires var p := Parse(f, ext, order).v;
      Looked(f, get, ext, order) == "" && !p.required && |p.options| == 0
    ensures var p := Parse(f, ext, order).v;
      NewVarWithFunc(f, get, ext, order) == Returned(p.(value := Some(Fallback(p))), None)
      && (p.default.None? ==> Fallback(p) == Zero(p.typ))
  {
  }

  /** A present, convertible value of a field without options is kept as is. */
  lemma PresentValueKept(f: Field, get: string -> string, ext: Externals, order: seq<Directive>)
    requires IsIterationOrder(order)
    requires var p := Parse(f, ext, order).v;
      Looked(f, get, ext, order) != "" && Convert(ext, p.typ, get(p.key), p.decode).Ok? && |p.options| == 0
    ensures var p := Parse(f, ext, order).v;
      NewVarWithFunc(f, get, ext, order) == Returned(p.(value := Convert(ext, p.typ, get(p.key), p.decode).value), None)
  {
  }

  /** With a non-empty options list whose comparisons cannot panic, resolution
      succeeds exactly when the final value (converted, default or zero) is one
      of the options, and otherwise reports the key and the value. */
  lemma OptionsGate(f: Field, get: string -> string, ext: Externals, order: seq<Directive>)
    requires IsIterationOrder(order)
    requires var p := Parse(f, ext, order).v;
      && Convert(ext, p.typ, get(p.key), p.decode).Ok?
      && !(get(p.key) == "" && p.required)
      && |p.options| > 0
    requires var p := Parse(f, ext, order).v;
      var final := if get(p.key) == "" then Fallback(p) else Convert(ext, p.typ, get(p.key), p.decode).value.value;
      PanicFree(final, p.options)
    ensures var p := Parse(f, ext, order).v;
      var final := if get(p.key) == "" then Fallback(p) else Convert(ext, p.typ, get(p.key), p.decode).value.value;
      var r := NewVarWithFunc(f, get, ext, order);
      && r.Returned? && r.v.value == Some(final)
      && (r.err.None? <==> Some(final) in p.options)
      && (r.err.Some? ==> r.err.value == NotAllowedError(p.key, final, p.options))
  {
  }
}
