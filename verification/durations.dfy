/** An integer-only model of Go's `time.ParseDuration`: an optional sign, then one
    or more components, each a run of decimal digits followed by a unit. */
module Durations {
  import opened Wrappers
  import Strconv

  /** The unit table: nanoseconds per unit. */
  function UnitNanos(u: string): Option<nat>
  {
    if u == "ns" then Some(1)
    else if u == "us" || u == ['\U{00B5}', 's'] || u == ['\U{03BC}', 's'] then Some(1000)
    else if u == "ms" then Some(1_000_000)
    else if u == "s" then Some(1_000_000_000)
    else if u == "m" then Some(60_000_000_000)
    else if u == "h" then Some(3_600_000_000_000)
    else None
  }

  /** The length of the longest all-digit prefix. */
  function DigitRun(s: string): (n: nat)
    ensures n <= |s|
    ensures Strconv.IsDigits(s[..n])
    ensures n < |s| ==> !Strconv.IsDigit(s[n])
  {
    if s == [] || !Strconv.IsDigit(s[0]) then 0
    else
      var n := 1 + DigitRun(s[1..]);
      assert s[..n] == [s[0]] + s[1..][..n - 1];
      n
  }

  /** Whether a character may belong to a unit: anything but a digit or a period. */
  predicate IsUnitChar(c: char)
  {
    c != '.' && !Strconv.IsDigit(c)
  }

  /** The length of the longest prefix that may be a unit. */
  function UnitRun(s: string): (n: nat)
    ensures n <= |s|
    ensures forall i :: 0 <= i < n ==> IsUnitChar(s[i])
    ensures n < |s| ==> !IsUnitChar(s[n])
  {
    if s == [] || !IsUnitChar(s[0]) then 0 else 1 + UnitRun(s[1..])
  }

  /** The total, in nanoseconds, of a sign-free sequence of components; `None` for
      a component without digits, without a unit, with an unknown unit, or with a
      fractional part (fractions are outside this model). */
  function Components(s: string): (r: Option<nat>)
    ensures s == [] ==> r == Some(0)
    ensures r.Some? && s != [] ==> Strconv.IsDigit(s[0])
    decreases |s|
  {
    if s == [] then Some(0)
    else if !Strconv.IsDigit(s[0]) then None
    else
      var i := DigitRun(s);
      assert i >= 1;
      var rest := s[i..];
      var j := UnitRun(rest);
      if j == 0 then None
      else
        var unit := UnitNanos(rest[..j]);
        var more := Components(rest[j..]);
        if unit.None? || more.None? then None
        else Some(Strconv.DigitsValue(s[..i]) * unit.value + more.value)
  }

  /** `time.ParseDuration` without fractional components: the sum of the
      components, negated after a leading minus; a bare "0" (optionally signed) is
      zero; a total outside the 64-bit range is an error. */
  function ParseDuration(s: string): (r: Option<int>)
    ensures r.Some? ==> Strconv.InIntRange(r.value)
    ensures s == "" ==> r == None
  {
    var neg := |s| > 0 && s[0] == '-';
    var body := if |s| > 0 && (s[0] == '-' || s[0] == '+') then s[1..] else s;
    if body == "0" then Some(0)
    else if body == "" then None
    else
      match Components(body)
      case None => None
      case Some(total) =>
        if neg then (if total <= 0x8000_0000_0000_0000 then Some(0 - total) else None)
        else if total <= Strconv.MaxInt then Some(total) else None
  }

  /** One hour and thirty minutes is ninety minutes. */
  lemma HourAndHalf()
    ensures ParseDuration("1h30m") == Some(90 * 60 * 1_000_000_000)
  {
    var s := "1h30m";
    assert DigitRun(s) == 1;
    assert s[1..] == "h30m";
    assert UnitRun("h30m") == 1;
    var t := "30m";
    assert "h30m"[1..] == t;
    assert DigitRun(t) == 2;
    assert t[2..] == "m";
    assert UnitRun("m") == 1;
    assert Strconv.DigitsValue("30") == 30;
    assert Components("30m") == Some(30 * 60_000_000_000);
  }

  /** Digits followed by a unit: the shape of a single component. */
  lemma {:induction false} SingleComponent(digits: string, unit: string, nanos: nat)
    requires |digits| >= 1 && Strconv.IsDigits(digits)
    requires |unit| >= 1 && forall i :: 0 <= i < |unit| ==> IsUnitChar(unit[i])
    requires UnitNanos(unit) == Some(nanos)
    ensures Components(digits + unit) == Some(Strconv.DigitsValue(digits) * nanos)
  {
    var s := digits + unit;
    DigitRunOfDigits(digits, unit);
    assert s[..|digits|] == digits;
    assert s[|digits|..] == unit;
    UnitRunOfUnit(unit);
    assert unit[..|unit|] == unit;
    assert unit[|unit|..] == [];
  }

  lemma {:induction false} DigitRunOfDigits(digits: string, tail: string)
    requires Strconv.IsDigits(digits)
    requires tail == [] || !Strconv.IsDigit(tail[0])
    ensures DigitRun(digits + tail) == |digits|
    decreases |digits|
  {
    if digits == [] {
      assert digits + tail == tail;
    } else {
      assert (digits + tail)[1..] == digits[1..] + tail;
      DigitRunOfDigits(digits[1..], tail);
    }
  }

  lemma {:induction false} UnitRunOfUnit(unit: string)
    requires forall i :: 0 <= i < |unit| ==> IsUnitChar(unit[i])
    ensures UnitRun(unit) == |unit|
    decreases |unit|
  {
    if unit != [] {
      UnitRunOfUnit(unit[1..]);
    }
  }

  /** Any 64-bit count of nanoseconds written as "<n>ns" parses back to itself. */
  lemma NanosecondsRoundTrip(n: nat)
    requires n <= Strconv.MaxInt
    ensures ParseDuration(Strconv.Itoa(n) + "ns") == Some(n)
  {
    var digits := Strconv.NatToString(n);
    var s := digits + "ns";
    Strconv.DigitsValueOfNatToString(n);
    SingleComponent(digits, "ns", 1);
    assert Strconv.IsDigit(s[0]);
    assert s != "0";
  }
}
