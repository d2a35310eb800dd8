/**
 * The field validator of src/app.ts: a `Validatable` record pairs a value
 * (a string or a number) with optional constraints, and `Validate` accepts
 * the value when every constraint that applies to it holds.
 */
module Validation {
  import opened Wrappers
  import opened JsText

  /** The `value: string | number` field. Numbers are the integral ones, and
      strings are sequences of code points (no unpaired surrogates). */
  datatype Value = Text(s: string) | Number(n: int)

  /** The `Validatable` interface: every constraint is optional, and an
      absent one (`undefined` or `null`) is `None`. */
  datatype Validatable = Validatable(
    value: Value,
    required: Option<bool>,
    minLength: Option<int>,
    maxLength: Option<int>,
    min: Option<int>,
    max: Option<int>)

  /** A record that carries the value and no constraint at all. */
  function Unconstrained(value: Value): Validatable {
    Validatable(value, None, None, None, None, None)
  }

  /** JavaScript truthiness of an optional boolean: only `true` is truthy. */
  predicate Truthy(b: Option<bool>) {
    b == Some(true)
  }

  /** `value.toString()`: a string is its own text; a number is written in
      decimal, that text reads back as the number, and it is never blank. */
  function Stringify(v: Value): (r: string)
    ensures v.Text? ==> r == v.s
    ensures v.Number? ==> IsIntegerText(r) && IntegerValue(r) == v.n
    ensures v.Number? ==> HasContent(r)
  {
    match v
    case Text(s) => s
    case Number(n) =>
      NumberToStringRoundTrip(n);
      NumberTextIsSolid(n);
      NumberToString(n)
  }

  /** What a truthy `required` demands of a value: a string must hold a
      non-white-space character; a number always passes, because its text is
      never blank. */
  predicate IsPresent(v: Value) {
    v.Number? || HasContent(v.s)
  }

  /** The validator. Each of the five steps runs only when its constraint is
      switched on: `required` by truthiness, the other four by being present
      (`!= null`, so a bound of 0 is still enforced), the length bounds only
      for strings and the numeric bounds only for numbers. All bounds are
      strict. The result is true exactly when every step that ran passed. */
  function Validate(input: Validatable): (isValid: bool)
    ensures isValid <==>
      && (Truthy(input.required) ==> IsPresent(input.value))
      && (input.value.Text? && input.minLength.Some? ==>
            Utf16Length(input.value.s) > input.minLength.value)
      && (input.value.Text? && input.maxLength.Some? ==>
            Utf16Length(input.value.s) < input.maxLength.value)
      && (input.value.Number? && input.min.Some? ==>
            input.value.n > input.min.value)
      && (input.value.Number? && input.max.Some? ==>
            input.value.n < input.max.value)
  {
    var text := Stringify(input.value);
    TrimEmptyIffBlank(text);
    var ok := true;
    var ok :=
      if Truthy(input.required) then ok && Utf16Length(Trim(text)) != 0
      else ok;
    var ok :=
      if input.minLength.Some? && input.value.Text?
      then ok && Utf16Length(input.value.s) > input.minLength.value
      else ok;
    var ok :=
      if input.maxLength.Some? && input.value.Text?
      then ok && Utf16Length(input.value.s) < input.maxLength.value
      else ok;
    var ok :=
      if input.min.Some? && input.value.Number?
      then ok && input.value.n > input.min.value
      else ok;
    var ok :=
      if input.max.Some? && input.value.Number?
      then ok && input.value.n < input.max.value
      else ok;
    ok
  }

  /** With `required` falsy and every other constraint absent, any value is
      accepted. */
  lemma UnconstrainedAcceptsAll(value: Value, required: Option<bool>)
    requires !Truthy(required)
    ensures Validate(Unconstrained(value).(required := required))
  {
  }

  /** `tight` keeps the value of `loose` and every constraint `loose` switches
      on, and may switch on more. */
  predicate Tightens(loose: Validatable, tight: Validatable) {
    && tight.value == loose.value
    && (Truthy(loose.required) ==> Truthy(tight.required))
    && (loose.minLength.Some? ==> tight.minLength == loose.minLength)
    && (loose.maxLength.Some? ==> tight.maxLength == loose.maxLength)
    && (loose.min.Some? ==> tight.min == loose.min)
    && (loose.max.Some? ==> tight.max == loose.max)
  }

  /** Adding constraints never turns a rejection into an acceptance: what the
      tighter record accepts, the looser one accepts too. */
  lemma AddingConstraintsNeverAccepts(loose: Validatable, tight: Validatable)
    requires Tightens(loose, tight)
    ensures Validate(tight) ==> Validate(loose)
  {
  }

  /** A truthy `required` on its own accepts exactly the present values: a
      string that is empty or all white space is rejected. */
  lemma RequiredRejectsBlank(value: Value)
    ensures Validate(Unconstrained(value).(required := Some(true)))
            <==> IsPresent(value)
    ensures value.Text? && !HasContent(value.s) ==>
              !Validate(Unconstrained(value).(required := Some(true)))
  {
  }

  /** `minLength` on its own accepts a string exactly when it is strictly
      longer than the bound, so a bound of 0 still rejects the empty string. */
  lemma MinLengthIsStrict(s: string, bound: int)
    ensures Validate(Unconstrained(Text(s)).(minLength := Some(bound)))
            <==> Utf16Length(s) > bound
    ensures !Validate(Unconstrained(Text("")).(minLength := Some(0)))
  {
  }

  /** `maxLength` on its own accepts a string exactly when it is strictly
      shorter than the bound. */
  lemma MaxLengthIsStrict(s: string, bound: int)
    ensures Validate(Unconstrained(Text(s)).(maxLength := Some(bound)))
            <==> Utf16Length(s) < bound
  {
  }

  /** `min` and `max` together accept a number exactly when it lies strictly
      between them. */
  lemma NumericBoundsAreStrict(n: int, lo: int, hi: int)
    ensures Validate(Unconstrained(Number(n)).(min := Some(lo), max := Some(hi)))
            <==> lo < n < hi
  {
  }

  /** The length bounds have no effect on a number. */
  lemma LengthBoundsIgnoreNumbers(input: Validatable, minLength: Option<int>, maxLength: Option<int>)
    requires input.value.Number?
    ensures Validate(input.(minLength := minLength, maxLength := maxLength)) == Validate(input)
  {
  }

  /** The numeric bounds have no effect on a string. */
  lemma NumericBoundsIgnoreText(input: Validatable, min: Option<int>, max: Option<int>)
    requires input.value.Text?
    ensures Validate(input.(min := min, max := max)) == Validate(input)
  {
  }

  /** `required` has no effect on a number, since a number's text is never
      blank. */
  lemma RequiredIgnoresNumbers(input: Validatable, required: Option<bool>)
    requires input.value.Number?
    ensures Validate(input.(required := required)) == Validate(input)
  {
  }

  /** `required` on concrete strings: empty and all-blank fail, `"a"` passes. */
  lemma RequiredExamples()
    ensures !Validate(Unconstrained(Text("")).(required := Some(true)))
    ensures !Validate(Unconstrained(Text("   ")).(required := Some(true)))
    ensures Validate(Unconstrained(Text("a")).(required := Some(true)))
  {
    var blank := "   ";
    assert forall k :: 0 <= k < |blank| ==> blank[k] == ' ';
    assert !HasContent(blank);
    RequiredRejectsBlank(Text(""));
    RequiredRejectsBlank(Text(blank));
    RequiredRejectsBlank(Text("a"));
    assert !IsWhitespace("a"[0]);
  }

  /** `minLength` 5 on concrete strings: five characters fail, six pass. */
  lemma MinLengthExamples()
    ensures !Validate(Unconstrained(Text("abcde")).(minLength := Some(5)))
    ensures Validate(Unconstrained(Text("abcdef")).(minLength := Some(5)))
  {
    Utf16LengthOfBmp("abcde");
    Utf16LengthOfBmp("abcdef");
  }

  /** `min` 0 and `max` 2 on concrete numbers: 2 fails, 1 passes. */
  lemma NumericExamples()
    ensures !Validate(Unconstrained(Number(2)).(min := Some(0), max := Some(2)))
    ensures Validate(Unconstrained(Number(1)).(min := Some(0), max := Some(2)))
  {
    NumericBoundsAreStrict(2, 0, 2);
    NumericBoundsAreStrict(1, 0, 2);
  }

  /** Length bounds count UTF-16 code units: one emoji above U+FFFF is two
      units long, so it passes `minLength` 1 and fails `maxLength` 2. */
  lemma AstralLengthExamples()
    ensures Validate(Unconstrained(Text("\U{1F600}")).(minLength := Some(1)))
    ensures !Validate(Unconstrained(Text("\U{1F600}")).(maxLength := Some(2)))
  {
    Utf16LengthOfChar('\U{1F600}');
    assert "\U{1F600}" == ['\U{1F600}'];
  }
}
