/**
 * The text of a numeric form field as `parseFloat`/`parseInt` see it: empty,
 * present but not a number (NaN), or a number. JavaScript comparisons with
 * NaN are all false, which is what lets a NaN amount past some of the checks.
 */
module FormInput {

  import opened Wrappers
  import opened Text

  datatype Parsed<T> = Blank | NotANumber | Num(value: T)

  /** `!s || parseFloat(s) <= 0`: the amount check of most forms; NaN passes it. */
  predicate MissingOrNonPositive(x: Parsed<real>)
  {
    x.Blank? || (x.Num? && x.value <= 0.0)
  }

  /** `!s || isNaN(n) || n <= 0`: the stricter check that also rejects NaN. */
  predicate NotAPositiveNumber(x: Parsed<real>)
  {
    !(x.Num? && x.value > 0.0)
  }

  /** `!s || isNaN(n) || n < 0`. */
  predicate NotANonNegativeNumber(x: Parsed<real>)
  {
    !(x.Num? && x.value >= 0.0)
  }

  /** The strict check rejects everything the lenient one does, and NaN besides. */
  lemma StrictCheckRefinesLenient(x: Parsed<real>)
    ensures MissingOrNonPositive(x) ==> NotAPositiveNumber(x)
    ensures NotAPositiveNumber(x) && !MissingOrNonPositive(x) <==> x.NotANumber?
  {
  }

  /** `parseFloat(s)`, with NaN as `None`. */
  function ParseFloat(x: Parsed<real>): (r: Option<real>)
    ensures r.Some? <==> x.Num?
  {
    if x.Num? then Some(x.value) else None
  }

  /** `parseFloat(s) || 0`: NaN and the empty field count as zero. */
  function OrZero(x: Parsed<real>): (r: real)
    ensures x.Num? ==> r == x.value
    ensures !x.Num? ==> r == 0.0
  {
    if x.Num? then x.value else 0.0
  }

  /** `parseFloat(s || '0')`: only the empty field counts as zero, other text is NaN. */
  function ParseOrZeroText(x: Parsed<real>): (r: Option<real>)
    ensures x.Blank? ==> r == Some(0.0)
    ensures x.NotANumber? ==> r.None?
    ensures x.Num? ==> r == Some(x.value)
  {
    match x
    case Blank => Some(0.0)
    case NotANumber => None
    case Num(v) => Some(v)
  }

  /** `a > b` where `a` may be NaN: false for NaN. */
  predicate Exceeds(a: Option<real>, b: real)
  {
    a.Some? && a.value > b
  }

  /**
   * The errors a form shows when its request fails: the `submit` entry alone,
   * holding the error's message or, when it has none, the form's own text.
   */
  function SubmitFailure(message: Option<string>, fallback: string): (errors: map<string, string>)
    ensures errors.Keys == {"submit"}
    ensures message.Some? && message.value != [] ==> errors["submit"] == message.value
    ensures fallback != [] ==> errors["submit"] != []
  {
    map["submit" := OrDefault(message, fallback)]
  }

  /** `amount && parseFloat(amount) > 0 && !errors.amount`: when an amount form shows its preview. */
  predicate PreviewShown(amount: Parsed<real>, errors: map<string, string>)
  {
    !amount.Blank? && Exceeds(ParseFloat(amount), 0.0) && "amount" !in errors
  }

  /** A real with no fraction of a cent. */
  predicate WholeCents(x: real)
  {
    (x * 100.0).Floor as real == x * 100.0
  }

  /** `parseFloat(x.toFixed(2))` for a non-negative `x`: rounding half up to the cent. */
  function Round2(x: real): real
  {
    ((x * 100.0 + 0.5).Floor as real) / 100.0
  }

  /** Rounding to the cent never passes a whole-cent bound, and leaves whole cents alone. */
  lemma Round2Bounds(x: real, bound: real)
    requires WholeCents(bound) && x <= bound
    ensures Round2(x) <= bound
    ensures x == bound ==> Round2(x) == bound
  {
    var n := (bound * 100.0).Floor;
    assert x * 100.0 + 0.5 < n as real + 1.0;
    assert (x * 100.0 + 0.5).Floor <= n;
  }
}
