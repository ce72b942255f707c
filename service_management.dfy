/** The services screen (src/components/dashboard/ServiceManagement.tsx):
    the active toggle, the service form's initial values, how its numeric
    fields read what is typed, and what a create or an edit sends. */
module ServiceManagement {
  import opened Common
  import opened Schema
  import BookingPage

  // ---------------------------------------------------------------------
  // Active toggle
  // ---------------------------------------------------------------------

  /** `handleToggleActive(id, isActive)` sends `{ is_active: !isActive }`. */
  function ToggleActive(isActive: bool): (sent: bool)
    ensures sent != isActive
  {
    !isActive
  }

  /** The stored row after the toggle update: only `is_active` is written. */
  function ApplyActive(s: Service, sent: bool): (r: Service)
    ensures r.isActive == sent
  {
    s.(isActive := sent)
  }

  /** Toggling a service flips its flag and nothing else, so toggling it
      again restores the row. */
  lemma ToggleTwiceRestores(s: Service)
    ensures ApplyActive(s, ToggleActive(s.isActive)) == s.(isActive := !s.isActive)
    ensures var once := ApplyActive(s, ToggleActive(s.isActive));
            ApplyActive(once, ToggleActive(once.isActive)) == s
  {
  }

  // ---------------------------------------------------------------------
  // The service form
  // ---------------------------------------------------------------------

  /** The form's state; the price field holds what `parseFloat` read. */
  datatype ServiceForm = ServiceForm(name: string, description: string, duration: int, price: real, isActive: bool)

  /** The form's initial state: empty texts, 60 minutes, price 0 and active
      for a new service; for an existing one its fields, where `||` turns a
      0 duration into 60 and a missing description into '', while `??`
      keeps an inactive flag. */
  function InitialForm(initial: Option<Service>): (f: ServiceForm)
    ensures initial.None? ==> f == ServiceForm("", "", 60, 0.0, true)
    ensures initial.Some? ==> f.isActive == initial.value.isActive && f.name == initial.value.name
                              && f.price == initial.value.price as real
    ensures initial.Some? ==> (f.duration == 60 <==> initial.value.duration in {0, 60})
    ensures initial.Some? ==> f.duration == initial.value.duration || (initial.value.duration == 0 && f.duration == 60)
    ensures initial.Some? && initial.value.description.Some? ==> f.description == initial.value.description.value
    ensures initial.Some? && initial.value.description.None? ==> f.description == ""
  {
    match initial
    case None => ServiceForm("", "", 60, 0.0, true)
    case Some(s) =>
      ServiceForm(s.name, OrElse(s.description, ""), if s.duration != 0 then s.duration else 60,
                  s.price as real, s.isActive)
  }

  /** The form agrees with every field of the stored service. */
  predicate ShowsService(f: ServiceForm, s: Service) {
    && f.name == s.name && Some(f.description) == s.description && f.duration == s.duration
    && f.price == s.price as real && f.isActive == s.isActive
  }

  /** Opening an existing service and saving it untouched writes back what
      was stored exactly when it has a description and a non-zero
      duration: a 0 duration is saved as 60 and a missing description as
      ''. */
  lemma UntouchedEditKeepsService(s: Service)
    ensures ShowsService(InitialForm(Some(s)), s) <==> s.description.Some? && s.duration != 0
  {
  }

  // ---------------------------------------------------------------------
  // Numeric fields (`parseInt(v) || 0`, `parseFloat(v) || 0`)
  // ---------------------------------------------------------------------

  /** The text with its leading white space removed. */
  function SkipSpaces(s: string): (r: string)
    ensures |r| <= |s| && r == s[|s| - |r|..]
    ensures r != [] ==> !BookingPage.IsJsWhitespace(r[0])
  {
    if s != [] && BookingPage.IsJsWhitespace(s[0]) then SkipSpaces(s[1..]) else s
  }

  /** The longest run of digits the text starts with. */
  function DigitRun(s: string): (d: string)
    ensures |d| <= |s| && d == s[..|d|]
    ensures forall i :: 0 <= i < |d| ==> IsDigit(d[i])
    ensures |d| < |s| ==> !IsDigit(s[|d|])
  {
    if s != [] && IsDigit(s[0]) then [s[0]] + DigitRun(s[1..]) else []
  }

  /** The value of a digit run (0 for the empty run). */
  function DigitsValue(d: string): nat {
    match ParseDigits(d)
    case Some(v) => v
    case None => 0
  }

  function Pow10(k: nat): (p: nat)
    ensures p >= 1
  {
    if k == 0 then 1 else 10 * Pow10(k - 1)
  }

  /** The text after leading white space and one optional sign, and
      whether that sign was '-'. */
  function Unsigned(text: string): (string, bool) {
    var t := SkipSpaces(text);
    if t != [] && (t[0] == '-' || t[0] == '+') then (t[1..], t[0] == '-') else (t, false)
  }

  /** `parseInt(text)`: None where JavaScript gives NaN (no digit after the
      white space and sign). Decimal only: `parseInt` would read a "0x"
      prefix as hexadecimal, but the duration field is a number input,
      whose value never has one. */
  function ParseIntText(text: string): Option<int> {
    var (body, negative) := Unsigned(text);
    var d := DigitRun(body);
    if d == [] then None
    else Some(if negative then -(DigitsValue(d) as int) else DigitsValue(d))
  }

  /** `parseFloat(text)` on decimal text: digits, optionally a point and
      more digits, with at least one digit in all; None for NaN. */
  function ParseFloatText(text: string): Option<real> {
    var (body, negative) := Unsigned(text);
    var whole := DigitRun(body);
    var rest := body[|whole|..];
    var frac := if rest != [] && rest[0] == '.' then DigitRun(rest[1..]) else [];
    if whole == [] && frac == [] then None
    else Some(if negative then -DecimalValue(whole, frac) else DecimalValue(whole, frac))
  }

  /** The value of "whole.frac". */
  function DecimalValue(whole: string, frac: string): real {
    DigitsValue(whole) as real + DigitsValue(frac) as real / Pow10(|frac|) as real
  }

  /** The duration field: the number read, or 0 for NaN (and for 0). */
  function DurationField(text: string): int {
    match ParseIntText(text)
    case None => 0
    case Some(v) => v
  }

  /** The price field: the number read, or 0 for NaN. */
  function PriceField(text: string): real {
    match ParseFloatText(text)
    case None => 0.0
    case Some(v) => v
  }

  /** The digit run of digits followed by a non-digit is those digits. */
  lemma {:induction false} DigitRunStops(d: string, tail: string)
    requires forall i :: 0 <= i < |d| ==> IsDigit(d[i])
    requires tail == [] || !IsDigit(tail[0])
    ensures DigitRun(d + tail) == d
  {
    if d != [] {
      assert (d + tail)[1..] == d[1..] + tail;
      DigitRunStops(d[1..], tail);
    }
  }

  /** Text that starts with a digit has no white space or sign to skip. */
  lemma UnsignedOfDigit(text: string)
    requires text != [] && IsDigit(text[0])
    ensures Unsigned(text) == (text, false)
  {
    assert !BookingPage.IsJsWhitespace(text[0]);
  }

  /** A typed whole number reads as itself, whatever non-digit text follows
      it ("45 min" gives 45). */
  lemma DurationFieldReadsNumber(n: nat, tail: string)
    requires tail == [] || !IsDigit(tail[0])
    ensures DurationField(NatToString(n) + tail) == n
  {
    var text := NatToString(n) + tail;
    UnsignedOfDigit(text);
    DigitRunStops(NatToString(n), tail);
    ParseNatToString(n);
    assert ParseIntText(text) == Some(n);
  }

  /** "a.bb" splits into the whole part a and the fraction's digits bb. */
  lemma AmountParts(whole: string, cents: string)
    requires whole != [] && forall i :: 0 <= i < |whole| ==> IsDigit(whole[i])
    requires |cents| == 2 && IsDigit(cents[0]) && IsDigit(cents[1])
    ensures var text := whole + "." + cents;
            && Unsigned(text) == (text, false)
            && DigitRun(text) == whole
            && text[|whole|..] == "." + cents
            && DigitRun(cents) == cents
  {
    var text := whole + "." + cents;
    assert text[0] == whole[0];
    UnsignedOfDigit(text);
    WholeRun(whole, cents);
    DigitRunStops(cents, "");
    assert cents + "" == cents;
  }

  /** The digit run of "a.bb" is a, and what follows it is ".bb". */
  lemma WholeRun(whole: string, cents: string)
    requires forall i :: 0 <= i < |whole| ==> IsDigit(whole[i])
    ensures DigitRun(whole + "." + cents) == whole
    ensures (whole + "." + cents)[|whole|..] == "." + cents
  {
    assert whole + "." + cents == whole + ("." + cents);
    DigitRunStops(whole, "." + cents);
  }

  /** An amount typed with two decimals, "a.bb", reads as a + bb / 100. */
  lemma PriceFieldReadsAmount(a: nat, b: nat)
    requires b < 100
    ensures PriceField(NatToString(a) + "." + PadStart2(NatToString(b))) == a as real + b as real / 100.0
  {
    var whole := NatToString(a);
    var cents := PadStart2(NatToString(b));
    AmountReads(whole, cents);
    ParseNatToString(a);
    ParsePadded(b);
    CentsValue(whole, cents, a, b);
  }

  lemma AmountReads(whole: string, cents: string)
    requires whole != [] && forall i :: 0 <= i < |whole| ==> IsDigit(whole[i])
    requires |cents| == 2 && IsDigit(cents[0]) && IsDigit(cents[1])
    ensures ParseFloatText(whole + "." + cents) == Some(DecimalValue(whole, cents))
  {
    var text := whole + "." + cents;
    AmountParts(whole, cents);
    ParseFloatParts(text, whole, cents);
  }

  lemma CentsValue(whole: string, cents: string, a: nat, b: nat)
    requires |cents| == 2 && DigitsValue(whole) == a && ParseDigits(cents) == Some(b)
    ensures DecimalValue(whole, cents) == a as real + b as real / 100.0
  {
    assert Pow10(|cents|) == 100;
  }

  lemma ParseFloatParts(text: string, whole: string, frac: string)
    requires Unsigned(text) == (text, false) && whole != [] && DigitRun(text) == whole
    requires text[|whole|..] == "." + frac && DigitRun(frac) == frac
    ensures ParseFloatText(text) == Some(DecimalValue(whole, frac))
  {
    assert ("." + frac)[1..] == frac;
  }

  /** Text that does not start with a number (after white space and a
      sign) leaves 0 in both fields. */
  lemma NonNumericIsZero(text: string)
    requires text != [] && !IsDigit(text[0]) && !BookingPage.IsJsWhitespace(text[0])
    requires text[0] !in {'-', '+', '.'}
    ensures DurationField(text) == 0 && PriceField(text) == 0.0
  {
    assert SkipSpaces(text) == text;
  }

  // ---------------------------------------------------------------------
  // Submit
  // ---------------------------------------------------------------------

  /** What the form hands to `createService` or `updateService`. */
  datatype ServicePayload = ServicePayload(form: ServiceForm, businessId: Option<string>)

  /** The submit: nothing without a current business; an edit (the form was
      opened on an existing service) sends the form alone, a create adds
      the business id. */
  function ServiceSubmit(current: Option<Business>, initial: Option<Service>, form: ServiceForm)
    : (p: Option<ServicePayload>)
    ensures p.None? <==> current.None?
    ensures p.Some? ==> p.value.form == form
    ensures p.Some? ==> (p.value.businessId.Some? <==> initial.None?)
    ensures p.Some? && initial.None? ==> p.value.businessId == Some(current.value.id)
  {
    if current.None? then None
    else if initial.Some? then Some(ServicePayload(form, None))
    else Some(ServicePayload(form, Some(current.value.id)))
  }
}
