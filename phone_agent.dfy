/** The AI phone agent panel (src/components/dashboard/AIPhoneAgent.tsx):
    call-length formatting, the status badge of a call and the on/off
    switch. */
module PhoneAgent {
  import opened Common

  /** JavaScript's `%`: the remainder takes the sign of the dividend. */
  function JsRem(a: int, d: int): (r: int)
    requires d > 0
    ensures a >= 0 ==> r == a % d
    ensures -d < r < d
  {
    if a >= 0 then a % d else -((-a) % d)
  }

  /** `formatDuration`: whole minutes (`Math.floor(seconds / 60)`), a colon,
      and the remaining seconds left-padded to two characters. */
  function FormatDuration(seconds: int): string {
    IntToString(seconds / 60) + ":" + PadStart2(IntToString(JsRem(seconds, 60)))
  }

  /** For a non-negative whole number of seconds the seconds field is two
      digits below 60, so reading "m:ss" back as 60 * m + ss gives the
      duration. */
  lemma FormatDurationRoundTrip(seconds: nat)
    ensures ParseSixty(FormatDuration(seconds)) == Some(seconds)
  {
    ParseNatToString(seconds / 60);
    ParseSixtyOf(NatToString(seconds / 60), seconds);
  }

  lemma FormatDurationExamples()
    ensures FormatDuration(0) == "0:00"
    ensures FormatDuration(45) == "0:45"
    ensures FormatDuration(180) == "3:00"
  {
    assert NatToString(45) == NatToString(4) + [DigitChar(5)];
  }

  /** A negative length keeps JavaScript's signs: -1 formats as "-1:-1". */
  lemma NegativeDuration()
    ensures FormatDuration(-1) == "-1:-1"
  {
    assert -1 / 60 == -1;
    assert JsRem(-1, 60) == -1;
  }

  const BookingMadeColor: string := "bg-green-100 text-green-800"
  const CompletedColor: string := "bg-blue-100 text-blue-800"
  const MissedColor: string := "bg-red-100 text-red-800"
  const DefaultColor: string := "bg-gray-100 text-gray-800"

  /** `getStatusColor`: the three call statuses get their own badge colours,
      any other text the gray default. */
  function StatusColor(status: string): (color: string)
    ensures color != DefaultColor <==> status in {"booking_made", "completed", "missed"}
    ensures status == "booking_made" <==> color == BookingMadeColor
    ensures status == "completed" <==> color == CompletedColor
    ensures status == "missed" <==> color == MissedColor
  {
    if status == "booking_made" then BookingMadeColor
    else if status == "completed" then CompletedColor
    else if status == "missed" then MissedColor
    else DefaultColor
  }

  class PhoneAgentPanel {
    var isEnabled: bool

    /** The agent starts enabled. */
    constructor()
      ensures isEnabled
    {
      isEnabled := true;
    }

    /** `handleToggleAI`: switching off happens only when the user
        confirms (`confirmed` is the answer to the dialog, asked only
        then); switching on is unconditional. */
    method ToggleAI(confirmed: bool)
      modifies this
      ensures old(isEnabled) ==> isEnabled == !confirmed
      ensures !old(isEnabled) ==> isEnabled
    {
      if isEnabled {
        if confirmed {
          isEnabled := false;
        }
      } else {
        isEnabled := true;
      }
    }
  }
}
