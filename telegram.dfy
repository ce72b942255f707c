/** The Telegram bot panel (src/components/dashboard/TelegramIntegration.tsx):
    the connect/disconnect state machine over the token and username
    fields, the webhook address, and the message statistics. */
module Telegram {
  import opened Common
  import opened Schema

  /** One conversation the panel lists. */
  datatype TelegramMessage = TelegramMessage(
    id: string, customerName: string, message: string, response: string,
    bookingCreated: bool, createdAt: string)

  const InitialToken: string := "1234567890:ABCdefGHIjklMNOpqrsTUVwxyz"
  const InitialUsername: string := "BookAnyBot"
  const WebhookPath: string := "/api/telegram/webhook/"

  /** The webhook address shown for a business. */
  function WebhookUrl(origin: string, businessId: string): (url: string)
    ensures StartsWith(url, origin + WebhookPath)
  {
    origin + WebhookPath + businessId
  }

  /** The business id read back from a webhook address. */
  function WebhookBusinessId(origin: string, url: string): Option<string> {
    var prefix := origin + WebhookPath;
    if StartsWith(url, prefix) then Some(url[|prefix|..]) else None
  }

  /** The address names its business: reading the id back gives it, so two
      businesses never share a webhook. */
  lemma WebhookNamesBusiness(origin: string, businessId: string, otherId: string)
    ensures WebhookBusinessId(origin, WebhookUrl(origin, businessId)) == Some(businessId)
    ensures WebhookUrl(origin, businessId) == WebhookUrl(origin, otherId) ==> businessId == otherId
  {
    var prefix := origin + WebhookPath;
    assert WebhookUrl(origin, businessId)[|prefix|..] == businessId;
    assert WebhookUrl(origin, otherId)[|prefix|..] == otherId;
  }

  /** The figures over the listed conversations. */
  datatype TelegramStats = TelegramStats(totalMessages: nat, bookingsCreated: nat, responseRate: nat)

  function Stats(ms: seq<TelegramMessage>): (s: TelegramStats)
    ensures s.totalMessages == |ms| && s.bookingsCreated <= s.totalMessages
    ensures s.responseRate == 100 <==> ms != []
    ensures s.responseRate == 0 <==> ms == []
  {
    TelegramStats(|ms|, Count(ms, Booked), if |ms| > 0 then 100 else 0)
  }

  /** A conversation that ended in a booking. */
  predicate Booked(m: TelegramMessage) {
    m.bookingCreated
  }

  /** `bookingsCreated` counts exactly the conversations marked
      `booking_created`: none for no conversations, and each further
      conversation adds one exactly when it is marked. Hence it is zero iff
      none is marked, and the total iff all are. */
  lemma BookingsCreatedCounts(ms: seq<TelegramMessage>, m: TelegramMessage)
    ensures Stats([]).bookingsCreated == 0
    ensures Stats(ms + [m]).bookingsCreated == Stats(ms).bookingsCreated + (if m.bookingCreated then 1 else 0)
    ensures Stats(ms).bookingsCreated == 0 <==> forall x :: x in ms ==> !x.bookingCreated
    ensures (forall x :: x in ms ==> x.bookingCreated) ==> Stats(ms).bookingsCreated == |ms|
  {
    FilterConcat(ms, [m], Booked);
    assert Filter([m], Booked) == (if m.bookingCreated then [m] else []);
    forall x | x in ms ensures x.bookingCreated ==> x in Filter(ms, Booked) {
      FilterMembers(ms, Booked, x);
    }
    var f := Filter(ms, Booked);
    if f != [] {
      assert f[0] in f;
      FilterMembers(ms, Booked, f[0]);
    }
    if forall x :: x in ms ==> x.bookingCreated {
      FilterAll(ms, Booked);
    }
  }

  class TelegramPanel {
    var botToken: string
    var botUsername: string
    var isConnected: bool
    var webhookUrl: string
    var messages: seq<TelegramMessage>

    /** A connected bot always has a token and a username. */
    predicate Valid()
      reads this
    {
      isConnected ==> botToken != "" && botUsername != ""
    }

    /** The panel opens connected, with a placeholder bot. */
    constructor()
      ensures Valid()
      ensures botToken == InitialToken && botUsername == InitialUsername && isConnected
      ensures webhookUrl == "" && messages == []
    {
      botToken := InitialToken;
      botUsername := InitialUsername;
      isConnected := true;
      webhookUrl := "";
      messages := [];
    }

    /** The token field; it is only shown while not connected. */
    method EditToken(text: string)
      requires Valid() && !isConnected
      modifies this`botToken
      ensures Valid() && botToken == text
    {
      botToken := text;
    }

    /** The username field; it is only shown while not connected. */
    method EditUsername(text: string)
      requires Valid() && !isConnected
      modifies this`botUsername
      ensures Valid() && botUsername == text
    {
      botUsername := text;
    }

    /** `handleConnectBot`: with an empty token or username nothing
        changes (an alert is shown); otherwise the panel is connected. */
    method ConnectBot() returns (accepted: bool)
      requires Valid()
      modifies this`isConnected
      ensures Valid()
      ensures accepted <==> botToken != "" && botUsername != ""
      ensures isConnected == (accepted || old(isConnected))
    {
      if botToken == "" || botUsername == "" {
        return false;
      }
      isConnected := true;
      accepted := true;
    }

    /** `handleDisconnectBot`: not connected, token and username cleared. */
    method DisconnectBot()
      modifies this`isConnected, this`botToken, this`botUsername
      ensures Valid()
      ensures !isConnected && botToken == "" && botUsername == ""
    {
      isConnected := false;
      botToken := "";
      botUsername := "";
    }

    /** The effect on the current business: with a business, the webhook
        address is its address under `origin`; without one it is kept. */
    method OnBusinessChanged(origin: string, current: Option<Business>)
      modifies this`webhookUrl
      ensures current.Some? ==> webhookUrl == WebhookUrl(origin, current.value.id)
      ensures current.None? ==> webhookUrl == old(webhookUrl)
    {
      if current.Some? {
        webhookUrl := WebhookUrl(origin, current.value.id);
      }
    }
  }

  /** After a disconnect, connecting again is refused until both the token
      and the username are entered anew. */
  method ReconnectNeedsBoth(panel: TelegramPanel, token: string)
    requires panel.Valid()
    modifies panel
    ensures panel.Valid() && !panel.isConnected && panel.botToken == token && panel.botUsername == ""
  {
    panel.DisconnectBot();
    panel.EditToken(token);
    var accepted := panel.ConnectBot();
    assert !accepted;
  }
}
