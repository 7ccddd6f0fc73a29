/**
 * `handle_message`: the per-message routing between the FAQ and the hosted
 * model, and the per-user session store it updates.
 */
module Router {
  import opened Wrappers
  import opened Text
  import opened Faq
  import opened Provider

  type UserId = int

  /** The placeholder reply assigned first on main.py line 84. */
  const DefaultReply := "Извините, я не понимаю ваш запрос. Пожалуйста, уточните вопрос."

  /** What one message leads to: the reply, the provider call made (None when
      the FAQ answered) and the session id stored afterwards. */
  datatype Outcome = Outcome(reply: string, call: Option<Call>, session: Option<string>)

  /** The routing rule for a raw message `text` and the session id stored for
      its user before the message. */
  function Route(faq: seq<Entry>, text: string, stored: Option<string>, provider: Call -> Response): (o: Outcome)
    ensures o.call.None? <==> Lookup(faq, Lower(text)).Some?
    ensures o.call.None? ==> Lookup(faq, Lower(text)) == Some(o.reply) && o.session == stored
    ensures o.call.Some? ==> o.call.value.prompt == Lower(text)
    ensures o.session != stored ==> Truthy(o.session)
  {
    var message := Lower(text);
    match Lookup(faq, message)
    case Some(answer) => Outcome(answer, None, stored)
    case None =>
      var (reply, next) := GetQwenResponse(message, stored, provider);
      Outcome(reply, Some(MakeCall(message, stored)), if Truthy(next) then next else stored)
  }

  /** An FAQ hit answers from the FAQ, calls no provider and keeps the session. */
  lemma FaqHitKeepsSession(faq: seq<Entry>, text: string, stored: Option<string>, provider: Call -> Response)
    requires exists j :: 0 <= j < |faq| && Matches(Lower(text), faq[j])
    ensures var o := Route(faq, text, stored, provider);
            o.call == None && o.session == stored &&
            o.reply == faq[FirstMatch(faq, Lower(text)).value].answer
  {
  }

  /** With an empty FAQ list every message goes to the provider. */
  lemma EmptyFaqCallsProvider(text: string, stored: Option<string>, provider: Call -> Response)
    ensures Route([], text, stored, provider).call == Some(MakeCall(Lower(text), stored))
  {
  }

  /** On a miss the provider receives the LOWER-CASED message and the stored
      session id (only when it is truthy). */
  lemma MissCallsProvider(faq: seq<Entry>, text: string, stored: Option<string>, provider: Call -> Response)
    requires forall j :: 0 <= j < |faq| ==> !Matches(Lower(text), faq[j])
    ensures var o := Route(faq, text, stored, provider);
            o.call.Some? && o.call.value.prompt == Lower(text) &&
            (o.call.value.sessionId.Some? <==> Truthy(stored)) &&
            (Truthy(stored) ==> o.call.value.sessionId == stored) &&
            o.reply == Unpack(provider(o.call.value)).0
  {
  }

  /** The stored session changes only when the provider was called, answered
      OK and returned a truthy id, which then becomes the stored one. */
  lemma SessionChangesOnlyOnNewId(faq: seq<Entry>, text: string, stored: Option<string>, provider: Call -> Response)
    ensures var o := Route(faq, text, stored, provider);
            o.session != stored ==>
              o.call.Some? &&
              provider(o.call.value).statusCode == HttpOk &&
              Truthy(provider(o.call.value).sessionId) &&
              o.session == provider(o.call.value).sessionId
  {
  }

  /** A provider failure gives exactly the apology and never clears or
      overwrites the stored session. */
  lemma FailureKeepsSession(faq: seq<Entry>, text: string, stored: Option<string>, provider: Call -> Response)
    ensures var o := Route(faq, text, stored, provider);
            o.call.Some? && provider(o.call.value).statusCode != HttpOk ==>
              o.reply == ApiErrorMessage && o.session == stored
  {
  }

  /** The session state machine only moves forward: NEW -> ACTIVE, and an
      ACTIVE conversation stays ACTIVE with a truthy id. */
  lemma SessionNeverLost(faq: seq<Entry>, text: string, stored: Option<string>, provider: Call -> Response)
    requires stored.Some? ==> Truthy(stored)
    ensures var o := Route(faq, text, stored, provider);
            (o.session.Some? ==> Truthy(o.session)) &&
            (stored.Some? ==> o.session.Some?)
  {
  }

  /** The placeholder of line 84 is always overwritten: the reply is an FAQ
      answer, the apology, the provider's text, or empty. */
  lemma ReplyOrigin(faq: seq<Entry>, text: string, stored: Option<string>, provider: Call -> Response)
    ensures var o := Route(faq, text, stored, provider);
            (exists j :: 0 <= j < |faq| && o.reply == faq[j].answer) ||
            o.reply == ApiErrorMessage || o.reply == "" ||
            (o.call.Some? && provider(o.call.value).text == Some(o.reply))
  {
  }

  /** Hence the placeholder is never the reply unless the FAQ or the provider
      supplies that very text. */
  lemma DefaultNeverReplied(faq: seq<Entry>, text: string, stored: Option<string>, provider: Call -> Response)
    requires forall j :: 0 <= j < |faq| ==> faq[j].answer != DefaultReply
    requires var o := Route(faq, text, stored, provider);
             o.call.Some? ==> provider(o.call.value).text != Some(DefaultReply)
    ensures Route(faq, text, stored, provider).reply != DefaultReply
  {
    ReplyOrigin(faq, text, stored, provider);
  }

  /** A new session id returned for one message is what the next message of
      the same user passes to the provider. */
  lemma NextMessageUsesNewSession(faq: seq<Entry>, first: string, second: string, stored: Option<string>, provider: Call -> Response)
    requires var o := Route(faq, first, stored, provider);
             o.call.Some? && provider(o.call.value).statusCode == HttpOk &&
             Truthy(provider(o.call.value).sessionId)
    requires forall j :: 0 <= j < |faq| ==> !Matches(Lower(second), faq[j])
    ensures var o := Route(faq, first, stored, provider);
            Route(faq, second, o.session, provider).call ==
              Some(Call(Lower(second), provider(o.call.value).sessionId))
  {
  }

  /** The per-user state `context.user_data`, reduced to the one key the bot
      uses, "session_id", and the FAQ list loaded at start-up. */
  class Bot {
    const faq: seq<Entry>
    var userData: map<UserId, string>

    /** Only truthy ids are ever written to the store. */
    ghost predicate Valid()
      reads this
    {
      forall u :: u in userData ==> userData[u] != ""
    }

    /** `context.user_data.get("session_id", None)`. */
    function StoredSession(user: UserId): Option<string>
      reads this
    {
      if user in userData then Some(userData[user]) else None
    }

    constructor (faq: seq<Entry>)
      ensures Valid()
      ensures this.faq == faq && userData == map[]
    {
      this.faq := faq;
      userData := map[];
    }

    /** `handle_message` for one text message of `user`: returns the reply sent
        back and the provider call made, and updates the user's session id. */
    method HandleMessage(user: UserId, text: string, provider: Call -> Response) returns (reply: string, call: Option<Call>)
      requires Valid()
      modifies this
      ensures Valid()
      ensures var o := Route(faq, text, old(StoredSession(user)), provider);
              reply == o.reply && call == o.call && StoredSession(user) == o.session
      ensures forall u :: u != user ==> StoredSession(u) == old(StoredSession(u))
      ensures userData.Keys <= old(userData.Keys) + {user}
    {
      var message := Lower(text);
      reply := DefaultReply;
      var sessionId := StoredSession(user);
      var answer := FindAnswer(faq, message);
      if answer.Some? {
        reply := answer.value;
        call := None;
      } else {
        call := Some(MakeCall(message, sessionId));
        var result := Unpack(provider(call.value));
        reply := result.0;
        if Truthy(result.1) {
          userData := userData[user := result.1.value];
        }
      }
    }
  }
}
