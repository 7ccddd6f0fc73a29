# Message routing of the Belarusian Union of Designers Telegram bot

A Dafny model of the one piece of logic in `main.py`: how a text message is
answered. The lower-cased message is looked up in the FAQ list in load order.
The first entry whose lower-cased question contains the message supplies the
answer. When no entry matches, the message goes to the hosted model
(DashScope `Application.call`). The model's response is reduced to a reply
text and an optional next session id, and the per-user session store is
overwritten only when that id is truthy. The model also covers the checks and
the URL construction of `set_webhook`.

Modules:

- `Text` (text.dfy): `str.lower()` for Latin and Cyrillic capitals, and
  Python's `needle in haystack` on strings, with its position-based reading.
- `Faq` (faq.dfy): FAQ entries, the first-match specification `FirstMatch`
  and `Lookup`, and the loop of `handle_message` as `FindAnswer`.
- `Provider` (provider.dfy): the arguments of the provider call and the
  reduction of its response (`get_qwen_response`). The provider is a value
  of type `Call -> Response`.
- `Router` (router.dfy): the routing rule `Route`, its properties, and the
  class `Bot` whose `HandleMessage` updates the session store `userData`
  (`context.user_data["session_id"]` per user).
- `Webhook` (webhook.dfy): the error checks and the target URL of
  `set_webhook`.
- `Scenarios` (scenarios.dfy): concrete conversations.

Note the direction of the FAQ test: the code
(`user_message in faq["question"].lower()`, main.py line 89) asks whether the
lower-cased question contains the message, not the reverse. So an empty
message is answered by the first entry (`Faq.EmptyMessageHitsFirstEntry`). A
message longer than every question is never answered from the FAQ
(`Faq.LongMessageNeverMatches`), and "Здравствуйте, как оплатить взнос?" is
not answered by the entry "как оплатить"
(`Scenarios.ContainingQuestionNotAnswered`).

The accepted `RENDER_EXTERNAL_URL` already starts with `https://`, and the
code prefixes `https://` again. So every registered target starts with
`https://https://` (`Webhook.DoubledScheme`). The model keeps this
behaviour as written.

## Model

| member | source | states |
|---|---|---|
| Text.LowerChar | main.py:83 | the lower-case form of a character is not an upper-case letter, and a character that is not an upper-case letter is kept |
| Text.Lower | main.py:83 | `lower()` keeps the length and lower-cases each character at its own position |
| Text.LowerIsLower | main.py:89 | lowered text is lower-case, lower-case text is unchanged by lowering, and lowering twice equals lowering once |
| Text.SubstringAt | main.py:89 | `needle in haystack` holds exactly when the needle is a prefix of the haystack from some position on (both directions) |
| Text.IsSubstring | main.py:89 | Python's `needle in haystack`: the empty string is in every string, and a needle in a haystack is no longer than it |
| Faq.Matches | main.py:89 | the lower-cased message is looked for inside the lower-cased question: an empty message matches every entry, and a matching message is no longer than the question |
| Faq.FirstMatch | main.py:88-91 | the index found holds a matching entry and no earlier entry matches; no index is found exactly when no entry matches |
| Faq.Lookup | main.py:88-91 | an answer is found exactly when some entry matches, and it is the answer of a matching entry with no matching entry before it |
| Faq.FindAnswer | main.py:88-91 | the `for ... break` loop returns the lookup's answer, and returns one exactly when some entry matches |
| Faq.FirstMatchWins | main.py:88-91 | whenever an entry matches, the answer is that of the first matching entry at or before it |
| Faq.LaterEntriesIgnored | main.py:88-91 | once an entry matches, entries appended after the list never change the match or the answer |
| Faq.UnmatchedPrefixSkipped | main.py:88-91 | entries that do not match are passed over: the match is found in what follows them, at an index shifted by their number |
| Faq.UnmatchedPrefixSameAnswer | main.py:88-91 | after entries that do not match, the answer is the one the following entries alone give |
| Faq.EmptyMessageHitsFirstEntry | main.py:89 | because the message is the needle, an empty message is answered by the first entry |
| Faq.LongMessageNeverMatches | main.py:89 | a message longer than every question is never answered from the FAQ |
| Provider.MakeCall | main.py:59-62 | the prompt is the message, and the session id is passed exactly when it is truthy |
| Provider.Unpack | main.py:64-73 | a non-OK status gives the fixed apology and no session; a session id only comes from an OK status, unchanged; an OK reply is the text, or empty exactly when the text is missing or empty |
| Provider.GetQwenResponse | main.py:57-73 | whatever session it was given, a non-OK status yields the apology and no session; an OK response yields its session id unchanged, its text as the reply, and `""` exactly when the text is missing or empty |
| Router.Route | main.py:83-96 | the provider is called exactly when the FAQ has no answer for the lower-cased message; an FAQ answer is the reply and keeps the session; a call carries the lower-cased message; a changed session is always a truthy id |
| Router.EmptyFaqCallsProvider | main.py:88-94 | with an empty FAQ list every message goes to the provider, with the lower-cased message and the stored session |
| Router.FaqHitKeepsSession | main.py:88-91 | an FAQ hit replies with the first matching answer, makes no provider call and keeps the stored session |
| Router.MissCallsProvider | main.py:83-94 | on a miss the provider receives the lower-cased message, plus the stored session id exactly when it is truthy, and the reply is the unpacked response |
| Router.SessionChangesOnlyOnNewId | main.py:94-96 | the stored session changes only after an OK response with a truthy id, which becomes the stored id |
| Router.FailureKeepsSession | main.py:94-96 | a non-OK response replies with the apology and leaves the stored session as it was |
| Router.SessionNeverLost | main.py:94-96 | a stored session is never cleared, and only truthy ids are ever stored |
| Router.ReplyOrigin | main.py:84-94 | the reply is an FAQ answer, the apology, the provider's text or empty, never just the placeholder |
| Router.DefaultNeverReplied | main.py:84-94 | when no FAQ answer is the placeholder text and the provider call actually made does not return it, the placeholder is never the reply |
| Router.NextMessageUsesNewSession | main.py:85-96 | a new id stored for one message is the session id the user's next provider call carries |
| Router.Bot.HandleMessage | main.py:82-98 | the reply and the call follow the routing rule, the user's stored session becomes the rule's session, other users' sessions stay unchanged, and only truthy ids are stored |
| Webhook.WebhookUrl | main.py:113-125 | an uninitialised application raises; with one, the value is accepted exactly when it is set and starts with `https://`, and the target is then exactly `https://` + value + `/webhook` |
| Webhook.RenderUrlRoundTrip | main.py:125 | the value is recovered from the target by removing the added scheme and `/webhook`, which the target ends with |
| Webhook.DoubledScheme | main.py:120-125 | every accepted value gives a target starting with `https://https://` |
| Webhook.WebhookUrlInjective | main.py:125 | different accepted values give different targets |
| Scenarios.PartOfQuestionAnswered | main.py:83-91 | "Как оплатить" is answered "Оплата через сайт." with no call and no session change |
| Scenarios.ContainingQuestionNotAnswered | main.py:83-91 | "Здравствуйте, как оплатить взнос?" is not answered by the entry "как оплатить" |
| Scenarios.ModelAnswerStored | main.py:64-73 | an OK response with text "Ответ модели" and id "abc" gives that reply and stores "abc" |
| Scenarios.ErrorKeepsStored | main.py:64-69 | a non-OK status replies with the apology and keeps the stored session |

## Left out

- The Flask `/webhook` endpoint, `Update.de_json` and its always-200 answer (main.py:45-54): HTTP input and output.
- `ApplicationBuilder`, handler registration, `start`, `error_handler` and `reply_text` (main.py:76-79, 98, 101-110): framework wiring. `HandleMessage` returns the reply instead of sending it.
- The `delete_webhook`/`set_webhook` network calls and their logging (main.py:127-133): network. `WebhookUrl` stops at the URL.
- The secret token (main.py:124, 129): it is passed to Telegram with the webhook, and the `/webhook` endpoint never checks it; both are network glue.
- `application` is bound only inside `main()` (main.py:102-103), so calling `set_webhook` before `main()` raises `NameError` at line 115 rather than the `ValueError` of line 117. The model's `NotInitialized` stands for the failure in both cases.
- The transport of `Application.call` and the error logging (main.py:60-62, 65-68): the provider is a function parameter from call arguments to a response.
- An exception raised inside `Application.call` (a network failure, say): the provider is a total function, so the model always gets a response. In the source such an exception ends `handle_message` with no reply and no session change, and `error_handler` logs it (main.py:109-110).
- Environment variables, loading `faq.json` and the DashScope globals (main.py:25-39): configuration. The FAQ list is the constructor's argument, the environment value a parameter.
- The Flask thread, `asyncio.run` and process start-up (main.py:136-146): concurrency and bootstrap. Each message is handled as one call of `HandleMessage`.
- Text.Lower: does not model Python's full Unicode `str.lower()`. It lowers only A-Z and the Cyrillic capitals U+0400..U+042F, and it never changes length (Python's can, for a few characters).
- Response values other than strings: `text` and `session_id` are optional strings, so a non-string JSON value in the provider output is not modelled.
