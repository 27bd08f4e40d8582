# WhatsApp support bot: message router

A Dafny model of the message handler of a single-file WhatsApp support bot
(`main.py`, a FastAPI app). The bot answers for one company and its DWANI
student program. It receives webhook deliveries and answers each one with
canned knowledge-base (KB) texts and interactive menus, then returns a status.

The handler is modelled with the HTTP and JSON plumbing removed. It is a pure,
total function, `Router.HandleMessage`. It takes a decoded `Event`, which is
one of these:

- no message;
- an interactive reply, with its type and the selected id;
- a text message, whose body may be absent.

It returns an `Outcome`: the ordered replies and a status. Each reply is
either a KB topic (`Say`, flagged when it goes through the rephrasing step
first) or one of the six interactive payloads (`Show`).

Modules:

- `Strings`: `str.strip()` and `str.lower()`, and the normalisation they make up.
- `Kb`: the knowledge-base keys, dictionary lookup, and the eight alias sets.
- `Payloads`: the six interactive messages and the option ids each one offers.
- `Router`: the interactive-id chain, the id-to-key table, the alias dispatch
  on text, and the handler.
- `RouterProperties`: properties of the router. These include disjoint alias
  sets, order independence of the alias checks, the replies of each branch,
  and closure: every offered option is answered with real content.
- `Delivery`: turns replies into transport messages, with the fail-open
  rephrasing step.
- `Webhook`: the subscription handshake.

What the code does:

- The router keeps no per-user state. The numbers `2` and `3` are the only
  numeric shortcuts, and they mean the same at every point of a conversation.
- Text is matched by whole-string equality after strip and lower-case.
  Internal whitespace is not collapsed, and a text that merely contains an
  alias does not match it.
- Only the `menu`, `dwani_intro`, `services` and `apply` alias sets are
  consulted. Typing `about`, `1`, `4` or `5` gets the fallback.
- The fallback is the rephrased out-of-scope text followed by the main menu.
- An unknown interactive id gets the out-of-scope text alone. It is not
  rephrased and no menu follows.
- An interactive reply of an unsupported type gets no reply at all.
- The `dwani_intro` KB text is never sent (`RouterProperties.NeverSent`).
  Selecting DWANI shows the DWANI buttons instead.
- `get_apply_button_payload` (main.py:236) is defined but never called, so
  the apply-button payload is never sent.

## Model

| member | source | states |
|---|---|---|
| Strings.TrimStart | main.py:364 | the leading-whitespace half of `strip()`: the result is the suffix of the input that starts at its first non-space character, and everything dropped is whitespace |
| Strings.TrimEnd | main.py:364 | the trailing half of `strip()`: the result is a prefix of the input that ends at its last non-space character, and everything dropped is whitespace |
| Strings.Strip | main.py:364 | `strip()` returns an infix of the input with no whitespace at either end; only whitespace (Python's `isspace` set) is removed around it |
| Strings.Lower | main.py:364 | `lower()` keeps the length; each ASCII capital becomes its own lower-case letter and the KELVIN SIGN becomes `k`; every other character, whitespace included, stays as it was; no capital is left |
| Strings.Normalize | main.py:364 | the normalised text is the lower-cased input with exactly its surrounding whitespace removed: an infix of `Lower(s)` with only whitespace around it and none at its ends; it has no capitals and is never longer than the input |
| Strings.StripPadding | main.py:364 | whitespace added on either side of a text does not change what `strip()` returns |
| Strings.NormalizeIdempotent | main.py:364 | normalising a normalised text changes nothing |
| Strings.NormalizePadding | main.py:364 | surrounding whitespace is invisible to the normalisation |
| Strings.NormalizeIgnoresCase | main.py:364 | two texts equal up to letter case normalise alike (strip and lower-case commute) |
| Strings.StripLower | main.py:364 | stripping then lower-casing equals lower-casing then stripping |
| Strings.LowerIdempotent | main.py:364 | lower-casing twice is lower-casing once |
| Kb.Lookup | main.py:25-76 | the dictionary has exactly the eight keys `about` ... `oos`; a found topic is filed under the key looked up |
| Kb.At | main.py:338 | `KB[key]` for a present key yields the topic filed under that key |
| Kb.GetOrOutOfScope | main.py:351-353 | `KB.get(key, KB["oos"])`: the topic under a present key, the out-of-scope answer for an absent one |
| Kb.KeyRoundTrip | main.py:25-76 | every topic's key is in the dictionary and looks up to that topic |
| Payloads.OptionIds | main.py:140-436 | each of the six messages offers at least one option, at most ten list rows or three buttons, and only ids among the eleven listed |
| Payloads.AllOptionIdsExact | main.py:140-436 | the set of ids offered by the six payloads is exactly the eleven ids listed |
| Payloads.OptionIdsDistinct | main.py:140-436 | no payload offers the same id twice |
| Router.RouteId | main.py:325-358 | an interactive id gets one or two replies; the reply is exactly the unrephrased out-of-scope text if and only if the id is neither in the if/elif chain nor in the mapping table; a handled id never gets the out-of-scope text |
| Router.Dispatch | main.py:367-386 | a normalised text selects a branch only if it is one of that branch's aliases, and falls back exactly when it is in none of the four consulted sets |
| Router.TextReplies | main.py:367-394 | each text branch sends one or two messages; the out-of-scope text is among them exactly on the fallback, and the main menu exactly on the greeting and the fallback |
| Router.RouteText | main.py:363-394 | every text, including a missing body, gets one or two replies |
| Router.HandleMessage | main.py:307-399 | status `no_message` exactly for an empty message list; `unsupported_interactive_type` exactly for an interactive reply that is neither `list_reply` nor `button_reply`; no replies exactly when the status is not `ok`; at most two replies |
| RouterProperties.AliasSetsDisjoint | main.py:81-87 | the `menu`, `dwani_intro` (with `3`), `services` (with `2`) and `apply` alias sets are pairwise disjoint |
| RouterProperties.DispatchSelects | main.py:367-386 | a normalised text selects a branch if and only if it is one of that branch's aliases |
| RouterProperties.DispatchOrderIrrelevant | main.py:367-386 | checking the four alias sets in any order that includes them all selects the same branch as the source order |
| RouterProperties.MenuGreeting | main.py:364-369 | a text gets exactly the main menu with status `ok` if and only if its normalisation is `hi`, `hello`, `start` or `menu` |
| RouterProperties.MenuGreetingExample | main.py:364-369 | `MENU` with any whitespace around it opens the main menu |
| RouterProperties.ContainmentIsNotMatch | main.py:364-369 | `Hi there` contains a greeting but is not one, and gets the fallback |
| RouterProperties.TextBranches | main.py:373-386 | a DWANI alias (including `3`) gets the DWANI buttons alone; a services alias (including `2`) gets the rephrased services text then the contact buttons; an apply alias gets the unrephrased apply text alone |
| RouterProperties.FallbackExactly | main.py:388-394 | a text gets the rephrased out-of-scope text then the main menu if and only if its normalisation is in none of the four consulted alias sets |
| RouterProperties.EmptyTextFallsBack | main.py:363-364 | a missing, empty or all-whitespace body gets the fallback |
| RouterProperties.UnconsultedAliasesFallBack | main.py:79-88 | every alias of `about`, `internships`, `certifications` and `contact` gets the fallback |
| RouterProperties.TextRoutingIgnoresPadding | main.py:363-364 | whitespace around a text never changes the reply |
| RouterProperties.TextRoutingIgnoresCase | main.py:363-364 | two texts that differ only in letter case get the same reply |
| RouterProperties.ChainReplies | main.py:325-338 | `main_menu` gets the main menu; `dwani_program` the DWANI buttons; `it_services` the rephrased services text then the contact buttons; `internship_tracks` the internship list; `apply_form` the unrephrased apply text; each with status `ok` |
| RouterProperties.MappingTargetsExist | main.py:343-356 | every key of the mapping table is a KB key, and a mapped id gets its topic's text, rephrased, then the back-to-menu button |
| RouterProperties.NoShadowedMapping | main.py:325-350 | no id of the mapping table is caught earlier by the if/elif chain |
| RouterProperties.OptionsAreAnswered | main.py:325-358 | closure: every offered id is handled, and selecting it as a list or button reply gets status `ok` and a non-empty answer without the out-of-scope text |
| RouterProperties.UnknownIdRefused | main.py:343-358 | an id the chain and the table do not know gets exactly the unrephrased out-of-scope text, with no menu after it |
| RouterProperties.NeverSent | main.py:40-46 | no event makes the bot send the `dwani_intro` text or the apply-button payload |
| RouterProperties.WitnessFor | main.py:325-358 | every other topic has an event that makes the bot send it |
| Delivery.Rephrase | main.py:258-286 | without an API key, or when the call fails, the approved text unchanged; otherwise the service's answer with exactly its surrounding whitespace removed |
| Delivery.RephraseFailsOpen | main.py:258-286 | the text changes only when a key is set and the service answered; an already-trimmed answer is sent as it is; a blank answer is sent as the empty text |
| Delivery.Deliver | main.py:101-134 | one transport message per reply, in order; payloads go out as interactive messages; texts not marked for rephrasing go out as the KB text verbatim; texts marked for it go out as the rephrasing of their topic's KB text |
| Delivery.UnavailableRephrasingIsVerbatim | main.py:262-263 | with no key, or a rephrasing service that always fails, every text sent is its KB entry verbatim |
| Delivery.Respond | main.py:303-399 | status `ok` exactly when something is sent; `no_message` exactly for an empty delivery; an unknown id sends only the out-of-scope KB text |
| Webhook.ConfiguredVerifyToken | main.py:14 | the configured verify token, `verify_me` when the environment has none |
| Webhook.VerifyWebhook | main.py:292-297 | the challenge (0 when absent) is echoed if and only if mode is `subscribe` and the token equals the configured one; otherwise the answer is `Verification failed` |
| Webhook.HandshakeGuard | main.py:295-297 | a missing token or another mode is always refused; with the default configuration only `verify_me` is accepted |

## Left out

- Sending messages (`send_text`, `send_interactive_message`, main.py:101-134) is HTTP. Each call is one `Reply` or `Outgoing` value. The no-op when credentials are missing is not modelled.
- The rephrasing call (main.py:258-286) is a network round trip to a language model. Its answer is a parameter (`Option<string>`, `None` when the call raises). The prompt, model, temperature and token limit are not modelled.
- FastAPI request parsing, and swallowing any exception (main.py:292-294, 303-306, 396-397), are not modelled. The handler takes an already-decoded event. So a malformed delivery is not modelled, for example a `list_reply` without an `id`, which the source turns into status `ok` with no reply.
- The environment settings (main.py:11-20) are not modelled, apart from the verify token's default.
- The text of the KB entries, and the payload headers, bodies, footers and titles (main.py:25-76, 140-252, 402-436), are not modelled. Topics are opaque keys, and `Delivery` takes each topic's text as a parameter.
- `OUT_OF_SCOPE_HINTS` (main.py:91-95) is not modelled. It is defined but never read.
- Strings.Lower: lower-cases only the ASCII capitals and the KELVIN SIGN (U+212A, which Python lower-cases to `k`), and leaves other non-ASCII characters unchanged. Every other non-ASCII character lower-cases to a string that still contains a non-ASCII character, so it can never equal an alias. Which branch a text selects is therefore the same as with Python's `lower()`.
- Webhook.VerifyWebhook: takes the challenge already converted to an integer. When `int()` fails on a non-numeric challenge, the source raises and the framework answers with a server error. That case is not modelled.
