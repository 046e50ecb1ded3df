# Estimate request relay and contact form, in Dafny

This project models the estimate-request path of a small contractor web
site. The path has two parts:

- **The contact page** holds a ten-field estimate form. A submit button is
  enabled only when the required fields are long enough. Its submit handler
  posts the form as JSON and shows a success or error banner.
- **The relay endpoint** (`POST /api/estimate`) runs a fixed chain of guards
  over the posted JSON:
  - a honeypot field;
  - the required fields, the e-mail shape and the phone digits;
  - the presence of four configuration values;
  - the E.164 form of two configured numbers.

  It then builds a ten-line text message and hands it to an SMS provider.
  The provider's answer becomes the endpoint's response.

The model is in four files:

- `wrappers.dfy`: `Option`.
- `text.dfy`: module `Text`. It spells out the JavaScript string operations
  the two files use:
  - ECMAScript whitespace, shared by `trim` and `\s`;
  - `trim`;
  - `replace(/\s+/g, " ")`;
  - the `\D` digit filter;
  - `join` on a single character, with `Split` as its inverse. The source
    never splits; `Split` is the model's own way to read the message back;
  - the UTF-16 `.length`.
- `relay.dfy`: module `Relay`. The endpoint is one function, `Handle`, from a
  parsed body, the four configuration values and the provider's reply to a
  response and the message sent. Internally:
  - `Decide` runs the parse and honeypot steps;
  - `Check` runs the guards on the cleaned request;
  - `ProviderResponse` turns the provider's reply into the response.
- `contact.dfy`: module `Contact`.
  - The form, `InitialForm` and `CanSubmit`.
  - The single-field updaters.
  - The submit handler, as the class `ContactPage`. Its four fields are the
    page's four state cells. Each of its methods is proved against a function
    on a `PageState` value: `AfterBegin`, `AfterReply` and `AfterSubmit`.
  - `ToPayload` and `ReplyOf` connect the page to the relay, so that lemmas
    can state what the page shows for each answer of the relay.

Whitespace is the ECMAScript WhiteSpace and LineTerminator set:

- U+0009–U+000D and U+0020;
- U+00A0, U+1680, U+2000–U+200A and U+2028–U+2029;
- U+202F, U+205F, U+3000 and U+FEFF.

A JSON property is `Absent`, `Null`, a string `Str`, or `Other` (any other
JSON value). This keeps `clean`'s "non-string becomes empty" and `??`'s
"only `undefined`/`null` fall back" apart. A configuration value counts as
missing when it is absent or empty, as JavaScript's truthiness test treats
it.

## Model

| member | source | states |
|---|---|---|
| Text.Trim | app/api/estimate/route.ts:20 | `trim` leaves no whitespace at either end and never lengthens the string |
| Text.IsSpace | app/api/estimate/route.ts:20 | the ECMAScript WhiteSpace and LineTerminator code points, which both `trim` and `\s` use; `TrimStartSpec`, `TrimEndSpec` and `CollapseSpacesSingleSpaced` state what the two operations do with them |
| Text.TrimStartSpec | app/api/estimate/route.ts:20 | the leading part `trim` removes is all whitespace, and what remains starts with a non-space |
| Text.TrimEndSpec | app/api/estimate/route.ts:20 | the trailing part `trim` removes is all whitespace, and what remains ends with a non-space |
| Text.TrimSlice | app/api/estimate/route.ts:20 | the trimmed string is the slice of the input between a whitespace prefix and a whitespace suffix |
| Text.TrimUnique | app/api/estimate/route.ts:20 | any such slice with no whitespace at its ends is the trimmed string, so `trim` is determined by that property |
| Text.TrimIdempotent | app/api/estimate/route.ts:20 | trimming twice is trimming once |
| Text.TrimEmptyIffAllSpace | app/api/estimate/route.ts:20 | `trim` yields the empty string exactly when the input is all whitespace |
| Text.TrimNonSpace | app/api/estimate/route.ts:20 | `trim` removes whitespace only: the non-whitespace characters are kept in order |
| Text.CollapseSpaces | app/api/estimate/route.ts:103 | `replace(/\s+/g, " ")`, never longer than its input; its value is pinned by `CollapseSpacesRun` and `CollapseNoSpace`, and its shape by `CollapseSpacesSingleSpaced` and `CollapseSpacesNonSpace` |
| Text.CollapseSpacesNonSpace | app/api/estimate/route.ts:103 | `replace(/\s+/g, " ")` keeps every non-whitespace character in order |
| Text.CollapseSpacesSingleSpaced | app/api/estimate/route.ts:103 | after the replacement, whitespace appears only as single plain spaces |
| Text.CollapseSingleSpaced | app/api/estimate/route.ts:103 | the replacement leaves a single-spaced string unchanged, so applying it twice is applying it once |
| Text.CollapseSpacesRun | app/api/estimate/route.ts:103 | where the spaces go: a whitespace run between a part ending in a non-space and a part starting with one becomes exactly one space, and each part is replaced on its own |
| Text.CollapseSpacesLast | app/api/estimate/route.ts:103 | a final non-space character stays the last character after the replacement |
| Text.CollapseNoSpace | app/api/estimate/route.ts:103 | a string without whitespace is left unchanged by the replacement |
| Text.TrimStartAppend | app/api/estimate/route.ts:20 | `trimStart` of `x + y` strips from `x` only, when `x` ends in a non-space |
| Text.TrimJoin | app/api/estimate/route.ts:103 | `trim` of two parts joined by one space, with no whitespace at the seam, is the two trimmed parts joined by that space |
| Text.KeepDigits | app/api/estimate/route.ts:28 | `replace(/\D/g, "")` yields only ASCII digits; with `KeepDigitsOfDigits`, `KeepDigitsOfNonDigits` and `KeepDigitsAppend` its value is pinned |
| Text.KeepDigitsAppend | app/api/estimate/route.ts:28 | the digit filter distributes over concatenation |
| Text.KeepDigitsOfDigits | app/api/estimate/route.ts:28 | a string of digits passes the filter unchanged |
| Text.KeepDigitsOfNonDigits | app/api/estimate/route.ts:28 | a string with no digit filters to the empty string: every non-digit is dropped |
| Text.KeepDigitsCount | app/api/estimate/route.ts:28 | the filtered string has exactly one character per digit position of the input |
| Text.Utf16Length | app/contact/page.tsx:43-49 | `.length` counts one or two UTF-16 code units per character, so it lies between the character count and twice it |
| Text.SplitJoin | app/api/estimate/route.ts:93-104 | splitting `lines.join(sep)` on `sep` gives back the lines when none contains `sep` |
| Relay.Clean | app/api/estimate/route.ts:18-21 | a cleaned value has no whitespace at either end, and any non-string cleans to `""` |
| Relay.CleanString | app/api/estimate/route.ts:18-21 | cleaning a string removes only whitespace, and gives `""` exactly when the string is all whitespace |
| Relay.CleanIdempotent | app/api/estimate/route.ts:18-21 | `clean(clean(x)) == clean(x)` |
| Relay.CleanRequest | app/api/estimate/route.ts:49-57 | all nine cleaned fields are trimmed |
| Relay.ChoiceDefaults | app/api/estimate/route.ts:55-56 | contact preference and site visit become `phone`/`unsure` only when absent or `null`; a string, even `""`, is kept as cleaned; any other JSON value is kept by `??` and then cleaned to `""` |
| Relay.OrDefault | app/api/estimate/route.ts:55-56 | `??`: replaces only a missing or `null` value; `ChoiceDefaults` states all four cases of the two choices |
| Relay.CleanTrimmed | app/api/estimate/route.ts:49-57 | a payload whose text fields are already trimmed cleans to those same strings |
| Relay.RequiredIgnoresChoices | app/api/estimate/route.ts:59-64 | the required-field check does not look at the two choice fields, so an empty choice is never rejected |
| Relay.ValidEmail | app/api/estimate/route.ts:23-25 | `validEmail`: some split into local part, domain and suffix fits the pattern; `ValidEmailIff` gives both directions of its plain-word reading |
| Relay.ValidEmailIff | app/api/estimate/route.ts:23-25 | the e-mail pattern holds exactly when there is no whitespace, exactly one `@`, text before it, and after it a dot with text on both sides |
| Relay.ValidPhone | app/api/estimate/route.ts:27-30 | `validPhone`: at least ten digits once the non-digits are dropped; `ValidPhoneIff` gives both directions |
| Relay.ValidPhoneIff | app/api/estimate/route.ts:27-30 | a phone number is valid exactly when at least ten of its positions hold a character `0`..`9` |
| Relay.ValidPhoneInsert | app/api/estimate/route.ts:27-30 | inserting characters anywhere never turns a valid phone number invalid |
| Relay.ValidE164 | app/api/estimate/route.ts:32-34 | `validE164`: `+`, a digit `1`..`9`, then 7 to 14 digits; `ValidE164Iff` and `ValidE164Bounds` characterise it |
| Relay.ValidE164Iff | app/api/estimate/route.ts:32-34 | the E.164 pattern holds exactly when the string is `+` then only digits, 8 to 15 of them, the first not `0` |
| Relay.ValidE164Bounds | app/api/estimate/route.ts:32-34 | an accepted number is 9 to 16 characters long with 8 to 15 digits |
| Relay.DetailsText | app/api/estimate/route.ts:103 | the details line, collapsed then trimmed; `DetailsTextShape`, `DetailsTextRun` and `DetailsTextOfWord` characterise it |
| Relay.DetailsTextShape | app/api/estimate/route.ts:103 | the details line is trimmed, single-spaced and has no line break, and it keeps every non-whitespace character of the details in order |
| Relay.DetailsTextRun | app/api/estimate/route.ts:103 | a whitespace run between two non-empty parts, the first ending and the second starting in a non-space, becomes exactly one space between the two normalised parts |
| Relay.DetailsTextOfWord | app/api/estimate/route.ts:103 | details without whitespace are forwarded unchanged |
| Relay.MessageText | app/api/estimate/route.ts:93-104 | the ten labelled lines joined by line breaks; `MessageSplitsIntoLines` and `MessageMentionsEveryField` state what it holds |
| Relay.MessageSplitsIntoLines | app/api/estimate/route.ts:93-104 | the message reads back as exactly ten lines: the heading first, then the labelled fields, with the collapsed details last, provided the other fields hold no line break |
| Relay.MessageMentionsEveryField | app/api/estimate/route.ts:93-104 | every cleaned field and the collapsed details occur in the message |
| Relay.Handle | app/api/estimate/route.ts:36-134 | status is 200, 400, 500 or 502, with a `message` body exactly on 200. Spam gets 200 "Request received." with no send. A text is sent exactly when the input is valid and the configuration is ready, and it carries the configured credentials and numbers and the built message. A body that is not JSON gets 400 "Invalid request payload."; a failed guard gets exactly the response `Check` gives, whose error text per guard `CheckOrder` fixes. Among the modelled replies, 400 means unparsable or invalid input, 500 means valid input with bad configuration, and 502 means the provider refused, with its message or the fallback |
| Relay.Decide | app/api/estimate/route.ts:39-47 | the parse and honeypot steps before the guards; `Handle` states their 400 and spam answers |
| Relay.Check | app/api/estimate/route.ts:59-91 | on a cleaned request the guards send exactly when all pass. Otherwise the answer is an error: 400 exactly for invalid input, 500 exactly for valid input with bad configuration |
| Relay.CheckOrder | app/api/estimate/route.ts:59-91 | each error message is given exactly when its check is the first one to fail, in the order required fields, e-mail, phone, configuration present, E.164 numbers |
| Relay.ProviderResponse | app/api/estimate/route.ts:123-134 | the provider's success gives 200; its failure gives 502 with its `message` if any, else "Could not send estimate text message." |
| Relay.HoneypotDominates | app/api/estimate/route.ts:45-47 | with the honeypot filled, the outcome is the same whatever the other fields, the configuration and the provider reply, and nothing is sent |
| Relay.BlankHoneypotIgnored | app/api/estimate/route.ts:45-47 | a whitespace-only honeypot is handled exactly as an absent one |
| Relay.IsSpam | app/api/estimate/route.ts:45 | the honeypot test: `website` cleans to something non-empty; `HoneypotDominates` and `BlankHoneypotIgnored` state its effect |
| Relay.ClientErrorIgnoresConfig | app/api/estimate/route.ts:59-79 | a 400 is decided before the configuration or the provider is consulted |
| Relay.ReplyMattersOnlyAfterSend | app/api/estimate/route.ts:106-134 | when nothing is sent, the provider reply cannot change the outcome |
| Relay.AcceptedIsSent | app/api/estimate/route.ts:86-134 | a request passing every guard, accepted by the provider, is sent and answered 200 "Your request was sent. We will contact you soon." |
| Relay.ExampleRequestIsSent | app/api/estimate/route.ts:36-134 | a concrete well-formed request with working configuration is sent and answered with success |
| Contact.ContactValue | app/contact/page.tsx:6 | each contact method is sent as a non-empty trimmed string |
| Contact.VisitValue | app/contact/page.tsx:7 | each site-visit answer is sent as a non-empty trimmed string |
| Contact.InitialForm | app/contact/page.tsx:22-33 | `INITIAL_FORM`: every text field empty, contact by phone, site visit unsure; `InitialFormDefaults` and `InitialFormBlocked` state its properties |
| Contact.InitialFormDefaults | app/contact/page.tsx:22-33 | the initial form has every text field empty, contact `phone` and site visit `unsure`, the same defaults the relay applies |
| Contact.InitialFormBlocked | app/contact/page.tsx:22-51 | the initial form does not pass `canSubmit` |
| Contact.CanSubmit | app/contact/page.tsx:41-51 | the seven UTF-16 length thresholds on trimmed fields; `InitialFormBlocked` and `CanSubmitMeetsRequired` state what it guarantees |
| Contact.CanSubmitMeetsRequired | app/contact/page.tsx:41-51 | a form passing `canSubmit` passes the relay's required-field check (route.ts lines 59-64) after cleaning |
| Contact.ToPayload | app/contact/page.tsx:64-68 | the page always sends both choice fields as strings |
| Contact.ChoicesArriveIntact | app/contact/page.tsx:64-68 | the relay receives the page's two choices unchanged, so its defaults never apply to a page submission |
| Contact.Apply | app/contact/page.tsx:110-253 | an input updater sets its own field to the entered value and leaves every other field unchanged |
| Contact.EditsCommute | app/contact/page.tsx:110-253 | updates of different fields commute |
| Contact.EditOverwrites | app/contact/page.tsx:110-253 | a later update of a field overwrites an earlier one |
| Contact.AfterBegin | app/contact/page.tsx:53-62 | before the request the banner is cleared and the form is kept. The page is marked submitting if it already was, or if the form passes `canSubmit` |
| Contact.AfterReply | app/contact/page.tsx:63-86 | after the request the page is never submitting and never idle. Status is success exactly on an ok reply, and then the form is reset. The feedback is the reply's message, the reply's error, or the matching fallback |
| Contact.AfterSubmit | app/contact/page.tsx:53-87 | one whole submit: the reply is applied only when the request started; `BlockedSubmitOnlyClears`, `SubmitEndsIdle`, `FailureKeepsForm` and `PageShowsRelayAnswer` state its effect |
| Contact.BlockedSubmitOnlyClears | app/contact/page.tsx:54-60 | a submit refused by the gate, or made while a request is in flight, changes only status (to idle) and feedback (to `""`), whatever the reply would have been |
| Contact.NoDoubleSubmit | app/contact/page.tsx:58-62 | once a request has started, a second submit cannot start another |
| Contact.SubmitEndsIdle | app/contact/page.tsx:84-86 | every completed submit leaves the page not submitting |
| Contact.SuccessBlocksResubmit | app/contact/page.tsx:78-80 | after a successful send the form is the initial form, so the button stays disabled until the form is refilled |
| Contact.FailureKeepsForm | app/contact/page.tsx:72-83 | a not-ok or thrown reply keeps the form, and a started submit ends in error status |
| Contact.QuietPreserved | app/contact/page.tsx:36-87 | an idle page carries no feedback, in the initial state and after every step of the handler and every edit |
| Contact.ReplyOf | app/contact/page.tsx:70-74 | a response counts as ok exactly for statuses 200 to 299, and every other status is read as a not-ok reply, never as a thrown request; the page reads `message` from an ok body and `error` from any other, each present exactly when the body carries it |
| Contact.PageShowsRelayAnswer | app/contact/page.tsx:53-87 | when the page sends a form to the relay, the relay never answers with its missing-fields error. The page shows exactly the relay's message or error text, marks success exactly on a 200, resets the form only then, and ends not submitting |
| Contact.ContactPage.constructor | app/contact/page.tsx:36-39 | the page starts with the initial form, not submitting, idle, with no feedback |
| Contact.ContactPage.Edit | app/contact/page.tsx:110-253 | an input's `onChange` replaces one form field and no other state |
| Contact.ContactPage.Begin | app/contact/page.tsx:53-62 | the in-place first half of `handleSubmit` reaches the state `AfterBegin` gives, and reports whether a request starts |
| Contact.ContactPage.Finish | app/contact/page.tsx:63-86 | the in-place second half reaches the state `AfterReply` gives |
| Contact.ContactPage.Submit | app/contact/page.tsx:53-87 | a whole submit with no edits in between reaches the state `AfterSubmit` gives |

## Left out

- The outbound SMS call (app/api/estimate/route.ts:106-121) is left out. This covers `fetch`, `URLSearchParams` form encoding, and the base64 HTTP Basic credentials of RFC 7617 section 2. The relay instead returns the `TextMessage` it would send: account, token, `From`, `To` and `Body`. The provider's answer is an input, `ProviderReply`.
- A provider `fetch` that throws or rejects (app/api/estimate/route.ts:107: a network, DNS or TLS failure) is not modelled. The source then throws out of the handler and the framework answers with a 500 that is not JSON. `ProviderReply` has no case for it, so `Handle`'s statuses and their meanings cover only the replies the provider actually gives.
- A provider error body whose `message` is not a string is not modelled; `Refused` carries an optional string. A provider error body that is not JSON is `Refused(None)`, which falls back as the source does.
- Request body parsing (`request.json()`) is an input: `None` stands for a body that is not JSON.
- A body that parses to JSON `null` makes the source throw at `body.website`, and the framework then answers. This is not modelled. A body that parses to any other non-object behaves as a payload of `Absent` fields, which callers can pass.
- `process.env` is the four `Option<string>` values of `Env`.
- `NextResponse` construction, the `runtime` export and the React hooks (`useState`, `useMemo`) are framework plumbing. The model reads and writes the four state cells directly.
- React's batching of state updates and the handler's closure over the render-time `canSubmit` and `isSubmitting` are not modelled. `Begin` reads the current state. Edits made while a request is in flight are covered, because `Begin` and `Finish` can be separated by `Edit` calls.
- The page's reading of the response body is folded into `Reply`. A response whose body is not JSON makes `response.json()` throw, which is the `Thrown` case. A non-string `message` or `error` is not modelled.
- Browser constraint validation (the inputs' `required` and `type` attributes) is not modelled. Neither is the rendering: the banner, the disabled button and the `Sending...` label.
- Contact.ToPayload: states only that the choice fields arrive as strings. The field-by-field content is the body's and is used through `ChoicesArriveIntact` and `CanSubmitMeetsRequired`.
- JavaScript strings may hold lone surrogate code units. Dafny's `char` is a Unicode scalar value, so such strings are not modelled, and `Utf16Length` counts two units for every character above U+FFFF.
- app/page.tsx and app/services/page.tsx are presentational: markup, copy arrays and animation settings. They are not part of this model.
