/**
 * The estimate-request relay: the `POST /api/estimate` handler, as one total
 * function from the parsed request body, the four configuration values and
 * the SMS provider's reply to the HTTP response and the text message (if any)
 * handed to the provider.
 */
module Relay {
  import opened Wrappers
  import opened Text

  /** One property of the parsed JSON body: `undefined`, `null`, a string, or any other JSON value. */
  datatype Field = Absent | Null | Str(s: string) | Other

  /** The request body as the handler reads it. */
  datatype Payload = Payload(
    fullName: Field,
    phone: Field,
    email: Field,
    serviceType: Field,
    propertyAddress: Field,
    timeline: Field,
    preferredContact: Field,
    siteVisitNeeded: Field,
    details: Field,
    website: Field)

  /** The fields after cleaning, in the handler's order. */
  datatype Request = Request(
    fullName: string,
    phone: string,
    email: string,
    serviceType: string,
    propertyAddress: string,
    timeline: string,
    preferredContact: string,
    siteVisitNeeded: string,
    details: string)

  /** The four values read from the process environment. */
  datatype Env = Env(
    accountSid: Option<string>,
    authToken: Option<string>,
    fromPhone: Option<string>,
    toPhone: Option<string>)

  /** What the provider answered: success, or failure with the `message` of its error body if it had one. */
  datatype ProviderReply = Accepted | Refused(message: Option<string>)

  /** The JSON response body: `{ message }` or `{ error }`. */
  datatype Body = Message(text: string) | Error(text: string)

  datatype Response = Response(status: int, body: Body)

  /** The one outbound call: credentials, `From`, `To` and `Body`. */
  datatype TextMessage = TextMessage(accountSid: string, authToken: string, from: string, to: string, body: string)

  /** The handler's response, and the text message it asked the provider to send, if it got that far. */
  datatype Outcome = Outcome(response: Response, sent: Option<TextMessage>)

  const InvalidPayload := "Invalid request payload."
  const Received := "Request received."
  const MissingFields := "Please complete all required fields before submitting."
  const BadEmail := "Please enter a valid email address."
  const BadPhone := "Please enter a valid phone number."
  const NotConfigured := "Server texting is not configured yet. Please call us for now."
  const BadNumbers := "Phone configuration must use E.164 format (example: +12175550123)."
  const SendFailed := "Could not send estimate text message."
  const Sent := "Your request was sent. We will contact you soon."
  const Heading := "New estimate request"

  // ---------------------------------------------------------------------
  // Cleaning
  // ---------------------------------------------------------------------

  /** `clean`: a string is trimmed; anything else becomes the empty string. */
  function Clean(v: Field): (r: string)
    ensures IsTrimmed(r)
    ensures !v.Str? ==> r == ""
  {
    if v.Str? then Trim(v.s) else ""
  }

  /**
   * Cleaning a string removes whitespace only, and leaves nothing exactly
   * when the string is all whitespace.
   */
  lemma CleanString(s: string)
    ensures NonSpace(Clean(Str(s))) == NonSpace(s)
    ensures Clean(Str(s)) == "" <==> AllSpace(s)
  {
    TrimNonSpace(s);
    TrimEmptyIffAllSpace(s);
  }

  /** Cleaning is idempotent: a cleaned value cleans to itself. */
  lemma {:induction false} CleanIdempotent(v: Field)
    ensures Clean(Str(Clean(v))) == Clean(v)
  {
    if v.Str? {
      TrimIdempotent(v.s);
    }
  }

  /** `v ?? fallback`: only `undefined` and `null` are replaced. */
  function OrDefault(v: Field, fallback: string): Field {
    if v.Absent? || v.Null? then Str(fallback) else v
  }

  predicate AllTrimmed(c: Request) {
    && IsTrimmed(c.fullName) && IsTrimmed(c.phone) && IsTrimmed(c.email)
    && IsTrimmed(c.serviceType) && IsTrimmed(c.propertyAddress) && IsTrimmed(c.timeline)
    && IsTrimmed(c.preferredContact) && IsTrimmed(c.siteVisitNeeded) && IsTrimmed(c.details)
  }

  /** The handler's nine `const` bindings: every field cleaned, the two choices defaulted first. */
  function CleanRequest(p: Payload): (c: Request)
    ensures AllTrimmed(c)
  {
    Request(
      Clean(p.fullName),
      Clean(p.phone),
      Clean(p.email),
      Clean(p.serviceType),
      Clean(p.propertyAddress),
      Clean(p.timeline),
      Clean(OrDefault(p.preferredContact, "phone")),
      Clean(OrDefault(p.siteVisitNeeded, "unsure")),
      Clean(p.details))
  }

  /**
   * The two choices fall back to `phone` and `unsure` only when they are
   * missing or `null`; a string, even an empty one, is kept as cleaned, and
   * any other JSON value is kept by `??` and then cleaned to `""`.
   */
  lemma ChoiceDefaults(p: Payload)
    ensures (p.preferredContact.Absent? || p.preferredContact.Null?) ==> CleanRequest(p).preferredContact == "phone"
    ensures (p.siteVisitNeeded.Absent? || p.siteVisitNeeded.Null?) ==> CleanRequest(p).siteVisitNeeded == "unsure"
    ensures p.preferredContact.Str? ==> CleanRequest(p).preferredContact == Clean(p.preferredContact)
    ensures p.siteVisitNeeded.Str? ==> CleanRequest(p).siteVisitNeeded == Clean(p.siteVisitNeeded)
    ensures p.preferredContact.Other? ==> CleanRequest(p).preferredContact == ""
    ensures p.siteVisitNeeded.Other? ==> CleanRequest(p).siteVisitNeeded == ""
  {
    CleanOfTrimmed("phone");
    CleanOfTrimmed("unsure");
  }

  /** A string with no whitespace at its ends cleans to itself. */
  lemma CleanOfTrimmed(d: string)
    requires IsTrimmed(d)
    ensures Clean(Str(d)) == d
  {
    TrimOfTrimmed(d);
  }

  /** The honeypot: a hidden `website` field that cleans to something non-empty. */
  predicate IsSpam(p: Payload) {
    Clean(p.website) != ""
  }

  /** The seven required fields are non-empty; the two choices are not checked. */
  predicate RequiredPresent(c: Request) {
    && c.fullName != "" && c.phone != "" && c.email != "" && c.serviceType != ""
    && c.propertyAddress != "" && c.timeline != "" && c.details != ""
  }

  /** Whatever the two choices hold, even an empty string, the required-field check is unaffected. */
  lemma RequiredIgnoresChoices(p: Payload, contact: Field, visit: Field)
    ensures RequiredPresent(CleanRequest(p.(preferredContact := contact, siteVisitNeeded := visit)))
        == RequiredPresent(CleanRequest(p))
  {
  }

  // ---------------------------------------------------------------------
  // Validators
  // ---------------------------------------------------------------------

  /** The regular-expression class `[^\s@]`. */
  predicate NameChar(c: char) {
    !IsSpace(c) && c != '@'
  }

  predicate NameChars(s: string) {
    forall i :: 0 <= i < |s| ==> NameChar(s[i])
  }

  /**
   * `e` matches `^[^\s@]+@[^\s@]+\.[^\s@]+$` with the `@` at `a` and the
   * escaped dot at `b`.
   */
  predicate EmailSplit(e: string, a: int, b: int) {
    && 0 < a && a + 1 < b && b + 1 < |e|
    && e[a] == '@' && e[b] == '.'
    && NameChars(e[..a]) && NameChars(e[a + 1..b]) && NameChars(e[b + 1..])
  }

  /** `validEmail`: the pattern matches at some choice of `@` and dot. */
  predicate ValidEmail(e: string) {
    exists a, b | 0 <= a < |e| && 0 <= b < |e| :: EmailSplit(e, a, b)
  }

  /** The only `@` of `e` is at `a`. */
  predicate OnlyAt(e: string, a: int) {
    && 0 <= a < |e| && e[a] == '@'
    && forall i :: 0 <= i < |e| && i != a ==> e[i] != '@'
  }

  /** `d` holds a `.` with at least one character on each side. */
  predicate InnerDot(d: string, j: int) {
    0 < j < |d| - 1 && d[j] == '.'
  }

  /** The `@` at `a` is the only one, with text before it and an inner dot at `j` after it. */
  predicate EmailShape(e: string, a: int, j: int) {
    OnlyAt(e, a) && a > 0 && InnerDot(e[a + 1..], j)
  }

  /**
   * What the e-mail pattern accepts, said field by field: no whitespace,
   * exactly one `@`, something before it, and after it a dot with something
   * on both sides.
   */
  lemma ValidEmailIff(e: string)
    ensures ValidEmail(e) <==>
      NoSpace(e) && exists a, j :: EmailShape(e, a, j)
  {
    if ValidEmail(e) {
      var a, b :| 0 <= a < |e| && 0 <= b < |e| && EmailSplit(e, a, b);
      forall i | 0 <= i < |e| ensures NameChar(e[i]) || i == a || i == b {
        if i < a {
          assert e[i] == e[..a][i];
        } else if a < i < b {
          assert e[i] == e[a + 1..b][i - a - 1];
        } else if b < i {
          assert e[i] == e[b + 1..][i - b - 1];
        }
      }
      assert InnerDot(e[a + 1..], b - a - 1);
      assert EmailShape(e, a, b - a - 1);
    }
    if NoSpace(e) && exists a, j :: EmailShape(e, a, j) {
      var a, j :| EmailShape(e, a, j);
      var b := a + 1 + j;
      assert e[b] == e[a + 1..][j];
      assert forall i :: 0 <= i < |e| && i != a ==> NameChar(e[i]);
      assert NameChars(e[..a]);
      assert NameChars(e[a + 1..b]);
      assert NameChars(e[b + 1..]);
      assert EmailSplit(e, a, b);
    }
  }

  /** `validPhone`: at least ten characters `0`..`9`, wherever they stand. */
  predicate ValidPhone(p: string) {
    |KeepDigits(p)| >= 10
  }

  /** `validPhone` holds exactly when at least ten positions of `p` hold a digit. */
  lemma ValidPhoneIff(p: string)
    ensures ValidPhone(p) <==> |DigitPositions(p)| >= 10
  {
    KeepDigitsCount(p);
  }

  /** Inserting characters anywhere never makes a valid phone number invalid. */
  lemma ValidPhoneInsert(a: string, b: string, c: string)
    requires ValidPhone(a + c)
    ensures ValidPhone(a + b + c)
  {
    KeepDigitsAppend(a, c);
    KeepDigitsAppend(a + b, c);
    KeepDigitsAppend(a, b);
  }

  /** `validE164`: `^\+[1-9]\d{7,14}$`. */
  predicate ValidE164(s: string) {
    && |s| >= 2 && s[0] == '+' && '1' <= s[1] <= '9'
    && 7 <= |s| - 2 <= 14
    && forall i :: 2 <= i < |s| ==> IsDigit(s[i])
  }

  /**
   * The E.164 pattern read plainly: a plus sign followed by nothing but
   * digits, 8 to 15 of them, the first not `0`. Section 6 of ITU-T
   * Recommendation E.164 caps a number at 15 digits; the 8-digit minimum is
   * the pattern's own.
   */
  lemma ValidE164Iff(s: string)
    ensures ValidE164(s) <==>
      && s != [] && s[0] == '+' && KeepDigits(s) == s[1..]
      && 8 <= |KeepDigits(s)| <= 15 && s[1] != '0'
  {
    if s != [] && s[0] == '+' {
      PlusDropsOut(s);
      if ValidE164(s) {
        KeepDigitsOfDigits(s[1..]);
      }
      if KeepDigits(s[1..]) == s[1..] {
        assert forall i :: 1 <= i < |s| ==> s[i] == s[1..][i - 1];
      }
    }
  }

  /** A leading `+` contributes nothing to the digits. */
  lemma PlusDropsOut(s: string)
    requires s != [] && s[0] == '+'
    ensures KeepDigits(s) == KeepDigits(s[1..])
  {
    assert s == [s[0]] + s[1..];
    KeepDigitsAppend([s[0]], s[1..]);
  }

  /** Configured numbers are 9 to 16 characters long and carry 8 to 15 digits. */
  lemma ValidE164Bounds(s: string)
    requires ValidE164(s)
    ensures 9 <= |s| <= 16 && 8 <= |KeepDigits(s)| <= 15
  {
    ValidE164Iff(s);
  }

  /** Every check on the submitted fields passes. */
  predicate InputValid(c: Request) {
    RequiredPresent(c) && ValidEmail(c.email) && ValidPhone(c.phone)
  }

  /** An environment value counts only when it is set to a non-empty string. */
  predicate IsSet(v: Option<string>) {
    v.Some? && v.value != ""
  }

  predicate Configured(env: Env) {
    IsSet(env.accountSid) && IsSet(env.authToken) && IsSet(env.fromPhone) && IsSet(env.toPhone)
  }

  /** Configuration present and both numbers in E.164 form. */
  predicate ReadyToSend(env: Env) {
    Configured(env) && ValidE164(env.fromPhone.value) && ValidE164(env.toPhone.value)
  }

  // ---------------------------------------------------------------------
  // The message body
  // ---------------------------------------------------------------------

  /** `details.replace(/\s+/g, " ").trim()`. */
  function DetailsText(d: string): string {
    Trim(CollapseSpaces(d))
  }

  /**
   * The details line is one line of single spaces between words, trimmed,
   * with every non-whitespace character of the details in order.
   */
  lemma DetailsTextShape(d: string)
    ensures IsTrimmed(DetailsText(d)) && SingleSpaced(DetailsText(d))
    ensures '\n' !in DetailsText(d)
    ensures NonSpace(DetailsText(d)) == NonSpace(d)
  {
    var collapsed := CollapseSpaces(d);
    CollapseSpacesSingleSpaced(d);
    CollapseSpacesNonSpace(d);
    TrimSingleSpaced(collapsed);
    TrimNonSpace(collapsed);
    var r := Trim(collapsed);
    forall i | 0 <= i < |r| ensures r[i] != '\n' {
      if r[i] == '\n' { assert IsSpace(r[i]); }
    }
  }

  /** A details field without whitespace is forwarded unchanged. */
  lemma DetailsTextOfWord(d: string)
    requires NoSpace(d)
    ensures DetailsText(d) == d
  {
    CollapseNoSpace(d);
    TrimOfTrimmed(d);
  }

  /**
   * Where the spaces go: a whitespace run between two non-empty parts, the
   * first ending and the second starting in a non-space, becomes exactly one
   * space, and each part is normalised on its own.
   */
  lemma DetailsTextRun(a: string, w: string, b: string)
    requires w != [] && AllSpace(w)
    requires a != [] && !IsSpace(a[|a| - 1])
    requires b != [] && !IsSpace(b[0])
    ensures DetailsText(a + w + b) == DetailsText(a) + " " + DetailsText(b)
  {
    CollapseSpacesRun(a, w, b);
    CollapseSpacesLast(a);
    CollapseSpacesStart(b);
    TrimJoin(CollapseSpaces(a), CollapseSpaces(b));
  }

  /** The labels of the nine field lines, in message order. */
  const Tags: seq<string> := ["Name: ", "Phone: ", "Email: ", "Service: ", "Address: ",
    "Timeline: ", "Contact pref: ", "Site visit needed: ", "Details: "]

  /** The value each field line shows, in message order. */
  function FieldValues(c: Request): (vs: seq<string>)
    ensures |vs| == |Tags|
  {
    [c.fullName, c.phone, c.email, c.serviceType, c.propertyAddress, c.timeline,
     c.preferredContact, c.siteVisitNeeded, DetailsText(c.details)]
  }

  /** The ten lines of the text message: the heading, then each label with its value. */
  function MessageLines(c: Request): seq<string> {
    var vs := FieldValues(c);
    [Heading] + seq(|Tags|, k requires 0 <= k < |Tags| => Tags[k] + vs[k])
  }

  /** The message body: the lines joined by newlines. */
  function MessageText(c: Request): string {
    Join(MessageLines(c), '\n')
  }

  /** No field other than the details may put a line break in the message. */
  predicate SingleLineFields(c: Request) {
    && '\n' !in c.fullName && '\n' !in c.phone && '\n' !in c.email
    && '\n' !in c.serviceType && '\n' !in c.propertyAddress && '\n' !in c.timeline
    && '\n' !in c.preferredContact && '\n' !in c.siteVisitNeeded
  }

  lemma TagsSingleLine(k: nat)
    requires k < |Tags|
    ensures '\n' !in Tags[k]
  {
  }

  lemma ValuesSingleLine(c: Request, k: nat)
    requires SingleLineFields(c) && k < |Tags|
    ensures '\n' !in FieldValues(c)[k]
  {
    if k == |Tags| - 1 {
      DetailsTextShape(c.details);
    }
  }

  /**
   * The message reads back as exactly its ten lines, heading first and
   * details last, as long as the single-line fields hold no line break;
   * the details line never does.
   */
  lemma MessageSplitsIntoLines(c: Request)
    requires SingleLineFields(c)
    ensures Split(MessageText(c), '\n') == MessageLines(c)
    ensures |Split(MessageText(c), '\n')| == 10
    ensures Split(MessageText(c), '\n')[0] == Heading
    ensures Split(MessageText(c), '\n')[9] == "Details: " + DetailsText(c.details)
  {
    var ls := MessageLines(c);
    forall k | 0 <= k < |ls| ensures '\n' !in ls[k] {
      if k > 0 {
        TagsSingleLine(k - 1);
        ValuesSingleLine(c, k - 1);
        assert ls[k] == Tags[k - 1] + FieldValues(c)[k - 1];
      }
    }
    SplitJoin(ls, '\n');
  }

  /** The value on each field line stands in the message. */
  lemma ValueOccurs(c: Request, k: nat)
    requires k < |Tags|
    ensures Occurs(FieldValues(c)[k], MessageText(c))
  {
    var ls := MessageLines(c);
    var tag, v := Tags[k], FieldValues(c)[k];
    assert ls[k + 1] == tag + v;
    OccursInJoin(ls, '\n', k + 1);
    assert (tag + v)[|tag|..|tag| + |v|] == v;
    assert OccursAt(v, tag + v, |tag|);
    OccursTransitive(v, tag + v, MessageText(c));
  }

  /** Every cleaned field, and the collapsed details, appear in the message. */
  lemma MessageMentionsEveryField(c: Request)
    ensures Occurs(c.fullName, MessageText(c)) && Occurs(c.phone, MessageText(c))
    ensures Occurs(c.email, MessageText(c)) && Occurs(c.serviceType, MessageText(c))
    ensures Occurs(c.propertyAddress, MessageText(c)) && Occurs(c.timeline, MessageText(c))
    ensures Occurs(c.preferredContact, MessageText(c)) && Occurs(c.siteVisitNeeded, MessageText(c))
    ensures Occurs(DetailsText(c.details), MessageText(c))
  {
    ValueOccurs(c, 0);
    ValueOccurs(c, 1);
    ValueOccurs(c, 2);
    ValueOccurs(c, 3);
    ValueOccurs(c, 4);
    ValueOccurs(c, 5);
    ValueOccurs(c, 6);
    ValueOccurs(c, 7);
    ValueOccurs(c, 8);
  }

  // ---------------------------------------------------------------------
  // The handler
  // ---------------------------------------------------------------------

  /**
   * `POST`: `body` is `None` when the request body is not JSON. The guards
   * run in the handler's order; `reply` is consulted only once the message
   * has been handed to the provider.
   */
  function Handle(body: Option<Payload>, env: Env, reply: ProviderReply): (r: Outcome)
    ensures r.response.status in {200, 400, 500, 502}
    ensures r.response.body.Message? <==> r.response.status == 200
    ensures body.None? ==> r == Outcome(Response(400, Error(InvalidPayload)), None)
    ensures body.Some? && !IsSpam(body.value) && Check(CleanRequest(body.value), env).Reject? ==>
      r == Outcome(Check(CleanRequest(body.value), env).response, None)
    ensures body.Some? && IsSpam(body.value) ==> r == Outcome(Response(200, Message(Received)), None)
    ensures r.sent.Some? <==>
      body.Some? && !IsSpam(body.value) && InputValid(CleanRequest(body.value)) && ReadyToSend(env)
    ensures r.sent.Some? ==>
      r.sent.value == TextMessage(env.accountSid.value, env.authToken.value,
                                  env.fromPhone.value, env.toPhone.value,
                                  MessageText(CleanRequest(body.value)))
    ensures r.response.status == 400 <==>
      body.None? || (!IsSpam(body.value) && !InputValid(CleanRequest(body.value)))
    ensures r.response.status == 500 <==>
      body.Some? && !IsSpam(body.value) && InputValid(CleanRequest(body.value)) && !ReadyToSend(env)
    ensures r.response.status == 502 <==> r.sent.Some? && reply.Refused?
    ensures r.response.status == 502 ==> r.response.body == Error(reply.message.GetOr(SendFailed))
    ensures r.sent.Some? && reply.Accepted? ==> r.response == Response(200, Message(Sent))
  {
    match Decide(body, env)
    case Reject(response) => Outcome(response, None)
    case Send(text) => Outcome(ProviderResponse(reply), Some(text))
  }

  /** Everything the handler settles before it calls the provider: an early response, or the message to send. */
  datatype Verdict = Reject(response: Response) | Send(text: TextMessage)

  /** Parsing, then the honeypot, then cleaning, then the guards on the cleaned request. */
  function Decide(body: Option<Payload>, env: Env): (v: Verdict)
  {
    if body.None? then
      Reject(Response(400, Error(InvalidPayload)))
    else if IsSpam(body.value) then
      Reject(Response(200, Message(Received)))
    else
      Check(CleanRequest(body.value), env)
  }

  /**
   * The guards on a cleaned request, in the order the handler runs them:
   * the caller's errors (400) before the configuration errors (500), and a
   * message only when every guard passes.
   */
  function Check(c: Request, env: Env): (v: Verdict)
    ensures v.Reject? ==> v.response.body.Error?
    ensures v.Send? <==> InputValid(c) && ReadyToSend(env)
    ensures v.Send? ==>
      v.text == TextMessage(env.accountSid.value, env.authToken.value,
                            env.fromPhone.value, env.toPhone.value, MessageText(c))
    ensures v.Reject? ==> (v.response.status == 400 <==> !InputValid(c))
    ensures v.Reject? ==> (v.response.status == 500 <==> InputValid(c) && !ReadyToSend(env))
  {
    if !RequiredPresent(c) then
      Reject(Response(400, Error(MissingFields)))
    else if !ValidEmail(c.email) then
      Reject(Response(400, Error(BadEmail)))
    else if !ValidPhone(c.phone) then
      Reject(Response(400, Error(BadPhone)))
    else if !Configured(env) then
      Reject(Response(500, Error(NotConfigured)))
    else if !ValidE164(env.fromPhone.value) || !ValidE164(env.toPhone.value) then
      Reject(Response(500, Error(BadNumbers)))
    else
      Send(TextMessage(env.accountSid.value, env.authToken.value,
                       env.fromPhone.value, env.toPhone.value, MessageText(c)))
  }

  /** The response once the provider has answered: 200 on success, 502 with its message or a fallback otherwise. */
  function ProviderResponse(reply: ProviderReply): (r: Response)
    ensures r.status == 200 <==> reply.Accepted?
    ensures reply.Refused? ==> r == Response(502, Error(reply.message.GetOr(SendFailed)))
  {
    match reply
    case Refused(m) => Response(502, Error(m.GetOr(SendFailed)))
    case Accepted => Response(200, Message(Sent))
  }

  /**
   * Within the caller's errors and within the configuration errors the
   * checks run in a fixed order, and each message names the first check
   * that failed.
   */
  lemma CheckOrder(c: Request, env: Env)
    ensures var r := Check(c, env);
      && (r == Reject(Response(400, Error(MissingFields))) <==> !RequiredPresent(c))
      && (r == Reject(Response(400, Error(BadEmail))) <==> RequiredPresent(c) && !ValidEmail(c.email))
      && (r == Reject(Response(400, Error(BadPhone))) <==>
            RequiredPresent(c) && ValidEmail(c.email) && !ValidPhone(c.phone))
      && (r == Reject(Response(500, Error(NotConfigured))) <==> InputValid(c) && !Configured(env))
      && (r == Reject(Response(500, Error(BadNumbers))) <==>
            InputValid(c) && Configured(env) && !ReadyToSend(env))
  {
  }

  /** A filled honeypot decides the response alone: no other field, setting or reply matters. */
  lemma HoneypotDominates(p: Payload, q: Payload, env: Env, env': Env, reply: ProviderReply, reply': ProviderReply)
    requires IsSpam(p) && IsSpam(q)
    ensures Handle(Some(p), env, reply) == Handle(Some(q), env', reply')
    ensures Handle(Some(p), env, reply).sent.None?
  {
  }

  /** A honeypot holding only whitespace is no honeypot: the request is handled as if it were absent. */
  lemma BlankHoneypotIgnored(p: Payload, ws: string, env: Env, reply: ProviderReply)
    requires AllSpace(ws)
    ensures Handle(Some(p.(website := Str(ws))), env, reply) == Handle(Some(p.(website := Absent)), env, reply)
  {
    var blank, absent := p.(website := Str(ws)), p.(website := Absent);
    assert !IsSpam(blank) by {
      CleanString(ws);
    }
    assert CleanRequest(blank) == CleanRequest(absent);
    assert Decide(Some(blank), env) == Decide(Some(absent), env);
  }

  /** A 400 is decided before the configuration is read and before anything is sent. */
  lemma ClientErrorIgnoresConfig(body: Option<Payload>, env: Env, env': Env, reply: ProviderReply, reply': ProviderReply)
    requires Handle(body, env, reply).response.status == 400
    ensures Handle(body, env', reply') == Handle(body, env, reply)
  {
  }

  /** The provider's reply matters only when a message was handed to it. */
  lemma ReplyMattersOnlyAfterSend(body: Option<Payload>, env: Env, reply: ProviderReply, reply': ProviderReply)
    requires Handle(body, env, reply).sent.None?
    ensures Handle(body, env, reply') == Handle(body, env, reply)
  {
    assert Decide(body, env).Reject?;
  }

  /** A payload whose text fields are already trimmed cleans to those strings unchanged. */
  lemma CleanTrimmed(p: Payload)
    requires p.fullName.Str? && p.phone.Str? && p.email.Str? && p.serviceType.Str?
    requires p.propertyAddress.Str? && p.timeline.Str? && p.details.Str?
    requires IsTrimmed(p.fullName.s) && IsTrimmed(p.phone.s) && IsTrimmed(p.email.s) && IsTrimmed(p.serviceType.s)
    requires IsTrimmed(p.propertyAddress.s) && IsTrimmed(p.timeline.s) && IsTrimmed(p.details.s)
    ensures var c := CleanRequest(p);
      && c.fullName == p.fullName.s && c.phone == p.phone.s && c.email == p.email.s
      && c.serviceType == p.serviceType.s && c.propertyAddress == p.propertyAddress.s
      && c.timeline == p.timeline.s && c.details == p.details.s
  {
    CleanOfTrimmed(p.fullName.s);
    CleanOfTrimmed(p.phone.s);
    CleanOfTrimmed(p.email.s);
    CleanOfTrimmed(p.serviceType.s);
    CleanOfTrimmed(p.propertyAddress.s);
    CleanOfTrimmed(p.timeline.s);
    CleanOfTrimmed(p.details.s);
  }

  /** The request of the example below, once cleaned: nothing to trim, and the two choices defaulted. */
  lemma ExampleRequestCleans(p: Payload)
    requires p == Payload(Str("Jo"), Str("217-555-0123"), Str("jo@x.com"), Str("Grading"),
                          Str("1 Main St"), Str("ASAP"), Absent, Absent,
                          Str("Need a pad leveled"), Str(""))
    ensures !IsSpam(p)
    ensures CleanRequest(p) == Request("Jo", "217-555-0123", "jo@x.com", "Grading", "1 Main St", "ASAP",
                                       "phone", "unsure", "Need a pad leveled")
  {
    CleanTrimmed(p);
    ChoiceDefaults(p);
  }

  /** The cleaned example request passes the three checks on the caller's input. */
  lemma ExampleRequestValid(c: Request)
    requires c == Request("Jo", "217-555-0123", "jo@x.com", "Grading", "1 Main St", "ASAP",
                          "phone", "unsure", "Need a pad leveled")
    ensures InputValid(c)
  {
    assert EmailSplit(c.email, 2, 4);
  }

  /** A well-formed request with working configuration is texted and acknowledged. */
  lemma ExampleRequestIsSent(p: Payload, env: Env)
    requires p == Payload(Str("Jo"), Str("217-555-0123"), Str("jo@x.com"), Str("Grading"),
                          Str("1 Main St"), Str("ASAP"), Absent, Absent,
                          Str("Need a pad leveled"), Str(""))
    requires env == Env(Some("AC123"), Some("token"), Some("+12175550123"), Some("+12175550123"))
    ensures Handle(Some(p), env, Accepted).response == Response(200, Message(Sent))
    ensures Handle(Some(p), env, Accepted).sent.Some?
  {
    ExampleRequestCleans(p);
    ExampleRequestValid(CleanRequest(p));
    ExampleEnvReady(env);
    AcceptedIsSent(p, env);
  }

  /** The example configuration: all four values set, both numbers in E.164 form. */
  lemma ExampleEnvReady(env: Env)
    requires env == Env(Some("AC123"), Some("token"), Some("+12175550123"), Some("+12175550123"))
    ensures ReadyToSend(env)
  {
  }

  /** A request that passes every guard, with the provider accepting it, is answered with success. */
  lemma AcceptedIsSent(p: Payload, env: Env)
    requires !IsSpam(p) && InputValid(CleanRequest(p)) && ReadyToSend(env)
    ensures Handle(Some(p), env, Accepted).response == Response(200, Message(Sent))
    ensures Handle(Some(p), env, Accepted).sent.Some?
  {
  }
}
