/**
 * The estimate form on the contact page: the form's data and its initial
 * value, the gate that enables the submit button, the per-field input
 * updaters, and the submit handler's state machine over the page's four
 * state cells.
 */
module Contact {
  import opened Wrappers
  import opened Text
  import Relay

  // ---------------------------------------------------------------------
  // Form data
  // ---------------------------------------------------------------------

  /** The three options of the contact-method select. */
  datatype ContactMethod = PhoneCall | EmailReply | TextContact

  /** The three options of the site-visit radio group. */
  datatype SiteVisit = Yes | No | Unsure

  /** The string each contact method is stored and sent as. */
  function ContactValue(m: ContactMethod): (v: string)
    ensures IsTrimmed(v) && v != ""
  {
    match m
    case PhoneCall => "phone"
    case EmailReply => "email"
    case TextContact => "text"
  }

  /** The string each site-visit answer is stored and sent as. */
  function VisitValue(v: SiteVisit): (s: string)
    ensures IsTrimmed(s) && s != ""
  {
    match v
    case Yes => "yes"
    case No => "no"
    case Unsure => "unsure"
  }

  datatype EstimateForm = EstimateForm(
    fullName: string,
    phone: string,
    email: string,
    serviceType: string,
    propertyAddress: string,
    timeline: string,
    preferredContact: ContactMethod,
    siteVisitNeeded: SiteVisit,
    details: string,
    website: string)

  /** The form as the page first shows it, and as it is reset after a successful send. */
  const InitialForm := EstimateForm("", "", "", "", "", "", PhoneCall, Unsure, "", "")

  /** The defaults of the form agree with the defaults the relay applies to a missing choice. */
  lemma InitialFormDefaults()
    ensures ContactValue(InitialForm.preferredContact) == "phone"
    ensures VisitValue(InitialForm.siteVisitNeeded) == "unsure"
    ensures InitialForm.fullName == InitialForm.phone == InitialForm.email == ""
    ensures InitialForm.serviceType == InitialForm.propertyAddress == InitialForm.timeline == ""
    ensures InitialForm.details == InitialForm.website == ""
  {
  }

  // ---------------------------------------------------------------------
  // The submit gate
  // ---------------------------------------------------------------------

  /**
   * `canSubmit`: each of the seven required fields, trimmed, is longer than
   * its threshold. Lengths are counted in UTF-16 code units, as the page's
   * `.length` counts them.
   */
  predicate CanSubmit(f: EstimateForm) {
    && Utf16Length(Trim(f.fullName)) > 1
    && Utf16Length(Trim(f.phone)) > 6
    && Utf16Length(Trim(f.email)) > 4
    && Utf16Length(Trim(f.serviceType)) > 1
    && Utf16Length(Trim(f.propertyAddress)) > 4
    && Utf16Length(Trim(f.timeline)) > 1
    && Utf16Length(Trim(f.details)) > 9
  }

  /** The empty form cannot be submitted. */
  lemma InitialFormBlocked()
    ensures !CanSubmit(InitialForm)
  {
    TrimOfTrimmed("");
  }

  // ---------------------------------------------------------------------
  // What the page sends, and what the relay makes of it
  // ---------------------------------------------------------------------

  /** `JSON.stringify(form)` as the relay reads it: every one of the ten fields a string. */
  function ToPayload(f: EstimateForm): (p: Relay.Payload)
    ensures p.preferredContact.Str? && p.siteVisitNeeded.Str?
  {
    Relay.Payload(
      Relay.Str(f.fullName), Relay.Str(f.phone), Relay.Str(f.email), Relay.Str(f.serviceType),
      Relay.Str(f.propertyAddress), Relay.Str(f.timeline),
      Relay.Str(ContactValue(f.preferredContact)), Relay.Str(VisitValue(f.siteVisitNeeded)),
      Relay.Str(f.details), Relay.Str(f.website))
  }

  /**
   * A form that passes the page's gate passes the relay's required-field
   * check: the "complete all required fields" 400 is never the answer to
   * a submission the page lets through.
   */
  lemma CanSubmitMeetsRequired(f: EstimateForm)
    requires CanSubmit(f)
    ensures Relay.RequiredPresent(Relay.CleanRequest(ToPayload(f)))
  {
  }

  /** The relay receives the page's choices unchanged: they are never missing, so its defaults never apply. */
  lemma ChoicesArriveIntact(f: EstimateForm)
    ensures Relay.CleanRequest(ToPayload(f)).preferredContact == ContactValue(f.preferredContact)
    ensures Relay.CleanRequest(ToPayload(f)).siteVisitNeeded == VisitValue(f.siteVisitNeeded)
  {
    var p := ToPayload(f);
    Relay.ChoiceDefaults(p);
    assert Relay.Clean(p.preferredContact) == ContactValue(f.preferredContact) by {
      Relay.CleanOfTrimmed(ContactValue(f.preferredContact));
    }
    assert Relay.Clean(p.siteVisitNeeded) == VisitValue(f.siteVisitNeeded) by {
      Relay.CleanOfTrimmed(VisitValue(f.siteVisitNeeded));
    }
  }

  // ---------------------------------------------------------------------
  // Input updaters
  // ---------------------------------------------------------------------

  /** The names of the form's fields. */
  datatype FormField =
    | FullName | Phone | Email | ServiceType | PropertyAddress
    | Timeline | PreferredContact | SiteVisitNeeded | Details | Website

  /** A field's value, whatever its type. */
  datatype FieldValue = Chars(chars: string) | Choice(choice: ContactMethod) | Answer(answer: SiteVisit)

  function Get(f: EstimateForm, k: FormField): FieldValue {
    match k
    case FullName => Chars(f.fullName)
    case Phone => Chars(f.phone)
    case Email => Chars(f.email)
    case ServiceType => Chars(f.serviceType)
    case PropertyAddress => Chars(f.propertyAddress)
    case Timeline => Chars(f.timeline)
    case PreferredContact => Choice(f.preferredContact)
    case SiteVisitNeeded => Answer(f.siteVisitNeeded)
    case Details => Chars(f.details)
    case Website => Chars(f.website)
  }

  /** One input's `onChange`: the field it edits and the value the user entered. */
  datatype FieldEdit =
    | SetFullName(text: string)
    | SetPhone(text: string)
    | SetEmail(text: string)
    | SetServiceType(text: string)
    | SetPropertyAddress(text: string)
    | SetTimeline(text: string)
    | SetPreferredContact(choice: ContactMethod)
    | SetSiteVisitNeeded(visit: SiteVisit)
    | SetDetails(text: string)
    | SetWebsite(text: string)

  function Target(e: FieldEdit): FormField {
    match e
    case SetFullName(_) => FullName
    case SetPhone(_) => Phone
    case SetEmail(_) => Email
    case SetServiceType(_) => ServiceType
    case SetPropertyAddress(_) => PropertyAddress
    case SetTimeline(_) => Timeline
    case SetPreferredContact(_) => PreferredContact
    case SetSiteVisitNeeded(_) => SiteVisitNeeded
    case SetDetails(_) => Details
    case SetWebsite(_) => Website
  }

  function Written(e: FieldEdit): FieldValue {
    match e
    case SetPreferredContact(m) => Choice(m)
    case SetSiteVisitNeeded(v) => Answer(v)
    case _ => Chars(e.text)
  }

  /** `setForm((prev) => ({ ...prev, field: value }))`: the edited field takes the new value, every other field keeps its own. */
  function Apply(f: EstimateForm, e: FieldEdit): (g: EstimateForm)
    ensures Get(g, Target(e)) == Written(e)
    ensures forall k :: k != Target(e) ==> Get(g, k) == Get(f, k)
  {
    match e
    case SetFullName(t) => f.(fullName := t)
    case SetPhone(t) => f.(phone := t)
    case SetEmail(t) => f.(email := t)
    case SetServiceType(t) => f.(serviceType := t)
    case SetPropertyAddress(t) => f.(propertyAddress := t)
    case SetTimeline(t) => f.(timeline := t)
    case SetPreferredContact(m) => f.(preferredContact := m)
    case SetSiteVisitNeeded(v) => f.(siteVisitNeeded := v)
    case SetDetails(t) => f.(details := t)
    case SetWebsite(t) => f.(website := t)
  }

  /** Two forms that agree on every field are the same form. */
  lemma FormExtensionality(f: EstimateForm, g: EstimateForm)
    requires forall k :: Get(f, k) == Get(g, k)
    ensures f == g
  {
    assert Get(f, FullName) == Get(g, FullName);
    assert Get(f, Phone) == Get(g, Phone);
    assert Get(f, Email) == Get(g, Email);
    assert Get(f, ServiceType) == Get(g, ServiceType);
    assert Get(f, PropertyAddress) == Get(g, PropertyAddress);
    assert Get(f, Timeline) == Get(g, Timeline);
    assert Get(f, PreferredContact) == Get(g, PreferredContact);
    assert Get(f, SiteVisitNeeded) == Get(g, SiteVisitNeeded);
    assert Get(f, Details) == Get(g, Details);
    assert Get(f, Website) == Get(g, Website);
  }

  /** Edits to different fields commute: the order the user fills the form in does not matter. */
  lemma EditsCommute(f: EstimateForm, d: FieldEdit, e: FieldEdit)
    requires Target(d) != Target(e)
    ensures Apply(Apply(f, d), e) == Apply(Apply(f, e), d)
  {
    var de, ed := Apply(Apply(f, d), e), Apply(Apply(f, e), d);
    forall k
      ensures Get(de, k) == Get(ed, k)
    {
    }
    FormExtensionality(de, ed);
  }

  /** A later edit of the same field overwrites an earlier one. */
  lemma EditOverwrites(f: EstimateForm, d: FieldEdit, e: FieldEdit)
    requires Target(d) == Target(e)
    ensures Apply(Apply(f, d), e) == Apply(f, e)
  {
    var de, fe := Apply(Apply(f, d), e), Apply(f, e);
    forall k
      ensures Get(de, k) == Get(fe, k)
    {
    }
    FormExtensionality(de, fe);
  }

  // ---------------------------------------------------------------------
  // The submit handler
  // ---------------------------------------------------------------------

  datatype Status = Idle | Success | Error

  /**
   * What the page learns from its request: the relay answered with an ok
   * status and maybe a `message`, or with another status and maybe an
   * `error`, or the request or the reading of its JSON body threw.
   */
  datatype Reply = Ok(message: Option<string>) | NotOk(error: Option<string>) | Thrown

  const ThanksFallback := "Thanks, your estimate request was sent."
  const CallInsteadFallback := "We could not send your request. Please call instead."
  const NetworkFailure := "Network error. Please try again or call us directly."

  /** The page's four state cells. */
  datatype PageState = PageState(form: EstimateForm, isSubmitting: bool, status: Status, feedback: string)

  const InitialState := PageState(InitialForm, false, Idle, "")

  /** Whether a submit event sends a request: the gate is open and no request is in flight. */
  predicate Starts(s: PageState) {
    CanSubmit(s.form) && !s.isSubmitting
  }

  /**
   * The part of the handler that runs before the request: the banner is
   * cleared, and the request is started (marking the page as submitting)
   * only when `Starts` holds.
   */
  function AfterBegin(s: PageState): (t: PageState)
    ensures t.form == s.form
    ensures t.status == Idle && t.feedback == ""
    ensures t.isSubmitting <==> s.isSubmitting || CanSubmit(s.form)
  {
    PageState(s.form, s.isSubmitting || Starts(s), Idle, "")
  }

  /**
   * The part of the handler that runs once the request has settled, on
   * the state the page is in by then: success resets the form, every path
   * ends with the page no longer submitting.
   */
  function AfterReply(s: PageState, reply: Reply): (t: PageState)
    ensures !t.isSubmitting
    ensures t.status == Success <==> reply.Ok?
    ensures t.status != Idle
    ensures t.form == (if reply.Ok? then InitialForm else s.form)
    ensures reply.Ok? ==> t.feedback == reply.message.GetOr(ThanksFallback)
    ensures reply.NotOk? ==> t.feedback == reply.error.GetOr(CallInsteadFallback)
    ensures reply.Thrown? ==> t.feedback == NetworkFailure
  {
    match reply
    case Ok(m) => PageState(InitialForm, false, Success, m.GetOr(ThanksFallback))
    case NotOk(e) => PageState(s.form, false, Error, e.GetOr(CallInsteadFallback))
    case Thrown => PageState(s.form, false, Error, NetworkFailure)
  }

  /** A whole submit event with no edits while the request is in flight. */
  function AfterSubmit(s: PageState, reply: Reply): (t: PageState)
  {
    if Starts(s) then AfterReply(AfterBegin(s), reply) else AfterBegin(s)
  }

  /** A submit the gate refuses, or one made while a request is in flight, only clears the banner. */
  lemma BlockedSubmitOnlyClears(s: PageState, reply: Reply)
    requires !Starts(s)
    ensures AfterSubmit(s, reply) == s.(status := Idle, feedback := "")
  {
  }

  /** While a request is in flight a second submit sends nothing. */
  lemma NoDoubleSubmit(s: PageState)
    requires Starts(s)
    ensures AfterBegin(s).isSubmitting
    ensures !Starts(AfterBegin(s))
  {
  }

  /** A submit that started ends with the page no longer submitting, whatever the reply. */
  lemma SubmitEndsIdle(s: PageState, reply: Reply)
    requires !s.isSubmitting
    ensures !AfterSubmit(s, reply).isSubmitting
  {
  }

  /** After a successful send the form is empty again, so the button is disabled until it is refilled. */
  lemma SuccessBlocksResubmit(s: PageState, reply: Reply)
    requires Starts(s) && reply.Ok?
    ensures AfterSubmit(s, reply).form == InitialForm
    ensures !Starts(AfterSubmit(s, reply))
  {
    InitialFormBlocked();
  }

  /** A failed send keeps what the user typed. */
  lemma FailureKeepsForm(s: PageState, reply: Reply)
    requires !reply.Ok?
    ensures AfterSubmit(s, reply).form == s.form
    ensures Starts(s) ==> AfterSubmit(s, reply).status == Error
  {
  }

  /** The banner is shown exactly when there is feedback: an idle page never shows one. */
  predicate Quiet(s: PageState) {
    s.status == Idle ==> s.feedback == ""
  }

  /** Every state the page can reach keeps an idle page free of feedback. */
  lemma QuietPreserved(s: PageState, reply: Reply, e: FieldEdit)
    requires Quiet(s)
    ensures Quiet(InitialState)
    ensures Quiet(AfterBegin(s))
    ensures Quiet(AfterReply(s, reply))
    ensures Quiet(s.(form := Apply(s.form, e)))
  {
  }

  /**
   * `response.ok` and the JSON body, as the page sees the relay's
   * response: a status from 200 to 299 is ok and its `message` is read;
   * any other status is not and its `error` is read.
   */
  function ReplyOf(r: Relay.Response): (reply: Reply)
    ensures reply.Ok? <==> 200 <= r.status <= 299
    ensures reply.Ok? && r.body.Message? ==> reply.message == Some(r.body.text)
    ensures reply.NotOk? && r.body.Error? ==> reply.error == Some(r.body.text)
    ensures !(200 <= r.status <= 299) ==> reply.NotOk?
    ensures reply.Ok? ==> (reply.message.Some? <==> r.body.Message?)
    ensures reply.NotOk? ==> (reply.error.Some? <==> r.body.Error?)
  {
    if 200 <= r.status <= 299 then
      Ok(if r.body.Message? then Some(r.body.text) else None)
    else
      NotOk(if r.body.Error? then Some(r.body.text) else None)
  }

  /**
   * End to end: when the page sends its form to the relay and the relay's
   * response reaches it, the page shows exactly the relay's message, marks
   * success exactly when the relay answered 200, and clears the form only
   * then. The relay never answers a submission the page let through with
   * its missing-fields error.
   */
  lemma PageShowsRelayAnswer(s: PageState, env: Relay.Env, provider: Relay.ProviderReply)
    requires Starts(s)
    ensures var r := Relay.Handle(Some(ToPayload(s.form)), env, provider).response;
            var t := AfterSubmit(s, ReplyOf(r));
            && r != Relay.Response(400, Relay.Error(Relay.MissingFields))
            && t.feedback == r.body.text
            && (t.status == Success <==> r.status == 200)
            && t.form == (if r.status == 200 then InitialForm else s.form)
            && !t.isSubmitting
  {
    var p := ToPayload(s.form);
    CanSubmitMeetsRequired(s.form);
    if !Relay.IsSpam(p) {
      Relay.CheckOrder(Relay.CleanRequest(p), env);
    }
  }

  // ---------------------------------------------------------------------
  // The page
  // ---------------------------------------------------------------------

  /** The contact page's state cells, updated in place by its handlers. */
  class ContactPage {
    var form: EstimateForm
    var isSubmitting: bool
    var status: Status
    var feedback: string

    function State(): PageState
      reads this
    {
      PageState(form, isSubmitting, status, feedback)
    }

    /** The page as first rendered. */
    constructor ()
      ensures State() == InitialState
    {
      form := InitialForm;
      isSubmitting := false;
      status := Idle;
      feedback := "";
    }

    /** An input's `onChange`: one field of the form is replaced, nothing else changes. */
    method Edit(e: FieldEdit)
      modifies this
      ensures form == Apply(old(form), e)
      ensures isSubmitting == old(isSubmitting) && status == old(status) && feedback == old(feedback)
    {
      form := Apply(form, e);
    }

    /** The handler up to the request: clear the banner, then start only if the gate is open and nothing is in flight. */
    method Begin() returns (started: bool)
      modifies this
      ensures started == Starts(old(State()))
      ensures State() == AfterBegin(old(State()))
    {
      var canSubmit := CanSubmit(form);
      status := Idle;
      feedback := "";
      if !canSubmit || isSubmitting {
        return false;
      }
      isSubmitting := true;
      started := true;
    }

    /** The handler after the request has settled: record the outcome and, in every case, stop submitting. */
    method Finish(reply: Reply)
      modifies this
      ensures State() == AfterReply(old(State()), reply)
    {
      match reply {
        case NotOk(e) =>
          status := Error;
          feedback := e.GetOr(CallInsteadFallback);
        case Ok(m) =>
          status := Success;
          feedback := m.GetOr(ThanksFallback);
          form := InitialForm;
        case Thrown =>
          status := Error;
          feedback := NetworkFailure;
      }
      isSubmitting := false;
    }

    /** `handleSubmit` when nothing else happens while the request is in flight. */
    method Submit(reply: Reply)
      modifies this
      ensures State() == AfterSubmit(old(State()), reply)
    {
      var started := Begin();
      if started {
        Finish(reply);
      }
    }
  }
}
