/**
 * The blood-request page: the form state, `handleChange`, and `handleSubmit`
 * with its two ordered checks before the request is sent. The network call
 * is a parameter: what the API client answered or threw.
 */
module RequestForm {
  import opened Wrappers
  import opened Http
  import opened Schemas
  import Text
  import BloodRequests

  const RequiredMessage := "Please fill in all required fields"
  const RangeMessage := "Units requested must be between 1 and 10"
  const SubmittedMessage := "Blood request submitted successfully! Waiting for admin approval."
  const FailedMessage := "Failed to submit blood request. Please try again."

  /** The fields the form's inputs are named after. */
  const FormFields: set<string> :=
    {"bloodGroup", "unitsRequested", "urgency", "reason", "hospitalName", "contactNumber"}

  /** The form's starting state: one unit, normal urgency, everything else empty. */
  const InitialForm: Body := map[
    "bloodGroup" := JStr(""), "unitsRequested" := JNum(1), "urgency" := JStr("normal"),
    "reason" := JStr(""), "hospitalName" := JStr(""), "contactNumber" := JStr("")]

  /** What `api.createBloodRequest` did: answered with a status code and success flag, or threw. */
  datatype Reply = Answered(statusCode: int, success: bool) | Thrown(message: string)

  /** `handleChange`: `{...formData, [name]: value}`. */
  function Changed(form: Body, name: string, value: Json): (r: Body)
    ensures name in r && r[name] == value
    ensures r.Keys == form.Keys + {name}
    ensures forall k :: k in form && k != name ==> r[k] == form[k]
  {
    form[name := value]
  }

  /** Whether the four required fields are all truthy. */
  predicate RequiredFilled(form: Body) {
    && Truthy(Get(form, "bloodGroup")) && Truthy(Get(form, "reason"))
    && Truthy(Get(form, "hospitalName")) && Truthy(Get(form, "contactNumber"))
  }

  /** `formData.unitsRequested` as `<` sees it: a number, or a string converted (None is NaN). */
  function UnitsValue(v: Option<Json>): Option<int> {
    match v
    case None => None
    case Some(JNum(n)) => Some(n)
    case Some(JStr(s)) => Text.StringToNumber(s)
  }

  /** `unitsRequested < 1 || unitsRequested > 10`: every comparison with NaN is false. */
  predicate OutOfRange(form: Body) {
    var u := UnitsValue(Get(form, "unitsRequested"));
    u.Some? && (u.value < 1 || u.value > 10)
  }

  /**
   * The checks of `handleSubmit`, in order: the required fields, then the
   * units range. None means the request is sent.
   */
  function CheckForm(form: Body): (r: Option<string>)
    ensures r == Some(RequiredMessage) <==> !RequiredFilled(form)
    ensures r == Some(RangeMessage) <==> RequiredFilled(form) && OutOfRange(form)
    ensures r.None? <==> RequiredFilled(form) && !OutOfRange(form)
    ensures r.None? ==>
              var u := UnitsValue(Get(form, "unitsRequested"));
              u.None? || 1 <= u.value <= 10
  {
    if !RequiredFilled(form) then Some(RequiredMessage)
    else if OutOfRange(form) then Some(RangeMessage)
    else None
  }

  /** `response.statusCode === 201 || response.success`. */
  predicate Accepted(statusCode: int, success: bool) {
    statusCode == 201 || success
  }

  /** The `error` and `success` messages once the request has been sent and settled. */
  function Outcome(reply: Reply): (m: (string, string))
    ensures reply.Answered? && Accepted(reply.statusCode, reply.success) ==> m == ("", SubmittedMessage)
    ensures reply.Answered? && !Accepted(reply.statusCode, reply.success) ==> m == ("", "")
    ensures reply.Thrown? ==> m.1 == "" && m.0 != ""
  {
    match reply
    case Answered(statusCode, success) => if Accepted(statusCode, success) then ("", SubmittedMessage) else ("", "")
    case Thrown(message) => (if message != "" then message else FailedMessage, "")
  }

  /** The body the page sends as written: the form itself, whose units are under `unitsRequested`. */
  function RequestBodyAsWritten(form: Body): Body {
    form
  }

  /** The body the handler can read: the form with its units also under `units`. */
  function RequestBody(form: Body): (b: Body)
    ensures "unitsRequested" in form ==> "units" in b && b["units"] == form["unitsRequested"]
    ensures forall k :: k in form && k != "units" ==> k in b && b[k] == form[k]
  {
    if "unitsRequested" in form then form["units" := form["unitsRequested"]] else form
  }

  class RequestBloodPage {
    var formData: Body
    var error: string
    var success: string
    var isLoading: bool
    /** The bodies handed to the API client so far. */
    var sent: seq<Body>

    constructor()
      ensures formData == InitialForm && error == "" && success == "" && !isLoading && sent == []
    {
      formData := InitialForm;
      error := "";
      success := "";
      isLoading := false;
      sent := [];
    }

    /** `handleChange`: only the named field changes. */
    method HandleChange(name: string, value: Json)
      modifies this
      ensures formData == Changed(old(formData), name, value)
      ensures error == old(error) && success == old(success) && isLoading == old(isLoading) && sent == old(sent)
    {
      formData := formData[name := value];
    }

    /**
     * `handleSubmit`: clear both messages; stop with the first failed check;
     * otherwise mark loading, send the form as it stands, record the outcome
     * and clear loading.
     */
    method HandleSubmit(reply: Reply)
      modifies this
      ensures formData == old(formData)
      ensures CheckForm(formData).Some? ==>
                && error == CheckForm(formData).value && success == ""
                && sent == old(sent) && isLoading == old(isLoading)
      ensures CheckForm(formData).None? ==>
                && sent == old(sent) + [RequestBodyAsWritten(formData)]
                && (error, success) == Outcome(reply)
                && !isLoading
    {
      error := "";
      success := "";
      var problem := CheckForm(formData);
      if problem.Some? {
        error := problem.value;
        return;
      }
      isLoading := true;
      sent := sent + [RequestBodyAsWritten(formData)];
      var messages := Outcome(reply);
      error := messages.0;
      success := messages.1;
      isLoading := false;
    }
  }

  /** The untouched form is refused for its empty required fields. */
  lemma InitialFormIncomplete()
    ensures CheckForm(InitialForm) == Some(RequiredMessage)
  {
    assert !Truthy(Get(InitialForm, "bloodGroup"));
  }

  /** Urgency is never validated: changing it does not change the verdict. */
  lemma UrgencyNotValidated(form: Body, v: Json)
    ensures CheckForm(Changed(form, "urgency", v)) == CheckForm(form)
  {
    var f := Changed(form, "urgency", v);
    assert Get(f, "bloodGroup") == Get(form, "bloodGroup") && Get(f, "reason") == Get(form, "reason");
    assert Get(f, "hospitalName") == Get(form, "hospitalName") && Get(f, "contactNumber") == Get(form, "contactNumber");
    assert Get(f, "unitsRequested") == Get(form, "unitsRequested");
  }

  /** A form that fails both checks reports the missing fields: the required check comes first. */
  lemma RequiredCheckedFirst(form: Body)
    requires !RequiredFilled(form) && OutOfRange(form)
    ensures CheckForm(form) == Some(RequiredMessage)
  {
  }

  /** Filling the four required fields of the initial form is enough (one unit is in range). */
  lemma FilledInitialFormPasses(group: string, reason: string, hospital: string, contact: string)
    requires group != "" && reason != "" && hospital != "" && contact != ""
    ensures var f := Changed(Changed(Changed(Changed(InitialForm,
                       "bloodGroup", JStr(group)), "reason", JStr(reason)),
                       "hospitalName", JStr(hospital)), "contactNumber", JStr(contact));
            CheckForm(f).None?
  {
    var f := Changed(Changed(Changed(Changed(InitialForm,
               "bloodGroup", JStr(group)), "reason", JStr(reason)),
               "hospitalName", JStr(hospital)), "contactNumber", JStr(contact));
    assert Get(f, "unitsRequested") == Some(JNum(1));
    assert RequiredFilled(f);
  }

  /**
   * As written, the page sends its form unchanged, and a form has no `units`
   * field, so the handler refuses every submission with 400.
   */
  lemma AsWrittenSubmissionRefused(db: Db, caller: Id, form: Body)
    requires form.Keys <= FormFields
    ensures BloodRequests.Create(db, caller, RequestBodyAsWritten(form)) == Step(db, Err(BloodRequests.MissingFields))
  {
    assert "units" !in form;
  }

  /**
   * With the units copied to `units`, a form that passes the page's checks
   * with a numeric unit count creates a pending request for that many units.
   */
  lemma {:induction false} CorrectedSubmissionAccepted(db: Db, caller: Id, form: Body)
    requires CheckForm(form).None?
    requires UnitsValue(Get(form, "unitsRequested")).Some?
    ensures var out := BloodRequests.Create(db, caller, RequestBody(form));
            && out.reply.Ok?
            && out.reply.value.status == Pending
            && out.reply.value.units == UnitsValue(Get(form, "unitsRequested")).value
            && 1 <= out.reply.value.units <= 10
  {
    var body := RequestBody(form);
    var v := form["unitsRequested"];
    var n := UnitsValue(Get(form, "unitsRequested")).value;
    assert body["units"] == v;
    assert body["bloodGroup"] == form["bloodGroup"];
    assert 1 <= n <= 10;
    match v
    case JNum(_) =>
    case JStr(s) =>
      assert s != "";
      assert CastNumber(v) == Some(n);
  }
}
