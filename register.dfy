/** The HR registration form: the two checks made before anything is sent,
    the body posted to `/register/hr/`, and the page's loading flag around
    that request. */
module Register {
  import opened Common

  /** The six inputs of the form. */
  datatype RegisterForm = RegisterForm(
    fullName: string,
    email: string,
    password: string,
    confirmPassword: string,
    organization: string,
    phone: string)

  /** The posted body, with the keys `full_name`, `email`, `password`,
      `organization_name` and `contact_number`. */
  datatype Payload = Payload(
    fullName: string,
    email: string,
    password: string,
    organizationName: string,
    contactNumber: string)

  datatype Validation = Accepted(payload: Payload) | Refused(alert: string)

  const MismatchAlert: string := "Passwords do not match!"
  const RequiredAlert: string := "Please fill all required fields!"
  const SuccessAlert: string := "Registered successfully! You can now log in."
  const FailureAlert: string := "Registration failed. Check console for details."

  /** The body built from the inputs; the confirmation is not sent. */
  function PayloadOf(f: RegisterForm): Payload {
    Payload(f.fullName, f.email, f.password, f.organization, f.phone)
  }

  /** A form filled in from a body, with the confirmation typed correctly. */
  function FormOf(p: Payload): RegisterForm {
    RegisterForm(p.fullName, p.email, p.password, p.password, p.organizationName, p.contactNumber)
  }

  /** A required input is empty. */
  predicate MissingRequired(f: RegisterForm) {
    f.fullName == "" || f.email == "" || f.password == ""
  }

  /** The checks of `handleSubmit`: a mismatched confirmation is refused
      first, then an empty full name, email or password. Only a form that
      passes both yields a body. */
  function Validate(f: RegisterForm): (r: Validation)
    ensures r.Accepted? <==> f.password == f.confirmPassword && !MissingRequired(f)
    ensures f.password != f.confirmPassword ==> r == Refused(MismatchAlert)
    ensures f.password == f.confirmPassword && MissingRequired(f) ==> r == Refused(RequiredAlert)
    ensures r.Accepted? ==> r.payload.fullName == f.fullName && r.payload.email == f.email
                            && r.payload.password == f.password
                            && r.payload.organizationName == f.organization
                            && r.payload.contactNumber == f.phone
  {
    if f.password != f.confirmPassword then Refused(MismatchAlert)
    else if MissingRequired(f) then Refused(RequiredAlert)
    else Accepted(PayloadOf(f))
  }

  /** The organization and phone inputs are optional: they never decide
      whether the form is accepted. */
  lemma OptionalFieldsIgnored(f: RegisterForm, organization: string, phone: string)
    ensures Validate(f.(organization := organization, phone := phone)).Accepted? == Validate(f).Accepted?
  {
  }

  /** The body determines the form up to the confirmation: a body read back
      from its own form is the same body, and that form is accepted exactly
      when the three required keys are non-empty. */
  lemma PayloadRoundTrip(p: Payload)
    ensures PayloadOf(FormOf(p)) == p
    ensures Validate(FormOf(p)).Accepted? <==> p.fullName != "" && p.email != "" && p.password != ""
    ensures Validate(FormOf(p)).Accepted? ==> Validate(FormOf(p)).payload == p
  {
  }

  /** A form that passes the checks is the form of its own body. */
  lemma AcceptedFormIsFormOfPayload(f: RegisterForm)
    requires Validate(f).Accepted?
    ensures FormOf(Validate(f).payload) == f
  {
  }

  /** The registration page's own state: the loading flag and the route it
      has navigated to, if any. */
  class RegisterPage {
    var isLoading: bool
    var navigatedTo: Option<string>

    constructor ()
      ensures !isLoading && navigatedTo == None
    {
      isLoading := false;
      navigatedTo := None;
    }

    /** `handleSubmit` up to its `await`. A refused form raises its alert and
        sends nothing. An accepted form sets the loading flag and posts its
        body. */
    method BeginSubmit(f: RegisterForm) returns (request: Option<Payload>, alert: Option<string>)
      modifies this`isLoading
      ensures Validate(f).Refused? ==>
                request == None && alert == Some(Validate(f).alert) && isLoading == old(isLoading)
      ensures Validate(f).Accepted? ==>
                request == Some(PayloadOf(f)) && alert == None && isLoading
    {
      var v := Validate(f);
      if v.Refused? {
        return None, Some(v.alert);
      }
      isLoading := true;
      request := Some(v.payload);
      alert := None;
    }

    /** `handleSubmit` after its `await`. A success raises the success alert
        and goes to the landing route; a failure raises the failure alert.
        Either way the loading flag is cleared. */
    method FinishSubmit(posted: bool) returns (alert: string)
      modifies this`isLoading, this`navigatedTo
      ensures !isLoading
      ensures posted ==> alert == SuccessAlert && navigatedTo == Some("/")
      ensures !posted ==> alert == FailureAlert && navigatedTo == old(navigatedTo)
    {
      if posted {
        alert := SuccessAlert;
        navigatedTo := Some("/");
      } else {
        alert := FailureAlert;
      }
      isLoading := false;
    }
  }

  /** A form the browser lets through (every input filled in) whose two
      passwords differ gets the mismatch alert, and the page does not start
      loading. */
  method MismatchScenario(name: string, email: string, password: string, confirm: string)
    returns (page: RegisterPage, request: Option<Payload>, alert: Option<string>)
    requires name != "" && email != "" && password != "" && confirm != "" && password != confirm
    ensures alert == Some(MismatchAlert) && request == None
    ensures !page.isLoading && page.navigatedTo == None
  {
    page := new RegisterPage();
    request, alert := page.BeginSubmit(RegisterForm(name, email, password, confirm, "", ""));
  }
}
