/** The contact endpoint of src/app/api/inquiries/route.ts: validate an
    inquiry, store it in the `inquiries` table, then ask the e-mail function
    to forward it. */
module InquiriesRoute {

  import opened Wrappers
  import opened Text

  const FIELDS_REQUIRED: string := "Name, email, and message are required."
  const URL_NOT_SET: string := "NEXT_PUBLIC_SUPABASE_URL is not set."
  const KEY_NOT_SET: string := "SUPABASE_SERVICE_ROLE_KEY is not set."
  const ENV_MISSING: string := "Supabase environment variables are missing."
  const NOTIFY_FAILED: string := "Failed to send inquiry email."
  const FUNCTION_PATH: string := "/functions/v1/send-inquiry-email"

  /** The string fields of the parsed body; an absent or null field is `None`. */
  datatype InquiryBody = InquiryBody(name: Option<string>, email: Option<string>, message: Option<string>, project: Option<string>)

  /** An accepted inquiry: trimmed fields, and `None` for an empty project. */
  datatype Inquiry = Inquiry(name: string, email: string, message: string, project: Option<string>)

  /** The two environment values the route reads. */
  datatype Config = Config(supabaseUrl: Option<string>, serviceRoleKey: Option<string>)

  /** The JSON answer. */
  datatype Reply = Ok | Error(status: int, message: string)

  /** The request made to the e-mail function: its URL, the bearer key and
      the inquiry as the JSON body. */
  datatype Notification = Notification(url: string, bearer: string, inquiry: Inquiry)

  /** What the e-mail function answered: success, or a failure with its
      response text. */
  datatype NotifyAnswer = Delivered | Refused(text: string)

  predicate Given(v: Option<string>) {
    v.Some? && v.value != ""
  }

  /** The checks on the body: each field is trimmed, and an empty name, e-mail
      or message refuses the request with 400. */
  function ValidateInquiry(body: InquiryBody): (r: Result<Inquiry, Reply>)
    ensures r.Failure? <==>
      Trim(body.name.GetOr("")) == "" || Trim(body.email.GetOr("")) == "" || Trim(body.message.GetOr("")) == ""
    ensures r.Failure? ==> r.error == Error(400, FIELDS_REQUIRED)
    ensures r.Success? ==>
      && r.value.name == Trim(body.name.GetOr(""))
      && r.value.email == Trim(body.email.GetOr(""))
      && r.value.message == Trim(body.message.GetOr(""))
      && IsTrimmed(r.value.name) && IsTrimmed(r.value.email) && IsTrimmed(r.value.message)
      && (r.value.project.None? <==> Trim(body.project.GetOr("")) == "")
      && (r.value.project.Some? ==> r.value.project.value == Trim(body.project.GetOr("")))
  {
    var name := Trim(body.name.GetOr(""));
    var email := Trim(body.email.GetOr(""));
    var message := Trim(body.message.GetOr(""));
    var project := Trim(body.project.GetOr(""));
    if name == "" || email == "" || message == "" then Failure(Error(400, FIELDS_REQUIRED))
    else Success(Inquiry(name, email, message, if project == "" then None else Some(project)))
  }

  /** Trimming already-trimmed fields changes nothing: an accepted inquiry
      sent again is accepted as itself. */
  lemma ValidateIdempotent(body: InquiryBody)
    requires ValidateInquiry(body).Success?
    ensures var q := ValidateInquiry(body).value;
      ValidateInquiry(InquiryBody(Some(q.name), Some(q.email), Some(q.message), q.project)) == Success(q)
  {
    var q := ValidateInquiry(body).value;
    TrimOfTrimmed(q.name);
    TrimOfTrimmed(q.email);
    TrimOfTrimmed(q.message);
    if q.project.Some? {
      TrimOfTrimmed(q.project.value);
    }
  }

  /** `getSupabaseAdmin()`: the service client needs both values; the URL
      is checked first. */
  function AdminClient(config: Config): (r: Option<string>)
    ensures r.None? <==> Given(config.supabaseUrl) && Given(config.serviceRoleKey)
    ensures !Given(config.supabaseUrl) ==> r == Some(URL_NOT_SET)
    ensures Given(config.supabaseUrl) && !Given(config.serviceRoleKey) ==> r == Some(KEY_NOT_SET)
  {
    if !Given(config.supabaseUrl) then Some(URL_NOT_SET)
    else if !Given(config.serviceRoleKey) then Some(KEY_NOT_SET)
    else None
  }

  /** `notifyInquiry`: the request it makes, or the message it throws before
      making one. */
  function NotifyRequest(config: Config, inquiry: Inquiry): (r: Result<Notification, string>)
    ensures r.Failure? <==> !(Given(config.supabaseUrl) && Given(config.serviceRoleKey))
    ensures r.Failure? ==> r.error == ENV_MISSING
    ensures r.Success? ==>
      && r.value.url == config.supabaseUrl.value + FUNCTION_PATH
      && r.value.bearer == config.serviceRoleKey.value
      && r.value.inquiry == inquiry
  {
    if !Given(config.supabaseUrl) || !Given(config.serviceRoleKey) then Failure(ENV_MISSING)
    else Success(Notification(config.supabaseUrl.value + FUNCTION_PATH, config.serviceRoleKey.value, inquiry))
  }

  /** The message `notifyInquiry` throws on a refused request. */
  function RefusalMessage(text: string): (m: string)
    ensures m != ""
    ensures text != "" ==> m == text
  {
    if text != "" then text else NOTIFY_FAILED
  }

  /** The `inquiries` table, as an append-only log. */
  class InquiryLog {
    var rows: seq<Inquiry>

    constructor ()
      ensures rows == []
    {
      rows := [];
    }

    /** `POST /api/inquiries`. `body` is the parsed JSON or the parse error's
        message; `insertError` the database's answer to the insert;
        `answer` the e-mail function's answer, used only once it is called.
        `sent` is the notification request made, if any. */
    method Post(body: Result<InquiryBody, string>, config: Config, insertError: Option<string>, answer: NotifyAnswer)
      returns (reply: Reply, sent: Option<Notification>)
      modifies this
      ensures body.Failure? ==> reply == Error(400, body.error) && rows == old(rows) && sent.None?
      ensures body.Success? && ValidateInquiry(body.value).Failure? ==>
        reply == Error(400, FIELDS_REQUIRED) && rows == old(rows) && sent.None?
      ensures body.Success? && ValidateInquiry(body.value).Success? && AdminClient(config).Some? ==>
        reply == Error(400, AdminClient(config).value) && rows == old(rows) && sent.None?
      ensures body.Success? && ValidateInquiry(body.value).Success? && AdminClient(config).None? && insertError.Some? ==>
        reply == Error(500, insertError.value) && rows == old(rows) && sent.None?
      ensures body.Success? && ValidateInquiry(body.value).Success? && AdminClient(config).None? && insertError.None? ==>
        && rows == old(rows) + [ValidateInquiry(body.value).value]
        && sent == Some(NotifyRequest(config, ValidateInquiry(body.value).value).value)
        && reply == if answer.Delivered? then Ok else Error(400, RefusalMessage(answer.text))
      ensures sent.Some? ==> |rows| == |old(rows)| + 1 && sent.value.inquiry == rows[|rows| - 1]
      ensures reply == Ok ==> sent.Some?
    {
      sent := None;
      if body.Failure? {
        return Error(400, body.error), None;
      }
      var checked := ValidateInquiry(body.value);
      if checked.Failure? {
        return checked.error, None;
      }
      var inquiry := checked.value;
      var clientError := AdminClient(config);
      if clientError.Some? {
        return Error(400, clientError.value), None;
      }
      if insertError.Some? {
        return Error(500, insertError.value), None;
      }
      rows := rows + [inquiry];
      var request := NotifyRequest(config, inquiry);
      if request.Failure? {
        // The service client already required both values.
        assert false;
      }
      sent := Some(request.value);
      reply := if answer.Delivered? then Ok else Error(400, RefusalMessage(answer.text));
    }
  }

  /** The configuration check inside `notifyInquiry` never fails in the
      route: the service client has already required both values. */
  lemma NotifyConfigAlreadyChecked(config: Config, inquiry: Inquiry)
    requires AdminClient(config).None?
    ensures NotifyRequest(config, inquiry).Success?
  {
  }

  /** Whatever the e-mail function answers, a valid inquiry that the
      database accepts is stored exactly once. */
  method StoredDespiteRefusal(log: InquiryLog, body: InquiryBody, config: Config, text: string)
    returns (reply: Reply)
    requires ValidateInquiry(body).Success? && AdminClient(config).None?
    modifies log
    ensures reply == Error(400, RefusalMessage(text))
    ensures log.rows == old(log.rows) + [ValidateInquiry(body).value]
  {
    var sent;
    reply, sent := log.Post(Success(body), config, None, Refused(text));
  }
}
