/** The e-mail function of supabase/functions/send-inquiry-email/index.ts:
    check the request and the configuration, then build the notification
    e-mail for an inquiry and hand it to the mail provider. */
module SendInquiryEmail {

  import opened Wrappers
  import opened Text

  const DEFAULT_FROM: string := "Portfolio <onboarding@resend.dev>"
  const SUBJECT_PREFIX: string := "New inquiry about "
  const PLAIN_SUBJECT: string := "New portfolio inquiry"
  const LINE_BREAK: string := "<br />"
  const SEND_FAILED: string := "Failed to send email."
  const OK_BODY: string := "{\"ok\":true}"

  /** The string fields of the parsed body; an absent or null field is `None`. */
  datatype Payload = Payload(name: Option<string>, email: Option<string>, message: Option<string>, project: Option<string>)

  /** `RESEND_API_KEY`, `INQUIRY_NOTIFY_EMAIL` and `INQUIRY_FROM_EMAIL`. */
  datatype Env = Env(resendKey: Option<string>, notifyEmail: Option<string>, fromEmail: Option<string>)

  /** The message handed to the mail provider. */
  datatype Email = Email(from: string, to: seq<string>, replyTo: string, subject: string, html: string)

  /** The mail provider's answer: accepted, or refused with its response text. */
  datatype ProviderAnswer = Accepted | Refused(text: string)

  /** The HTTP response, and the e-mail sent on the way, if any. */
  datatype Outcome = Outcome(status: int, body: string, sent: Option<Email>)

  predicate Given(v: Option<string>) {
    v.Some? && v.value != ""
  }

  /** `payload?.field?.trim()`, with an absent field as the empty string. */
  function Field(v: Option<string>): (r: string)
    ensures IsTrimmed(r)
    ensures v.None? ==> r == ""
  {
    if v.Some? then Trim(v.value) else ""
  }

  // ---- message formatting

  /** `message.replace(/\n/g, "<br />")`. */
  function BreakLines(s: string): (r: string)
    ensures '\n' !in r
    ensures |r| >= |s|
  {
    if s == [] then []
    else (if s[0] == '\n' then LINE_BREAK else [s[0]]) + BreakLines(s[1..])
  }

  /** Replacing every newline is splitting on newlines and joining the
      pieces with `<br />`. */
  lemma {:induction false} BreakLinesIsSplitJoin(s: string)
    ensures BreakLines(s) == Join(Split(s, '\n'), LINE_BREAK)
    decreases |s|
  {
    if s != [] {
      BreakLinesIsSplitJoin(s[1..]);
      var rest := Split(s[1..], '\n');
      if s[0] == '\n' {
        assert Split(s, '\n') == [""] + rest;
      } else {
        assert Split(s, '\n') == [[s[0]] + rest[0]] + rest[1..];
        JoinConsHead(s[0], rest, LINE_BREAK);
      }
    }
  }

  /** Putting a character before the first piece puts it before the join. */
  lemma JoinConsHead(c: char, xs: seq<string>, sep: string)
    requires |xs| >= 1
    ensures Join([[c] + xs[0]] + xs[1..], sep) == [c] + Join(xs, sep)
  {
    var ys := [[c] + xs[0]] + xs[1..];
    assert ys[1..] == xs[1..];
    if |xs| > 1 {
      assert Join(ys, sep) == ys[0] + sep + Join(ys[1..], sep);
    }
  }

  /** A message without newlines is shown as it is. */
  lemma {:induction false} SingleLineUnchanged(s: string)
    requires '\n' !in s
    ensures BreakLines(s) == s
    decreases |s|
  {
    if s != [] {
      SingleLineUnchanged(s[1..]);
      assert [s[0]] + s[1..] == s;
    }
  }

  // ---- subject, sender and body

  /** The subject names the project when there is one. */
  function Subject(project: string): (subject: string)
    ensures project != "" ==> subject == SUBJECT_PREFIX + project
    ensures project == "" ==> subject == PLAIN_SUBJECT
  {
    if project != "" then SUBJECT_PREFIX + project else PLAIN_SUBJECT
  }

  /** A subject naming a project is never the plain one. */
  lemma SubjectNotPlain(p: string)
    requires p != ""
    ensures Subject(p) != PLAIN_SUBJECT
  {
    assert Subject(p)[4] != PLAIN_SUBJECT[4];
  }

  /** Different projects give different subjects, and no project's subject
      is the plain one: the subject tells which project, if any, was asked
      about. */
  lemma SubjectInjective(p: string, q: string)
    requires Subject(p) == Subject(q)
    ensures p == q
  {
    if p != "" {
      SubjectNotPlain(p);
      assert p == Subject(p)[|SUBJECT_PREFIX|..];
    }
    if q != "" {
      SubjectNotPlain(q);
      assert q == Subject(q)[|SUBJECT_PREFIX|..];
    }
  }

  /** The sender: the configured one, or the default when it is unset or empty. */
  function Sender(fromEmail: Option<string>): (from: string)
    ensures Given(fromEmail) ==> from == fromEmail.value
    ensures !Given(fromEmail) ==> from == DEFAULT_FROM
  {
    if Given(fromEmail) then fromEmail.value else DEFAULT_FROM
  }

  /** The project paragraph, present only for a project. */
  function ProjectLine(project: string): (line: string)
    ensures line == "" <==> project == ""
  {
    if project != "" then "<p><strong>Project:</strong> " + project + "</p>" else ""
  }

  const HTML_OPEN: string :=
    "\n    <div style=\"font-family: Arial, sans-serif; line-height: 1.6;\">\n"
    + "      <h2 style=\"margin-bottom: 8px;\">New inquiry</h2>\n"
    + "      <p><strong>Name:</strong> "
  const NAME_END: string := "</p>\n      <p><strong>Email:</strong> "
  const EMAIL_END: string := "</p>\n      "
  const MESSAGE_OPEN: string := "\n      <p><strong>Message:</strong></p>\n      <p>"
  const HTML_CLOSE: string := "</p>\n    </div>\n  "

  /** The lines of the template up to the project line. */
  function Header(name: string, email: string): string {
    HTML_OPEN + name + NAME_END + email + EMAIL_END
  }

  /** The message paragraph and the closing lines. */
  function MessageBlock(message: string): string {
    MESSAGE_OPEN + BreakLines(message) + HTML_CLOSE
  }

  /** The HTML body, as the template writes it. */
  function Html(name: string, email: string, project: string, message: string): string {
    Header(name, email) + ProjectLine(project) + MessageBlock(message)
  }

  /** A string occurs in itself. */
  lemma IncludesSelf(s: string)
    ensures Includes(s, s)
  {
    assert s <= s[0..];
  }

  /** The body shows the name, the address and the message with its line
      breaks as `<br />`. */
  lemma HtmlShowsFields(name: string, email: string, project: string, message: string)
    ensures Includes(Html(name, email, project, message), name)
    ensures Includes(Html(name, email, project, message), email)
    ensures Includes(Html(name, email, project, message), BreakLines(message))
  {
    var tail := ProjectLine(project) + MessageBlock(message);
    Regroup(Header(name, email), ProjectLine(project), MessageBlock(message));
    HeaderShows(name, email, tail);
    ShowsMiddleOfTail(Header(name, email) + ProjectLine(project), MESSAGE_OPEN, BreakLines(message), HTML_CLOSE);
  }

  /** Concatenation is associative. */
  lemma Regroup(x: string, y: string, z: string)
    ensures x + y + z == x + (y + z)
  {
  }

  /** In `x + (a + b + c)`, `b` occurs. */
  lemma ShowsMiddleOfTail(x: string, a: string, b: string, c: string)
    ensures Includes(x + (a + b + c), b)
  {
    assert x + (a + b + c) == (x + a) + b + c;
    IncludesSelf(b);
    IncludesInfix(x + a, b, c, b);
  }

  /** The header shows the name and the address, whatever follows it. */
  lemma HeaderShows(name: string, email: string, tail: string)
    ensures Includes(Header(name, email) + tail, name)
    ensures Includes(Header(name, email) + tail, email)
  {
    ShowsSecondAndFourth(HTML_OPEN, name, NAME_END, email, EMAIL_END, tail);
  }

  /** In `a + b + c + d + e + t`, both `b` and `d` occur. */
  lemma ShowsSecondAndFourth(a: string, b: string, c: string, d: string, e: string, t: string)
    ensures Includes(a + b + c + d + e + t, b)
    ensures Includes(a + b + c + d + e + t, d)
  {
    assert a + b + c + d + e + t == a + b + (c + d + e + t);
    IncludesSelf(b);
    IncludesInfix(a, b, c + d + e + t, b);
    assert a + b + c + d + e + t == (a + b + c) + d + (e + t);
    IncludesSelf(d);
    IncludesInfix(a + b + c, d, e + t, d);
  }

  /** The project line is there exactly when a project is given. */
  lemma HtmlNamesProject(name: string, email: string, project: string, message: string)
    ensures project != "" ==> Includes(Html(name, email, project, message), ProjectLine(project))
    ensures Html(name, email, project, message) == Html(name, email, "", message) <==> project == ""
  {
    IncludesSelf(ProjectLine(project));
    IncludesInfix(Header(name, email), ProjectLine(project), MessageBlock(message), ProjectLine(project));
    assert |Html(name, email, project, message)|
      == |Header(name, email)| + |ProjectLine(project)| + |MessageBlock(message)|;
  }

  /** The e-mail for an accepted inquiry, with trimmed fields. */
  function BuildEmail(env: Env, name: string, email: string, project: string, message: string): (m: Email)
    requires env.notifyEmail.Some?
    ensures m.to == [env.notifyEmail.value] && m.replyTo == email
    ensures m.from == Sender(env.fromEmail) && m.subject == Subject(project)
    ensures m.html == Html(name, email, project, message)
  {
    Email(Sender(env.fromEmail), [env.notifyEmail.value], email, Subject(project), Html(name, email, project, message))
  }

  // ---- the handler

  /** The function's handler. `body` is the parsed JSON or the parse error's
      message; `answer` is the provider's answer, used only once it is called. */
  function Handle(httpMethod: string, env: Env, body: Result<Payload, string>, answer: ProviderAnswer): (o: Outcome)
    ensures httpMethod != "POST" ==> o == Outcome(405, "Method Not Allowed", None)
    ensures httpMethod == "POST" && !(Given(env.resendKey) && Given(env.notifyEmail)) ==>
      o == Outcome(500, "Missing email configuration.", None)
    ensures httpMethod == "POST" && Given(env.resendKey) && Given(env.notifyEmail) && body.Success?
            && (Field(body.value.name) == "" || Field(body.value.email) == "" || Field(body.value.message) == "") ==>
      o == Outcome(400, "Missing inquiry fields.", None)
    ensures o.sent.Some? ==> o.sent.value.replyTo != "" && IsTrimmed(o.sent.value.replyTo)
    ensures o.status == 200 <==> o.sent.Some? && answer.Accepted?
    ensures o.status == 500 && o.sent.Some? ==> o.body != ""
  {
    if httpMethod != "POST" then Outcome(405, "Method Not Allowed", None)
    else if !Given(env.resendKey) || !Given(env.notifyEmail) then Outcome(500, "Missing email configuration.", None)
    else if body.Failure? then Outcome(400, "Invalid JSON payload.", None)
    else
      var name := Field(body.value.name);
      var email := Field(body.value.email);
      var message := Field(body.value.message);
      var project := Field(body.value.project);
      if name == "" || email == "" || message == "" then Outcome(400, "Missing inquiry fields.", None)
      else
        var sent := BuildEmail(env, name, email, project, message);
        match answer
        case Accepted => Outcome(200, OK_BODY, Some(sent))
        case Refused(text) => Outcome(500, if text != "" then text else SEND_FAILED, Some(sent))
  }

  /** The checks come in order: the method before anything else, the
      configuration before the body, the body before the provider. */
  lemma ChecksInOrder(httpMethod: string, env: Env, env': Env, body: Result<Payload, string>,
                      body': Result<Payload, string>, answer: ProviderAnswer, answer': ProviderAnswer)
    ensures httpMethod != "POST" ==> Handle(httpMethod, env, body, answer) == Handle(httpMethod, env', body', answer')
    ensures httpMethod == "POST" && !Given(env.resendKey) ==>
      Handle(httpMethod, env, body, answer) == Handle(httpMethod, env, body', answer')
    ensures httpMethod == "POST" && Given(env.resendKey) && Given(env.notifyEmail) && body.Failure? ==>
      Handle(httpMethod, env, body, answer) == Outcome(400, "Invalid JSON payload.", None)
  {
  }

  /** An inquiry with all three fields is mailed, exactly as `BuildEmail`
      builds it from the trimmed fields: from the configured or default
      sender to the notify address, with replies going to the submitter, the
      subject naming the project and the body showing the message. */
  lemma AcceptedInquiryMailed(env: Env, p: Payload, answer: ProviderAnswer)
    requires Given(env.resendKey) && Given(env.notifyEmail)
    requires Field(p.name) != "" && Field(p.email) != "" && Field(p.message) != ""
    ensures Handle("POST", env, Success(p), answer).sent
      == Some(BuildEmail(env, Field(p.name), Field(p.email), Field(p.project), Field(p.message)))
    ensures var o := Handle("POST", env, Success(p), answer);
      && o.sent.Some?
      && o.sent.value.from == Sender(env.fromEmail)
      && o.sent.value.to == [env.notifyEmail.value]
      && o.sent.value.replyTo == Field(p.email)
      && o.sent.value.subject == Subject(Field(p.project))
      && Includes(o.sent.value.html, BreakLines(Field(p.message)))
      && (answer.Refused? ==> o.status == 500 && o.body == (if answer.text != "" then answer.text else SEND_FAILED))
  {
    HtmlShowsFields(Field(p.name), Field(p.email), Field(p.project), Field(p.message));
  }

  /** A field that is absent, or present and all white space. */
  predicate Blank(v: Option<string>) {
    v.None? || AllSpace(v.value)
  }

  /** A blank name, e-mail or message refuses the inquiry without mailing
      anything. */
  lemma BlankFieldRefused(env: Env, p: Payload, answer: ProviderAnswer)
    requires Given(env.resendKey) && Given(env.notifyEmail)
    requires Blank(p.name) || Blank(p.email) || Blank(p.message)
    ensures Handle("POST", env, Success(p), answer) == Outcome(400, "Missing inquiry fields.", None)
  {
    if p.name.Some? { TrimEmpty(p.name.value); }
    if p.email.Some? { TrimEmpty(p.email.value); }
    if p.message.Some? { TrimEmpty(p.message.value); }
  }
}
