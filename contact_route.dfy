/** The contact endpoint, `POST /api/contact`: it checks the four form fields and
    the email address, composes one HTML email and hands it to the email provider,
    answering 200, 400 or 500. The provider call enters as its outcome, the
    `CONTACT_EMAIL` setting as an optional string. */
module ContactRoute {
  import opened Common

  /** The decoded JSON body. `Unparsable` is a body that `request.json()` rejects or
      that cannot be destructured (JSON `null`); a field is `None` when the body does not
      carry it, so a number, string, boolean or array body is `Fields(None, None, None, None)`. */
  datatype RequestBody =
    | Unparsable
    | Fields(name: Option<string>, email: Option<string>, subject: Option<string>, message: Option<string>)

  /** What `resend.emails.send` did: resolved with a delivery, resolved with an error
      object in its result, or threw. */
  datatype SendResult = Accepted | Refused | Threw

  datatype Email = Email(from: string, to: string, replyTo: string, subject: string, html: string)

  datatype ResponseBody = SuccessBody(message: string) | ErrorBody(error: string)

  datatype Response = Response(status: nat, body: ResponseBody)

  /** The response together with the emails handed to the provider while handling the request. */
  datatype Handled = Handled(response: Response, sent: seq<Email>)

  const Sender := "Team Staircase <onboarding@resend.dev>"
  const DefaultRecipient := "eduardotajra@edu.unifor.br"
  const MissingFieldsError := "Todos os campos são obrigatórios"
  const InvalidEmailError := "Email inválido"
  const SendFailedError := "Erro ao enviar mensagem. Tente novamente mais tarde."
  const SuccessMessage := "Mensagem enviada com sucesso! Entraremos em contato em breve."

  // ---------------------------------------------------------------------------
  // The email pattern

  /** `[^\s@]`: neither whitespace nor `@`. */
  predicate PatternChar(c: char) {
    !IsWhitespace(c) && c != '@'
  }

  /** `[^\s@]+` matching the whole of `s`. */
  predicate PatternRun(s: string) {
    |s| > 0 && forall i :: 0 <= i < |s| ==> PatternChar(s[i])
  }

  /** `/^[^\s@]+@[^\s@]+\.[^\s@]+$/.test(s)`: some `@` and some later `.` cut `s`
      into three runs of `[^\s@]+`. */
  predicate MatchesEmailPattern(s: string)
    ensures MatchesEmailPattern(s) ==> |s| >= 5
  {
    exists at, dot | 0 <= at < |s| && at < dot < |s| ::
      s[at] == '@' && s[dot] == '.' && PatternRun(s[..at]) && PatternRun(s[at + 1..dot]) && PatternRun(s[dot + 1..])
  }

  /** The shape of an accepted address, stated without the regular expression: no
      whitespace, exactly one `@`, text before it, and a `.` after it with text on both sides. */
  ghost predicate EmailShape(s: string) {
    && NoWhitespace(s)
    && CountChar(s, '@') == 1
    && exists at | 0 <= at < |s| :: s[at] == '@' && at > 0 &&
         exists dot | at + 1 < dot < |s| - 1 :: s[dot] == '.'
  }

  lemma {:induction false} CountCharSplit(s: string, k: nat, c: char)
    requires k < |s|
    ensures CountChar(s, c) == CountChar(s[..k], c) + (if s[k] == c then 1 else 0) + CountChar(s[k + 1..], c)
  {
    assert s == s[..k] + ([s[k]] + s[k + 1..]);
    CountCharAppend(s[..k], [s[k]] + s[k + 1..], c);
    assert ([s[k]] + s[k + 1..])[1..] == s[k + 1..];
  }

  /** When `s` holds exactly one `c`, at `k`, no other position holds `c`. */
  lemma OnlyOccurrence(s: string, k: nat, c: char)
    requires k < |s| && s[k] == c && CountChar(s, c) == 1
    ensures forall j :: 0 <= j < |s| && j != k ==> s[j] != c
  {
    CountCharSplit(s, k, c);
    CountCharAbsent(s[..k], c);
    CountCharAbsent(s[k + 1..], c);
    forall j | 0 <= j < |s| && j != k
      ensures s[j] != c
    {
      if j < k {
        assert s[j] == s[..k][j];
      } else {
        assert s[j] == s[k + 1..][j - k - 1];
      }
    }
  }

  /** The three runs of a match hold no whitespace and no `@`: the only `@` is the one at `at`. */
  lemma MatchRunsChars(s: string, at: nat, dot: nat)
    requires at < dot < |s| && s[dot] == '.'
    requires PatternRun(s[..at]) && PatternRun(s[at + 1..dot]) && PatternRun(s[dot + 1..])
    ensures forall i :: 0 <= i < |s| && i != at ==> PatternChar(s[i])
  {
    forall i | 0 <= i < |s| && i != at
      ensures PatternChar(s[i])
    {
      if i < at {
        assert s[i] == s[..at][i];
      } else if at < i < dot {
        assert s[i] == s[at + 1..dot][i - at - 1];
      } else if dot < i {
        assert s[i] == s[dot + 1..][i - dot - 1];
      }
    }
  }

  lemma PatternHasShape(s: string)
    requires MatchesEmailPattern(s)
    ensures EmailShape(s)
  {
    var at, dot :| 0 <= at < |s| && at < dot < |s| && s[at] == '@' && s[dot] == '.'
      && PatternRun(s[..at]) && PatternRun(s[at + 1..dot]) && PatternRun(s[dot + 1..]);
    MatchRunsChars(s, at, dot);
    assert NoWhitespace(s) by {
      forall i | 0 <= i < |s| ensures !IsWhitespace(s[i]) {
        if i != at { assert PatternChar(s[i]); }
      }
    }
    CountCharSplit(s, at, '@');
    assert CountChar(s[..at], '@') == 0 by {
      forall j | 0 <= j < at ensures s[..at][j] != '@' { assert PatternChar(s[j]); }
      CountCharAbsent(s[..at], '@');
    }
    var after := s[at + 1..];
    assert CountChar(after, '@') == 0 by {
      forall j | 0 <= j < |after| ensures after[j] != '@' { assert PatternChar(s[at + 1 + j]); }
      CountCharAbsent(after, '@');
    }
    assert s[at] == '@' && at > 0 && at + 1 < dot < |s| - 1 && s[dot] == '.';
  }

  lemma ShapeMatchesPattern(s: string)
    requires EmailShape(s)
    ensures MatchesEmailPattern(s)
  {
    var at :| 0 <= at < |s| && s[at] == '@' && at > 0 && exists dot | at + 1 < dot < |s| - 1 :: s[dot] == '.';
    var dot :| at + 1 < dot < |s| - 1 && s[dot] == '.';
    OnlyOccurrence(s, at, '@');
    assert PatternRun(s[..at]);
    assert PatternRun(s[at + 1..dot]);
    assert PatternRun(s[dot + 1..]);
  }

  /** The email pattern accepts exactly the strings of the stated shape. */
  lemma EmailPatternIff(s: string)
    ensures MatchesEmailPattern(s) <==> EmailShape(s)
  {
    if MatchesEmailPattern(s) {
      PatternHasShape(s);
    }
    if EmailShape(s) {
      ShapeMatchesPattern(s);
    }
  }

  /** Examples: the pattern rejects an address without a dot after the `@`, one with two
      `@`, one with a space, and accepts an ordinary address. */
  lemma EmailPatternExamples()
    ensures !MatchesEmailPattern("bad")
    ensures !MatchesEmailPattern("a@b")
    ensures !MatchesEmailPattern("a@b@c.de")
    ensures !MatchesEmailPattern("a b@c.de")
    ensures MatchesEmailPattern("a@b.co")
  {
    EmailPatternIff("bad");
    CountCharAbsent("bad", '@');
    EmailPatternIff("a@b");
    EmailPatternIff("a@b@c.de");
    assert CountChar("a@b@c.de", '@') == 2;
    EmailPatternIff("a b@c.de");
    assert IsWhitespace("a b@c.de"[1]);
    var s := "a@b.co";
    assert s[0] == 'a' && s[1] == '@' && s[2] == 'b' && s[3] == '.' && s[4] == 'c' && s[5] == 'o';
    assert PatternRun(s[..1]) && PatternRun(s[2..3]) && PatternRun(s[4..]);
  }

  // ---------------------------------------------------------------------------
  // Composing the email

  /** `message.replace(/\n/g, '<br>')`. */
  function ReplaceNewlines(m: string): (r: string)
    ensures forall i :: 0 <= i < |r| ==> r[i] != '\n'
    ensures |r| == |m| + 3 * CountChar(m, '\n')
  {
    if m == [] then ""
    else (if m[0] == '\n' then "<br>" else [m[0]]) + ReplaceNewlines(m[1..])
  }

  lemma {:induction false} ReplaceNewlinesAppend(a: string, b: string)
    ensures ReplaceNewlines(a + b) == ReplaceNewlines(a) + ReplaceNewlines(b)
  {
    if a == [] {
      assert a + b == b;
    } else {
      assert (a + b)[1..] == a[1..] + b;
      ReplaceNewlinesAppend(a[1..], b);
    }
  }

  lemma {:induction false} ReplaceNewlinesNoNewline(m: string)
    requires '\n' !in m
    ensures ReplaceNewlines(m) == m
  {
    if m != [] {
      ReplaceNewlinesNoNewline(m[1..]);
      assert m == [m[0]] + m[1..];
    }
  }

  /** A message made of lines is sent as the same lines, in order, separated by `<br>`. */
  lemma {:induction false} ReplaceNewlinesJoin(lines: seq<string>)
    requires forall i :: 0 <= i < |lines| ==> '\n' !in lines[i]
    ensures ReplaceNewlines(Join(lines, "\n")) == Join(lines, "<br>")
  {
    if |lines| == 1 {
      ReplaceNewlinesNoNewline(lines[0]);
    } else if |lines| > 1 {
      var rest := Join(lines[1..], "\n");
      ReplaceNewlinesAppend(lines[0] + "\n", rest);
      ReplaceNewlinesAppend(lines[0], "\n");
      ReplaceNewlinesNoNewline(lines[0]);
      assert ReplaceNewlines("\n") == "<br>";
      ReplaceNewlinesJoin(lines[1..]);
    }
  }

  const HtmlOpen := "<div><h2>Nova mensagem de contato</h2><div><p><strong>Nome:</strong> <span>"
  const HtmlAfterName := "</span></p><p><strong>Email:</strong> <span>"
  const HtmlAfterEmail := "</span></p><p><strong>Assunto:</strong> <span>"
  const HtmlAfterSubject := "</span></p><div><p><strong>Mensagem:</strong></p><p>"
  const HtmlClose := "</p></div></div><p>Esta mensagem foi enviada através do formulário de contato do site Team Staircase.</p></div>"

  /** The `html` template: the three fields as given, then the message body. */
  function EmailHtml(name: string, email: string, subject: string, messageHtml: string): (r: string)
    ensures HtmlOpen + name + HtmlAfterName + email <= r
    ensures |HtmlOpen + name + HtmlAfterName + email| <= |r| - |messageHtml + HtmlClose|
    ensures r[|HtmlOpen + name + HtmlAfterName + email|..|r| - |messageHtml + HtmlClose|]
         == HtmlAfterEmail + subject + HtmlAfterSubject
    ensures r[|r| - |messageHtml + HtmlClose|..] == messageHtml + HtmlClose
  {
    var head := HtmlOpen + name + HtmlAfterName + email;
    var middle := HtmlAfterEmail + subject + HtmlAfterSubject;
    var tail := messageHtml + HtmlClose;
    var r := head + middle + tail;
    assert r[..|head|] == head;
    assert r[|head|..|head + middle|] == middle;
    assert r[|head + middle|..] == tail;
    r
  }

  /** The email handed to the provider for a valid submission. */
  function ComposeEmail(name: string, email: string, subject: string, message: string, contactEmail: Option<string>): (e: Email)
    ensures e.from == Sender
    ensures Truthy(contactEmail) ==> e.to == contactEmail.value
    ensures !Truthy(contactEmail) ==> e.to == DefaultRecipient
    ensures e.replyTo == email
    ensures e.subject == "[Contato] " + subject + " - " + name
    ensures e.html == EmailHtml(name, email, subject, ReplaceNewlines(message))
  {
    Email(
      from := Sender,
      to := OrElse(contactEmail, DefaultRecipient),
      replyTo := email,
      subject := "[Contato] " + subject + " - " + name,
      html := EmailHtml(name, email, subject, ReplaceNewlines(message)))
  }

  // ---------------------------------------------------------------------------
  // The handler

  /** `!name || !email || !subject || !message` is false: every field is a non-empty string. */
  predicate AllFieldsPresent(req: RequestBody)
    requires req.Fields?
  {
    Truthy(req.name) && Truthy(req.email) && Truthy(req.subject) && Truthy(req.message)
  }

  /** The two guards, in order: the 400 response a request is refused with, or `None`. */
  function Reject(req: RequestBody): (r: Option<Response>)
    requires req.Fields?
    ensures !AllFieldsPresent(req) ==> r == Some(Response(400, ErrorBody(MissingFieldsError)))
    ensures AllFieldsPresent(req) && !MatchesEmailPattern(req.email.value) ==> r == Some(Response(400, ErrorBody(InvalidEmailError)))
    ensures r.None? <==> AllFieldsPresent(req) && MatchesEmailPattern(req.email.value)
  {
    if !AllFieldsPresent(req) then Some(Response(400, ErrorBody(MissingFieldsError)))
    else if !MatchesEmailPattern(req.email.value) then Some(Response(400, ErrorBody(InvalidEmailError)))
    else None
  }

  /** A request the handler forwards: parsed, all four fields given, and an address of the
      accepted shape. */
  ghost predicate Deliverable(req: RequestBody) {
    req.Fields? && AllFieldsPresent(req) && EmailShape(req.email.value)
  }

  function EmailFor(req: RequestBody, contactEmail: Option<string>): Email
    requires req.Fields? && AllFieldsPresent(req)
  {
    ComposeEmail(req.name.value, req.email.value, req.subject.value, req.message.value, contactEmail)
  }

  /** `POST` as written: any send that does not throw is answered with 200. */
  function Post(req: RequestBody, contactEmail: Option<string>, send: SendResult): (h: Handled)
    ensures req.Unparsable? ==> h == Handled(Response(500, ErrorBody(SendFailedError)), [])
    ensures req.Fields? && !AllFieldsPresent(req) ==> h == Handled(Response(400, ErrorBody(MissingFieldsError)), [])
    ensures req.Fields? && AllFieldsPresent(req) && !MatchesEmailPattern(req.email.value) ==>
      h == Handled(Response(400, ErrorBody(InvalidEmailError)), [])
    ensures req.Fields? && AllFieldsPresent(req) && MatchesEmailPattern(req.email.value) ==>
      && h.sent == [EmailFor(req, contactEmail)]
      && h.response == if send == Threw then Response(500, ErrorBody(SendFailedError))
                       else Response(200, SuccessBody(SuccessMessage))
  {
    match req
    case Unparsable => Handled(Response(500, ErrorBody(SendFailedError)), [])
    case Fields(_, _, _, _) =>
      match Reject(req)
      case Some(refusal) => Handled(refusal, [])
      case None =>
        var email := EmailFor(req, contactEmail);
        if send == Threw then Handled(Response(500, ErrorBody(SendFailedError)), [email])
        else Handled(Response(200, SuccessBody(SuccessMessage)), [email])
  }

  /** `POST` with the provider's reported refusal treated as the failure it is. */
  function PostChecked(req: RequestBody, contactEmail: Option<string>, send: SendResult): (h: Handled)
    ensures h.sent == Post(req, contactEmail, send).sent
    ensures h.response.status == 200 <==> Deliverable(req) && send == Accepted
    ensures h.response.status == 200 ==> h.response.body == SuccessBody(SuccessMessage)
    ensures Deliverable(req) && send != Accepted ==> h.response == Response(500, ErrorBody(SendFailedError))
    ensures !Deliverable(req) ==> h == Post(req, contactEmail, send)
  {
    assert req.Fields? && req.email.Some? ==> (MatchesEmailPattern(req.email.value) <==> EmailShape(req.email.value)) by {
      if req.Fields? && req.email.Some? { EmailPatternIff(req.email.value); }
    }
    var h := Post(req, contactEmail, send);
    if h.sent != [] && send == Refused then h.(response := Response(500, ErrorBody(SendFailedError)))
    else h
  }

  /** Exactly the deliverable requests reach the provider, each exactly once; every
      other request is answered with 400 or 500 and sends nothing. */
  lemma SendIffDeliverable(req: RequestBody, contactEmail: Option<string>, send: SendResult)
    ensures var h := Post(req, contactEmail, send);
      && (|h.sent| == 1 <==> Deliverable(req))
      && (!Deliverable(req) ==> h.sent == [] && h.response.status in {400, 500})
      && h.response.status in {200, 400, 500}
  {
    if req.Fields? && req.email.Some? { EmailPatternIff(req.email.value); }
  }

  /** The required-fields guard runs first: a request missing a field is refused for that
      reason whatever its email address. */
  lemma MissingFieldReportedFirst(name: Option<string>, email: Option<string>, subject: Option<string>, message: Option<string>,
                                  contactEmail: Option<string>, send: SendResult)
    requires !Truthy(name) || !Truthy(subject) || !Truthy(message)
    ensures Post(Fields(name, email, subject, message), contactEmail, send).response.body == ErrorBody(MissingFieldsError)
  {
  }

  /** As written, a refusal the provider reports in its result is answered as a success;
      the corrected handler answers it with 500. */
  lemma RefusedSendReportedAsSuccess(req: RequestBody, contactEmail: Option<string>)
    requires Deliverable(req)
    ensures Post(req, contactEmail, Refused).response == Response(200, SuccessBody(SuccessMessage))
    ensures PostChecked(req, contactEmail, Refused).response.status == 500
  {
    EmailPatternIff(req.email.value);
  }
}
