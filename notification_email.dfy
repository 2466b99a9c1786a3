/** The `send-notification-email` edge function: look up the company's name,
    pick the subject and HTML body by notification type, send one email through
    the mail provider and, once the send has returned, insert a
    `notification_logs` row. */
module NotificationEmail {
  import opened Common
  import opened Store
  import opened Invocations

  const Sender: string := "VaultDocs <onboarding@resend.dev>"
  const ExpirationType: string := "expiration"
  const NewFileType: string := "new_file"
  const SentStatus: string := "sent"

  /** What a template literal prints for `undefined`. */
  const Undefined: string := "undefined"

  /** Every body line starts on a new line indented by eight spaces, and the
      body ends with a new line indented by six. */
  const Nl: string := "\n        "
  const Closing: string := "\n      "

  /** `${o}` for an optional string. */
  function Text(o: Option<string>): string
  {
    if o.Some? then o.value else Undefined
  }

  /** `${o}` for an optional number. */
  function NumberText(o: Option<int>): string
  {
    if o.Some? then IntToString(o.value) else Undefined
  }

  /** `${company?.name}`. */
  function CompanyName(db: Store, companyId: string): (r: string)
    ensures CompanyOf(db, companyId).Some? ==> r == CompanyOf(db, companyId).value.name
    ensures CompanyOf(db, companyId).None? ==> r == Undefined
  {
    match CompanyOf(db, companyId)
    case Some(c) => c.name
    case None => Undefined
  }

  /** `${o ? `${open}${o}</p>` : ""}`: a paragraph only for a non-empty value. */
  function Paragraph(o: Option<string>, open: string): string
  {
    if Truthy(o) then open + o.value + "</p>" else ""
  }

  function CustomParagraph(req: EmailRequest): string
  {
    Paragraph(req.customMessage, "<p>")
  }

  function FolderParagraph(req: EmailRequest): string
  {
    Paragraph(req.folderName, "<p><strong>Pasta:</strong> ")
  }

  function UploaderParagraph(req: EmailRequest): string
  {
    Paragraph(req.uploadedBy, "<p><strong>Enviado por:</strong> ")
  }

  function ExpirationSubject(company: string): string
  {
    "[" + company + "] - Arquivo próximo do vencimento"
  }

  function NewFileSubject(company: string): string
  {
    "[" + company + "] - Novo arquivo adicionado"
  }

  /** The expiration body, as the blocks of its template literal: fixed text
      alternating with the interpolated values. */
  function ExpirationBlocks(req: EmailRequest, company: string): seq<string>
  {
    [ Nl + "<h1>Arquivo próximo do vencimento</h1>" + Nl + "<p>Olá,</p>" + Nl + "<p>O arquivo <strong>\"",
      req.fileName,
      "\"</strong> da empresa ",
      company,
      " está próximo da data de expiração.</p>" + Nl + "<p><strong>Data de expiração:</strong> ",
      Text(req.expiresAt),
      "</p>" + Nl + "<p><strong>Dias restantes:</strong> ",
      NumberText(req.daysRemaining),
      "</p>" + Nl,
      CustomParagraph(req),
      Nl + "<p>Acesse o sistema para renovar ou arquivar o documento.</p>" + Closing ]
  }

  /** Where the custom-message paragraph sits among the expiration blocks. */
  const CustomSlot: nat := 9

  function ExpirationHtml(req: EmailRequest, company: string): string
  {
    Flatten(ExpirationBlocks(req, company))
  }

  /** The new-file body, block by block. */
  function NewFileBlocks(req: EmailRequest, company: string): seq<string>
  {
    [ Nl + "<h1>Novo arquivo adicionado</h1>" + Nl + "<p>Olá,</p>" + Nl + "<p>Um novo arquivo foi adicionado à empresa ",
      company,
      ".</p>" + Nl + "<p><strong>Nome do arquivo:</strong> ",
      req.fileName,
      "</p>" + Nl,
      FolderParagraph(req),
      Nl,
      UploaderParagraph(req),
      Nl + "<p>Acesse o sistema para visualizar.</p>" + Closing ]
  }

  const FolderSlot: nat := 5
  const UploaderSlot: nat := 7

  function NewFileHtml(req: EmailRequest, company: string): string
  {
    Flatten(NewFileBlocks(req, company))
  }

  /** A subject and an HTML body. */
  datatype Content = Content(subject: string, html: string)

  /** The template selection: one pair per known type, empty strings otherwise. */
  function Compose(req: EmailRequest, company: string): (r: Content)
    ensures req.notificationType == ExpirationType ==>
              r == Content(ExpirationSubject(company), ExpirationHtml(req, company))
    ensures req.notificationType == NewFileType ==>
              r == Content(NewFileSubject(company), NewFileHtml(req, company))
    ensures req.notificationType != ExpirationType && req.notificationType != NewFileType ==>
              r == Content("", "")
  {
    if req.notificationType == ExpirationType then
      Content(ExpirationSubject(company), ExpirationHtml(req, company))
    else if req.notificationType == NewFileType then
      Content(NewFileSubject(company), NewFileHtml(req, company))
    else Content("", "")
  }

  // ---------------------------------------------------------------------------
  // The handler

  datatype EmailMessage = EmailMessage(from: string, to: seq<string>, subject: string, html: string)

  /** What the mail client's `send` does with a message: it returns a value
      (whose JSON text is kept) or throws. */
  datatype SendReply = Returned(json: string) | Threw(message: string)

  datatype NotificationLog = NotificationLog(
    companyId: string,
    notificationType: string,
    recipientEmail: string,
    fileId: Option<string>,
    status: string)

  /** The handler's effects, in order. */
  datatype MailEffect = Send(message: EmailMessage) | InsertLog(row: NotificationLog)

  datatype MailResponse =
    | Delivered(emailResponse: string) // 200, the send's reply as JSON
    | Failed(error: string)            // 500, {error: message}
  {
    function Status(): int
    {
      if Delivered? then 200 else 500
    }
  }

  /** The one message a request sends: from the fixed sender, to the request's
      recipient only, with the composed subject and body. */
  function Message(db: Store, req: EmailRequest): (r: EmailMessage)
    ensures r.from == Sender && r.to == [req.recipientEmail]
    ensures Content(r.subject, r.html) == Compose(req, CompanyName(db, req.companyId))
  {
    var c := Compose(req, CompanyName(db, req.companyId));
    EmailMessage(Sender, [req.recipientEmail], c.subject, c.html)
  }

  function LogRow(req: EmailRequest): NotificationLog
  {
    NotificationLog(req.companyId, req.notificationType, req.recipientEmail, req.fileId, SentStatus)
  }

  /** The handler: lookup, template selection, send, then log. The log row is
      written only after the send has returned, whatever the reply says; a
      throwing send leaves no log row and answers 500. */
  method SendNotificationEmail(db: Store, req: EmailRequest, send: EmailMessage -> SendReply)
    returns (effects: seq<MailEffect>, response: MailResponse)
    ensures |effects| >= 1 && effects[0] == Send(Message(db, req))
    ensures send(Message(db, req)).Returned? ==>
              effects == [Send(Message(db, req)), InsertLog(LogRow(req))]
              && response == Delivered(send(Message(db, req)).json)
    ensures send(Message(db, req)).Threw? ==>
              effects == [Send(Message(db, req))] && response == Failed(send(Message(db, req)).message)
    ensures response.Delivered? <==> InsertLog(LogRow(req)) in effects
  {
    var message := BuildMessage(db, req);
    effects, response := Deliver(req, message, send);
  }

  /** The handler after the message is built: send it, then log the delivery
      once the send has returned. */
  method Deliver(req: EmailRequest, message: EmailMessage, send: EmailMessage -> SendReply)
    returns (effects: seq<MailEffect>, response: MailResponse)
    ensures |effects| >= 1 && effects[0] == Send(message)
    ensures send(message).Returned? ==>
              effects == [Send(message), InsertLog(LogRow(req))] && response == Delivered(send(message).json)
    ensures send(message).Threw? ==> effects == [Send(message)] && response == Failed(send(message).message)
    ensures response.Delivered? <==> InsertLog(LogRow(req)) in effects
  {
    effects := [Send(message)];
    var reply := send(message);
    if reply.Threw? {
      return effects, Failed(reply.message);
    }
    effects := effects + [InsertLog(NotificationLog(req.companyId, req.notificationType,
                                                    req.recipientEmail, req.fileId, SentStatus))];
    response := Delivered(reply.json);
  }

  /** The handler's company lookup and template selection, up to the message
      handed to the mail service. */
  method BuildMessage(db: Store, req: EmailRequest) returns (message: EmailMessage)
    ensures message == Message(db, req)
  {
    var company := CompanyOf(db, req.companyId);
    var name := if company.Some? then company.value.name else Undefined;
    assert name == CompanyName(db, req.companyId);
    var subject, html := SelectTemplate(req, name);
    message := EmailMessage(Sender, [req.recipientEmail], subject, html);
  }

  /** The handler's `if`/`else if` on `notificationType`: both strings stay
      empty for any other type. */
  method SelectTemplate(req: EmailRequest, name: string) returns (subject: string, html: string)
    ensures Content(subject, html) == Compose(req, name)
  {
    subject := "";
    html := "";
    if req.notificationType == ExpirationType {
      subject := ExpirationSubject(name);
      html := ExpirationHtml(req, name);
    } else if req.notificationType == NewFileType {
      subject := NewFileSubject(name);
      html := NewFileHtml(req, name);
    }
  }

  // ---------------------------------------------------------------------------
  // Properties of the templates

  /** Emptying one block of a body removes exactly that block's text from it. */
  lemma EmptiedBlock(blocks: seq<string>, k: nat)
    requires k < |blocks|
    ensures var plain := Flatten(blocks[k := ""]);
      exists i :: 0 <= i <= |plain| && Flatten(blocks) == plain[..i] + blocks[k] + plain[i..]
    ensures |Flatten(blocks)| == |Flatten(blocks[k := ""])| + |blocks[k]|
  {
    var emptied := blocks[k := ""];
    FlattenAt(blocks, k);
    FlattenAt(emptied, k);
    assert emptied[..k] == blocks[..k] && emptied[k + 1..] == blocks[k + 1..];
    var plain := Flatten(emptied);
    var i := |Flatten(blocks[..k])|;
    assert plain[..i] == Flatten(blocks[..k]) && plain[i..] == Flatten(blocks[k + 1..]);
  }

  /** The expiration body names the file, the company, the expiry date and the
      days remaining. */
  lemma ExpirationBodyMentions(req: EmailRequest, company: string)
    requires req.notificationType == ExpirationType
    ensures var html := Compose(req, company).html;
      && Contains(html, req.fileName)
      && Contains(html, company)
      && Contains(html, Text(req.expiresAt))
      && Contains(html, NumberText(req.daysRemaining))
  {
    var blocks := ExpirationBlocks(req, company);
    FlattenContains(blocks, 1);
    FlattenContains(blocks, 3);
    FlattenContains(blocks, 5);
    FlattenContains(blocks, 7);
  }

  /** The custom-message paragraph is there exactly when the message is
      non-empty: then the body is the message-less body with `<p>message</p>`
      inserted, otherwise it is the message-less body itself. */
  lemma ExpirationCustomParagraph(req: EmailRequest, company: string)
    requires req.notificationType == ExpirationType
    ensures var html := Compose(req, company).html;
      var plain := Compose(req.(customMessage := None), company).html;
      && (Truthy(req.customMessage) ==>
            exists i :: 0 <= i <= |plain| && html == plain[..i] + "<p>" + req.customMessage.value + "</p>" + plain[i..])
      && (!Truthy(req.customMessage) ==> html == plain)
      && (Truthy(req.customMessage) <==> |html| > |plain|)
  {
    var blocks := ExpirationBlocks(req, company);
    assert ExpirationBlocks(req.(customMessage := None), company) == blocks[CustomSlot := ""];
    EmptiedBlock(blocks, CustomSlot);
    if !Truthy(req.customMessage) {
      assert blocks[CustomSlot := ""] == blocks;
    }
  }

  /** The new-file body names the company and the file. */
  lemma NewFileBodyMentions(req: EmailRequest, company: string)
    requires req.notificationType == NewFileType
    ensures var html := Compose(req, company).html;
      Contains(html, req.fileName) && Contains(html, company)
  {
    var blocks := NewFileBlocks(req, company);
    FlattenContains(blocks, 1);
    FlattenContains(blocks, 3);
  }

  /** The folder paragraph is there exactly when the folder name is non-empty. */
  lemma NewFileFolderParagraph(req: EmailRequest, company: string)
    requires req.notificationType == NewFileType
    ensures var html := Compose(req, company).html;
      var plain := Compose(req.(folderName := None), company).html;
      && (Truthy(req.folderName) ==>
            exists i :: 0 <= i <= |plain|
              && html == plain[..i] + "<p><strong>Pasta:</strong> " + req.folderName.value + "</p>" + plain[i..])
      && (!Truthy(req.folderName) ==> html == plain)
      && (Truthy(req.folderName) <==> |html| > |plain|)
  {
    var blocks := NewFileBlocks(req, company);
    assert NewFileBlocks(req.(folderName := None), company) == blocks[FolderSlot := ""];
    EmptiedBlock(blocks, FolderSlot);
    if !Truthy(req.folderName) {
      assert blocks[FolderSlot := ""] == blocks;
    }
  }

  /** The uploader paragraph is there exactly when the uploader name is
      non-empty. */
  lemma NewFileUploaderParagraph(req: EmailRequest, company: string)
    requires req.notificationType == NewFileType
    ensures var html := Compose(req, company).html;
      var plain := Compose(req.(uploadedBy := None), company).html;
      && (Truthy(req.uploadedBy) ==>
            exists i :: 0 <= i <= |plain|
              && html == plain[..i] + "<p><strong>Enviado por:</strong> " + req.uploadedBy.value + "</p>" + plain[i..])
      && (!Truthy(req.uploadedBy) ==> html == plain)
      && (Truthy(req.uploadedBy) <==> |html| > |plain|)
  {
    var blocks := NewFileBlocks(req, company);
    assert NewFileBlocks(req.(uploadedBy := None), company) == blocks[UploaderSlot := ""];
    EmptiedBlock(blocks, UploaderSlot);
    if !Truthy(req.uploadedBy) {
      assert blocks[UploaderSlot := ""] == blocks;
    }
  }
}
