/** The bodies one edge function hands to another through
    `supabase.functions.invoke`, recorded as effects in the order they are
    issued. The callers never read what an invocation returns. */
module Invocations {
  import opened Common

  /** The JSON body of a `send-notification-email` invocation. */
  datatype EmailRequest = EmailRequest(
    companyId: string,
    fileName: string,
    expiresAt: Option<string>,
    daysRemaining: Option<int>,
    customMessage: Option<string>,
    recipientEmail: string,
    notificationType: string,
    uploadedBy: Option<string>,
    folderName: Option<string>,
    fileId: Option<string>)

  /** The `data` member of a webhook payload. */
  datatype WebhookData = WebhookData(
    fileName: string,
    fileId: Option<string>,
    expiresAt: Option<string>,
    daysRemaining: Option<int>,
    uploadedBy: Option<string>,
    folderName: Option<string>)

  /** The JSON body of a `trigger-webhook` invocation. */
  datatype WebhookPayload = WebhookPayload(companyId: string, event: string, data: WebhookData)

  datatype Invocation =
    | SendEmail(email: EmailRequest)
    | TriggerWebhook(webhook: WebhookPayload)
  {
    function CompanyId(): string
    {
      match this
      case SendEmail(e) => e.companyId
      case TriggerWebhook(w) => w.companyId
    }
  }

  /** How many of `calls` are `send-notification-email` invocations. */
  function EmailCount(calls: seq<Invocation>): nat
  {
    if |calls| == 0 then 0
    else EmailCount(calls[..|calls| - 1]) + (if calls[|calls| - 1].SendEmail? then 1 else 0)
  }

  /** How many of `calls` are `trigger-webhook` invocations. */
  function WebhookCount(calls: seq<Invocation>): nat
  {
    if |calls| == 0 then 0
    else WebhookCount(calls[..|calls| - 1]) + (if calls[|calls| - 1].TriggerWebhook? then 1 else 0)
  }

  /** Both counts add up over concatenation, and every call is one or the other. */
  lemma {:induction false} CountsAppend(a: seq<Invocation>, b: seq<Invocation>)
    ensures EmailCount(a + b) == EmailCount(a) + EmailCount(b)
    ensures WebhookCount(a + b) == WebhookCount(a) + WebhookCount(b)
    ensures EmailCount(a) + WebhookCount(a) == |a|
    decreases |b|
  {
    if |b| == 0 {
      assert a + b == a;
      CountsTotal(a);
    } else {
      assert (a + b)[..|a + b| - 1] == a + b[..|b| - 1];
      CountsAppend(a, b[..|b| - 1]);
    }
  }

  lemma {:induction false} CountsTotal(a: seq<Invocation>)
    ensures EmailCount(a) + WebhookCount(a) == |a|
  {
    if |a| > 0 {
      CountsTotal(a[..|a| - 1]);
    }
  }

  /** A sequence of email invocations holds no webhook invocation. */
  lemma {:induction false} OnlyEmails(a: seq<Invocation>)
    requires forall k :: 0 <= k < |a| ==> a[k].SendEmail?
    ensures EmailCount(a) == |a| && WebhookCount(a) == 0
  {
    if |a| > 0 {
      OnlyEmails(a[..|a| - 1]);
    }
  }
}
