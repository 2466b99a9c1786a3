/** The `trigger-webhook` edge function: when the company has a webhook URL,
    serialise the payload, sign that very text with HMAC-SHA256 under the
    company's secret (or leave the signature empty without one), POST it, and
    log the delivery in `webhook_logs`. */
module Webhook {
  import opened Common
  import opened Store
  import opened Invocations

  newtype byte = x: int | 0 <= x < 256

  const FileUploadedEvent: string := "file_uploaded"
  const NoWebhookMessage: string := "No webhook configured"

  // ---------------------------------------------------------------------------
  // Lowercase base16

  /** The lowercase hexadecimal digit of `d`, as `Number.prototype.toString(16)`
      writes it. */
  function HexDigit(d: nat): (c: char)
    requires d < 16
    ensures '0' <= c <= '9' || 'a' <= c <= 'f'
  {
    if d < 10 then ('0' as int + d) as char else ('a' as int + (d - 10)) as char
  }

  /** The value of a lowercase hexadecimal digit. */
  function HexValue(c: char): (r: Option<nat>)
    ensures r.Some? ==> r.value < 16
    ensures r.Some? <==> '0' <= c <= '9' || 'a' <= c <= 'f'
  {
    if '0' <= c <= '9' then Some((c as int - '0' as int) as nat)
    else if 'a' <= c <= 'f' then Some((c as int - 'a' as int + 10) as nat)
    else None
  }

  lemma HexValueOfDigit(d: nat)
    requires d < 16
    ensures HexValue(HexDigit(d)) == Some(d)
  {
  }

  /** `n.toString(16)`. */
  function ToBase16(n: nat): string
    decreases n
  {
    if n < 16 then [HexDigit(n)] else ToBase16(n / 16) + [HexDigit(n % 16)]
  }

  /** `s.padStart(len, c)`. */
  function PadStart(s: string, len: nat, c: char): (r: string)
    ensures |r| == if |s| >= len then |s| else len
    ensures r[|r| - |s|..] == s
    ensures forall k :: 0 <= k < |r| - |s| ==> r[k] == c
  {
    if |s| >= len then s else seq(len - |s|, _ => c) + s
  }

  /** `b.toString(16).padStart(2, "0")`: always two digits, high nibble first. */
  function ByteHex(b: byte): (r: string)
    ensures r == [HexDigit(b as nat / 16), HexDigit(b as nat % 16)]
  {
    var n := b as nat;
    if n < 16 then
      assert ToBase16(n) == [HexDigit(n)] && n / 16 == 0 && n % 16 == n;
      assert seq(1, _ => '0') == [HexDigit(0)];
      PadStart(ToBase16(n), 2, '0')
    else
      assert ToBase16(n) == [HexDigit(n / 16)] + [HexDigit(n % 16)];
      PadStart(ToBase16(n), 2, '0')
  }

  /** `Array.from(bytes).map(ByteHex).join("")`. */
  function Hex(bs: seq<byte>): (r: string)
    ensures |r| == 2 * |bs|
    ensures forall k :: 0 <= k < |r| ==> '0' <= r[k] <= '9' || 'a' <= r[k] <= 'f'
  {
    if |bs| == 0 then "" else Hex(bs[..|bs| - 1]) + ByteHex(bs[|bs| - 1])
  }

  /** The byte written by a pair of lowercase hexadecimal digits. */
  function UnHexPair(hi: char, lo: char): Option<byte>
  {
    var h, l := HexValue(hi), HexValue(lo);
    if h.Some? && l.Some? then Some((h.value * 16 + l.value) as byte) else None
  }

  /** Reads two lowercase hexadecimal digits per byte back. */
  function UnHex(s: string): Option<seq<byte>>
    decreases |s|
  {
    if |s| == 0 then Some([])
    else if |s| == 1 then None
    else
      match UnHex(s[..|s| - 2])
      case None => None
      case Some(bs) =>
        var b := UnHexPair(s[|s| - 2], s[|s| - 1]);
        if b.Some? then Some(bs + [b.value]) else None
  }

  /** A byte's two digits read back as that byte. */
  lemma UnHexPairOfByte(b: byte)
    ensures UnHexPair(HexDigit(b as nat / 16), HexDigit(b as nat % 16)) == Some(b)
  {
    var hi, lo := b as nat / 16, b as nat % 16;
    HexValueOfDigit(hi);
    HexValueOfDigit(lo);
    assert hi * 16 + lo == b as nat;
  }

  /** Appending one byte's two digits appends that byte to the decoding. */
  lemma UnHexSnoc(s: string, b: byte)
    ensures UnHex(s + ByteHex(b)) == if UnHex(s).Some? then Some(UnHex(s).value + [b]) else None
  {
    var t := s + ByteHex(b);
    assert |t| == |s| + 2 && t[..|t| - 2] == s;
    assert t[|t| - 2] == HexDigit(b as nat / 16) && t[|t| - 1] == HexDigit(b as nat % 16);
    UnHexPairOfByte(b);
  }

  /** Decoding the hex text gives the bytes back. */
  lemma {:induction false} HexRoundTrip(bs: seq<byte>)
    ensures UnHex(Hex(bs)) == Some(bs)
  {
    if |bs| > 0 {
      var init := bs[..|bs| - 1];
      var b := bs[|bs| - 1];
      assert init + [b] == bs;
      var h := Hex(init);
      assert Hex(bs) == h + ByteHex(b);
      HexRoundTrip(init);
      UnHexSnoc(h, b);
    }
  }

  /** Different byte strings never share a signature text. */
  lemma HexInjective(a: seq<byte>, b: seq<byte>)
    requires Hex(a) == Hex(b)
    ensures a == b
  {
    HexRoundTrip(a);
    HexRoundTrip(b);
  }

  // ---------------------------------------------------------------------------
  // The handler

  datatype HttpRequest = HttpRequest(
    url: string,
    httpMethod: string,
    contentType: string,
    signature: string, // the X-Webhook-Signature header
    body: string)

  /** What `fetch` and reading the reply's text give: a status and a text, or
      an exception. */
  datatype FetchOutcome = Responded(status: int, text: string) | NetworkError(message: string)

  datatype WebhookLog = WebhookLog(
    companyId: string,
    event: string,
    url: string,
    requestBody: WebhookPayload,
    responseStatus: int,
    responseBody: string)

  /** The handler's effects, in order. */
  datatype WebhookEffect = Post(request: HttpRequest) | LogDelivery(row: WebhookLog)

  datatype WebhookResponse =
    | NoWebhook                   // 200, {message: "No webhook configured"}
    | Triggered(status: int)      // 200, {success: true, status}
    | Failed(error: string)       // 500, {error: message}
  {
    function Status(): int
    {
      if Failed? then 500 else 200
    }
  }

  /** There is a settings row and its `webhook_url` is non-empty. */
  predicate Configured(db: Store, companyId: string)
  {
    SettingsOf(db, companyId).Some? && Truthy(SettingsOf(db, companyId).value.webhookUrl)
  }

  /** The POST for a serialised payload: its body is exactly the text that is
      signed, the signature decodes to the HMAC of that body under the secret,
      and it is empty when there is no secret. */
  function Outbound(s: Setting, payloadString: string, hmac: (string, string) -> seq<byte>): (r: HttpRequest)
    requires Truthy(s.webhookUrl)
    ensures r.url == s.webhookUrl.value && r.httpMethod == "POST" && r.contentType == "application/json"
    ensures r.body == payloadString
    ensures !Truthy(s.webhookSecret) ==> r.signature == ""
    ensures Truthy(s.webhookSecret) ==>
              UnHex(r.signature) == Some(hmac(s.webhookSecret.value, r.body))
              && |r.signature| == 2 * |hmac(s.webhookSecret.value, r.body)|
  {
    var signature :=
      if Truthy(s.webhookSecret) then
        HexRoundTrip(hmac(s.webhookSecret.value, payloadString));
        Hex(hmac(s.webhookSecret.value, payloadString))
      else "";
    HttpRequest(s.webhookUrl.value, "POST", "application/json", signature, payloadString)
  }

  /** The `event` column: both arms of the source's conditional are the same
      enum value, so every delivery is logged as "file_uploaded". */
  function LoggedEvent(event: string): (r: string)
    ensures r == FileUploadedEvent
  {
    if event == "file_expiring" then FileUploadedEvent else FileUploadedEvent
  }

  /** The handler. `serialize` stands for `JSON.stringify`, `hmac(key, text)`
      for HMAC-SHA256 over the UTF-8 encodings, and `fetch` for the HTTP call. */
  method TriggerWebhookHandler(db: Store, payload: WebhookPayload, serialize: WebhookPayload -> string,
                               hmac: (string, string) -> seq<byte>, fetch: HttpRequest -> FetchOutcome)
    returns (effects: seq<WebhookEffect>, response: WebhookResponse)
    ensures !Configured(db, payload.companyId) ==> effects == [] && response == NoWebhook
    ensures Configured(db, payload.companyId) ==>
              var s := SettingsOf(db, payload.companyId).value;
              var rq := Outbound(s, serialize(payload), hmac);
              && |effects| >= 1 && effects[0] == Post(rq)
              && (fetch(rq).Responded? ==>
                    && effects == [Post(rq), LogDelivery(WebhookLog(payload.companyId, FileUploadedEvent,
                                     s.webhookUrl.value, payload, fetch(rq).status, fetch(rq).text))]
                    && response == Triggered(fetch(rq).status))
              && (fetch(rq).NetworkError? ==> effects == [Post(rq)] && response == Failed(fetch(rq).message))
  {
    var settings := SettingsOf(db, payload.companyId);
    if settings.None? || !Truthy(settings.value.webhookUrl) {
      return [], NoWebhook;
    }

    var payloadString := serialize(payload);
    var signature := "";
    if Truthy(settings.value.webhookSecret) {
      signature := Hex(hmac(settings.value.webhookSecret.value, payloadString));
    }

    var request := HttpRequest(settings.value.webhookUrl.value, "POST", "application/json", signature, payloadString);
    effects := [Post(request)];
    var outcome := fetch(request);
    if outcome.NetworkError? {
      return effects, Failed(outcome.message);
    }

    effects := effects + [LogDelivery(WebhookLog(payload.companyId, LoggedEvent(payload.event),
                                                 settings.value.webhookUrl.value, payload,
                                                 outcome.status, outcome.text))];
    response := Triggered(outcome.status);
  }
}
