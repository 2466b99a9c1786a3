/** The scheduled `check-expiring-files` edge function: for every company whose
    settings enable expiration notices, find its live files that expire inside
    the lookahead window, invoke `send-notification-email` once per member
    profile that has an address and `trigger-webhook` once per file, and answer
    with the number of email invocations. */
module ExpirationScan {
  import opened Common
  import opened Store
  import opened Invocations

  /** `1000 * 60 * 60 * 24`. */
  const DayMs: int := 86_400_000
  /** The lookahead used when `expiration_days_before` is 0 or null. */
  const DefaultLookaheadDays: int := 7
  /** The largest distance from the epoch a JavaScript `Date` can hold. */
  const MaxTimeMs: int := 8_640_000_000_000_000
  /** The message of the RangeError `toISOString` throws on an invalid date. */
  const InvalidTimeValue: string := "Invalid time value"

  predicate ValidTime(t: int)
  {
    -MaxTimeMs <= t <= MaxTimeMs
  }

  /** Date rendering the scan delegates to the runtime: `toLocaleDateString("pt-BR")`
      and the text of the `expires_at` column as the database returns it. */
  datatype DateFormat = DateFormat(localeDate: int -> string, columnText: int -> string)

  /** The JSON answers of the handler. */
  datatype ScanResponse =
    | NothingToProcess          // 200 {message: "No companies to process"}
    | Sent(notificationsSent: nat) // 200 {success: true, notificationsSent}
    | Failed(error: string)     // 500 {error}
  {
    function Status(): int
    {
      if Failed? then 500 else 200
    }
  }

  /** `company.expiration_days_before || 7`. */
  function LookaheadDays(s: Setting): (r: int)
    ensures r != 0
    ensures s.expirationDaysBefore.None? ==> r == DefaultLookaheadDays
    ensures s.expirationDaysBefore == Some(0) ==> r == DefaultLookaheadDays
    ensures s.expirationDaysBefore.Some? && s.expirationDaysBefore.value != 0 ==>
              r == s.expirationDaysBefore.value
  {
    match s.expirationDaysBefore
    case None => DefaultLookaheadDays
    case Some(d) => if d == 0 then DefaultLookaheadDays else d
  }

  /** The end of the company's window: `now` moved forward by the lookahead. */
  function TargetTime(now: int, s: Setting): int
  {
    now + LookaheadDays(s) * DayMs
  }

  /** `Math.ceil(a / b)` for a positive divisor. */
  function CeilDiv(a: int, b: int): (r: int)
    requires b > 0
    ensures (r - 1) * b < a <= r * b
  {
    -((-a) / b)
  }

  /** `daysRemaining`: whole days to expiry, rounded up. */
  function DaysRemaining(expiresAt: int, now: int): int
  {
    CeilDiv(expiresAt - now, DayMs)
  }

  /** Inside the window the count of days lies between 0 and the lookahead, and
      it is at least 1 once the expiry lies strictly in the future. */
  lemma DaysRemainingBounds(expiresAt: int, now: int, days: int)
    requires now <= expiresAt <= now + days * DayMs
    ensures 0 <= DaysRemaining(expiresAt, now) <= days
    ensures expiresAt > now ==> DaysRemaining(expiresAt, now) >= 1
    ensures expiresAt == now ==> DaysRemaining(expiresAt, now) == 0
  {
    var d := DaysRemaining(expiresAt, now);
    assert (d - 1) * DayMs < expiresAt - now <= d * DayMs;
  }

  /** The profiles the per-file loop emails: those with a truthy address. */
  function Recipients(ps: seq<Profile>): (r: seq<Profile>)
    ensures forall k :: 0 <= k < |r| ==> Truthy(r[k].email)
  {
    Filter(ps, (p: Profile) => Truthy(p.email))
  }

  /** The `send-notification-email` body for one file and one address. */
  function ExpirationEmail(s: Setting, f: FileRow, days: int, address: string, fmt: DateFormat): Invocation
  {
    SendEmail(EmailRequest(
      companyId := f.companyId,
      fileName := f.name,
      expiresAt := Some(fmt.localeDate(f.expiresAt)),
      daysRemaining := Some(days),
      customMessage := s.customMessage,
      recipientEmail := address,
      notificationType := "expiration",
      uploadedBy := None,
      folderName := None,
      fileId := Some(f.id)))
  }

  /** The `trigger-webhook` body for one file. */
  function ExpiringWebhook(f: FileRow, days: int, fmt: DateFormat): Invocation
  {
    TriggerWebhook(WebhookPayload(f.companyId, "file_expiring",
      WebhookData(f.name, Some(f.id), Some(fmt.columnText(f.expiresAt)), Some(days), None, None)))
  }

  /** The recipient loop over `ps` for one file. */
  function EmailsFor(s: Setting, f: FileRow, ps: seq<Profile>, days: int, fmt: DateFormat): seq<Invocation>
  {
    if |ps| == 0 then []
    else
      var p := ps[|ps| - 1];
      EmailsFor(s, f, ps[..|ps| - 1], days, fmt)
        + (if Truthy(p.email) then [ExpirationEmail(s, f, days, p.email.value, fmt)] else [])
  }

  /** Everything issued for one file: its emails, then its one webhook. */
  function FileCalls(s: Setting, f: FileRow, ps: seq<Profile>, now: int, fmt: DateFormat): seq<Invocation>
  {
    var days := DaysRemaining(f.expiresAt, now);
    EmailsFor(s, f, ps, days, fmt) + [ExpiringWebhook(f, days, fmt)]
  }

  /** The file loop of one company. */
  function FilesCalls(s: Setting, fs: seq<FileRow>, ps: seq<Profile>, now: int, fmt: DateFormat): seq<Invocation>
  {
    if |fs| == 0 then []
    else FilesCalls(s, fs[..|fs| - 1], ps, now, fmt) + FileCalls(s, fs[|fs| - 1], ps, now, fmt)
  }

  /** One iteration of the company loop: go on with these calls, or throw. */
  datatype Step = Continue(calls: seq<Invocation>) | Abort(error: string)

  function CompanyStep(db: Store, s: Setting, now: int, fmt: DateFormat): (r: Step)
    ensures !ValidTime(TargetTime(now, s)) <==> r == Abort(InvalidTimeValue)
    ensures (ValidTime(TargetTime(now, s)) && WindowFiles(db, s.companyId, now, TargetTime(now, s)) in {None, Some([])})
              ==> r == Continue([])
    ensures CompanyMembers(s.companyId) in db.failing ==> r.Continue? ==> r.calls == []
    ensures MemberProfiles(s.companyId) in db.failing ==> r.Continue? ==> r.calls == []
  {
    var target := TargetTime(now, s);
    if !ValidTime(target) then Abort(InvalidTimeValue)
    else
      match WindowFiles(db, s.companyId, now, target)
      case None => Continue([])
      case Some(fs) =>
        if |fs| == 0 then Continue([])
        else
          match MemberIds(db, s.companyId)
          case None => Continue([])
          case Some(ids) =>
            match ProfilesIn(db, s.companyId, ids)
            case None => Continue([])
            case Some(ps) => Continue(FilesCalls(s, fs, ps, now, fmt))
  }

  /** The company loop over a prefix of the enabled settings rows. */
  datatype ScanRun = ScanRun(calls: seq<Invocation>, error: Option<string>)

  function RunCompanies(db: Store, rows: seq<Setting>, now: int, fmt: DateFormat): ScanRun
  {
    if |rows| == 0 then ScanRun([], None)
    else
      var prev := RunCompanies(db, rows[..|rows| - 1], now, fmt);
      if prev.error.Some? then prev
      else match CompanyStep(db, rows[|rows| - 1], now, fmt)
        case Abort(m) => ScanRun(prev.calls, Some(m))
        case Continue(c) => ScanRun(prev.calls + c, None)
  }

  lemma RunSnoc(db: Store, rows: seq<Setting>, i: nat, now: int, fmt: DateFormat)
    requires i < |rows|
    requires RunCompanies(db, rows[..i], now, fmt).error.None?
    ensures RunCompanies(db, rows[..i + 1], now, fmt) ==
              match CompanyStep(db, rows[i], now, fmt)
              case Abort(m) => ScanRun(RunCompanies(db, rows[..i], now, fmt).calls, Some(m))
              case Continue(c) => ScanRun(RunCompanies(db, rows[..i], now, fmt).calls + c, None)
  {
    assert rows[..i + 1][..i] == rows[..i];
  }

  /** Once a company throws, the rest of the loop is skipped. */
  lemma {:induction false} RunErrorSticks(db: Store, rows: seq<Setting>, i: nat, now: int, fmt: DateFormat)
    requires i <= |rows|
    requires RunCompanies(db, rows[..i], now, fmt).error.Some?
    ensures RunCompanies(db, rows, now, fmt) == RunCompanies(db, rows[..i], now, fmt)
    decreases |rows| - i
  {
    if i < |rows| {
      assert rows[..i + 1][..i] == rows[..i];
      RunErrorSticks(db, rows, i + 1, now, fmt);
    } else {
      assert rows[..i] == rows;
    }
  }

  lemma CompanyStepProcessed(db: Store, s: Setting, now: int, fmt: DateFormat,
                             fs: seq<FileRow>, ids: seq<string>, ps: seq<Profile>)
    requires ValidTime(TargetTime(now, s))
    requires WindowFiles(db, s.companyId, now, TargetTime(now, s)) == Some(fs) && |fs| > 0
    requires MemberIds(db, s.companyId) == Some(ids)
    requires ProfilesIn(db, s.companyId, ids) == Some(ps)
    ensures CompanyStep(db, s, now, fmt) == Continue(FilesCalls(s, fs, ps, now, fmt))
  {
  }

  datatype ScanResult = ScanResult(calls: seq<Invocation>, response: ScanResponse)

  /** What one run of the handler issues and answers. */
  function Scan(db: Store, now: int, fmt: DateFormat): (r: ScanResult)
    ensures r.response == NothingToProcess <==>
              ExpirationSettings in db.failing || forall s :: s in db.settings ==> !s.notifyExpiration
    ensures r.response == NothingToProcess ==> r.calls == []
    ensures r.response.Sent? ==> r.response.notificationsSent == EmailCount(r.calls)
  {
    match ExpirationSettingsRows(db)
    case None => ScanResult([], NothingToProcess)
    case Some(rows) =>
      if |rows| == 0 then ScanResult([], NothingToProcess)
      else
        var run := RunCompanies(db, rows, now, fmt);
        ScanResult(run.calls, if run.error.Some? then Failed(run.error.value) else Sent(EmailCount(run.calls)))
  }

  /** The handler, with its company loop and its running `totalNotifications`
      counter; the file loop and the recipient loop are the two methods below. */
  method CheckExpiringFiles(db: Store, now: int, fmt: DateFormat) returns (calls: seq<Invocation>, response: ScanResponse)
    ensures ScanResult(calls, response) == Scan(db, now, fmt)
  {
    calls := [];
    var companies := ExpirationSettingsRows(db);
    if companies.None? || |companies.value| == 0 {
      return [], NothingToProcess;
    }
    var rows := companies.value;
    var totalNotifications := 0;
    for i := 0 to |rows|
      invariant RunCompanies(db, rows[..i], now, fmt) == ScanRun(calls, None)
      invariant totalNotifications == EmailCount(calls)
    {
      RunSnoc(db, rows, i, now, fmt);
      var step, sent := ProcessCompany(db, rows[i], now, fmt);
      if step.Abort? {
        RunErrorSticks(db, rows, i + 1, now, fmt);
        assert rows[..|rows|] == rows;
        return calls, Failed(step.error);
      }
      CountsAppend(calls, step.calls);
      calls := calls + step.calls;
      totalNotifications := totalNotifications + sent;
    }
    assert rows[..|rows|] == rows;
    response := Sent(totalNotifications);
  }

  /** The body of the company loop: the window bound (whose `toISOString`
      throws when it is not a valid time), the file query, the member and
      profile queries, each skipping the company on an error or no rows, then
      the file loop. `sent` is what the iteration adds to `totalNotifications`. */
  method ProcessCompany(db: Store, company: Setting, now: int, fmt: DateFormat)
    returns (step: Step, sent: nat)
    ensures step == CompanyStep(db, company, now, fmt)
    ensures step.Continue? ==> sent == EmailCount(step.calls)
  {
    var daysAhead := LookaheadDays(company);
    var targetDate := now + daysAhead * DayMs;
    if !ValidTime(targetDate) {
      return Abort(InvalidTimeValue), 0;
    }
    var files := WindowFiles(db, company.companyId, now, targetDate);
    if files.None? || |files.value| == 0 {
      return Continue([]), 0;
    }
    var userCompanies := MemberIds(db, company.companyId);
    if userCompanies.None? {
      return Continue([]), 0;
    }
    var profiles := ProfilesIn(db, company.companyId, userCompanies.value);
    if profiles.None? {
      return Continue([]), 0;
    }
    var issued;
    issued, sent := NotifyFiles(company, files.value, profiles.value, now, fmt);
    CompanyStepProcessed(db, company, now, fmt, files.value, userCompanies.value, profiles.value);
    step := Continue(issued);
  }

  /** The file loop of one company: the invocations issued and how many of them
      are emails. */
  method NotifyFiles(company: Setting, fs: seq<FileRow>, ps: seq<Profile>, now: int, fmt: DateFormat)
    returns (issued: seq<Invocation>, sent: nat)
    ensures issued == FilesCalls(company, fs, ps, now, fmt)
    ensures sent == EmailCount(issued)
  {
    issued, sent := [], 0;
    for j := 0 to |fs|
      invariant issued == FilesCalls(company, fs[..j], ps, now, fmt)
      invariant sent == EmailCount(issued)
    {
      assert fs[..j + 1][..j] == fs[..j];
      var file := fs[j];
      var daysRemaining := DaysRemaining(file.expiresAt, now);
      var emails := NotifyRecipients(company, file, ps, daysRemaining, fmt);
      var webhook := ExpiringWebhook(file, daysRemaining, fmt);
      CountsAppend(issued, emails + [webhook]);
      CountsAppend(emails, [webhook]);
      EmailsForCounts(company, file, ps, daysRemaining, fmt);
      issued := issued + (emails + [webhook]);
      sent := sent + |Recipients(ps)|;
    }
    assert fs[..|fs|] == fs;
  }

  /** The recipient loop for one file: one email for each profile with an address. */
  method NotifyRecipients(company: Setting, file: FileRow, ps: seq<Profile>, daysRemaining: int, fmt: DateFormat)
    returns (emails: seq<Invocation>)
    ensures emails == EmailsFor(company, file, ps, daysRemaining, fmt)
  {
    emails := [];
    for k := 0 to |ps|
      invariant emails == EmailsFor(company, file, ps[..k], daysRemaining, fmt)
    {
      assert ps[..k + 1][..k] == ps[..k];
      var profile := ps[k];
      if !Truthy(profile.email) {
        assert emails + [] == emails;
        continue;
      }
      emails := emails + [ExpirationEmail(company, file, daysRemaining, profile.email.value, fmt)];
    }
    assert ps[..|ps|] == ps;
  }

  // ---------------------------------------------------------------------------
  // Properties of the scan

  /** The recipient loop emits exactly one email per profile with an address,
      in profile order, each of kind "expiration" carrying the file's count of
      remaining days. */
  lemma {:induction false} EmailsForShape(s: Setting, f: FileRow, ps: seq<Profile>, days: int, fmt: DateFormat)
    ensures |EmailsFor(s, f, ps, days, fmt)| == |Recipients(ps)|
    ensures forall k :: 0 <= k < |Recipients(ps)| ==>
              EmailsFor(s, f, ps, days, fmt)[k] == ExpirationEmail(s, f, days, Recipients(ps)[k].email.value, fmt)
  {
    if |ps| > 0 {
      var init, p := ps[..|ps| - 1], ps[|ps| - 1];
      EmailsForShape(s, f, init, days, fmt);
      assert init + [p] == ps;
      FilterSnoc(init, p, (q: Profile) => Truthy(q.email));
      var rs, es := Recipients(ps), EmailsFor(s, f, ps, days, fmt);
      var rs0, es0 := Recipients(init), EmailsFor(s, f, init, days, fmt);
      assert Truthy(p.email) ==> rs == rs0 + [p] && es == es0 + [ExpirationEmail(s, f, days, p.email.value, fmt)];
      assert !Truthy(p.email) ==> rs == rs0 && es == es0 + [];
      forall k | 0 <= k < |rs|
        ensures es[k] == ExpirationEmail(s, f, days, rs[k].email.value, fmt)
      {
        if k < |rs0| {
          assert rs[k] == rs0[k] && es[k] == es0[k];
        }
      }
    }
  }

  lemma {:induction false} EmailsForCounts(s: Setting, f: FileRow, ps: seq<Profile>, days: int, fmt: DateFormat)
    ensures EmailCount(EmailsFor(s, f, ps, days, fmt)) == |Recipients(ps)|
    ensures WebhookCount(EmailsFor(s, f, ps, days, fmt)) == 0
  {
    EmailsForShape(s, f, ps, days, fmt);
    OnlyEmails(EmailsFor(s, f, ps, days, fmt));
  }

  /** Per file: one email per addressed profile, and exactly one webhook,
      issued last, whatever the number of recipients. */
  lemma FileCallsCounts(s: Setting, f: FileRow, ps: seq<Profile>, now: int, fmt: DateFormat)
    ensures EmailCount(FileCalls(s, f, ps, now, fmt)) == |Recipients(ps)|
    ensures WebhookCount(FileCalls(s, f, ps, now, fmt)) == 1
    ensures FileCalls(s, f, ps, now, fmt)[|FileCalls(s, f, ps, now, fmt)| - 1]
              == ExpiringWebhook(f, DaysRemaining(f.expiresAt, now), fmt)
  {
    var days := DaysRemaining(f.expiresAt, now);
    EmailsForCounts(s, f, ps, days, fmt);
    CountsAppend(EmailsFor(s, f, ps, days, fmt), [ExpiringWebhook(f, days, fmt)]);
  }

  /** Per company: `#files × #addressed profiles` emails and `#files` webhooks. */
  lemma {:induction false} FilesCallsCounts(s: Setting, ps: seq<Profile>, fs: seq<FileRow>, now: int, fmt: DateFormat)
    ensures EmailCount(FilesCalls(s, fs, ps, now, fmt)) == |fs| * |Recipients(ps)|
    ensures WebhookCount(FilesCalls(s, fs, ps, now, fmt)) == |fs|
  {
    if |fs| > 0 {
      var init := fs[..|fs| - 1];
      FilesCallsCounts(s, ps, init, now, fmt);
      FileCallsCounts(s, fs[|fs| - 1], ps, now, fmt);
      CountsAppend(FilesCalls(s, init, ps, now, fmt), FileCalls(s, fs[|fs| - 1], ps, now, fmt));
      MulSucc(|init|, |Recipients(ps)|);
    }
  }

  lemma MulSucc(n: nat, r: nat)
    ensures (n + 1) * r == n * r + r
  {
  }

  /** The number of files one company's iteration processes (0 when it is
      skipped), and the number of addressed member profiles it emails. */
  function ProcessedFiles(db: Store, s: Setting, now: int): nat
  {
    var target := TargetTime(now, s);
    match WindowFiles(db, s.companyId, now, target)
    case None => 0
    case Some(fs) =>
      match MemberIds(db, s.companyId)
      case None => 0
      case Some(ids) =>
        match ProfilesIn(db, s.companyId, ids)
        case None => 0
        case Some(_) => |fs|
  }

  function AddressedMembers(db: Store, s: Setting): nat
  {
    match MemberIds(db, s.companyId)
    case None => 0
    case Some(ids) =>
      match ProfilesIn(db, s.companyId, ids)
      case None => 0
      case Some(ps) => |Recipients(ps)|
  }

  /** Sums over the companies of a run: the e-mails and webhooks the tables call for. */
  function ExpectedEmails(db: Store, rows: seq<Setting>, now: int): nat
  {
    if |rows| == 0 then 0
    else ExpectedEmails(db, rows[..|rows| - 1], now)
           + ProcessedFiles(db, rows[|rows| - 1], now) * AddressedMembers(db, rows[|rows| - 1])
  }

  function ExpectedWebhooks(db: Store, rows: seq<Setting>, now: int): nat
  {
    if |rows| == 0 then 0
    else ExpectedWebhooks(db, rows[..|rows| - 1], now) + ProcessedFiles(db, rows[|rows| - 1], now)
  }

  lemma CompanyStepCounts(db: Store, s: Setting, now: int, fmt: DateFormat)
    requires CompanyStep(db, s, now, fmt).Continue?
    ensures EmailCount(CompanyStep(db, s, now, fmt).calls) == ProcessedFiles(db, s, now) * AddressedMembers(db, s)
    ensures WebhookCount(CompanyStep(db, s, now, fmt).calls) == ProcessedFiles(db, s, now)
  {
    var target := TargetTime(now, s);
    match WindowFiles(db, s.companyId, now, target)
    case None =>
    case Some(fs) =>
      match MemberIds(db, s.companyId)
      case None =>
      case Some(ids) =>
        match ProfilesIn(db, s.companyId, ids)
        case None =>
        case Some(ps) =>
          FilesCallsCounts(s, ps, fs, now, fmt);
  }

  /** When the run completes, its counters are the sums over companies of
      `#files × #addressed profiles` and of `#files`. */
  lemma {:induction false} RunCounts(db: Store, rows: seq<Setting>, now: int, fmt: DateFormat)
    requires RunCompanies(db, rows, now, fmt).error.None?
    ensures EmailCount(RunCompanies(db, rows, now, fmt).calls) == ExpectedEmails(db, rows, now)
    ensures WebhookCount(RunCompanies(db, rows, now, fmt).calls) == ExpectedWebhooks(db, rows, now)
  {
    if |rows| > 0 {
      var init := rows[..|rows| - 1];
      var last := rows[|rows| - 1];
      RunCounts(db, init, now, fmt);
      CompanyStepCounts(db, last, now, fmt);
      CountsAppend(RunCompanies(db, init, now, fmt).calls, CompanyStep(db, last, now, fmt).calls);
    }
  }

  /** The response of a completed scan counts every email invocation attempted;
      it is computed from the data alone, as no invocation result is read. */
  lemma ScanSentCount(db: Store, now: int, fmt: DateFormat)
    requires Scan(db, now, fmt).response.Sent?
    ensures ExpirationSettingsRows(db).Some?
    ensures Scan(db, now, fmt).response.notificationsSent == ExpectedEmails(db, ExpirationSettingsRows(db).value, now)
    ensures WebhookCount(Scan(db, now, fmt).calls) == ExpectedWebhooks(db, ExpirationSettingsRows(db).value, now)
  {
    RunCounts(db, ExpirationSettingsRows(db).value, now, fmt);
  }

  /** What every invocation of a scan is about: a live file of a company whose
      settings enable expiration notices, inside that company's window, with
      the emails addressed and of kind "expiration" and the webhook of event
      "file_expiring", both carrying that file's count of days. */
  ghost predicate ScanCall(db: Store, now: int, c: Invocation)
  {
    exists s, f :: s in db.settings && f in db.files && s.notifyExpiration
      && InWindow(f, s.companyId, now, TargetTime(now, s))
      && c.CompanyId() == s.companyId
      && match c
         case SendEmail(e) =>
           e.notificationType == "expiration" && e.recipientEmail != ""
           && e.fileId == Some(f.id) && e.fileName == f.name
           && e.daysRemaining == Some(DaysRemaining(f.expiresAt, now))
         case TriggerWebhook(w) =>
           w.event == "file_expiring" && w.data.fileId == Some(f.id) && w.data.fileName == f.name
           && w.data.daysRemaining == Some(DaysRemaining(f.expiresAt, now))
  }

  lemma {:induction false} EmailsForSound(db: Store, s: Setting, f: FileRow, ps: seq<Profile>, now: int, fmt: DateFormat)
    requires s in db.settings && f in db.files && s.notifyExpiration
    requires InWindow(f, s.companyId, now, TargetTime(now, s))
    ensures forall c :: c in EmailsFor(s, f, ps, DaysRemaining(f.expiresAt, now), fmt) ==> ScanCall(db, now, c)
  {
    if |ps| > 0 {
      EmailsForSound(db, s, f, ps[..|ps| - 1], now, fmt);
    }
  }

  lemma {:induction false} FilesCallsSound(db: Store, s: Setting, fs: seq<FileRow>, ps: seq<Profile>, now: int, fmt: DateFormat)
    requires s in db.settings && s.notifyExpiration
    requires forall f :: f in fs ==> f in db.files && InWindow(f, s.companyId, now, TargetTime(now, s))
    ensures forall c :: c in FilesCalls(s, fs, ps, now, fmt) ==> ScanCall(db, now, c)
  {
    if |fs| > 0 {
      var f := fs[|fs| - 1];
      FilesCallsSound(db, s, fs[..|fs| - 1], ps, now, fmt);
      EmailsForSound(db, s, f, ps, now, fmt);
      var w := ExpiringWebhook(f, DaysRemaining(f.expiresAt, now), fmt);
      assert ScanCall(db, now, w);
    }
  }

  lemma {:induction false} RunSound(db: Store, rows: seq<Setting>, now: int, fmt: DateFormat)
    requires forall s :: s in rows ==> s in db.settings && s.notifyExpiration
    ensures forall c :: c in RunCompanies(db, rows, now, fmt).calls ==> ScanCall(db, now, c)
  {
    if |rows| > 0 {
      var s := rows[|rows| - 1];
      RunSound(db, rows[..|rows| - 1], now, fmt);
      var target := TargetTime(now, s);
      if ValidTime(target) {
        match WindowFiles(db, s.companyId, now, target)
        case None =>
        case Some(fs) =>
          match MemberIds(db, s.companyId)
          case None =>
          case Some(ids) =>
            match ProfilesIn(db, s.companyId, ids)
            case None =>
            case Some(ps) => FilesCallsSound(db, s, fs, ps, now, fmt);
      }
    }
  }

  /** Only companies whose settings enable expiration notices are visited, no
      soft-deleted file and no file outside `[now, now + lookahead days]` is
      ever the subject of an email or a webhook, and every such count of days
      lies within the lookahead. */
  lemma ScanSound(db: Store, now: int, fmt: DateFormat)
    ensures forall c :: c in Scan(db, now, fmt).calls ==> ScanCall(db, now, c)
  {
    match ExpirationSettingsRows(db)
    case None =>
    case Some(rows) => RunSound(db, rows, now, fmt);
  }

  /** A 500 answer carries the RangeError of an unrepresentable window end. */
  lemma ScanFailure(db: Store, now: int, fmt: DateFormat)
    requires Scan(db, now, fmt).response.Failed?
    ensures Scan(db, now, fmt).response.error == InvalidTimeValue
    ensures Scan(db, now, fmt).response.Status() == 500
    ensures exists s :: s in db.settings && s.notifyExpiration && !ValidTime(TargetTime(now, s))
  {
    var rows := ExpirationSettingsRows(db).value;
    RunFailure(db, rows, now, fmt);
  }

  lemma {:induction false} RunFailure(db: Store, rows: seq<Setting>, now: int, fmt: DateFormat)
    requires RunCompanies(db, rows, now, fmt).error.Some?
    ensures RunCompanies(db, rows, now, fmt).error == Some(InvalidTimeValue)
    ensures exists k :: 0 <= k < |rows| && !ValidTime(TargetTime(now, rows[k]))
  {
    var init := rows[..|rows| - 1];
    if RunCompanies(db, init, now, fmt).error.Some? {
      RunFailure(db, init, now, fmt);
      var k :| 0 <= k < |init| && !ValidTime(TargetTime(now, init[k]));
      assert rows[k] == init[k];
    } else {
      assert !ValidTime(TargetTime(now, rows[|rows| - 1]));
    }
  }
}
