/** The `notify-new-file` edge function: when new-file notices are enabled for
    the company, resolve the folder's and the uploader's display names, invoke
    `send-notification-email` for every member profile with an address except
    the uploader's own, then `trigger-webhook` exactly once. */
module NewFileNotify {
  import opened Common
  import opened Store
  import opened Invocations

  const RootFolderName: string := "Root"
  const SystemUploader: string := "Sistema"

  /** The parsed JSON body of the request. */
  datatype NotifyRequest = NotifyRequest(
    fileId: string,
    fileName: string,
    companyId: string,
    folderId: Option<string>,
    uploadedBy: Option<string>)

  /** The JSON answers of the handler, all with status 200. */
  datatype NotifyResponse =
    | Disabled                     // {message: "New file notifications disabled"}
    | NoUsers                      // {message: "No users in company"}
    | NoProfiles                   // {message: "No profiles found"}
    | Sent(notificationsSent: nat) // {success: true, notificationsSent}
  {
    function Message(): string
    {
      match this
      case Disabled => "New file notifications disabled"
      case NoUsers => "No users in company"
      case NoProfiles => "No profiles found"
      case Sent(_) => ""
    }
  }

  /** `folderName`: "Root" unless a folder id is given and its row is found. */
  function FolderName(db: Store, folderId: Option<string>): (r: string)
    ensures !Truthy(folderId) ==> r == RootFolderName
    ensures Truthy(folderId) && FolderOf(db, folderId.value).Some? ==> r == FolderOf(db, folderId.value).value.name
    ensures Truthy(folderId) && FolderOf(db, folderId.value).None? ==> r == RootFolderName
  {
    if Truthy(folderId) then
      match FolderOf(db, folderId.value)
      case Some(folder) => folder.name
      case None => RootFolderName
    else RootFolderName
  }

  /** `uploaderName`: the uploader's full name, else address, else "Sistema";
      "Sistema" also when no uploader is given or no profile is found. */
  function UploaderName(db: Store, uploadedBy: Option<string>): (r: string)
    ensures r != ""
    ensures !Truthy(uploadedBy) ==> r == SystemUploader
    ensures Truthy(uploadedBy) && ProfileOf(db, uploadedBy.value).None? ==> r == SystemUploader
    ensures Truthy(uploadedBy) && ProfileOf(db, uploadedBy.value).Some? ==>
              var p := ProfileOf(db, uploadedBy.value).value;
              r == (if Truthy(p.fullName) then p.fullName.value
                    else if Truthy(p.email) then p.email.value
                    else SystemUploader)
  {
    if Truthy(uploadedBy) then
      match ProfileOf(db, uploadedBy.value)
      case Some(p) => OrElse(p.fullName, OrElse(p.email, SystemUploader))
      case None => SystemUploader
    else SystemUploader
  }

  /** The loop's skip test, negated: an address, and not the uploader's profile. */
  predicate IsRecipient(p: Profile, uploadedBy: Option<string>)
  {
    Truthy(p.email) && !(uploadedBy.Some? && p.id == uploadedBy.value)
  }

  function Recipients(ps: seq<Profile>, uploadedBy: Option<string>): (r: seq<Profile>)
    ensures forall k :: 0 <= k < |r| ==> IsRecipient(r[k], uploadedBy)
  {
    Filter(ps, (p: Profile) => IsRecipient(p, uploadedBy))
  }

  function NewFileEmail(req: NotifyRequest, address: string, uploader: string, folder: string): Invocation
  {
    SendEmail(EmailRequest(
      companyId := req.companyId,
      fileName := req.fileName,
      expiresAt := None,
      daysRemaining := None,
      customMessage := None,
      recipientEmail := address,
      notificationType := "new_file",
      uploadedBy := Some(uploader),
      folderName := Some(folder),
      fileId := Some(req.fileId)))
  }

  function NewFileWebhook(req: NotifyRequest, uploader: string, folder: string): Invocation
  {
    TriggerWebhook(WebhookPayload(req.companyId, "new_file",
      WebhookData(req.fileName, Some(req.fileId), None, None, Some(uploader), Some(folder))))
  }

  /** The recipient loop over `ps`. */
  function EmailsTo(req: NotifyRequest, ps: seq<Profile>, uploader: string, folder: string): seq<Invocation>
  {
    if |ps| == 0 then []
    else
      var p := ps[|ps| - 1];
      EmailsTo(req, ps[..|ps| - 1], uploader, folder)
        + (if IsRecipient(p, req.uploadedBy) then [NewFileEmail(req, p.email.value, uploader, folder)] else [])
  }

  datatype NotifyResult = NotifyResult(calls: seq<Invocation>, response: NotifyResponse)

  /** There is a settings row and it has `notify_new_files` on. */
  predicate Enabled(db: Store, companyId: string)
  {
    SettingsOf(db, companyId).Some? && SettingsOf(db, companyId).value.notifyNewFiles
  }

  /** The `user_companies` query returned a non-empty list. */
  predicate HasMembers(db: Store, companyId: string)
  {
    MemberIds(db, companyId).Some? && |MemberIds(db, companyId).value| > 0
  }

  /** What one request issues and answers: each early answer exactly when its
      check is the first to fail, and no call unless the loop is reached. */
  function Notify(db: Store, req: NotifyRequest): (r: NotifyResult)
    ensures r.response == Disabled <==> !Enabled(db, req.companyId)
    ensures r.response == NoUsers <==> Enabled(db, req.companyId) && !HasMembers(db, req.companyId)
    ensures r.response == NoProfiles <==>
              && Enabled(db, req.companyId) && HasMembers(db, req.companyId)
              && ProfilesIn(db, req.companyId, MemberIds(db, req.companyId).value).None?
    ensures r.response.Sent? <==>
              && Enabled(db, req.companyId) && HasMembers(db, req.companyId)
              && ProfilesIn(db, req.companyId, MemberIds(db, req.companyId).value).Some?
    ensures !r.response.Sent? ==> r.calls == []
  {
    var settings := SettingsOf(db, req.companyId);
    if settings.None? || !settings.value.notifyNewFiles then NotifyResult([], Disabled)
    else
      var folder := FolderName(db, req.folderId);
      var uploader := UploaderName(db, req.uploadedBy);
      match MemberIds(db, req.companyId)
      case None => NotifyResult([], NoUsers)
      case Some(ids) =>
        if |ids| == 0 then NotifyResult([], NoUsers)
        else match ProfilesIn(db, req.companyId, ids)
          case None => NotifyResult([], NoProfiles)
          case Some(ps) =>
            var emails := EmailsTo(req, ps, uploader, folder);
            NotifyResult(emails + [NewFileWebhook(req, uploader, folder)], Sent(EmailCount(emails)))
  }

  /** The handler, with its reassigned names, early returns and counting loop. */
  method NotifyNewFile(db: Store, req: NotifyRequest) returns (calls: seq<Invocation>, response: NotifyResponse)
    ensures NotifyResult(calls, response) == Notify(db, req)
  {
    var settings := SettingsOf(db, req.companyId);
    if settings.None? || !settings.value.notifyNewFiles {
      return [], Disabled;
    }

    var folderName := RootFolderName;
    if Truthy(req.folderId) {
      var folder := FolderOf(db, req.folderId.value);
      if folder.Some? {
        folderName := folder.value.name;
      }
    }

    var uploaderName := SystemUploader;
    if Truthy(req.uploadedBy) {
      var profile := ProfileOf(db, req.uploadedBy.value);
      if profile.Some? {
        uploaderName := OrElse(profile.value.fullName, OrElse(profile.value.email, SystemUploader));
      }
    }

    var userCompanies := MemberIds(db, req.companyId);
    if userCompanies.None? || |userCompanies.value| == 0 {
      return [], NoUsers;
    }
    var profiles := ProfilesIn(db, req.companyId, userCompanies.value);
    if profiles.None? {
      return [], NoProfiles;
    }

    assert folderName == FolderName(db, req.folderId);
    assert uploaderName == UploaderName(db, req.uploadedBy);
    var emails, notificationsSent := SendEmails(req, profiles.value, uploaderName, folderName);
    calls := emails + [NewFileWebhook(req, uploaderName, folderName)];
    response := Sent(notificationsSent);
  }

  /** The handler's `for (const profile of profiles)` loop: skip a profile
      without an address and the uploader's own, invoke the email function for
      the others, and count them. */
  method SendEmails(req: NotifyRequest, ps: seq<Profile>, uploaderName: string, folderName: string)
    returns (calls: seq<Invocation>, notificationsSent: nat)
    ensures calls == EmailsTo(req, ps, uploaderName, folderName)
    ensures notificationsSent == EmailCount(calls)
  {
    calls := [];
    notificationsSent := 0;
    for k := 0 to |ps|
      invariant calls == EmailsTo(req, ps[..k], uploaderName, folderName)
      invariant notificationsSent == EmailCount(calls)
    {
      assert ps[..k + 1][..k] == ps[..k];
      var profile := ps[k];
      if !Truthy(profile.email) || (req.uploadedBy.Some? && profile.id == req.uploadedBy.value) {
        assert calls + [] == calls;
        continue;
      }
      CountsAppend(calls, [NewFileEmail(req, profile.email.value, uploaderName, folderName)]);
      calls := calls + [NewFileEmail(req, profile.email.value, uploaderName, folderName)];
      notificationsSent := notificationsSent + 1;
    }
    assert ps[..|ps|] == ps;
  }

  // ---------------------------------------------------------------------------
  // Properties of the handler

  /** The loop emails exactly the recipients, in profile order, each with a
      "new_file" body naming the resolved uploader and folder. */
  lemma {:induction false} EmailsToShape(req: NotifyRequest, ps: seq<Profile>, uploader: string, folder: string)
    ensures |EmailsTo(req, ps, uploader, folder)| == |Recipients(ps, req.uploadedBy)|
    ensures forall k :: 0 <= k < |Recipients(ps, req.uploadedBy)| ==>
              EmailsTo(req, ps, uploader, folder)[k]
                == NewFileEmail(req, Recipients(ps, req.uploadedBy)[k].email.value, uploader, folder)
  {
    if |ps| > 0 {
      var init, p := ps[..|ps| - 1], ps[|ps| - 1];
      EmailsToShape(req, init, uploader, folder);
      assert init + [p] == ps;
      FilterSnoc(init, p, (q: Profile) => IsRecipient(q, req.uploadedBy));
      var rs, es := Recipients(ps, req.uploadedBy), EmailsTo(req, ps, uploader, folder);
      var rs0, es0 := Recipients(init, req.uploadedBy), EmailsTo(req, init, uploader, folder);
      assert IsRecipient(p, req.uploadedBy) ==>
               rs == rs0 + [p] && es == es0 + [NewFileEmail(req, p.email.value, uploader, folder)];
      assert !IsRecipient(p, req.uploadedBy) ==> rs == rs0 && es == es0 + [];
      forall k | 0 <= k < |rs|
        ensures es[k] == NewFileEmail(req, rs[k].email.value, uploader, folder)
      {
        if k < |rs0| {
          assert rs[k] == rs0[k] && es[k] == es0[k];
        }
      }
    }
  }

  /** A request that gets past every early return: its member profiles. */
  ghost predicate Delivered(db: Store, req: NotifyRequest, ps: seq<Profile>)
  {
    && SettingsOf(db, req.companyId).Some? && SettingsOf(db, req.companyId).value.notifyNewFiles
    && MemberIds(db, req.companyId).Some? && |MemberIds(db, req.companyId).value| > 0
    && ProfilesIn(db, req.companyId, MemberIds(db, req.companyId).value) == Some(ps)
  }

  /** When the handler gets to its loop: the answer counts exactly the profiles
      with an address other than the uploader's, one email goes to each of
      them, and exactly one "new_file" webhook follows, even with no recipient. */
  lemma NotifySent(db: Store, req: NotifyRequest, ps: seq<Profile>)
    requires Delivered(db, req, ps)
    ensures var r := Notify(db, req);
      var uploader := UploaderName(db, req.uploadedBy);
      var folder := FolderName(db, req.folderId);
      && r.response == Sent(|Recipients(ps, req.uploadedBy)|)
      && |r.calls| == |Recipients(ps, req.uploadedBy)| + 1
      && (forall k :: 0 <= k < |Recipients(ps, req.uploadedBy)| ==>
            r.calls[k] == NewFileEmail(req, Recipients(ps, req.uploadedBy)[k].email.value, uploader, folder))
      && r.calls[|r.calls| - 1] == NewFileWebhook(req, uploader, folder)
      && EmailCount(r.calls) == |Recipients(ps, req.uploadedBy)|
      && WebhookCount(r.calls) == 1
  {
    var uploader := UploaderName(db, req.uploadedBy);
    var folder := FolderName(db, req.folderId);
    var emails := EmailsTo(req, ps, uploader, folder);
    EmailsToShape(req, ps, uploader, folder);
    OnlyEmails(emails);
    CountsAppend(emails, [NewFileWebhook(req, uploader, folder)]);
  }

  /** The uploader is never emailed: every email goes to the address of a member
      profile that has an address and is not the uploader's. */
  lemma UploaderNeverEmailed(db: Store, req: NotifyRequest)
    ensures forall c :: c in Notify(db, req).calls && c.SendEmail? ==>
              c.email.notificationType == "new_file" &&
              exists p :: p in db.profiles && IsRecipient(p, req.uploadedBy) && c.email.recipientEmail == p.email.value
  {
    var settings := SettingsOf(db, req.companyId);
    if settings.Some? && settings.value.notifyNewFiles && MemberIds(db, req.companyId).Some?
       && |MemberIds(db, req.companyId).value| > 0 {
      var ids := MemberIds(db, req.companyId).value;
      match ProfilesIn(db, req.companyId, ids)
      case None =>
      case Some(ps) =>
        var uploader := UploaderName(db, req.uploadedBy);
        var folder := FolderName(db, req.folderId);
        NotifySent(db, req, ps);
        var r := Notify(db, req);
        var rs := Recipients(ps, req.uploadedBy);
        forall c | c in r.calls && c.SendEmail?
          ensures c.email.notificationType == "new_file" &&
                  exists p :: p in db.profiles && IsRecipient(p, req.uploadedBy) && c.email.recipientEmail == p.email.value
        {
          var k :| 0 <= k < |r.calls| && r.calls[k] == c;
          assert k < |rs|;
          assert rs[k] in rs;
        }
    }
  }

  function ScenarioProfiles(): seq<Profile>
  {
    [Profile("U1", Some("u1@t"), None), Profile("U2", Some("u2@t"), None), Profile("U3", Some("u3@t"), None)]
  }

  /** Filtering three members when only the first fails the test. */
  lemma FilterDropsFirst(a: Profile, b: Profile, c: Profile, keep: Profile -> bool)
    requires !keep(a) && keep(b) && keep(c)
    ensures Filter([a, b, c], keep) == [b, c]
  {
    var s1, s2, s3 := [a], [a, b], [a, b, c];
    assert s3[..2] == s2 && s2[..1] == s1 && s1[..0] == [];
    assert Filter(s1, keep) == [];
    assert Filter(s2, keep) == [b];
  }

  lemma ScenarioRecipients()
    ensures Recipients(ScenarioProfiles(), Some("U1")) == ScenarioProfiles()[1..]
  {
    var ps := ScenarioProfiles();
    FilterDropsFirst(ps[0], ps[1], ps[2], (p: Profile) => IsRecipient(p, Some("U1")));
    assert ps == [ps[0], ps[1], ps[2]] && ps[1..] == [ps[1], ps[2]];
  }

  /** Members {U1, U2, U3}, all with addresses, and U1 uploads: two emails, to
      U2 and U3, then one webhook. */
  lemma ScenarioUploaderExcluded(db: Store, req: NotifyRequest)
    requires req.uploadedBy == Some("U1")
    requires Delivered(db, req, ScenarioProfiles())
    ensures Notify(db, req).response == Sent(2)
    ensures WebhookCount(Notify(db, req).calls) == 1
    ensures |Notify(db, req).calls| == 3
    ensures Notify(db, req).calls[0].SendEmail? && Notify(db, req).calls[0].email.recipientEmail == "u2@t"
    ensures Notify(db, req).calls[1].SendEmail? && Notify(db, req).calls[1].email.recipientEmail == "u3@t"
  {
    ScenarioRecipients();
    NotifySent(db, req, ScenarioProfiles());
  }
}
