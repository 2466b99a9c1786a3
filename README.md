# VaultDocs notification and file-handling core, in Dafny

VaultDocs is a document vault for companies: users upload files into folders.
Each file has an expiry date. The system notifies the company's members by
e-mail and by a signed webhook. This project models the parts of VaultDocs
that compute things or change state, and proves properties of them.

The model covers four Supabase edge functions:

- **`check-expiring-files`** (`ExpirationScan`) is the scheduled scan of companies with expiry notifications turned on:
  - the lookahead days default to 7 (`|| 7` replaces only 0 or null);
  - it selects the company's non-deleted files whose expiry falls in the window `[now, now + N days]`;
  - it collects the company's members and their profiles;
  - for each file it computes the days remaining by ceiling division;
  - it requests one e-mail per profile that has an address, and then one webhook.
- **`notify-new-file`** (`NewFileNotify`):
  - it does nothing unless the company enabled new-file notifications;
  - it resolves the folder name ("Root" by default) and the uploader name ("Sistema" by default);
  - it e-mails every member with an address except the uploader;
  - it fires one webhook.
- **`send-notification-email`** (`NotificationEmail`):
  - it builds the subject and the HTML for the two notification types from the company's name;
  - it sends the message through the mail service;
  - it writes a `notification_logs` row with status "sent".
- **`trigger-webhook`** (`Webhook`):
  - without a webhook URL it answers "No webhook configured";
  - otherwise it serialises the payload and signs exactly that text with HMAC-SHA256 under the company secret, writing the signature as lowercase hexadecimal (empty without a secret);
  - it POSTs the text and logs the delivery in `webhook_logs`.

It also covers these parts of the web client:

- **the folder tree builder** (`FolderTree`): `buildTree` turns the flat folder rows into a forest of mutable nodes;
- **the CSV export of the upload report** (`UploadReport`):
  - the output is one header record plus one record of six cells per file row;
  - every cell is quoted, with inner quotes doubled as rules 5 and 7 of section 2 of RFC 4180 describe;
  - a reference parser reads the export back;
- **the upload on the files page** (`FilesPage`):
  - three guards, checked in a fixed order;
  - the session check;
  - the storage path `company/(folder or "root")/uuid_safeName`, where whitespace runs in the name become "_";
  - the storage upload and the `files` row;
  - the progress tick `min(90, p + 5)` and the reset when another company is selected;
- **the folder deletion dialog** (`DeleteFolder`), a fixed sequence of calls:
  1. it removes the storage objects of the folder's files (a storage error is only logged);
  2. it deletes those file rows, and only when there were any;
  3. it deletes the direct subfolders one by one;
  4. it deletes the folder itself.

  The first database error stops the sequence. The deletion does not recurse: the client issues no delete for grandchild folders or for the files of child folders. What the database then does with those rows depends on its foreign keys, which are not modelled.

Shared modules: `Common` (Option, JavaScript truthiness, `join`, decimal printing), `Store` (the Supabase tables as one value, plus the set of queries that fail) and `Invocations` (the requests one edge function makes to another).

How the outside world is modelled:

- Database reads go against a `Store` value. A query listed as failing returns `data: null`.
- The clock is a parameter `now`. Dates are formatted by a parameter `fmt` or `iso`.
- The upload's random id, user id and call outcomes are an `UploadEnv` parameter.
- The mail service is a `send` parameter. The HTTP client is a `fetch` parameter. `JSON.stringify` is a `serialize` parameter. HMAC-SHA256 is an `hmac` parameter.
- Calls to other services are recorded as sequences of effects, in the order they are made.

Places where the code does less, or other, than its own names and comments suggest; the model follows the code:

- `|| 7` keeps a negative `expiration_days_before` as a negative lookahead. Only 0 or null become 7.
- The delete dialog's own comment says "recursivamente", but the code deletes only one level of subfolders.
- A file that expires exactly at `now` is inside the scan's window and is announced with `daysRemaining` 0 (ExpirationScan.DaysRemainingBounds).

## Model

| member | source | states |
|---|---|---|
| ExpirationScan.LookaheadDays | supabase/functions/check-expiring-files/index.ts:42 | the lookahead is 7 when the setting is null or 0, and the setting otherwise (negatives kept); never 0 |
| ExpirationScan.CeilDiv | supabase/functions/check-expiring-files/index.ts:79-81 | `Math.ceil(a / b)` as the unique r with (r-1)·b < a ≤ r·b |
| ExpirationScan.DaysRemainingBounds | supabase/functions/check-expiring-files/index.ts:52-53 | a file inside the window has between 0 and N days remaining; at least 1 when it expires after now, and 0 when it expires exactly at now |
| ExpirationScan.Recipients | supabase/functions/check-expiring-files/index.ts:83-84 | every profile kept has a truthy e-mail address |
| ExpirationScan.CompanyStep | supabase/functions/check-expiring-files/index.ts:42-73 | a target date out of the Date range aborts with "Invalid time value"; no files, or a failing member or profile query, skip the company with no call |
| ExpirationScan.CompanyStepProcessed | supabase/functions/check-expiring-files/index.ts:47-116 | with files, member ids and profiles found, the company's calls are exactly the per-file calls |
| ExpirationScan.RunSnoc | supabase/functions/check-expiring-files/index.ts:41-117 | one more company appends its calls, or stops the run with its error |
| ExpirationScan.RunErrorSticks | supabase/functions/check-expiring-files/index.ts:41-117 | once a company has thrown, later companies add nothing |
| ExpirationScan.Scan | supabase/functions/check-expiring-files/index.ts:23-37 | "No companies to process" exactly when the settings query fails or no row has notify_expiration, and then no call is made; the count reported is the number of e-mails requested |
| ExpirationScan.CheckExpiringFiles | supabase/functions/check-expiring-files/index.ts:23-130 | the handler's loops make exactly the calls and the response of `Scan` |
| ExpirationScan.ProcessCompany | supabase/functions/check-expiring-files/index.ts:42-116 | one pass of the company loop gives the step `CompanyStep` specifies, and counts exactly its e-mails |
| ExpirationScan.NotifyFiles | supabase/functions/check-expiring-files/index.ts:76-116 | the per-file loop makes the specified calls and counts only e-mails |
| ExpirationScan.NotifyRecipients | supabase/functions/check-expiring-files/index.ts:83-101 | the per-profile loop requests one e-mail per addressed profile |
| ExpirationScan.EmailsForShape | supabase/functions/check-expiring-files/index.ts:83-98 | the k-th e-mail goes to the k-th addressed profile, with the file's name, the formatted date, the days remaining and the custom message |
| ExpirationScan.EmailsForCounts | supabase/functions/check-expiring-files/index.ts:83-101 | one e-mail per addressed profile and no webhook |
| ExpirationScan.FileCallsCounts | supabase/functions/check-expiring-files/index.ts:76-116 | per file: one e-mail per addressed profile, then exactly one `file_expiring` webhook, last |
| ExpirationScan.FilesCallsCounts | supabase/functions/check-expiring-files/index.ts:76-116 | for a company: files × addressed profiles e-mails and one webhook per file |
| ExpirationScan.CompanyStepCounts | supabase/functions/check-expiring-files/index.ts:55-116 | a processed company makes (files in window) × (addressed members) e-mails and one webhook per file in window |
| ExpirationScan.RunCounts | supabase/functions/check-expiring-files/index.ts:41-117 | a run without error makes the summed e-mail and webhook counts |
| ExpirationScan.ScanSentCount | supabase/functions/check-expiring-files/index.ts:100-125 | `notificationsSent` equals the e-mails the tables call for, and the webhooks equal the files in the windows |
| ExpirationScan.EmailsForSound | supabase/functions/check-expiring-files/index.ts:83-98 | every e-mail for a file concerns a row of an enabled company inside the window |
| ExpirationScan.FilesCallsSound | supabase/functions/check-expiring-files/index.ts:76-116 | every call for a company's files concerns an enabled company's file inside its window |
| ExpirationScan.RunSound | supabase/functions/check-expiring-files/index.ts:41-117 | every call of a run concerns an enabled company's file inside its window |
| ExpirationScan.ScanSound | supabase/functions/check-expiring-files/index.ts:41-116 | every call of the scan concerns an enabled company's file inside its window |
| ExpirationScan.ScanFailure | supabase/functions/check-expiring-files/index.ts:131-139 | the only 500 is "Invalid time value", caused by an enabled company whose target date is out of range |
| ExpirationScan.RunFailure | supabase/functions/check-expiring-files/index.ts:43-53 | a run stops only at a company whose target date is out of range |
| NewFileNotify.FolderName | supabase/functions/notify-new-file/index.ts:48-56 | "Root" without a folder id or when the folder is not found, its name otherwise |
| NewFileNotify.UploaderName | supabase/functions/notify-new-file/index.ts:59-67 | full name, else e-mail, else "Sistema"; never empty |
| NewFileNotify.Recipients | supabase/functions/notify-new-file/index.ts:106-107 | every profile kept has an address and is not the uploader |
| NewFileNotify.Notify | supabase/functions/notify-new-file/index.ts:31-149 | "disabled" exactly when there is no settings row or notify_new_files is off; otherwise "No users in company" exactly when the member query is null or empty; otherwise "No profiles found" exactly when the profile query is null; the count is sent exactly when all three checks pass; every non-sending answer makes no call |
| NewFileNotify.NotifyNewFile | supabase/functions/notify-new-file/index.ts:31-149 | the handler makes exactly the calls and the response of `Notify` |
| NewFileNotify.SendEmails | supabase/functions/notify-new-file/index.ts:103-122 | the profile loop requests exactly the specified e-mails and counts them |
| NewFileNotify.EmailsToShape | supabase/functions/notify-new-file/index.ts:106-122 | the k-th e-mail goes to the k-th recipient, with the uploader and folder names |
| NewFileNotify.NotifySent | supabase/functions/notify-new-file/index.ts:103-144 | when the company has members with profiles: one e-mail per recipient in order, then one `new_file` webhook last, and the count is the number of recipients |
| NewFileNotify.UploaderNeverEmailed | supabase/functions/notify-new-file/index.ts:107 | every e-mail is a `new_file` e-mail to an addressed profile that is not the uploader |
| NewFileNotify.ScenarioRecipients | supabase/functions/notify-new-file/index.ts:107 | with uploader U1 among U1, U2 and U3, the recipients are U2 and U3 |
| NewFileNotify.ScenarioUploaderExcluded | supabase/functions/notify-new-file/index.ts:103-136 | that upload sends two e-mails, to U2 then U3, and one webhook |
| NotificationEmail.CompanyName | supabase/functions/send-notification-email/index.ts:50-54 | the company's name, or "undefined" when the single-row read finds none |
| NotificationEmail.Compose | supabase/functions/send-notification-email/index.ts:56-81 | the expiration subject and body for "expiration", the new-file ones for "new_file", both empty for any other type |
| NotificationEmail.Message | supabase/functions/send-notification-email/index.ts:83-88 | sender "VaultDocs <onboarding@resend.dev>", the single recipient, and the composed subject and body |
| NotificationEmail.SendNotificationEmail | supabase/functions/send-notification-email/index.ts:83-115 | send first; the log row is written exactly when the send returns, and the answer is then the send's reply; a throw answers 500 with its message and logs nothing |
| NotificationEmail.BuildMessage | supabase/functions/send-notification-email/index.ts:50-88 | the lookup and template selection build exactly the specified message |
| NotificationEmail.SelectTemplate | supabase/functions/send-notification-email/index.ts:56-81 | the `if`/`else if` on the type assigns the composed subject and body |
| NotificationEmail.Deliver | supabase/functions/send-notification-email/index.ts:83-115 | the message is sent first; a returned send adds the "sent" log row and answers the reply; a throw adds nothing and answers 500 with its message |
| NotificationEmail.ExpirationBodyMentions | supabase/functions/send-notification-email/index.ts:61-69 | the expiration body contains the file name, the company name, the expiry date and the days remaining |
| NotificationEmail.ExpirationCustomParagraph | supabase/functions/send-notification-email/index.ts:67 | a truthy custom message inserts exactly `<p>message</p>` into the body; otherwise the body is the one without it |
| NotificationEmail.NewFileBodyMentions | supabase/functions/send-notification-email/index.ts:72-80 | the new-file body contains the file name and the company name |
| NotificationEmail.NewFileFolderParagraph | supabase/functions/send-notification-email/index.ts:77 | a truthy folder name inserts exactly the "Pasta" paragraph; otherwise it is absent |
| NotificationEmail.NewFileUploaderParagraph | supabase/functions/send-notification-email/index.ts:78 | a truthy uploader inserts exactly the "Enviado por" paragraph; otherwise it is absent |
| Webhook.HexDigit | supabase/functions/trigger-webhook/index.ts:73 | a base-16 digit is a lowercase hexadecimal character |
| Webhook.PadStart | supabase/functions/trigger-webhook/index.ts:73 | the padded length is the larger of the length and the target; the text ends with `s` and every character before it is the pad character |
| Webhook.ByteHex | supabase/functions/trigger-webhook/index.ts:73 | `toString(16).padStart(2, "0")` of a byte is always its high digit then its low digit |
| Webhook.Hex | supabase/functions/trigger-webhook/index.ts:72-74 | the signature text has two lowercase hex characters per byte |
| Webhook.HexRoundTrip | supabase/functions/trigger-webhook/index.ts:72-74 | decoding the signature text gives the HMAC bytes back |
| Webhook.HexInjective | supabase/functions/trigger-webhook/index.ts:72-74 | different digests never give the same signature text |
| Webhook.Outbound | supabase/functions/trigger-webhook/index.ts:54-85 | a POST to the URL with JSON content type; the body is exactly the signed text; the signature decodes to HMAC(secret, body) and is empty without a secret |
| Webhook.LoggedEvent | supabase/functions/trigger-webhook/index.ts:98 | the logged event is "file_uploaded" whatever the payload's event |
| Webhook.TriggerWebhookHandler | supabase/functions/trigger-webhook/index.ts:38-111 | no call without a settings row and URL; otherwise the POST comes first; a response is logged with its status and text and answered with the status; a network error answers 500 and logs nothing |
| FolderTree.FolderNode.constructor | src/components/files/FolderTree.tsx:29 | a node copies the row and starts with no children |
| FolderTree.LastRow | src/components/files/FolderTree.tsx:29 | the row a map entry keeps for an id is a row with that id (the last one wins) |
| FolderTree.BuildTree | src/components/files/FolderTree.tsx:26-39 | one fresh node per distinct id, carrying its last row; each node's children are the nodes of the rows whose parent is it, in row order; the roots are the nodes of the rows whose parent is missing or unknown, in row order |
| FolderTree.FillMap | src/components/files/FolderTree.tsx:29 | the map holds one distinct fresh node per id, with no children |
| FolderTree.LinkNodes | src/components/files/FolderTree.tsx:30-37 | second pass: every node's children and the roots are as specified |
| FolderTree.ForestKeepsOrder | src/components/files/FolderTree.tsx:30-37 | the roots and each child list keep the order of the flat rows |
| FolderTree.PlacementExact | src/components/files/FolderTree.tsx:32-36 | with unique ids, a row is a root exactly when its parent is unknown, and a child of p exactly when its parent is p; at most once each |
| FolderTree.RootPlaced | src/components/files/FolderTree.tsx:32-36 | a row without a known parent appears exactly once among the roots and under no folder |
| FolderTree.ChildPlaced | src/components/files/FolderTree.tsx:32-36 | a row with a known parent is not a root, appears exactly once under its parent and under no other folder |
| FolderTree.CountsAddUp | src/components/files/FolderTree.tsx:30-37 | roots plus children placed equal the number of rows |
| FolderTree.ForestSize | src/components/files/FolderTree.tsx:30-37 | with unique ids every row is placed exactly once: roots plus children equal the rows |
| FolderTree.Childless | src/components/files/FolderTree.tsx:33 | a folder no row points to gets no children |
| FolderTree.CycleHasNoRoot | src/components/files/FolderTree.tsx:32-36 | with unique ids, folders on a parent cycle whose rows are all present are never roots |
| FolderTree.CycleUnreachable | src/components/files/FolderTree.tsx:30-37 | no chain from a root down through the children lists reaches a folder on such a cycle, so the forest built from the roots never contains it |
| UploadReport.RecordOf | src/components/files/UploadReportDialog.tsx:70-77 | six cells: id, name, size or "", created_at as ISO, expires_at as ISO or "", mime type or "" |
| UploadReport.Records | src/components/files/UploadReportDialog.tsx:69-78 | one record per row, in order |
| UploadReport.ExportCsv | src/components/files/UploadReportDialog.tsx:66-87 | nothing without data; otherwise `relatorio-arquivos-<company>.csv` whose text is the header and the records, serialised |
| UploadReport.FieldBodyEscape | src/components/files/UploadReportDialog.tsx:79 | doubling quotes and closing the field is undone by the parser |
| UploadReport.CellRoundTrip | src/components/files/UploadReportDialog.tsx:79 | a quoted cell reads back as the cell |
| UploadReport.RecordRoundTrip | src/components/files/UploadReportDialog.tsx:79 | a line of cells joined by "," reads back as the record |
| UploadReport.TableRoundTrip | src/components/files/UploadReportDialog.tsx:79 | lines joined by a line feed read back as the table |
| UploadReport.ExportRoundTrip | src/components/files/UploadReportDialog.tsx:68-79 | the exported text parses back into the header and the records |
| UploadReport.ExportShape | src/components/files/UploadReportDialog.tsx:68-78 | the export has one more record than rows: the header, then row k's six cells at k+1 |
| FilesPage.SafeName | src/pages/Files.tsx:154 | the storage name has no whitespace, is no longer than the name, and is empty only for an empty name |
| FilesPage.SafeNameKeeps | src/pages/Files.tsx:154 | a name without whitespace is kept as it is |
| FilesPage.SafeNameIdempotent | src/pages/Files.tsx:154 | replacing twice is replacing once |
| FilesPage.SafeNameSingleSpaces | src/pages/Files.tsx:154 | without adjacent whitespace, each whitespace character becomes "_" and all else is kept in place |
| FilesPage.RunCollapses | src/pages/Files.tsx:154 | a maximal whitespace run of any length becomes a single "_" followed by the rest of the name, replaced |
| FilesPage.SafeNameCons | src/pages/Files.tsx:154 | a non-whitespace character is kept and the rest of the name is replaced on its own; with RunCollapses this settles every name |
| FilesPage.SafeNameDoubleSpace | src/pages/Files.tsx:154 | "a  b" (two spaces) becomes "a_b" |
| FilesPage.SafeNameNoSlash | src/pages/Files.tsx:154 | the replacement introduces no "/" |
| FilesPage.StoragePathSegments | src/pages/Files.tsx:153-156 | the path splits on "/" into the company, the folder id or "root", and `uuid_safeName` |
| FilesPage.UploadRecord | src/pages/Files.tsx:174-188 | bucket "documents", scope "company", the original name, the path, the creator, the folder and the service; the mime type is null exactly when the type is empty and is the type otherwise; the size is the file's size and `expires_at` is the ISO text of the expiry |
| FilesPage.RecordKeepsOriginalName | src/pages/Files.tsx:154-179 | the row keeps the chosen name, which equals the storage name exactly when it has no whitespace |
| FilesPage.Guard | src/pages/Files.tsx:127-138 | the first failing guard, in order: no file, then no company, then no expiry date; none exactly when all are set |
| FilesPage.ProgressTick | src/pages/Files.tsx:121 | below 90 a tick raises the progress and never passes 90; from 85 on it gives 90 |
| FilesPage.TicksBounded | src/pages/Files.tsx:118-124 | n ticks while uploading from p ≤ 90 reach min(90, p + 5n) |
| FilesPage.TicksNeverPass90 | src/pages/Files.tsx:118-124 | ticks from p ≤ 90 never lower the progress and never pass 90 |
| FilesPage.FilesPage.constructor | src/pages/Files.tsx:22-32 | no file, no company, root folder, no service, progress 0, not uploading |
| FilesPage.FilesPage.Tick | src/pages/Files.tsx:118-124 | the interval ticks only while uploading below 90; progress within 0..100 is kept, nothing else changes |
| FilesPage.FilesPage.SelectCompany | src/pages/Files.tsx:283 | the company is set, and the folder and the service are reset |
| FilesPage.FilesPage.Upload | src/pages/Files.tsx:126-199 | a failed guard shows its toast and changes nothing; otherwise it ends not uploading: no session gives progress 10; a storage error gives the upload then progress 10; an insert error gives upload, insert, progress 95; success gives upload, insert, progress 100 and clears the file |
| DeleteFolder.InFolder | src/components/files/DeleteFolderDialog.tsx:38-41 | exactly the rows whose folder is the target |
| DeleteFolder.OutsideFolder | src/components/files/DeleteFolderDialog.tsx:58-61 | exactly the rows whose folder is not the target |
| DeleteFolder.ChildrenOf | src/components/files/DeleteFolderDialog.tsx:67-70 | exactly the folders whose parent is the target |
| DeleteFolder.WithoutId | src/components/files/DeleteFolderDialog.tsx:78-81 | exactly the folders with another id |
| DeleteFolder.Removals | src/components/files/DeleteFolderDialog.tsx:47-50 | one storage removal per row, in order |
| DeleteFolder.RemoveObjects | src/components/files/DeleteFolderDialog.tsx:47-55 | only objects are removed, and never one whose removal fails |
| DeleteFolder.ObjectsRemoved | src/components/files/DeleteFolderDialog.tsx:47-55 | the objects left are the old ones minus those of the folder's rows whose removal succeeded |
| DeleteFolder.DeleteFolderDialog.HandleDelete | src/components/files/DeleteFolderDialog.tsx:33-113 | the tables, calls and outcome are those of `Delete`; loading ends false; the dialog closes only on success |
| DeleteFolder.DeleteFolderDialog.Steps | src/components/files/DeleteFolderDialog.tsx:36-98 | the try block makes the calls of `Delete` and leaves its tables |
| DeleteFolder.DeleteFolderDialog.FilesStep | src/components/files/DeleteFolderDialog.tsx:46-93 | from the files delete on, as `FilesStage` says |
| DeleteFolder.DeleteFolderDialog.SubfolderStep | src/components/files/DeleteFolderDialog.tsx:66-93 | from the subfolder select on, as `SubfolderStage` says |
| DeleteFolder.DeleteFolderDialog.RemoveAll | src/components/files/DeleteFolderDialog.tsx:47-55 | the storage loop makes one removal per row and leaves the tables alone |
| DeleteFolder.DeleteFolderDialog.DeleteSubfolders | src/components/files/DeleteFolderDialog.tsx:75-85 | the subfolder loop behaves as `DeleteEach` and leaves files and objects alone |
| DeleteFolder.DeleteEachStops | src/components/files/DeleteFolderDialog.tsx:83 | after a failed subfolder delete, later subfolders add nothing |
| DeleteFolder.DeleteEachCalls | src/components/files/DeleteFolderDialog.tsx:75-85 | the loop's calls are the subfolder deletes in order; all succeed but a failing last one |
| DeleteFolder.DeleteEachFolders | src/components/files/DeleteFolderDialog.tsx:75-85 | other folders stay, nothing is added, and a complete loop leaves no subfolder id |
| DeleteFolder.SubfolderStageFacts | src/components/files/DeleteFolderDialog.tsx:66-93 | database calls only, the first failure last; on success the folder's own delete is last and made once |
| DeleteFolder.FilesStageFacts | src/components/files/DeleteFolderDialog.tsx:46-93 | as above, and the files delete is made exactly when the folder had files |
| DeleteFolder.StorageOncePerFile | src/components/files/DeleteFolderDialog.tsx:38-55 | right after the select, exactly one removal per file row of the folder in order, and none elsewhere; none when the select fails |
| DeleteFolder.StorageErrorsIgnored | src/components/files/DeleteFolderDialog.tsx:52-54 | storage errors change neither the calls, nor the tables, nor the outcome |
| DeleteFolder.FilesDeleteOnlyWhenFiles | src/components/files/DeleteFolderDialog.tsx:46-63 | the files delete is made exactly when the folder has file rows |
| DeleteFolder.FirstErrorStops | src/components/files/DeleteFolderDialog.tsx:36-103 | the run ends at the first failing database call, with that call's error; all database calls before it succeeded; the run succeeds exactly when its last call succeeds |
| DeleteFolder.TargetDeletedLast | src/components/files/DeleteFolderDialog.tsx:87-93 | on success the folder's own delete is the last call and the only one |
| DeleteFolder.OnlyDirectSubfolders | src/components/files/DeleteFolderDialog.tsx:66-93 | only the target and its direct subfolders can disappear; on success no folder with the target's id or parent is left |
| DeleteFolder.SubfolderStageFolders | src/components/files/DeleteFolderDialog.tsx:66-93 | the same, for the stage from the subfolder select on |
| DeleteFolder.GrandchildSurvives | src/components/files/DeleteFolderDialog.tsx:74-85 | with unique ids, the client never deletes a subfolder's subfolder: its row is still in the model's folder table |
| DeleteFolder.SubfolderFilesOrphaned | src/components/files/DeleteFolderDialog.tsx:57-85 | the client issues no delete for a subfolder's file rows: after a success, the model's file table still holds them while their folder row is gone |
| DeleteFolder.OtherFilesKept | src/components/files/DeleteFolderDialog.tsx:57-63 | file rows of other folders are never deleted, no row is added, and on success no row of the target is left |

## Left out

- HTTP plumbing is not modelled: CORS preflight answers, response headers and the JSON bodies' exact text. `OPTIONS` handling has no logic to prove.
- Request parsing (`req.json()`) in the three request-driven edge functions is not modelled. Parsing is I/O, so their 500 answer on a malformed body is not captured.
- JSON `null` request fields are treated as absent: `Text` and `NumberText` print "undefined" for them, where a template literal prints "null".
- Calls whose results are ignored (the `functions.invoke` results, the log inserts) are left out. They are recorded as effects and are assumed to succeed.
- Dates:
  - JavaScript date handling is not modelled. Dates are epoch milliseconds.
  - `toLocaleDateString("pt-BR")` and `toISOString` are the parameters `fmt` and `iso`.
  - ExpirationScan.Scan uses a single `now`, although the scan reads the clock again for each file (check-expiring-files/index.ts:52, 78).
  - `setDate` is modelled as adding whole days of 86 400 000 ms, so daylight saving time is not modelled.
- Database order: row order is the table's order. The server's own ordering is not modelled.
- HMAC-SHA256 and the UTF-8 encoding are the `hmac` parameter. Cryptography is outside the model; only the hex encoding of the digest is proved.
- `JSON.stringify` is the `serialize` parameter: only the fact that the body sent is the text signed is proved.
- NotificationEmail.SendNotificationEmail: the mail client's reply is modelled as returned or thrown. A reply that carries an `error` field still counts as returned, so a "sent" log row is written for it, as in the code.
- FilesPage.FilesPage.Upload:
  - the interval timer firing during the awaited calls is not modelled, because interleaving is concurrency;
  - the post-success `refetchFiles` is a UI refresh and is left out;
  - an expiry text that makes `toISOString` throw is outside the model: the date input always yields a valid date.
- UploadReport.ExportCsv: the Blob, object URL and click download are browser I/O and are left out. Both `new Date(created_at).toISOString()` and `new Date(expires_at).toISOString()` are the parameter `iso` and are assumed not to throw; an invalid date, on which the code throws a RangeError, is not modelled.
- React rendering, the query hooks, toasts' descriptions and the dialog's open/close buttons are UI and are left out. The files page's file listing query is not part of this model.
- DeleteFolder.Delete: database-side effects of a delete, such as foreign-key cascades or constraint refusals, are not modelled. A failing delete changes nothing, and the set `failing` says which calls fail. So the model's end state can hold `files.folder_id` and `folders.parent_id` values that point to a deleted folder. The schema's foreign keys (`files_folder_id_fkey`, `folders_parent_id_fkey`) forbid such rows: the database would refuse the delete, cascade it, or set the reference to null.
