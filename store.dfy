/** The rows of the backing database that the notification pipeline reads, and
    the queries it issues. A query either answers with its rows or, when it is
    one of the store's failing queries, with `data: null` (the client library
    reports errors in a separate `error` field, which none of the handlers
    reads). */
module Store {
  import opened Common

  /** A `notification_settings` row. */
  datatype Setting = Setting(
    companyId: string,
    notifyExpiration: bool,
    notifyNewFiles: bool,
    expirationDaysBefore: Option<int>,
    customMessage: Option<string>,
    webhookUrl: Option<string>,
    webhookSecret: Option<string>)

  /** A `files` row; timestamps are milliseconds since the epoch. */
  datatype FileRow = FileRow(
    id: string,
    companyId: string,
    name: string,
    expiresAt: int,
    deletedAt: Option<int>)

  /** A `user_companies` row. */
  datatype Membership = Membership(userId: string, companyId: string)

  /** A `profiles` row. */
  datatype Profile = Profile(id: string, email: Option<string>, fullName: Option<string>)

  /** A `folders` row (the columns the pipeline reads). */
  datatype Folder = Folder(id: string, name: string)

  /** A `companies` row (the columns the pipeline reads). */
  datatype Company = Company(id: string, name: string)

  /** The queries the edge functions issue, by call site. */
  datatype Query =
    | ExpirationSettings          // settings with notify_expiration = true
    | CompanyFiles(cid: string)   // files of one company inside the scan window
    | CompanyMembers(cid: string) // user_companies of one company
    | MemberProfiles(cid: string) // profiles whose id is a member of one company
    | CompanySettings(cid: string)
    | FolderById(fid: string)
    | ProfileById(uid: string)
    | CompanyById(id: string)

  datatype Store = Store(
    settings: seq<Setting>,
    files: seq<FileRow>,
    memberships: seq<Membership>,
    profiles: seq<Profile>,
    folders: seq<Folder>,
    companies: seq<Company>,
    failing: set<Query>)

  /** `.single()`: the row when exactly one matches, otherwise null. */
  function Single<T>(rows: seq<T>): (r: Option<T>)
    ensures r.Some? <==> |rows| == 1
    ensures r.Some? ==> r.value == rows[0]
  {
    if |rows| == 1 then Some(rows[0]) else None
  }

  /** `.from("notification_settings").select(..).eq("notify_expiration", true)` */
  function ExpirationSettingsRows(db: Store): (r: Option<seq<Setting>>)
    ensures r.None? <==> ExpirationSettings in db.failing
    ensures r.Some? ==> forall k :: 0 <= k < |r.value| ==> r.value[k].notifyExpiration
    ensures r.Some? ==> forall s :: s in r.value <==> s in db.settings && s.notifyExpiration
  {
    if ExpirationSettings in db.failing then None
    else Some(Filter(db.settings, (s: Setting) => s.notifyExpiration))
  }

  /** A file row the scan window admits: the company's, not soft-deleted, and
      expiring inside `[from, to]`. */
  predicate InWindow(f: FileRow, cid: string, from: int, to: int)
  {
    f.companyId == cid && f.deletedAt.None? && from <= f.expiresAt <= to
  }

  /** `.from("files")...eq("company_id", cid).is("deleted_at", null)
      .gte("expires_at", from).lte("expires_at", to)` */
  function WindowFiles(db: Store, cid: string, from: int, to: int): (r: Option<seq<FileRow>>)
    ensures r.None? <==> CompanyFiles(cid) in db.failing
    ensures r.Some? ==> forall f :: f in r.value <==> f in db.files && InWindow(f, cid, from, to)
  {
    if CompanyFiles(cid) in db.failing then None
    else Some(Filter(db.files, (f: FileRow) => InWindow(f, cid, from, to)))
  }

  /** `.from("user_companies").select("user_id").eq("company_id", cid)`, mapped to user ids. */
  function MemberIds(db: Store, cid: string): (r: Option<seq<string>>)
    ensures r.None? <==> CompanyMembers(cid) in db.failing
    ensures r.Some? ==> forall u :: u in r.value <==> Membership(u, cid) in db.memberships
  {
    if CompanyMembers(cid) in db.failing then None
    else
      var rows := Filter(db.memberships, (m: Membership) => m.companyId == cid);
      var ids := seq(|rows|, k requires 0 <= k < |rows| => rows[k].userId);
      assert forall u :: u in ids <==> Membership(u, cid) in rows by {
        forall u | Membership(u, cid) in rows ensures u in ids {
          var k :| 0 <= k < |rows| && rows[k] == Membership(u, cid);
          assert ids[k] == u;
        }
      }
      Some(ids)
  }

  /** `.from("profiles").select("id, email").in("id", ids)`, issued for company `cid`. */
  function ProfilesIn(db: Store, cid: string, ids: seq<string>): (r: Option<seq<Profile>>)
    ensures r.None? <==> MemberProfiles(cid) in db.failing
    ensures r.Some? ==> forall p :: p in r.value <==> p in db.profiles && p.id in ids
  {
    if MemberProfiles(cid) in db.failing then None
    else Some(Filter(db.profiles, (p: Profile) => p.id in ids))
  }

  /** The company's settings row through `.eq("company_id", cid).single()`. */
  function SettingsOf(db: Store, cid: string): (r: Option<Setting>)
    ensures r.Some? ==> CompanySettings(cid) !in db.failing && r.value in db.settings && r.value.companyId == cid
  {
    if CompanySettings(cid) in db.failing then None
    else Single(Filter(db.settings, (s: Setting) => s.companyId == cid))
  }

  /** A folder row through `.eq("id", fid).single()`. */
  function FolderOf(db: Store, fid: string): (r: Option<Folder>)
    ensures r.Some? ==> FolderById(fid) !in db.failing && r.value in db.folders && r.value.id == fid
  {
    if FolderById(fid) in db.failing then None
    else Single(Filter(db.folders, (f: Folder) => f.id == fid))
  }

  /** A profile row through `.eq("id", uid).single()`. */
  function ProfileOf(db: Store, uid: string): (r: Option<Profile>)
    ensures r.Some? ==> ProfileById(uid) !in db.failing && r.value in db.profiles && r.value.id == uid
  {
    if ProfileById(uid) in db.failing then None
    else Single(Filter(db.profiles, (p: Profile) => p.id == uid))
  }

  /** A company row through `.eq("id", id).single()`. */
  function CompanyOf(db: Store, id: string): (r: Option<Company>)
    ensures r.Some? ==> CompanyById(id) !in db.failing && r.value in db.companies && r.value.id == id
  {
    if CompanyById(id) in db.failing then None
    else Single(Filter(db.companies, (c: Company) => c.id == id))
  }
}
