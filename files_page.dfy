/** The upload procedure of the files page: three guards in a fixed order, the
    current user's id, a storage path built from the company, the selected
    folder, a random id and the file name with whitespace runs replaced, the
    storage upload, then the `files` row. Also the progress tick that runs
    while an upload is in flight and the reset done when another company is
    selected. */
module FilesPage {
  import opened Common

  // ---------------------------------------------------------------------------
  // The storage file name

  /** A character matched by `\s` in a JavaScript regular expression. */
  predicate IsSpace(c: char)
  {
    c == '\t' || c == '\n' || c == '\U{000B}' || c == '\U{000C}' || c == '\r' || c == ' '
    || c == '\U{00A0}' || c == '\U{1680}' || ('\U{2000}' <= c <= '\U{200A}')
    || c == '\U{2028}' || c == '\U{2029}' || c == '\U{202F}' || c == '\U{205F}'
    || c == '\U{3000}' || c == '\U{FEFF}'
  }

  predicate HasNoSpace(s: string)
  {
    forall k :: 0 <= k < |s| ==> !IsSpace(s[k])
  }

  /** `s` without its leading whitespace. */
  function DropSpaces(s: string): (r: string)
    ensures |r| <= |s| && (|r| > 0 ==> !IsSpace(r[0]))
    ensures HasNoSpace(s) ==> r == s
  {
    if |s| > 0 && IsSpace(s[0]) then DropSpaces(s[1..]) else s
  }

  /** `name.replace(/\s+/g, "_")`: every maximal run of whitespace becomes one
      "_". */
  function SafeName(name: string): (r: string)
    ensures |r| <= |name| && (|r| == 0 <==> |name| == 0)
    ensures HasNoSpace(r)
    decreases |name|
  {
    if |name| == 0 then ""
    else if IsSpace(name[0]) then "_" + SafeName(DropSpaces(name[1..]))
    else [name[0]] + SafeName(name[1..])
  }

  /** A name without whitespace is kept as it is; so the replacement is
      idempotent. */
  lemma {:induction false} SafeNameKeeps(name: string)
    requires HasNoSpace(name)
    ensures SafeName(name) == name
    decreases |name|
  {
    if |name| > 0 {
      SafeNameKeeps(name[1..]);
    }
  }

  lemma SafeNameIdempotent(name: string)
    ensures SafeName(SafeName(name)) == SafeName(name)
  {
    SafeNameKeeps(SafeName(name));
  }

  /** When no two whitespace characters are adjacent, every run has length one
      and the replacement is character by character. */
  lemma {:induction false} SafeNameSingleSpaces(name: string)
    requires forall k :: 0 <= k < |name| - 1 ==> !(IsSpace(name[k]) && IsSpace(name[k + 1]))
    ensures SafeName(name) == seq(|name|, k requires 0 <= k < |name| => if IsSpace(name[k]) then '_' else name[k])
    decreases |name|
  {
    if |name| > 0 {
      var rest := name[1..];
      SafeNameSingleSpaces(rest);
      if IsSpace(name[0]) && |rest| > 0 {
        assert !IsSpace(rest[0]);
      }
    }
  }

  /** Leading whitespace followed by a non-space drops to what follows it. */
  lemma {:induction false} DropSpacesRun(w: string, b: string)
    requires forall k :: 0 <= k < |w| ==> IsSpace(w[k])
    requires |b| == 0 || !IsSpace(b[0])
    ensures DropSpaces(w + b) == b
    decreases |w|
  {
    if |w| > 0 {
      assert (w + b)[0] == w[0] && (w + b)[1..] == w[1..] + b;
      DropSpacesRun(w[1..], b);
    } else {
      assert w + b == b;
    }
  }

  /** A whole run of whitespace, however long, becomes a single "_". */
  lemma RunCollapses(w: string, b: string)
    requires |w| > 0 && forall k :: 0 <= k < |w| ==> IsSpace(w[k])
    requires |b| == 0 || !IsSpace(b[0])
    ensures SafeName(w + b) == "_" + SafeName(b)
  {
    var t, rest := w + b, w[1..];
    assert t[0] == w[0] && IsSpace(t[0]);
    assert t[1..] == rest + b;
    assert forall k :: 0 <= k < |rest| ==> rest[k] == w[k + 1];
    DropSpacesRun(rest, b);
    assert SafeName(t) == "_" + SafeName(DropSpaces(t[1..]));
  }

  /** A character that is not whitespace is kept, and the rest is replaced on
      its own. With RunCollapses this covers every name. */
  lemma SafeNameCons(c: char, s: string)
    requires !IsSpace(c)
    ensures SafeName([c] + s) == [c] + SafeName(s)
  {
    assert ([c] + s)[0] == c && ([c] + s)[1..] == s;
  }

  /** Two spaces between two letters give one "_". */
  lemma SafeNameDoubleSpace()
    ensures SafeName("a  b") == "a_b"
  {
    assert "a  b"[1..] == "  " + "b";
    RunCollapses("  ", "b");
    assert SafeName("b") == "b";
  }

  // ---------------------------------------------------------------------------
  // Storage path and inserted row

  /** `${companyId}/${selectedFolderId ?? "root"}/${uuid}_${safeName}`. */
  function StoragePath(companyId: string, folderId: Option<string>, uuid: string, name: string): string
  {
    companyId + "/" + (if folderId.Some? then folderId.value else "root") + "/" + ObjectName(uuid, name)
  }

  /** The last segment, `${uuid}_${safeName}`. */
  function ObjectName(uuid: string, name: string): string
  {
    uuid + "_" + SafeName(name)
  }

  /** `s` does not contain `sep`. */
  predicate Free(s: string, sep: char)
  {
    forall k :: 0 <= k < |s| ==> s[k] != sep
  }

  lemma FreeConcat(a: string, b: string, sep: char)
    requires Free(a, sep) && Free(b, sep)
    ensures Free(a + b, sep)
  {
    forall k | 0 <= k < |a + b|
      ensures (a + b)[k] != sep
    {
      if k >= |a| {
        assert (a + b)[k] == b[k - |a|];
      }
    }
  }

  /** The segments of `s` between the occurrences of `sep`. */
  function Split(s: string, sep: char): (r: seq<string>)
    ensures |r| >= 1
    decreases |s|
  {
    if |s| == 0 then [""]
    else
      var rest := Split(s[1..], sep);
      if s[0] == sep then [""] + rest else [[s[0]] + rest[0]] + rest[1..]
  }

  lemma {:induction false} SplitFree(s: string, sep: char)
    requires Free(s, sep)
    ensures Split(s, sep) == [s]
  {
    if |s| > 0 {
      SplitFree(s[1..], sep);
      assert [s[0]] + s[1..] == s;
    }
  }

  lemma {:induction false} SplitJoin(a: string, sep: char, b: string)
    requires Free(a, sep)
    ensures Split(a + [sep] + b, sep) == [a] + Split(b, sep)
  {
    if |a| == 0 {
      assert a + [sep] + b == [sep] + b;
      assert ([sep] + b)[1..] == b;
    } else {
      SplitJoin(a[1..], sep, b);
      assert (a + [sep] + b)[1..] == a[1..] + [sep] + b;
      assert [a[0]] + a[1..] == a;
    }
  }

  /** Three separator-free texts joined by the separator split back into them. */
  lemma SplitThree(a: string, b: string, c: string, sep: char)
    requires Free(a, sep) && Free(b, sep) && Free(c, sep)
    ensures Split(a + [sep] + b + [sep] + c, sep) == [a, b, c]
  {
    var rest := b + [sep] + c;
    var ab := a + [sep] + b;
    assert ab + [sep] + c == ab + ([sep] + c);
    assert ab + ([sep] + c) == a + [sep] + rest;
    SplitJoin(a, sep, rest);
    SplitJoin(b, sep, c);
    SplitFree(c, sep);
  }

  /** The object name `${uuid}_${safeName}` has no "/" when neither part has. */
  lemma ObjectNameFree(uuid: string, name: string)
    requires Free(uuid, '/') && Free(name, '/')
    ensures Free(ObjectName(uuid, name), '/')
  {
    SafeNameNoSlash(name);
    assert Free("_", '/');
    FreeConcat(uuid, "_", '/');
    FreeConcat(uuid + "_", SafeName(name), '/');
  }

  /** The path reads back as its three parts: the company, the folder segment
      ("root" without a folder) and the object name, as long as the company id,
      the folder id, the random id and the file name contain no "/". */
  lemma StoragePathSegments(companyId: string, folderId: Option<string>, uuid: string, name: string)
    requires Free(companyId, '/') && Free(uuid, '/') && Free(name, '/')
    requires folderId.Some? ==> Free(folderId.value, '/')
    ensures var segment := if folderId.Some? then folderId.value else "root";
      Split(StoragePath(companyId, folderId, uuid, name), '/') == [companyId, segment, ObjectName(uuid, name)]
  {
    var segment := if folderId.Some? then folderId.value else "root";
    var last := ObjectName(uuid, name);
    ObjectNameFree(uuid, name);
    assert Free(segment, '/');
    assert StoragePath(companyId, folderId, uuid, name) == companyId + ['/'] + segment + ['/'] + last;
    SplitThree(companyId, segment, last, '/');
  }

  lemma {:induction false} SafeNameNoSlash(name: string)
    requires Free(name, '/')
    ensures Free(SafeName(name), '/')
    decreases |name|
  {
    if |name| > 0 {
      if IsSpace(name[0]) {
        DropSpacesSuffix(name[1..]);
        SafeNameNoSlash(DropSpaces(name[1..]));
      } else {
        SafeNameNoSlash(name[1..]);
      }
    }
  }

  lemma {:induction false} DropSpacesSuffix(s: string)
    ensures exists i :: 0 <= i <= |s| && DropSpaces(s) == s[i..]
  {
    if |s| > 0 && IsSpace(s[0]) {
      DropSpacesSuffix(s[1..]);
      var i :| 0 <= i <= |s[1..]| && DropSpaces(s[1..]) == s[1..][i..];
      assert s[1..][i..] == s[i + 1..];
    } else {
      assert s[0..] == s;
    }
  }

  /** The browser's `File`. */
  datatype LocalFile = LocalFile(name: string, mimeType: string, size: int)

  /** The row inserted into `files`. */
  datatype FileRecord = FileRecord(
    companyId: string,
    bucketId: string,
    storagePath: string,
    name: string,
    mimeType: Option<string>,
    size: int,
    createdBy: string,
    permissionScope: string,
    expiresAt: string,
    folderId: Option<string>,
    serviceId: Option<string>)

  const Bucket: string := "documents"
  const CompanyScope: string := "company"

  /** The row for an upload, with `expiresIso` the ISO text of the expiry day's
      end. */
  function UploadRecord(companyId: string, folderId: Option<string>, serviceId: Option<string>,
                        f: LocalFile, uid: string, path: string, expiresIso: string): (r: FileRecord)
    ensures r.name == f.name && r.storagePath == path && r.createdBy == uid
    ensures r.permissionScope == CompanyScope && r.bucketId == Bucket
    ensures r.folderId == folderId && r.serviceId == serviceId && r.companyId == companyId
    ensures r.mimeType.None? <==> f.mimeType == ""
    ensures r.mimeType.Some? ==> r.mimeType.value == f.mimeType
    ensures r.size == f.size && r.expiresAt == expiresIso
  {
    FileRecord(companyId, Bucket, path, f.name, if f.mimeType == "" then None else Some(f.mimeType),
               f.size, uid, CompanyScope, expiresIso, folderId, serviceId)
  }

  /** The row keeps the name as chosen; the storage object's name differs from
      it exactly when the name has whitespace. */
  lemma RecordKeepsOriginalName(companyId: string, folderId: Option<string>, serviceId: Option<string>,
                                f: LocalFile, uid: string, uuid: string, expiresIso: string)
    ensures var r := UploadRecord(companyId, folderId, serviceId, f, uid,
                                  StoragePath(companyId, folderId, uuid, f.name), expiresIso);
      r.name == f.name && (r.name == SafeName(f.name) <==> HasNoSpace(f.name))
  {
    if HasNoSpace(f.name) {
      SafeNameKeeps(f.name);
    }
  }

  // ---------------------------------------------------------------------------
  // The page

  const NoFileTitle: string := "Selecione um arquivo"
  const NoCompanyTitle: string := "Selecione a empresa"
  const NoExpiryTitle: string := "Validade obrigatória"
  const NoSessionTitle: string := "Sessão inválida"
  const UploadErrorTitle: string := "Erro no upload"
  const InsertErrorTitle: string := "Erro ao registrar"
  const DoneTitle: string := "Upload concluído"

  /** The first guard that stops an upload, by the title of its toast. */
  function Guard(file: Option<LocalFile>, companyId: string, expiresAt: string): (r: Option<string>)
    ensures r == Some(NoFileTitle) <==> file.None?
    ensures r == Some(NoCompanyTitle) <==> file.Some? && companyId == ""
    ensures r == Some(NoExpiryTitle) <==> file.Some? && companyId != "" && expiresAt == ""
    ensures r.None? <==> file.Some? && companyId != "" && expiresAt != ""
  {
    if file.None? then Some(NoFileTitle)
    else if companyId == "" then Some(NoCompanyTitle)
    else if expiresAt == "" then Some(NoExpiryTitle)
    else None
  }

  /** What the calls made by an upload give: the user id of `getUser`, the
      random id, the errors of the storage upload and of the insert, and the
      ISO text of a local date-time. */
  datatype UploadEnv = UploadEnv(
    uid: Option<string>,
    uuid: string,
    storageError: Option<string>,
    insertError: Option<string>,
    isoOf: string -> string)

  datatype UploadEffect =
    | Toast(title: string)
    | StoragePut(bucket: string, path: string, contentType: string)
    | InsertFile(row: FileRecord)

  /** One progress tick: `Math.min(90, p + 5)`. */
  function ProgressTick(p: int): (r: int)
    ensures p < 90 ==> p < r <= 90
    ensures p >= 85 ==> r == 90
  {
    if p + 5 < 90 then p + 5 else 90
  }

  /** The interval runs only while uploading below 90. */
  predicate TickRuns(uploading: bool, p: int)
  {
    uploading && p < 90
  }

  /** `n` ticks from `p`, each taken only while the interval runs. */
  function Ticks(uploading: bool, p: int, n: nat): int
  {
    if n == 0 then p
    else
      var q := Ticks(uploading, p, n - 1);
      if TickRuns(uploading, q) then ProgressTick(q) else q
  }

  /** Ticks never carry the progress past 90, never lower it, and from `p`
      reach `min(90, p + 5n)`. */
  lemma {:induction false} TicksBounded(uploading: bool, p: int, n: nat)
    requires uploading && p <= 90
    ensures Ticks(uploading, p, n) == if p + 5 * n < 90 then p + 5 * n else 90
  {
    if n > 0 {
      TicksBounded(uploading, p, n - 1);
    }
  }

  lemma {:induction false} TicksNeverPass90(uploading: bool, p: int, n: nat)
    requires p <= 90
    ensures p <= Ticks(uploading, p, n) <= 90
  {
    if n > 0 {
      TicksNeverPass90(uploading, p, n - 1);
    }
  }

  class FilesPage {
    var file: Option<LocalFile>
    var companyId: string
    var selectedFolderId: Option<string>
    var expiresAt: string
    var progress: int
    var uploading: bool
    var serviceId: Option<string>

    /** The progress bar stays within 0..100. */
    predicate Valid()
      reads this
    {
      0 <= progress <= 100
    }

    /** The page's initial state, with the default expiry date. */
    constructor (defaultExpiry: string)
      ensures Valid()
      ensures file.None? && companyId == "" && selectedFolderId.None? && expiresAt == defaultExpiry
      ensures progress == 0 && !uploading && serviceId.None?
    {
      file := None;
      companyId := "";
      selectedFolderId := None;
      expiresAt := defaultExpiry;
      progress := 0;
      uploading := false;
      serviceId := None;
    }

    /** The interval's callback. */
    method Tick()
      requires Valid()
      modifies this
      ensures Valid()
      ensures progress == if TickRuns(old(uploading), old(progress)) then ProgressTick(old(progress)) else old(progress)
      ensures progress == Ticks(old(uploading), old(progress), 1)
      ensures old(progress) <= 90 ==> progress <= 90
      ensures uploading == old(uploading) && file == old(file) && companyId == old(companyId)
      ensures selectedFolderId == old(selectedFolderId) && expiresAt == old(expiresAt) && serviceId == old(serviceId)
    {
      if uploading && progress < 90 {
        progress := if 90 < progress + 5 then 90 else progress + 5;
      }
    }

    /** The company select's change handler: the folder goes back to the root
        and no service stays selected. */
    method SelectCompany(v: string)
      modifies this
      ensures companyId == v && selectedFolderId.None? && serviceId.None?
      ensures file == old(file) && expiresAt == old(expiresAt)
      ensures progress == old(progress) && uploading == old(uploading)
    {
      companyId := v;
      selectedFolderId := None;
      serviceId := None;
    }

    /** `upload()`. A guard that fails stops before any call; after the
        guards, every way out leaves `uploading` false. */
    method Upload(env: UploadEnv) returns (effects: seq<UploadEffect>)
      requires Valid()
      modifies this
      ensures Valid()
      ensures companyId == old(companyId) && selectedFolderId == old(selectedFolderId)
      ensures expiresAt == old(expiresAt) && serviceId == old(serviceId)
      ensures Guard(old(file), old(companyId), old(expiresAt)).Some? ==>
                && effects == [Toast(Guard(old(file), old(companyId), old(expiresAt)).value)]
                && file == old(file) && progress == old(progress) && uploading == old(uploading)
      ensures Guard(old(file), old(companyId), old(expiresAt)).None? ==>
                var f := old(file).value;
                var path := StoragePath(companyId, selectedFolderId, env.uuid, f.name);
                var put := StoragePut(Bucket, path, f.mimeType);
                var row := UploadRecord(companyId, selectedFolderId, serviceId, f,
                                        if env.uid.Some? then env.uid.value else "", path,
                                        env.isoOf(expiresAt + "T23:59:59"));
                && !uploading
                && (!Truthy(env.uid) ==>
                      effects == [Toast(NoSessionTitle)] && progress == 10 && file == old(file))
                && (Truthy(env.uid) && env.storageError.Some? ==>
                      effects == [put, Toast(UploadErrorTitle)] && progress == 10 && file == old(file))
                && (Truthy(env.uid) && env.storageError.None? && env.insertError.Some? ==>
                      effects == [put, InsertFile(row), Toast(InsertErrorTitle)] && progress == 95 && file == old(file))
                && (Truthy(env.uid) && env.storageError.None? && env.insertError.None? ==>
                      effects == [put, InsertFile(row), Toast(DoneTitle)] && progress == 100 && file.None?)
    {
      if file.None? {
        return [Toast(NoFileTitle)];
      }
      if companyId == "" {
        return [Toast(NoCompanyTitle)];
      }
      if expiresAt == "" {
        return [Toast(NoExpiryTitle)];
      }

      uploading := true;
      progress := 10;

      var uid := env.uid;
      if !Truthy(uid) {
        uploading := false;
        return [Toast(NoSessionTitle)];
      }

      var f := file.value;
      var safeName := SafeName(f.name);
      var folderSegment := if selectedFolderId.Some? then selectedFolderId.value else "root";
      var objectName := env.uuid + "_" + safeName;
      var path := companyId + "/" + folderSegment + "/" + objectName;
      var expiresAtIso := env.isoOf(expiresAt + "T23:59:59");

      effects := [StoragePut(Bucket, path, f.mimeType)];
      if env.storageError.Some? {
        uploading := false;
        return effects + [Toast(UploadErrorTitle)];
      }

      progress := 95;
      var row := FileRecord(companyId, Bucket, path, f.name, if f.mimeType == "" then None else Some(f.mimeType),
                            f.size, uid.value, CompanyScope, expiresAtIso, selectedFolderId, serviceId);
      effects := effects + [InsertFile(row)];
      if env.insertError.Some? {
        uploading := false;
        return effects + [Toast(InsertErrorTitle)];
      }

      progress := 100;
      file := None;
      uploading := false;
      effects := effects + [Toast(DoneTitle)];
    }
  }
}
