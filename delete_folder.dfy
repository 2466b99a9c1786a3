/** The folder deletion of the files page: find the folder's file rows, remove
    each one's storage object (an error there is only logged), delete those
    rows when there were any, find the direct subfolders and delete them one
    by one, and delete the folder itself last. The first failing database call
    stops the procedure; `loading` is reset on every way out. Nothing below the
    direct subfolders is touched. */
module DeleteFolder {
  import opened Common

  datatype StoredFile = StoredFile(id: string, storagePath: string, bucketId: string, folderId: Option<string>)
  datatype Folder = Folder(id: string, parentId: Option<string>)
  datatype ObjectKey = ObjectKey(bucket: string, path: string)

  function Key(f: StoredFile): ObjectKey
  {
    ObjectKey(f.bucketId, f.storagePath)
  }

  /** The database calls, in the order the procedure makes them. */
  datatype DbStep =
    | SelectFiles              // files where folder_id = target
    | DeleteFiles              // delete files where folder_id = target
    | SelectSubfolders         // folders where parent_id = target
    | DeleteSubfolder(id: string) // delete folders where id = child
    | DeleteTarget             // delete folders where id = target

  datatype Call = Db(step: DbStep) | RemoveObject(key: ObjectKey)

  /** The toast shown: success, or the error of the step that failed. */
  datatype Outcome = Deleted | Aborted(step: DbStep)

  // ---------------------------------------------------------------------------
  // Selections

  /** The rows `.eq("folder_id", target)` selects. */
  function InFolder(files: seq<StoredFile>, target: string): (r: seq<StoredFile>)
    ensures forall f :: f in r <==> f in files && f.folderId == Some(target)
  {
    Filter(files, (f: StoredFile) => f.folderId == Some(target))
  }

  /** The rows left by `.delete().eq("folder_id", target)`. */
  function OutsideFolder(files: seq<StoredFile>, target: string): (r: seq<StoredFile>)
    ensures forall f :: f in r <==> f in files && f.folderId != Some(target)
  {
    Filter(files, (f: StoredFile) => f.folderId != Some(target))
  }

  /** The rows `.eq("parent_id", target)` selects. */
  function ChildrenOf(folders: seq<Folder>, target: string): (r: seq<Folder>)
    ensures forall f :: f in r <==> f in folders && f.parentId == Some(target)
  {
    Filter(folders, (f: Folder) => f.parentId == Some(target))
  }

  /** The rows left by `.delete().eq("id", id)`. */
  function WithoutId(folders: seq<Folder>, id: string): (r: seq<Folder>)
    ensures forall f :: f in r <==> f in folders && f.id != id
  {
    Filter(folders, (f: Folder) => f.id != id)
  }

  function IdsOf(folders: seq<Folder>): set<string>
  {
    set f | f in folders :: f.id
  }

  // ---------------------------------------------------------------------------
  // The specification of the procedure

  /** The storage calls for a list of file rows, one per row, in order. */
  function Removals(fs: seq<StoredFile>): (r: seq<Call>)
    ensures |r| == |fs| && forall k :: 0 <= k < |fs| ==> r[k] == RemoveObject(Key(fs[k]))
  {
    if |fs| == 0 then [] else Removals(fs[..|fs| - 1]) + [RemoveObject(Key(fs[|fs| - 1]))]
  }

  /** The objects left after those calls; `storageFails` are the removals that
      return an error. */
  function RemoveObjects(objects: set<ObjectKey>, fs: seq<StoredFile>, storageFails: set<ObjectKey>): (r: set<ObjectKey>)
    ensures r <= objects
    ensures forall o :: o in objects && o !in r ==> o !in storageFails
  {
    if |fs| == 0 then objects
    else
      var rest := RemoveObjects(objects, fs[..|fs| - 1], storageFails);
      var k := Key(fs[|fs| - 1]);
      if k in storageFails then rest else rest - {k}
  }

  datatype SubRun = SubRun(folders: seq<Folder>, calls: seq<Call>, error: Option<DbStep>)

  /** The loop over the subfolders: one delete by id each, stopping at the
      first that fails. */
  function DeleteEach(folders: seq<Folder>, subs: seq<Folder>, failing: set<DbStep>): SubRun
  {
    if |subs| == 0 then SubRun(folders, [], None)
    else
      var r := DeleteEach(folders, subs[..|subs| - 1], failing);
      var step := DeleteSubfolder(subs[|subs| - 1].id);
      if r.error.Some? then r
      else if step in failing then SubRun(r.folders, r.calls + [Db(step)], Some(step))
      else SubRun(WithoutId(r.folders, subs[|subs| - 1].id), r.calls + [Db(step)], None)
  }

  datatype Tables = Tables(files: seq<StoredFile>, folders: seq<Folder>, objects: set<ObjectKey>)
  datatype Run = Run(tables: Tables, calls: seq<Call>, outcome: Outcome)

  function Prepend(prefix: seq<Call>, r: Run): Run
  {
    Run(r.tables, prefix + r.calls, r.outcome)
  }

  /** The whole procedure for folder `target`, when the database calls in
      `failing` and the storage removals in `storageFails` return errors. */
  function Delete(t: Tables, target: string, failing: set<DbStep>, storageFails: set<ObjectKey>): Run
  {
    if SelectFiles in failing then Run(t, [Db(SelectFiles)], Aborted(SelectFiles))
    else
      var inside := InFolder(t.files, target);
      var u := Tables(t.files, t.folders, RemoveObjects(t.objects, inside, storageFails));
      Prepend([Db(SelectFiles)] + Removals(inside), FilesStage(u, target, |inside| > 0, failing))
  }

  /** From the files delete on; it is made only when the folder had files. */
  function FilesStage(u: Tables, target: string, hasFiles: bool, failing: set<DbStep>): Run
  {
    if !hasFiles then SubfolderStage(u, target, failing)
    else if DeleteFiles in failing then Run(u, [Db(DeleteFiles)], Aborted(DeleteFiles))
    else Prepend([Db(DeleteFiles)], SubfolderStage(Tables(OutsideFolder(u.files, target), u.folders, u.objects), target, failing))
  }

  /** From the subfolder select on. */
  function SubfolderStage(u: Tables, target: string, failing: set<DbStep>): Run
  {
    if SelectSubfolders in failing then Run(u, [Db(SelectSubfolders)], Aborted(SelectSubfolders))
    else
      var s := DeleteEach(u.folders, ChildrenOf(u.folders, target), failing);
      var v := Tables(u.files, s.folders, u.objects);
      if s.error.Some? then Run(v, [Db(SelectSubfolders)] + s.calls, Aborted(s.error.value))
      else if DeleteTarget in failing then Run(v, [Db(SelectSubfolders)] + s.calls + [Db(DeleteTarget)], Aborted(DeleteTarget))
      else Run(Tables(u.files, WithoutId(s.folders, target), u.objects), [Db(SelectSubfolders)] + s.calls + [Db(DeleteTarget)], Deleted)
  }

  // ---------------------------------------------------------------------------
  // The component

  /** The tables and the storage the procedure works on. */
  class Backend {
    var files: seq<StoredFile>
    var folders: seq<Folder>
    var objects: set<ObjectKey>

    constructor (files: seq<StoredFile>, folders: seq<Folder>, objects: set<ObjectKey>)
      ensures this.files == files && this.folders == folders && this.objects == objects
    {
      this.files := files;
      this.folders := folders;
      this.objects := objects;
    }

    function Snapshot(): Tables
      reads this
    {
      Tables(files, folders, objects)
    }
  }

  class DeleteFolderDialog {
    const folderId: string
    const folderName: string
    var open: bool
    var loading: bool

    constructor (folderId: string, folderName: string)
      ensures this.folderId == folderId && this.folderName == folderName && !open && !loading
    {
      this.folderId := folderId;
      this.folderName := folderName;
      open := false;
      loading := false;
    }

    /** `handleDelete`: the backend ends as `Delete` says, `loading` is false
        afterwards, and the dialog closes only on success. */
    method HandleDelete(db: Backend, failing: set<DbStep>, storageFails: set<ObjectKey>)
      returns (calls: seq<Call>, outcome: Outcome)
      modifies this, db
      ensures Run(db.Snapshot(), calls, outcome) == Delete(old(db.Snapshot()), folderId, failing, storageFails)
      ensures !loading
      ensures open == (if outcome.Deleted? then false else old(open))
    {
      loading := true;
      calls, outcome := Steps(db, failing, storageFails);
      if outcome.Deleted? {
        open := false;
      }
      loading := false;
    }

    /** The body of the `try` block. */
    method Steps(db: Backend, failing: set<DbStep>, storageFails: set<ObjectKey>)
      returns (calls: seq<Call>, outcome: Outcome)
      modifies db
      ensures Run(db.Snapshot(), calls, outcome) == Delete(old(db.Snapshot()), folderId, failing, storageFails)
    {
      if SelectFiles in failing {
        return [Db(SelectFiles)], Aborted(SelectFiles);
      }
      var inside := InFolder(db.files, folderId);
      var removals := RemoveAll(db, inside, storageFails, [Db(SelectFiles)]);
      var rest;
      rest, outcome := FilesStep(db, |inside| > 0, failing);
      calls := removals + rest;
    }

    /** The files delete, made only when the select found rows, then the
        rest. */
    method FilesStep(db: Backend, hasFiles: bool, failing: set<DbStep>)
      returns (calls: seq<Call>, outcome: Outcome)
      modifies db
      ensures Run(db.Snapshot(), calls, outcome) == FilesStage(old(db.Snapshot()), folderId, hasFiles, failing)
    {
      calls := [];
      if hasFiles {
        if DeleteFiles in failing {
          return [Db(DeleteFiles)], Aborted(DeleteFiles);
        }
        db.files := OutsideFolder(db.files, folderId);
        calls := [Db(DeleteFiles)];
      }
      var rest;
      rest, outcome := SubfolderStep(db, failing);
      calls := calls + rest;
    }

    /** The subfolder select, the subfolder deletes and the folder's own
        delete. */
    method SubfolderStep(db: Backend, failing: set<DbStep>)
      returns (calls: seq<Call>, outcome: Outcome)
      modifies db
      ensures Run(db.Snapshot(), calls, outcome) == SubfolderStage(old(db.Snapshot()), folderId, failing)
    {
      calls := [Db(SelectSubfolders)];
      if SelectSubfolders in failing {
        return calls, Aborted(SelectSubfolders);
      }
      var subfolders := ChildrenOf(db.folders, folderId);
      var subCalls, error := DeleteSubfolders(db, subfolders, failing);
      calls := calls + subCalls;
      if error.Some? {
        return calls, Aborted(error.value);
      }
      calls := calls + [Db(DeleteTarget)];
      if DeleteTarget in failing {
        return calls, Aborted(DeleteTarget);
      }
      db.folders := WithoutId(db.folders, folderId);
      outcome := Deleted;
    }

    /** The storage loop: one removal per row; an error is only logged. */
    method RemoveAll(db: Backend, inside: seq<StoredFile>, storageFails: set<ObjectKey>, prefix: seq<Call>)
      returns (calls: seq<Call>)
      modifies db
      ensures calls == prefix + Removals(inside)
      ensures db.objects == RemoveObjects(old(db.objects), inside, storageFails)
      ensures db.files == old(db.files) && db.folders == old(db.folders)
    {
      calls := prefix;
      for i := 0 to |inside|
        invariant calls == prefix + Removals(inside[..i])
        invariant db.objects == RemoveObjects(old(db.objects), inside[..i], storageFails)
        invariant db.files == old(db.files) && db.folders == old(db.folders)
      {
        assert inside[..i + 1][..i] == inside[..i];
        var key := Key(inside[i]);
        if key !in storageFails {
          db.objects := db.objects - {key};
        }
        calls := calls + [RemoveObject(key)];
      }
      assert inside[..|inside|] == inside;
    }

    /** The subfolder loop: a delete by id per direct subfolder, stopping at
        the first error. */
    method DeleteSubfolders(db: Backend, subs: seq<Folder>, failing: set<DbStep>)
      returns (calls: seq<Call>, error: Option<DbStep>)
      modifies db
      ensures SubRun(db.folders, calls, error) == DeleteEach(old(db.folders), subs, failing)
      ensures db.files == old(db.files) && db.objects == old(db.objects)
    {
      calls := [];
      for i := 0 to |subs|
        invariant SubRun(db.folders, calls, None) == DeleteEach(old(db.folders), subs[..i], failing)
        invariant db.files == old(db.files) && db.objects == old(db.objects)
      {
        assert subs[..i + 1][..i] == subs[..i];
        var step := DeleteSubfolder(subs[i].id);
        calls := calls + [Db(step)];
        if step in failing {
          DeleteEachStops(old(db.folders), subs, i + 1, failing);
          return calls, Some(step);
        }
        db.folders := WithoutId(db.folders, subs[i].id);
      }
      assert subs[..|subs|] == subs;
      error := None;
    }
  }

  // ---------------------------------------------------------------------------
  // Properties of the subfolder loop

  /** Once the loop has failed, later subfolders change nothing. */
  lemma {:induction false} DeleteEachStops(folders: seq<Folder>, subs: seq<Folder>, i: nat, failing: set<DbStep>)
    requires i <= |subs| && DeleteEach(folders, subs[..i], failing).error.Some?
    ensures DeleteEach(folders, subs, failing) == DeleteEach(folders, subs[..i], failing)
    decreases |subs|
  {
    if i < |subs| {
      assert subs[..|subs| - 1][..i] == subs[..i];
      DeleteEachStops(folders, subs[..|subs| - 1], i, failing);
    } else {
      assert subs[..i] == subs;
    }
  }

  /** The loop's calls are database deletes of the subfolders in order; every
      one but a failing last one succeeded. */
  lemma DeleteEachCalls(folders: seq<Folder>, subs: seq<Folder>, failing: set<DbStep>)
    ensures var r := DeleteEach(folders, subs, failing);
      && |r.calls| <= |subs|
      && (r.error.None? ==> |r.calls| == |subs|)
      && (forall k :: 0 <= k < |r.calls| ==> r.calls[k] == Db(DeleteSubfolder(subs[k].id)))
      && (forall k :: 0 <= k < |r.calls| - 1 ==> r.calls[k].step !in failing)
      && (r.error.None? ==> forall k :: 0 <= k < |r.calls| ==> r.calls[k].step !in failing)
      && (r.error.Some? ==> |r.calls| > 0 && r.calls[|r.calls| - 1] == Db(r.error.value) && r.error.value in failing)
  {
    DeleteEachShape(folders, subs, failing);
    DeleteEachErrors(folders, subs, failing);
  }

  lemma {:induction false} DeleteEachShape(folders: seq<Folder>, subs: seq<Folder>, failing: set<DbStep>)
    ensures var r := DeleteEach(folders, subs, failing);
      && |r.calls| <= |subs|
      && (r.error.None? ==> |r.calls| == |subs|)
      && (forall k :: 0 <= k < |r.calls| ==> r.calls[k] == Db(DeleteSubfolder(subs[k].id)))
    decreases |subs|
  {
    if |subs| > 0 {
      var init := subs[..|subs| - 1];
      var r0 := DeleteEach(folders, init, failing);
      var r := DeleteEach(folders, subs, failing);
      DeleteEachShape(folders, init, failing);
      if r0.error.None? {
        assert r.calls == r0.calls + [Db(DeleteSubfolder(subs[|subs| - 1].id))];
        forall k | 0 <= k < |r.calls|
          ensures r.calls[k] == Db(DeleteSubfolder(subs[k].id))
        {
          if k < |r0.calls| {
            assert r.calls[k] == r0.calls[k] && init[k] == subs[k];
          }
        }
      } else {
        assert r == r0;
        forall k | 0 <= k < |r.calls|
          ensures r.calls[k] == Db(DeleteSubfolder(subs[k].id))
        {
          assert init[k] == subs[k];
        }
      }
    }
  }

  lemma {:induction false} DeleteEachErrors(folders: seq<Folder>, subs: seq<Folder>, failing: set<DbStep>)
    ensures var r := DeleteEach(folders, subs, failing);
      && (forall k :: 0 <= k < |r.calls| - 1 ==> r.calls[k].Db? && r.calls[k].step !in failing)
      && (r.error.None? ==> forall k :: 0 <= k < |r.calls| ==> r.calls[k].Db? && r.calls[k].step !in failing)
      && (r.error.Some? ==> |r.calls| > 0 && r.calls[|r.calls| - 1] == Db(r.error.value) && r.error.value in failing)
    decreases |subs|
  {
    if |subs| > 0 {
      DeleteEachErrors(folders, subs[..|subs| - 1], failing);
    }
  }

  /** A folder whose id is not a subfolder's stays, nothing is added, and after
      a complete loop no subfolder id is left. */
  lemma DeleteEachFolders(folders: seq<Folder>, subs: seq<Folder>, failing: set<DbStep>)
    ensures var r := DeleteEach(folders, subs, failing);
      && (forall f :: f in folders && f.id !in IdsOf(subs) ==> f in r.folders)
      && (forall f :: f in r.folders ==> f in folders)
      && (r.error.None? ==> forall f :: f in r.folders ==> f.id !in IdsOf(subs))
  {
    DeleteEachKeeps(folders, subs, failing);
    DeleteEachOnlyRemoves(folders, subs, failing);
    DeleteEachClears(folders, subs, failing);
  }

  lemma IdsOfSnoc(subs: seq<Folder>)
    requires |subs| > 0
    ensures IdsOf(subs) == IdsOf(subs[..|subs| - 1]) + {subs[|subs| - 1].id}
  {
    assert subs == subs[..|subs| - 1] + [subs[|subs| - 1]];
  }

  lemma {:induction false} DeleteEachKeeps(folders: seq<Folder>, subs: seq<Folder>, failing: set<DbStep>)
    ensures forall f :: f in folders && f.id !in IdsOf(subs) ==> f in DeleteEach(folders, subs, failing).folders
    decreases |subs|
  {
    if |subs| > 0 {
      DeleteEachKeeps(folders, subs[..|subs| - 1], failing);
      IdsOfSnoc(subs);
    }
  }

  lemma {:induction false} DeleteEachOnlyRemoves(folders: seq<Folder>, subs: seq<Folder>, failing: set<DbStep>)
    ensures forall f :: f in DeleteEach(folders, subs, failing).folders ==> f in folders
    decreases |subs|
  {
    if |subs| > 0 {
      DeleteEachOnlyRemoves(folders, subs[..|subs| - 1], failing);
    }
  }

  lemma {:induction false} DeleteEachClears(folders: seq<Folder>, subs: seq<Folder>, failing: set<DbStep>)
    ensures var r := DeleteEach(folders, subs, failing);
      r.error.None? ==> forall f :: f in r.folders ==> f.id !in IdsOf(subs)
    decreases |subs|
  {
    if |subs| > 0 {
      DeleteEachClears(folders, subs[..|subs| - 1], failing);
      IdsOfSnoc(subs);
    }
  }

  // ---------------------------------------------------------------------------
  // Properties of the procedure

  /** A run made of database calls only, every one but the last succeeding;
      it ends in an error exactly when the last one fails, and then with that
      call's error. */
  predicate DbRun(r: Run, failing: set<DbStep>)
  {
    && |r.calls| > 0
    && (forall k :: 0 <= k < |r.calls| ==> r.calls[k].Db?)
    && (forall k :: 0 <= k < |r.calls| - 1 ==> r.calls[k].step !in failing)
    && (r.outcome.Aborted? ==> r.calls[|r.calls| - 1] == Db(r.outcome.step))
    && (r.outcome.Aborted? <==> r.calls[|r.calls| - 1].step in failing)
  }

  lemma SubfolderStageFacts(u: Tables, target: string, failing: set<DbStep>)
    ensures var r := SubfolderStage(u, target, failing);
      && DbRun(r, failing)
      && Db(SelectFiles) !in r.calls && Db(DeleteFiles) !in r.calls
      && (r.outcome.Deleted? ==> r.calls[|r.calls| - 1] == Db(DeleteTarget) && Db(DeleteTarget) !in r.calls[..|r.calls| - 1])
  {
    if SelectSubfolders !in failing {
      if DeleteEach(u.folders, ChildrenOf(u.folders, target), failing).error.Some? {
        LoopFailed(u, target, failing);
      } else {
        LoopDone(u, target, failing);
      }
    }
  }

  /** The subfolder stage when one of the subfolder deletes fails. */
  lemma LoopFailed(u: Tables, target: string, failing: set<DbStep>)
    requires SelectSubfolders !in failing
    requires DeleteEach(u.folders, ChildrenOf(u.folders, target), failing).error.Some?
    ensures var r := SubfolderStage(u, target, failing);
      && DbRun(r, failing)
      && Db(SelectFiles) !in r.calls && Db(DeleteFiles) !in r.calls
      && r.outcome.Aborted?
  {
    var s := DeleteEach(u.folders, ChildrenOf(u.folders, target), failing);
    DeleteEachCalls(u.folders, ChildrenOf(u.folders, target), failing);
    AfterSelect(s.calls, failing, false);
  }

  /** The subfolder stage when every subfolder delete succeeds. */
  lemma LoopDone(u: Tables, target: string, failing: set<DbStep>)
    requires SelectSubfolders !in failing
    requires DeleteEach(u.folders, ChildrenOf(u.folders, target), failing).error.None?
    ensures var r := SubfolderStage(u, target, failing);
      && DbRun(r, failing)
      && Db(SelectFiles) !in r.calls && Db(DeleteFiles) !in r.calls
      && (r.outcome.Deleted? ==> r.calls[|r.calls| - 1] == Db(DeleteTarget) && Db(DeleteTarget) !in r.calls[..|r.calls| - 1])
  {
    var s := DeleteEach(u.folders, ChildrenOf(u.folders, target), failing);
    DeleteEachCalls(u.folders, ChildrenOf(u.folders, target), failing);
    AfterSelect(s.calls, failing, true);
    WithTarget([Db(SelectSubfolders)] + s.calls, failing);
  }

  /** The folder's own delete after a run of succeeding calls. */
  lemma WithTarget(c: seq<Call>, failing: set<DbStep>)
    requires forall k :: 0 <= k < |c| ==> c[k].Db? && c[k] != Db(SelectFiles) && c[k] != Db(DeleteFiles) && c[k] != Db(DeleteTarget)
    requires forall k :: 0 <= k < |c| ==> c[k].step !in failing
    ensures var d := c + [Db(DeleteTarget)];
      && (forall k :: 0 <= k < |d| ==> d[k].Db? && d[k] != Db(SelectFiles) && d[k] != Db(DeleteFiles))
      && (forall k :: 0 <= k < |d| - 1 ==> d[k].step !in failing)
      && d[..|d| - 1] == c && Db(DeleteTarget) !in c
  {
    var d := c + [Db(DeleteTarget)];
    assert forall k :: 0 <= k < |c| ==> d[k] == c[k];
  }

  /** The subfolder select followed by subfolder deletes. */
  lemma AfterSelect(sc: seq<Call>, failing: set<DbStep>, complete: bool)
    requires forall k :: 0 <= k < |sc| ==> sc[k].Db? && sc[k].step.DeleteSubfolder?
    requires forall k :: 0 <= k < |sc| - 1 ==> sc[k].step !in failing
    requires complete ==> forall k :: 0 <= k < |sc| ==> sc[k].step !in failing
    requires SelectSubfolders !in failing
    ensures var c := [Db(SelectSubfolders)] + sc;
      && (forall k :: 0 <= k < |c| ==> c[k].Db? && c[k] != Db(SelectFiles) && c[k] != Db(DeleteFiles) && c[k] != Db(DeleteTarget))
      && (forall k :: 0 <= k < |c| - 1 ==> c[k].step !in failing)
      && (complete ==> forall k :: 0 <= k < |c| ==> c[k].step !in failing)
  {
    var c := [Db(SelectSubfolders)] + sc;
    assert forall k :: 0 < k < |c| ==> c[k] == sc[k - 1];
  }

  lemma FilesStageFacts(u: Tables, target: string, hasFiles: bool, failing: set<DbStep>)
    ensures var r := FilesStage(u, target, hasFiles, failing);
      && DbRun(r, failing)
      && Db(SelectFiles) !in r.calls
      && (Db(DeleteFiles) in r.calls <==> hasFiles)
      && (r.outcome.Deleted? ==> r.calls[|r.calls| - 1] == Db(DeleteTarget) && Db(DeleteTarget) !in r.calls[..|r.calls| - 1])
  {
    SubfolderStageFacts(u, target, failing);
    if hasFiles && DeleteFiles !in failing {
      var u' := Tables(OutsideFolder(u.files, target), u.folders, u.objects);
      var q := SubfolderStage(u', target, failing);
      SubfolderStageFacts(u', target, failing);
      var r := FilesStage(u, target, hasFiles, failing);
      assert r.calls == [Db(DeleteFiles)] + q.calls;
      assert forall k :: 0 < k < |r.calls| ==> r.calls[k] == q.calls[k - 1];
      assert r.calls[..|r.calls| - 1] == [Db(DeleteFiles)] + q.calls[..|q.calls| - 1];
    }
  }

  /** One storage removal per file row of the folder, right after the select,
      in the rows' order, and none anywhere else; none when the select
      fails. */
  lemma StorageOncePerFile(t: Tables, target: string, failing: set<DbStep>, storageFails: set<ObjectKey>)
    ensures var r := Delete(t, target, failing, storageFails);
      var inside := InFolder(t.files, target);
      && r.calls[0] == Db(SelectFiles)
      && (SelectFiles in failing ==> |r.calls| == 1)
      && (SelectFiles !in failing ==> |r.calls| > |inside| + 1 && r.calls[1..|inside| + 1] == Removals(inside))
      && (SelectFiles !in failing ==> forall k :: |inside| < k < |r.calls| ==> r.calls[k].Db?)
  {
    if SelectFiles !in failing {
      var inside := InFolder(t.files, target);
      var u := Tables(t.files, t.folders, RemoveObjects(t.objects, inside, storageFails));
      var q := FilesStage(u, target, |inside| > 0, failing);
      FilesStageFacts(u, target, |inside| > 0, failing);
      var r := Delete(t, target, failing, storageFails);
      var c1 := [Db(SelectFiles)] + Removals(inside);
      assert r.calls == c1 + q.calls;
      assert r.calls[1..|inside| + 1] == c1[1..];
      assert forall k :: |inside| < k < |r.calls| ==> r.calls[k] == q.calls[k - |c1|];
    }
  }

  /** A storage error changes neither the calls made, nor the tables, nor the
      outcome: only which objects are left. */
  lemma StorageErrorsIgnored(t: Tables, target: string, failing: set<DbStep>, sf1: set<ObjectKey>, sf2: set<ObjectKey>)
    ensures var r1 := Delete(t, target, failing, sf1);
      var r2 := Delete(t, target, failing, sf2);
      r1.calls == r2.calls && r1.outcome == r2.outcome
      && r1.tables.files == r2.tables.files && r1.tables.folders == r2.tables.folders
  {
    if SelectFiles !in failing {
      var inside := InFolder(t.files, target);
      var u1 := Tables(t.files, t.folders, RemoveObjects(t.objects, inside, sf1));
      var u2 := Tables(t.files, t.folders, RemoveObjects(t.objects, inside, sf2));
      StagesIgnoreObjects(u1, u2, target, |inside| > 0, failing);
    }
  }

  lemma StagesIgnoreObjects(u1: Tables, u2: Tables, target: string, hasFiles: bool, failing: set<DbStep>)
    requires u1.files == u2.files && u1.folders == u2.folders
    ensures var r1 := FilesStage(u1, target, hasFiles, failing);
      var r2 := FilesStage(u2, target, hasFiles, failing);
      r1.calls == r2.calls && r1.outcome == r2.outcome
      && r1.tables.files == r2.tables.files && r1.tables.folders == r2.tables.folders
  {
  }

  /** The files delete is made exactly when the folder has file rows. */
  lemma FilesDeleteOnlyWhenFiles(t: Tables, target: string, failing: set<DbStep>, storageFails: set<ObjectKey>)
    requires SelectFiles !in failing
    ensures var r := Delete(t, target, failing, storageFails);
      Db(DeleteFiles) in r.calls <==> |InFolder(t.files, target)| > 0
  {
    var inside := InFolder(t.files, target);
    var u := Tables(t.files, t.folders, RemoveObjects(t.objects, inside, storageFails));
    FilesStageFacts(u, target, |inside| > 0, failing);
    var c1 := [Db(SelectFiles)] + Removals(inside);
    assert Db(DeleteFiles) !in c1 by {
      forall k | 0 < k < |c1|
        ensures c1[k] == Removals(inside)[k - 1]
      {
      }
    }
  }

  /** The first failing database call ends the run: it is the last call, all
      database calls before it succeeded, and a run with no failing call is a
      success. */
  lemma FirstErrorStops(t: Tables, target: string, failing: set<DbStep>, storageFails: set<ObjectKey>)
    ensures var r := Delete(t, target, failing, storageFails);
      && |r.calls| > 0
      && r.calls[|r.calls| - 1].Db?
      && (forall k :: 0 <= k < |r.calls| - 1 ==> r.calls[k].Db? ==> r.calls[k].step !in failing)
      && (r.outcome.Aborted? ==> r.calls[|r.calls| - 1] == Db(r.outcome.step) && r.outcome.step in failing)
      && (r.outcome.Deleted? <==> r.calls[|r.calls| - 1].step !in failing)
  {
    if SelectFiles !in failing {
      var inside := InFolder(t.files, target);
      var u := Tables(t.files, t.folders, RemoveObjects(t.objects, inside, storageFails));
      var q := FilesStage(u, target, |inside| > 0, failing);
      FilesStageFacts(u, target, |inside| > 0, failing);
      StorageThenDb([Db(SelectFiles)] + Removals(inside), q, failing);
    }
  }

  /** The select, the storage removals, then a run of database calls: the
      database calls before the last one all succeeded. */
  lemma StorageThenDb(c1: seq<Call>, q: Run, failing: set<DbStep>)
    requires |c1| > 0 && c1[0] == Db(SelectFiles) && SelectFiles !in failing
    requires forall k :: 0 < k < |c1| ==> c1[k].RemoveObject?
    requires DbRun(q, failing)
    ensures var r := Prepend(c1, q);
      && |r.calls| > 0
      && r.calls[|r.calls| - 1] == q.calls[|q.calls| - 1]
      && (forall k :: 0 <= k < |r.calls| - 1 ==> r.calls[k].Db? ==> r.calls[k].step !in failing)
  {
    var d := c1 + q.calls;
    forall k | 0 <= k < |d| - 1 && d[k].Db?
      ensures d[k].step !in failing
    {
      if k >= |c1| {
        assert d[k] == q.calls[k - |c1|];
      } else {
        assert d[k] == c1[k];
      }
    }
  }

  /** On success the folder's own delete is the last call and is made once. */
  lemma TargetDeletedLast(t: Tables, target: string, failing: set<DbStep>, storageFails: set<ObjectKey>)
    ensures var r := Delete(t, target, failing, storageFails);
      r.outcome.Deleted? ==>
        r.calls[|r.calls| - 1] == Db(DeleteTarget) && Db(DeleteTarget) !in r.calls[..|r.calls| - 1]
  {
    if SelectFiles !in failing {
      var inside := InFolder(t.files, target);
      var u := Tables(t.files, t.folders, RemoveObjects(t.objects, inside, storageFails));
      var q := FilesStage(u, target, |inside| > 0, failing);
      FilesStageFacts(u, target, |inside| > 0, failing);
      if q.outcome.Deleted? {
        var c1 := [Db(SelectFiles)] + Removals(inside);
        assert Db(DeleteTarget) !in c1 by {
          forall k | 0 < k < |c1|
            ensures c1[k] == Removals(inside)[k - 1]
          {
          }
        }
        OnceAtEnd(c1, q.calls, Db(DeleteTarget));
      }
    }
  }

  /** A call made once, last, stays so after a prefix without it. */
  lemma OnceAtEnd(prefix: seq<Call>, cs: seq<Call>, c: Call)
    requires c !in prefix && |cs| > 0 && cs[|cs| - 1] == c && c !in cs[..|cs| - 1]
    ensures var d := prefix + cs; d[|d| - 1] == c && c !in d[..|d| - 1]
  {
    var d := prefix + cs;
    assert d[..|d| - 1] == prefix + cs[..|cs| - 1];
  }

  /** Only the target and its direct subfolders can go: any other folder is
      still there, whatever fails. On success neither the target nor any folder
      whose parent is the target is left. */
  lemma OnlyDirectSubfolders(t: Tables, target: string, failing: set<DbStep>, storageFails: set<ObjectKey>)
    ensures var r := Delete(t, target, failing, storageFails);
      && (forall f :: f in t.folders && f.id != target && f.id !in IdsOf(ChildrenOf(t.folders, target)) ==> f in r.tables.folders)
      && (forall f :: f in r.tables.folders ==> f in t.folders)
      && (r.outcome.Deleted? ==> forall f :: f in r.tables.folders ==> f.id != target && f.parentId != Some(target))
  {
    if SelectFiles !in failing {
      var inside := InFolder(t.files, target);
      var u := Tables(t.files, t.folders, RemoveObjects(t.objects, inside, storageFails));
      if |inside| > 0 && DeleteFiles !in failing {
        SubfolderStageFolders(Tables(OutsideFolder(u.files, target), u.folders, u.objects), target, failing);
      } else {
        SubfolderStageFolders(u, target, failing);
      }
    }
  }

  lemma SubfolderStageFolders(u: Tables, target: string, failing: set<DbStep>)
    ensures var r := SubfolderStage(u, target, failing);
      && (forall f :: f in u.folders && f.id != target && f.id !in IdsOf(ChildrenOf(u.folders, target)) ==> f in r.tables.folders)
      && (forall f :: f in r.tables.folders ==> f in u.folders)
      && (r.outcome.Deleted? ==> forall f :: f in r.tables.folders ==> f.id != target && f.parentId != Some(target))
  {
    var r := SubfolderStage(u, target, failing);
    var subs := ChildrenOf(u.folders, target);
    DeleteEachFolders(u.folders, subs, failing);
    if r.outcome.Deleted? {
      forall f | f in r.tables.folders
        ensures f.id != target && f.parentId != Some(target)
      {
        assert f in u.folders && f.id !in IdsOf(subs);
      }
    }
  }

  /** The client issues no delete for a subfolder of a subfolder: its row is
      still in the model's folder table, when folder ids are unique. What the
      database's foreign keys would do with it is not modelled. */
  lemma GrandchildSurvives(t: Tables, target: string, failing: set<DbStep>, storageFails: set<ObjectKey>, c: Folder, g: Folder)
    requires forall i, j :: 0 <= i < j < |t.folders| ==> t.folders[i].id != t.folders[j].id
    requires c in t.folders && c.parentId == Some(target) && c.id != target
    requires g in t.folders && g.parentId == Some(c.id) && g.id != target
    ensures g in Delete(t, target, failing, storageFails).tables.folders
  {
    OnlyDirectSubfolders(t, target, failing, storageFails);
    var subs := ChildrenOf(t.folders, target);
    if g.id in IdsOf(subs) {
      var h :| h in subs && h.id == g.id;
      var i :| 0 <= i < |t.folders| && t.folders[i] == h;
      var j :| 0 <= j < |t.folders| && t.folders[j] == g;
      assert false;
    }
  }

  /** File rows of other folders, those of the subfolders included, are never
      deleted; on success none of the target's rows is left. */
  lemma OtherFilesKept(t: Tables, target: string, failing: set<DbStep>, storageFails: set<ObjectKey>)
    ensures var r := Delete(t, target, failing, storageFails);
      && (forall f :: f in t.files && f.folderId != Some(target) ==> f in r.tables.files)
      && (forall f :: f in r.tables.files ==> f in t.files)
      && (r.outcome.Deleted? ==> forall f :: f in r.tables.files ==> f.folderId != Some(target))
  {
    if SelectFiles !in failing {
      var inside := InFolder(t.files, target);
      var u := Tables(t.files, t.folders, RemoveObjects(t.objects, inside, storageFails));
      if |inside| > 0 && DeleteFiles !in failing {
        SubfolderStageFiles(Tables(OutsideFolder(u.files, target), u.folders, u.objects), target, failing);
      } else if |inside| == 0 {
        SubfolderStageFiles(u, target, failing);
        forall f | f in t.files
          ensures f.folderId != Some(target)
        {
          if f.folderId == Some(target) {
            assert false;
          }
        }
      }
    }
  }

  /** The subfolder stage leaves the file rows alone. */
  lemma SubfolderStageFiles(u: Tables, target: string, failing: set<DbStep>)
    ensures SubfolderStage(u, target, failing).tables.files == u.files
  {
  }

  /** The client issues no delete for the file rows of a subfolder: after a
      success they are still in the model's file table while their folder row
      is gone. What the database's foreign keys would do with them is not
      modelled. */
  lemma SubfolderFilesOrphaned(t: Tables, target: string, failing: set<DbStep>, storageFails: set<ObjectKey>, c: Folder, f: StoredFile)
    requires c in t.folders && c.parentId == Some(target) && c.id != target
    requires f in t.files && f.folderId == Some(c.id)
    requires Delete(t, target, failing, storageFails).outcome.Deleted?
    ensures f in Delete(t, target, failing, storageFails).tables.files
    ensures forall g :: g in Delete(t, target, failing, storageFails).tables.folders ==> g.id != c.id
  {
    OtherFilesKept(t, target, failing, storageFails);
    var subs := ChildrenOf(t.folders, target);
    DeleteEachFolders(t.folders, subs, failing);
    assert c.id in IdsOf(subs);
  }

  /** The storage objects removed are those of the folder's rows whose removal
      did not fail. */
  lemma ObjectsRemoved(objects: set<ObjectKey>, fs: seq<StoredFile>, storageFails: set<ObjectKey>)
    ensures RemoveObjects(objects, fs, storageFails)
              == objects - (set f | f in fs && Key(f) !in storageFails :: Key(f))
  {
    if |fs| > 0 {
      var init := fs[..|fs| - 1];
      ObjectsRemoved(objects, init, storageFails);
      assert fs == init + [fs[|fs| - 1]];
    }
  }
}
