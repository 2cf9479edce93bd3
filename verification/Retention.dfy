/** The retention sweep and the share purge (internal/worker/retention.go, purge.go), with a
    fault chosen for every bucket, table, mark and audit call. A failed SQL or audit call has no
    effect; a failed object delete may or may not have removed the object. */
module Retention {
  import opened Codes
  import opened Shares
  import opened Store

  const BATCH := 200

  /** The audit trail's entries. */
  datatype Entry =
    | PurgeUpload(key: string, owner: string, fileName: string, size: int, createdAt: int, slugs: seq<string>)
    | PurgeUploadFailed(key: string, attempt: int)
    | PurgeShare(slug: string, storageKey: string, fileName: string, fileSize: int, ownerEmail: string,
                 createdAt: int, expiresAt: int)

  /** Everything the workers change: object sizes by key, both tables and the audit trail. */
  datatype World = World(bucket: map<string, int>, uploads: UploadTable, shares: ShareTable, audit: seq<Entry>)

  datatype DeleteOutcome = Deleted | FailedKept | FailedGone

  /** How each call made for one upload turns out. */
  datatype Faults = Faults(head: bool, file: DeleteOutcome, shares: bool, row: bool, mark: bool, audit: bool)

  const NO_FAULTS := Faults(true, Deleted, true, true, true, true)

  // ---------------------------------------------------------------- single effects

  function RemoveObject(w: World, key: string): World {
    w.(bucket := w.bucket - {key})
  }

  function RemoveShares(w: World, key: string): World {
    w.(shares := WithoutKey(w.shares, key))
  }

  function RemoveRow(w: World, key: string): World {
    w.(uploads := w.uploads - {key})
  }

  function MarkFailed(w: World, key: string): World {
    w.(uploads := Mark(w.uploads, key))
  }

  function Append(w: World, entry: Entry): World {
    w.(audit := w.audit + [entry])
  }

  function If(ok: bool, w': World, w: World): World {
    if ok then w' else w
  }

  // ---------------------------------------------------------------- one upload

  /** The entry for an object found gone: the recorded size, no slugs. */
  function OrphanEntry(up: Upload): Entry {
    PurgeUpload(up.storageKey, up.ownerId, up.fileName, up.sizeBytes, up.createdAt, [])
  }

  /** The world after the sweep has dealt with one listed upload. `slugs` is the order in which
      the database returned the deleted shares. */
  function Process(w: World, up: Upload, f: Faults, slugs: seq<string>): World {
    var key := up.storageKey;
    if !f.head then If(f.mark, MarkFailed(w, key), w)
    else if key !in w.bucket then
      if !f.row then If(f.mark, MarkFailed(w, key), w)
      else if up.deleteAttempts > 0 then If(f.audit, Append(RemoveRow(w, key), OrphanEntry(up)), RemoveRow(w, key))
      else RemoveRow(w, key)
    else if !f.file.Deleted? then
      var w1 := If(f.file.FailedGone?, RemoveObject(w, key), w);
      var w2 := If(f.mark, MarkFailed(w1, key), w1);
      If(f.audit, Append(w2, PurgeUploadFailed(key, up.deleteAttempts + 1)), w2)
    else
      var w1 := RemoveObject(w, key);
      var w2 := If(f.shares, RemoveShares(w1, key), w1);
      if !f.row then If(f.mark, MarkFailed(w2, key), w2)
      else
        var w3 := RemoveRow(w2, key);
        If(f.audit, Append(w3, PurgeUpload(key, up.ownerId, up.fileName, w.bucket[key], up.createdAt, if f.shares then slugs else [])), w3)
  }

  /** The slugs a sweep's `delete ... returning slug` may report: the file's shares, once each. */
  ghost predicate ReturnedSlugs(w: World, key: string, slugs: seq<string>) {
    && (forall slug :: slug in slugs <==> slug in w.shares && w.shares[slug].storageKey == key)
    && (forall i, j :: 0 <= i < j < |slugs| ==> slugs[i] != slugs[j])
  }

  /** A whole sweep over a listing, with one fault script and one slug order per upload. */
  function Sweep(w: World, todo: seq<Upload>, faults: seq<Faults>, slugs: seq<seq<string>>): World
    requires |faults| == |todo| == |slugs|
  {
    if todo == [] then w
    else
      var n := |todo| - 1;
      Process(Sweep(w, todo[..n], faults[..n], slugs[..n]), todo[n], faults[n], slugs[n])
  }

  // ---------------------------------------------------------------- what the sweep reports

  /** Whether the sweep counts this upload as failed. */
  predicate Fails(w: World, up: Upload, f: Faults) {
    !f.head || !f.row || (up.storageKey in w.bucket && !f.file.Deleted?)
  }

  /** Whether it counts it as deleted; an abandoned presign is neither. */
  predicate Deletes(w: World, up: Upload, f: Faults) {
    !Fails(w, up, f) && (up.storageKey in w.bucket || up.deleteAttempts > 0)
  }

  function FailedIn(w: World, todo: seq<Upload>, faults: seq<Faults>, slugs: seq<seq<string>>): nat
    requires |faults| == |todo| == |slugs|
  {
    if todo == [] then 0
    else
      var n := |todo| - 1;
      FailedIn(w, todo[..n], faults[..n], slugs[..n])
      + if Fails(Sweep(w, todo[..n], faults[..n], slugs[..n]), todo[n], faults[n]) then 1 else 0
  }

  function DeletedIn(w: World, todo: seq<Upload>, faults: seq<Faults>, slugs: seq<seq<string>>): nat
    requires |faults| == |todo| == |slugs|
  {
    if todo == [] then 0
    else
      var n := |todo| - 1;
      DeletedIn(w, todo[..n], faults[..n], slugs[..n])
      + if Deletes(Sweep(w, todo[..n], faults[..n], slugs[..n]), todo[n], faults[n]) then 1 else 0
  }

  lemma ProcessRows(w: World, up: Upload, f: Faults, slugs: seq<string>)
    ensures Process(w, up, f, slugs).uploads.Keys ==
            if Fails(w, up, f) then w.uploads.Keys else w.uploads.Keys - {up.storageKey}
  {
  }

  /** The failures a sweep reports are the listed rows it leaves: of the rows it was given, which
      are distinct, all others are gone, and no other row is. */
  lemma {:induction false} FailedAreTheRowsLeft(w: World, todo: seq<Upload>, faults: seq<Faults>, slugs: seq<seq<string>>)
    requires |faults| == |todo| == |slugs|
    requires forall i :: 0 <= i < |todo| ==> todo[i].storageKey in w.uploads
    requires forall i, j :: 0 <= i < j < |todo| ==> todo[i].storageKey != todo[j].storageKey
    ensures var w' := Sweep(w, todo, faults, slugs);
            && w'.uploads.Keys <= w.uploads.Keys
            && (forall key :: key in w.uploads && key !in w'.uploads ==> exists i :: 0 <= i < |todo| && todo[i].storageKey == key)
            && |w'.uploads.Keys| == |w.uploads.Keys| - |todo| + FailedIn(w, todo, faults, slugs)
  {
    if todo != [] {
      var n := |todo| - 1;
      FailedAreTheRowsLeft(w, todo[..n], faults[..n], slugs[..n]);
      ProcessRows(Sweep(w, todo[..n], faults[..n], slugs[..n]), todo[n], faults[n], slugs[n]);
    }
  }

  // ---------------------------------------------------------------- the job

  class PurgeExpiredUploads {
    var bucket: map<string, int>
    var uploads: UploadTable
    var shares: ShareTable
    var audit: seq<Entry>

    function Value(): World
      reads this
    {
      World(bucket, uploads, shares, audit)
    }

    constructor (w: World)
      ensures Value() == w
    {
      bucket, uploads, shares, audit := w.bucket, w.uploads, w.shares, w.audit;
    }

    method MarkDeleteFailed(key: string, ok: bool)
      modifies this`uploads
      ensures Value() == If(ok, MarkFailed(old(Value()), key), old(Value()))
    {
      if ok && key in uploads {
        uploads := uploads[key := uploads[key].(deleteAttempts := uploads[key].deleteAttempts + 1)];
      }
    }

    method Record(entry: Entry, ok: bool)
      modifies this`audit
      ensures Value() == If(ok, Append(old(Value()), entry), old(Value()))
    {
      if ok {
        audit := audit + [entry];
      }
    }

    /** One round of the loop. `slugs` is what the share delete returned. */
    method ProcessUpload(up: Upload, f: Faults, slugs: seq<string>) returns (deleted: bool, failed: bool)
      modifies this
      ensures Value() == Process(old(Value()), up, f, slugs)
      ensures failed == Fails(old(Value()), up, f) && deleted == Deletes(old(Value()), up, f)
    {
      var key := up.storageKey;
      deleted, failed := false, false;
      if !f.head {
        failed := true;
        MarkDeleteFailed(key, f.mark);
        return;
      }
      if key !in bucket {
        if !f.row {
          failed := true;
          MarkDeleteFailed(key, f.mark);
          return;
        }
        uploads := uploads - {key};
        if up.deleteAttempts > 0 {
          Record(OrphanEntry(up), f.audit);
          deleted := true;
        }
        return;
      }
      var size := bucket[key];
      if !f.file.FailedKept? {
        bucket := bucket - {key};
      }
      if !f.file.Deleted? {
        failed := true;
        MarkDeleteFailed(key, f.mark);
        Record(PurgeUploadFailed(key, up.deleteAttempts + 1), f.audit);
        return;
      }
      if f.shares {
        shares := WithoutKey(shares, key);
      }
      if !f.row {
        failed := true;
        MarkDeleteFailed(key, f.mark);
        return;
      }
      uploads := uploads - {key};
      Record(PurgeUpload(key, up.ownerId, up.fileName, size, up.createdAt, if f.shares then slugs else []), f.audit);
      deleted := true;
    }

    /** The sweep. A failed listing changes nothing and is the only error it reports. */
    method Run(listed: Option<seq<Upload>>, faults: seq<Faults>, slugs: seq<seq<string>>)
      returns (ok: bool, deleted: nat, failed: nat)
      requires listed.Some? ==> |faults| == |listed.value| == |slugs|
      modifies this
      ensures ok <==> listed.Some?
      ensures ok ==> Value() == Sweep(old(Value()), listed.value, faults, slugs)
      ensures !ok ==> Value() == old(Value())
      ensures ok ==> failed == FailedIn(old(Value()), listed.value, faults, slugs)
      ensures ok ==> deleted == DeletedIn(old(Value()), listed.value, faults, slugs)
    {
      deleted, failed := 0, 0;
      if listed.None? {
        return false, 0, 0;
      }
      var todo := listed.value;
      for i := 0 to |todo|
        invariant Value() == Sweep(old(Value()), todo[..i], faults[..i], slugs[..i])
        invariant failed == FailedIn(old(Value()), todo[..i], faults[..i], slugs[..i])
        invariant deleted == DeletedIn(old(Value()), todo[..i], faults[..i], slugs[..i])
      {
        assert todo[..i + 1][..i] == todo[..i] && faults[..i + 1][..i] == faults[..i] && slugs[..i + 1][..i] == slugs[..i];
        var d, f := ProcessUpload(todo[i], faults[i], slugs[i]);
        if d {
          deleted := deleted + 1;
        }
        if f {
          failed := failed + 1;
        }
      }
      assert todo[..|todo|] == todo && faults[..|todo|] == faults && slugs[..|todo|] == slugs;
      ok := true;
    }
  }

  // ---------------------------------------------------------------- the share purge

  function ShareEntry(row: Row): Entry {
    PurgeShare(row.slug, row.storageKey, row.fileName, row.fileSize, row.ownerEmail, row.createdAt, row.expiresAt)
  }

  /** One share of the purge's listing: deleted by slug, then recorded. */
  function PurgeOne(w: World, row: Row, deleteOk: bool, auditOk: bool): World {
    if !deleteOk then w
    else
      var w1 := w.(shares := w.shares - {row.slug});
      If(auditOk, Append(w1, ShareEntry(row)), w1)
  }

  function Purge(w: World, todo: seq<Row>, deletes: seq<bool>, audits: seq<bool>): World
    requires |todo| == |deletes| == |audits|
  {
    if todo == [] then w
    else
      var n := |todo| - 1;
      PurgeOne(Purge(w, todo[..n], deletes[..n], audits[..n]), todo[n], deletes[n], audits[n])
  }

  class PurgeExpiredShares {
    var shares: ShareTable
    var audit: seq<Entry>

    constructor (shares: ShareTable, audit: seq<Entry>)
      ensures this.shares == shares && this.audit == audit
    {
      this.shares, this.audit := shares, audit;
    }

    /** A failed listing changes nothing and is the only error it reports. */
    method Run(listed: Option<seq<Row>>, deletes: seq<bool>, audits: seq<bool>, ghost w: World) returns (ok: bool)
      requires listed.Some? ==> |listed.value| == |deletes| == |audits|
      requires w.shares == shares && w.audit == audit
      modifies this
      ensures ok <==> listed.Some?
      ensures ok ==> var w' := Purge(w, listed.value, deletes, audits); shares == w'.shares && audit == w'.audit
      ensures !ok ==> shares == old(shares) && audit == old(audit)
    {
      if listed.None? {
        return false;
      }
      var todo := listed.value;
      for i := 0 to |todo|
        invariant var w' := Purge(w, todo[..i], deletes[..i], audits[..i]); shares == w'.shares && audit == w'.audit
      {
        assert todo[..i + 1][..i] == todo[..i] && deletes[..i + 1][..i] == deletes[..i] && audits[..i + 1][..i] == audits[..i];
        var record := ShareEntry(todo[i]);
        if !deletes[i] {
          continue;
        }
        shares := shares - {todo[i].slug};
        if audits[i] {
          audit := audit + [record];
        }
      }
      assert todo[..|todo|] == todo && deletes[..|todo|] == deletes && audits[..|todo|] == audits;
      ok := true;
    }
  }
}
