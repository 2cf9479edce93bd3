/** The retention sweep as a machine whose steps are single effects.

    Between any two effects the rest of the service may act: uploads are recorded, objects
    arrive, shares come and go, time passes. The worker may crash between any two effects; the
    next sweep starts from a new listing. There is one worker, and storage keys are recorded
    once. Objects may arrive at any key at any time; what needs them to arrive in time says so. */
module RetentionMachine {
  import opened Codes
  import opened Store
  import opened Retention

  /** Where the worker stands; `rest` is the part of the listing still to come. */
  datatype Phase =
    | Idle
    | Next(rest: seq<Upload>)
    | Orphan(up: Upload, rest: seq<Upload>)                                     // HEAD found no object
    | Present(up: Upload, size: int, rest: seq<Upload>)                         // HEAD found it
    | Gone(up: Upload, size: int, rest: seq<Upload>)                            // object deleted
    | Unshared(up: Upload, size: int, slugs: seq<string>, rest: seq<Upload>)    // shares dealt with
    | Failing(up: Upload, attempted: bool, rest: seq<Upload>)                   // about to mark the row
    | Noting(up: Upload, entry: Entry, rest: seq<Upload>)                       // about to write the audit trail

  /** `births` remembers every upload ever recorded, `removed` every key whose object the worker
      took out of the bucket. No step reads them except to assume that keys are recorded once. */
  datatype State = State(w: World, phase: Phase, clock: int, births: map<string, Birth>, removed: set<string>)

  datatype HeadResult = Found | NotFound | HeadError

  datatype Action =
    // the rest of the service
    | Tick(now: int)
    | RecordUpload(key: string, owner: string, fileName: string, size: int, createdAt: int)
    | PutObject(key: string, size: int)
    | ChangeShares(shares: ShareTable)
    // the worker
    | List(listing: seq<Upload>)
    | EndSweep
    | HeadObject(result: HeadResult)
    | DeleteOrphanRow(ok: bool)
    | DeleteObject(outcome: DeleteOutcome)
    | DeleteShares(ok: bool, slugs: seq<string>)
    | DeleteRow(ok: bool)
    | MarkRow(ok: bool)
    | WriteAudit(ok: bool)
    | Crash

  predicate Listable(s: State, t: Ttls, up: Upload) {
    && up.storageKey in s.w.uploads && s.w.uploads[up.storageKey] == up
    && PastCutoff(up, s.clock - t.anon, s.clock - t.owned)
  }

  predicate Distinct(ups: seq<Upload>) {
    forall i, j :: 0 <= i < j < |ups| ==> ups[i].storageKey != ups[j].storageKey
  }

  ghost predicate Enabled(s: State, t: Ttls, a: Action) {
    match a
    case Tick(now) => now >= s.clock
    case RecordUpload(key, _, _, _, createdAt) => key !in s.births && createdAt <= s.clock
    case PutObject(_, _) => true
    case ChangeShares(_) => true
    case List(listing) => s.phase.Idle? && Distinct(listing) && |listing| <= BATCH
      && forall i :: 0 <= i < |listing| ==> Listable(s, t, listing[i])
    case EndSweep => s.phase.Next? && s.phase.rest == []
    case HeadObject(result) => s.phase.Next? && s.phase.rest != []
      && (result.Found? ==> s.phase.rest[0].storageKey in s.w.bucket)
      && (result.NotFound? ==> s.phase.rest[0].storageKey !in s.w.bucket)
    case DeleteOrphanRow(_) => s.phase.Orphan?
    case DeleteObject(_) => s.phase.Present?
    case DeleteShares(ok, slugs) => s.phase.Gone? && (ok ==> ReturnedSlugs(s.w, s.phase.up.storageKey, slugs))
    case DeleteRow(_) => s.phase.Unshared?
    case MarkRow(_) => s.phase.Failing?
    case WriteAudit(_) => s.phase.Noting?
    case Crash => !s.phase.Idle?
  }

  function AfterHead(s: State, result: HeadResult): State
    requires s.phase.Next? && s.phase.rest != []
    requires result.Found? ==> s.phase.rest[0].storageKey in s.w.bucket
  {
    var up, rest := s.phase.rest[0], s.phase.rest[1..];
    match result
    case Found => s.(phase := Present(up, s.w.bucket[up.storageKey], rest))
    case NotFound => s.(phase := Orphan(up, rest))
    case HeadError => s.(phase := Failing(up, false, rest))
  }

  /** A row that was tried before is recorded as the purge already made. */
  function AfterOrphan(s: State, ok: bool): State
    requires s.phase.Orphan?
  {
    var up, rest := s.phase.up, s.phase.rest;
    if !ok then s.(phase := Failing(up, false, rest))
    else if up.deleteAttempts > 0 then s.(w := RemoveRow(s.w, up.storageKey), phase := Noting(up, OrphanEntry(up), rest))
    else s.(w := RemoveRow(s.w, up.storageKey), phase := Next(rest))
  }

  function AfterDeleteObject(s: State, outcome: DeleteOutcome): State
    requires s.phase.Present?
  {
    var up, rest, key := s.phase.up, s.phase.rest, s.phase.up.storageKey;
    var took := s.(w := RemoveObject(s.w, key), removed := if key in s.w.bucket then s.removed + {key} else s.removed);
    match outcome
    case Deleted => took.(phase := Gone(up, s.phase.size, rest))
    case FailedGone => took.(phase := Failing(up, true, rest))
    case FailedKept => s.(phase := Failing(up, true, rest))
  }

  function AfterDeleteRow(s: State, ok: bool): State
    requires s.phase.Unshared?
  {
    var p := s.phase;
    if !ok then s.(phase := Failing(p.up, false, p.rest))
    else
      s.(w := RemoveRow(s.w, p.up.storageKey),
         phase := Noting(p.up, PurgeUpload(p.up.storageKey, p.up.ownerId, p.up.fileName, p.size, p.up.createdAt, p.slugs), p.rest))
  }

  function AfterMark(s: State, ok: bool): State
    requires s.phase.Failing?
  {
    var p := s.phase;
    s.(w := If(ok, MarkFailed(s.w, p.up.storageKey), s.w),
       phase := if p.attempted then Noting(p.up, PurgeUploadFailed(p.up.storageKey, p.up.deleteAttempts + 1), p.rest)
                else Next(p.rest))
  }

  ghost function Apply(s: State, t: Ttls, a: Action): State
    requires Enabled(s, t, a)
  {
    match a
    case Tick(now) => s.(clock := now)
    case RecordUpload(key, owner, fileName, size, createdAt) =>
      s.(w := s.w.(uploads := Record(s.w.uploads, Upload(key, owner, fileName, size, createdAt, 0))),
         births := s.births[key := Birth(owner, createdAt)])
    case PutObject(key, size) => s.(w := s.w.(bucket := s.w.bucket[key := size]))
    case ChangeShares(shares) => s.(w := s.w.(shares := shares))
    case List(listing) => s.(phase := Next(listing))
    case EndSweep => s.(phase := Idle)
    case HeadObject(result) => AfterHead(s, result)
    case DeleteOrphanRow(ok) => AfterOrphan(s, ok)
    case DeleteObject(outcome) => AfterDeleteObject(s, outcome)
    case DeleteShares(ok, slugs) =>
      var p := s.phase;
      s.(w := If(ok, RemoveShares(s.w, p.up.storageKey), s.w),
         phase := Unshared(p.up, p.size, if ok then slugs else [], p.rest))
    case DeleteRow(ok) => AfterDeleteRow(s, ok)
    case MarkRow(ok) => AfterMark(s, ok)
    case WriteAudit(ok) => s.(w := If(ok, Append(s.w, s.phase.entry), s.w), phase := Next(s.phase.rest))
    case Crash => s.(phase := Idle)
  }

  predicate Environment(a: Action) {
    a.Tick? || a.RecordUpload? || a.PutObject? || a.ChangeShares?
  }

  ghost predicate Runs(s: State, t: Ttls, actions: seq<Action>)
    decreases |actions|
  {
    actions == [] || (Enabled(s, t, actions[0]) && Runs(Apply(s, t, actions[0]), t, actions[1..]))
  }

  ghost function Final(s: State, t: Ttls, actions: seq<Action>): State
    requires Runs(s, t, actions)
    decreases |actions|
  {
    if actions == [] then s else Final(Apply(s, t, actions[0]), t, actions[1..])
  }

  /** An empty database; the bucket may hold untracked objects. */
  function Init(bucket: map<string, int>, clock: int): State {
    State(World(bucket, map[], map[], []), Idle, clock, map[], {})
  }

  // ---------------------------------------------------------------- safety

  /** A listed upload is the recorded one and its window has passed. */
  predicate ListedOk(s: State, t: Ttls, up: Upload) {
    && up.storageKey in s.births && s.births[up.storageKey] == BirthOf(up)
    && Past(t, s.births[up.storageKey], s.clock)
  }

  /** The upload in hand, if any. */
  function InHand(p: Phase): Option<Upload> {
    if p.Idle? || p.Next? then None else Some(p.up)
  }

  function Rest(p: Phase): seq<Upload> {
    if p.Idle? then [] else p.rest
  }

  ghost predicate RowsOk(uploads: UploadTable, births: map<string, Birth>) {
    forall key :: key in uploads ==>
      && uploads[key].storageKey == key && key in births
      && births[key] == BirthOf(uploads[key])
  }

  /** A recorded upload has its row at least until its window has passed. */
  ghost predicate RowUntilPast(s: State, t: Ttls) {
    forall key :: key in s.births && !Past(t, s.births[key], s.clock) ==> key in s.w.uploads
  }

  ghost predicate Safe(s: State, t: Ttls) {
    && RowsOk(s.w.uploads, s.births)
    && RowUntilPast(s, t)
    && (forall i :: 0 <= i < |Rest(s.phase)| ==> ListedOk(s, t, Rest(s.phase)[i]))
    && (InHand(s.phase).Some? ==> ListedOk(s, t, InHand(s.phase).value))
  }

  /** Being listed and past the window is never undone. */
  lemma ListedStaysOk(s: State, t: Ttls, a: Action, up: Upload)
    requires Enabled(s, t, a) && ListedOk(s, t, up)
    ensures ListedOk(Apply(s, t, a), t, up)
  {
  }

  lemma RestStaysOk(s: State, t: Ttls, a: Action)
    requires Safe(s, t) && Enabled(s, t, a) && !a.List?
    ensures forall i :: 0 <= i < |Rest(Apply(s, t, a).phase)| ==>
              ListedOk(Apply(s, t, a), t, Rest(Apply(s, t, a).phase)[i])
  {
    var rest, rest' := Rest(s.phase), Rest(Apply(s, t, a).phase);
    assert rest' == [] || rest' == rest || (a.HeadObject? && rest' == rest[1..]);
    forall i | 0 <= i < |rest'|
      ensures ListedOk(Apply(s, t, a), t, rest'[i])
    {
      var up := if a.HeadObject? then rest[i + 1] else rest[i];
      assert ListedOk(s, t, up);
      ListedStaysOk(s, t, a, up);
    }
  }

  lemma InHandStaysOk(s: State, t: Ttls, a: Action)
    requires Safe(s, t) && Enabled(s, t, a)
    ensures var p := InHand(Apply(s, t, a).phase); p.Some? ==> ListedOk(Apply(s, t, a), t, p.value)
  {
    if InHand(s.phase).Some? {
      ListedStaysOk(s, t, a, InHand(s.phase).value);
    } else if a.HeadObject? {
      assert ListedOk(s, t, Rest(s.phase)[0]);
      ListedStaysOk(s, t, a, Rest(s.phase)[0]);
    }
  }

  lemma EnvironmentKeepsSafe(s: State, t: Ttls, a: Action)
    requires Safe(s, t) && Enabled(s, t, a) && Environment(a)
    ensures Safe(Apply(s, t, a), t)
  {
    RestStaysOk(s, t, a);
    InHandStaysOk(s, t, a);
  }

  lemma ListKeepsSafe(s: State, t: Ttls, a: Action)
    requires Safe(s, t) && Enabled(s, t, a) && a.List?
    ensures Safe(Apply(s, t, a), t)
  {
    var s' := Apply(s, t, a);
    forall i | 0 <= i < |a.listing|
      ensures ListedOk(s', t, a.listing[i])
    {
      assert Listable(s, t, a.listing[i]);
    }
  }

  lemma FewerRowsOk(uploads: UploadTable, births: map<string, Birth>, key: string)
    requires RowsOk(uploads, births)
    ensures RowsOk(uploads - {key}, births) && RowsOk(Mark(uploads, key), births)
  {
  }

  lemma WorkerKeepsRows(s: State, t: Ttls, a: Action)
    requires Safe(s, t) && Enabled(s, t, a) && !Environment(a) && !a.List?
    ensures RowsOk(Apply(s, t, a).w.uploads, Apply(s, t, a).births)
  {
    if InHand(s.phase).Some? {
      FewerRowsOk(s.w.uploads, s.births, InHand(s.phase).value.storageKey);
    }
  }

  lemma WorkerKeepsRowUntilPast(s: State, t: Ttls, a: Action)
    requires Safe(s, t) && Enabled(s, t, a) && !Environment(a) && !a.List?
    ensures RowUntilPast(Apply(s, t, a), t)
  {
  }

  lemma WorkerKeepsSafe(s: State, t: Ttls, a: Action)
    requires Safe(s, t) && Enabled(s, t, a) && !Environment(a) && !a.List?
    ensures Safe(Apply(s, t, a), t)
  {
    RestStaysOk(s, t, a);
    InHandStaysOk(s, t, a);
    WorkerKeepsRows(s, t, a);
    WorkerKeepsRowUntilPast(s, t, a);
  }

  lemma StepKeepsSafe(s: State, t: Ttls, a: Action)
    requires Safe(s, t) && Enabled(s, t, a)
    ensures Safe(Apply(s, t, a), t)
  {
    if Environment(a) {
      EnvironmentKeepsSafe(s, t, a);
    } else if a.List? {
      ListKeepsSafe(s, t, a);
    } else {
      WorkerKeepsSafe(s, t, a);
    }
  }

  lemma {:induction false} SafeOverRun(s: State, t: Ttls, actions: seq<Action>)
    requires Safe(s, t) && Runs(s, t, actions)
    ensures Safe(Final(s, t, actions), t)
    decreases |actions|
  {
    if actions != [] {
      StepKeepsSafe(s, t, actions[0]);
      SafeOverRun(Apply(s, t, actions[0]), t, actions[1..]);
    }
  }

  // ---------------------------------------------------------------- the rows of a sweep

  predicate Holds(p: Phase, key: string) {
    InHand(p).Some? && InHand(p).value.storageKey == key
  }

  /** The uploads still to come are unchanged since the listing, distinct, and not in hand; an
      entry about to be written is about the upload in hand. */
  ghost predicate RestOk(s: State) {
    var rest := Rest(s.phase);
    && Distinct(rest)
    && (forall i :: 0 <= i < |rest| ==>
          rest[i].storageKey in s.w.uploads && s.w.uploads[rest[i].storageKey] == rest[i] && !Holds(s.phase, rest[i].storageKey))
    && (s.phase.Noting? && s.phase.entry.PurgeUpload? ==> s.phase.entry.key == s.phase.up.storageKey)
  }

  lemma HandStays(s: State, t: Ttls, a: Action, key: string)
    requires Enabled(s, t, a) && !Holds(s.phase, key) && !a.HeadObject?
    ensures !Holds(Apply(s, t, a).phase, key)
  {
  }

  lemma ListKeepsRest(s: State, t: Ttls, a: Action)
    requires Enabled(s, t, a) && a.List?
    ensures RestOk(Apply(s, t, a))
  {
    forall i | 0 <= i < |a.listing|
      ensures a.listing[i].storageKey in s.w.uploads && s.w.uploads[a.listing[i].storageKey] == a.listing[i]
    {
      assert Listable(s, t, a.listing[i]);
    }
  }

  lemma HeadKeepsRest(s: State, t: Ttls, a: Action)
    requires RestOk(s) && Enabled(s, t, a) && a.HeadObject?
    ensures RestOk(Apply(s, t, a))
  {
    var rest, s' := Rest(s.phase), Apply(s, t, a);
    assert Rest(s'.phase) == rest[1..] && s'.w == s.w;
    forall i | 0 <= i < |rest| - 1
      ensures !Holds(s'.phase, rest[1..][i].storageKey)
    {
      assert rest[0].storageKey != rest[i + 1].storageKey;
    }
  }

  lemma OthersKeepListed(s: State, t: Ttls, a: Action, up: Upload)
    requires Enabled(s, t, a) && !a.List? && !a.HeadObject? && ListedOk(s, t, up) && !Holds(s.phase, up.storageKey)
    requires up.storageKey in s.w.uploads
    ensures var s' := Apply(s, t, a);
            up.storageKey in s'.w.uploads && s'.w.uploads[up.storageKey] == s.w.uploads[up.storageKey]
  {
  }

  lemma OthersKeepRest(s: State, t: Ttls, a: Action)
    requires Safe(s, t) && RestOk(s) && Enabled(s, t, a) && !a.List? && !a.HeadObject?
    ensures RestOk(Apply(s, t, a))
  {
    var rest, s' := Rest(s.phase), Apply(s, t, a);
    assert Rest(s'.phase) == rest || Rest(s'.phase) == [];
    forall i | 0 <= i < |rest|
      ensures rest[i].storageKey in s'.w.uploads && s'.w.uploads[rest[i].storageKey] == rest[i]
      ensures !Holds(s'.phase, rest[i].storageKey)
    {
      OthersKeepListed(s, t, a, rest[i]);
      HandStays(s, t, a, rest[i].storageKey);
    }
  }

  lemma StepKeepsRest(s: State, t: Ttls, a: Action)
    requires Safe(s, t) && RestOk(s) && Enabled(s, t, a)
    ensures RestOk(Apply(s, t, a))
  {
    if a.List? {
      ListKeepsRest(s, t, a);
    } else if a.HeadObject? {
      HeadKeepsRest(s, t, a);
    } else {
      OthersKeepRest(s, t, a);
    }
  }

  /** While the worker may still delete the row in hand, or has not begun to, the row is there. */
  predicate HandHasRow(s: State) {
    s.phase.Orphan? || s.phase.Present? || s.phase.Gone? || s.phase.Unshared? ==> s.phase.up.storageKey in s.w.uploads
  }

  lemma StepKeepsHandRow(s: State, t: Ttls, a: Action)
    requires RestOk(s) && HandHasRow(s) && Enabled(s, t, a)
    ensures HandHasRow(Apply(s, t, a))
  {
    if a.HeadObject? {
      assert Rest(s.phase)[0].storageKey in s.w.uploads;
    }
  }

  // ---------------------------------------------------------------- crash-safe ordering

  /** A recorded upload's object is in the bucket and no row is left to find it by. */
  predicate Stray(s: State, key: string) {
    key in s.births && key in s.w.bucket && key !in s.w.uploads
  }

  /** The object of a recorded upload is put after its row has gone, or the row is deleted while
      the object, found gone or deleted before, is in the bucket again. */
  predicate Strays(s: State, a: Action, key: string) {
    || (a.PutObject? && a.key == key && key in s.births && key !in s.w.uploads)
    || (((a.DeleteOrphanRow? && a.ok) || (a.DeleteRow? && a.ok)) && Holds(s.phase, key) && key in s.w.bucket)
  }

  ghost predicate EverStrays(s: State, t: Ttls, actions: seq<Action>, key: string)
    requires Runs(s, t, actions)
    decreases |actions|
  {
    actions != [] && (Strays(s, actions[0], key) || EverStrays(Apply(s, t, actions[0]), t, actions[1..], key))
  }

  lemma RowStepStrays(s: State, t: Ttls, a: Action, key: string)
    requires Safe(s, t) && HandHasRow(s) && Enabled(s, t, a) && (a.DeleteOrphanRow? || a.DeleteRow? || a.MarkRow?)
    ensures Stray(Apply(s, t, a), key) <==> Stray(s, key) || Strays(s, a, key)
  {
    assert ListedOk(s, t, InHand(s.phase).value);
  }

  lemma StepStrays(s: State, t: Ttls, a: Action, key: string)
    requires Safe(s, t) && HandHasRow(s) && Enabled(s, t, a)
    ensures Stray(Apply(s, t, a), key) <==> Stray(s, key) || Strays(s, a, key)
  {
    if a.DeleteOrphanRow? || a.DeleteRow? || a.MarkRow? {
      RowStepStrays(s, t, a, key);
    }
  }

  lemma {:induction false} StrayOverRun(s: State, t: Ttls, actions: seq<Action>, key: string)
    requires Safe(s, t) && RestOk(s) && HandHasRow(s) && Runs(s, t, actions)
    ensures Stray(Final(s, t, actions), key) <==> Stray(s, key) || EverStrays(s, t, actions, key)
    decreases |actions|
  {
    if actions != [] {
      StepStrays(s, t, actions[0], key);
      StepKeepsHandRow(s, t, actions[0]);
      StepKeepsRest(s, t, actions[0]);
      StepKeepsSafe(s, t, actions[0]);
      StrayOverRun(Apply(s, t, actions[0]), t, actions[1..], key);
    }
  }

  /** Crash-safe ordering, key by key. After every single effect of every run, whatever failed and
      wherever the worker crashed, a tracked object still in the bucket still has its upload row,
      so that a later sweep finds it, if and only if the object was not put after its row had gone
      and its row was not deleted while the object was back in the bucket. */
  lemma TrackedObjectsKeepTheirRow(bucket: map<string, int>, clock: int, t: Ttls, actions: seq<Action>, key: string)
    requires Runs(Init(bucket, clock), t, actions)
    ensures var s := Final(Init(bucket, clock), t, actions);
            (key in s.births && key in s.w.bucket ==> key in s.w.uploads) <==>
            !EverStrays(Init(bucket, clock), t, actions, key)
  {
    StrayOverRun(Init(bucket, clock), t, actions, key);
  }

  /** No object arrives at this tracked key after its window has passed. */
  predicate Timely(s: State, t: Ttls, a: Action, key: string) {
    a.PutObject? && a.key == key && key in s.births ==> !Past(t, s.births[key], s.clock)
  }

  ghost predicate AllTimely(s: State, t: Ttls, actions: seq<Action>, key: string)
    requires Runs(s, t, actions)
    decreases |actions|
  {
    actions == [] || (Timely(s, t, actions[0], key) && AllTimely(Apply(s, t, actions[0]), t, actions[1..], key))
  }

  /** When the worker may drop the row in hand, its object is gone and stays gone. */
  predicate GoneInHand(s: State, key: string) {
    (s.phase.Orphan? || s.phase.Gone? || s.phase.Unshared?) && s.phase.up.storageKey == key ==> key !in s.w.bucket
  }

  lemma WorkerKeepsGone(s: State, t: Ttls, a: Action, key: string)
    requires GoneInHand(s, key) && Enabled(s, t, a) && !Environment(a)
    ensures GoneInHand(Apply(s, t, a), key)
  {
  }

  lemma TimelyKeepsGone(s: State, t: Ttls, a: Action, key: string)
    requires Safe(s, t) && GoneInHand(s, key) && Enabled(s, t, a) && Timely(s, t, a, key)
    ensures GoneInHand(Apply(s, t, a), key) && !Strays(s, a, key)
  {
    if Environment(a) {
      if InHand(s.phase).Some? {
        assert ListedOk(s, t, InHand(s.phase).value);
      }
    } else {
      WorkerKeepsGone(s, t, a, key);
    }
  }

  /** Objects that arrive within their window never come too late. */
  lemma {:induction false} TimelyNeverStrays(s: State, t: Ttls, actions: seq<Action>, key: string)
    requires Safe(s, t) && GoneInHand(s, key) && Runs(s, t, actions) && AllTimely(s, t, actions, key)
    ensures !EverStrays(s, t, actions, key)
    decreases |actions|
  {
    if actions != [] {
      TimelyKeepsGone(s, t, actions[0], key);
      StepKeepsSafe(s, t, actions[0]);
      TimelyNeverStrays(Apply(s, t, actions[0]), t, actions[1..], key);
    }
  }

  lemma TimelyObjectsKeepTheirRow(bucket: map<string, int>, clock: int, t: Ttls, actions: seq<Action>, key: string)
    requires Runs(Init(bucket, clock), t, actions) && AllTimely(Init(bucket, clock), t, actions, key)
    requires var s := Final(Init(bucket, clock), t, actions); key in s.births && key in s.w.bucket
    ensures key in Final(Init(bucket, clock), t, actions).w.uploads
  {
    TimelyNeverStrays(Init(bucket, clock), t, actions, key);
    TrackedObjectsKeepTheirRow(bucket, clock, t, actions, key);
  }

  /** No step of the worker touches an object or row whose window has not passed, nor any object
      that was never recorded. */
  lemma WindowIsRespected(s: State, t: Ttls, a: Action, key: string)
    requires Safe(s, t) && Enabled(s, t, a) && !Environment(a)
    requires key in s.births ==> !Past(t, s.births[key], s.clock)
    ensures var s' := Apply(s, t, a);
            && (key in s.w.bucket <==> key in s'.w.bucket)
            && (key in s.w.bucket ==> s'.w.bucket[key] == s.w.bucket[key])
            && (key in s.w.uploads <==> key in s'.w.uploads)
            && (key in s.w.uploads ==> s'.w.uploads[key] == s.w.uploads[key])
  {
    if InHand(s.phase).Some? {
      assert ListedOk(s, t, InHand(s.phase).value);
    }
  }
}
