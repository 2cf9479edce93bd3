/** Backlogs drain: what the listings select, and how many fault-free jobs clear them. */
module Drain {
  import opened Sets
  import opened Shares
  import opened Store
  import opened Retention
  import M = RetentionMachine
  import P = ShareProtocol
  import G = ShareGuarantees

  // ---------------------------------------------------------------- batches

  function Min(a: nat, b: nat): nat {
    if a < b then a else b
  }

  /** What is left of `n` after taking `k` full batches. */
  function Less(n: nat, k: nat): nat {
    if n <= BATCH * k then 0 else n - BATCH * k
  }

  function SetOf(keys: seq<string>): set<string> {
    set key | key in keys
  }

  predicate Distinct(keys: seq<string>) {
    forall i, j :: 0 <= i < j < |keys| ==> keys[i] != keys[j]
  }

  /** Both rows are there and the first is not later than the second. */
  ghost predicate NotLater<T>(t: map<string, T>, at: T -> int, a: string, b: string) {
    a in t && b in t && at(t[a]) <= at(t[b])
  }

  ghost predicate InOrder<T>(t: map<string, T>, at: T -> int, keys: seq<string>) {
    forall i, j :: 0 <= i < j < |keys| ==> NotLater(t, at, keys[i], keys[j])
  }

  ghost predicate BeforeAll<T>(t: map<string, T>, at: T -> int, keys: seq<string>, left: set<string>) {
    forall i, key :: 0 <= i < |keys| && key in left ==> NotLater(t, at, keys[i], key)
  }

  /** `... order by at asc limit 200` over the due rows: any order of ties. */
  ghost predicate Batch<T>(t: map<string, T>, at: T -> int, due: set<string>, keys: seq<string>) {
    && due <= t.Keys && SetOf(keys) <= due && Distinct(keys) && |keys| == Min(BATCH, |due|)
    && InOrder(t, at, keys) && BeforeAll(t, at, keys, due - SetOf(keys))
  }

  /** The keys chosen so far, once each; `left` are those still to choose from. */
  ghost predicate Chosen(due: set<string>, left: set<string>, keys: seq<string>) {
    left <= due && |keys| + |left| == |due| && Distinct(keys) && SetOf(keys) == due - left
  }

  method Earliest<T>(t: map<string, T>, at: T -> int, left: set<string>) returns (key: string)
    requires left != {} && left <= t.Keys
    ensures key in left && BeforeAll(t, at, [key], left)
  {
    key :| key in left;
    var todo := left - {key};
    while todo != {}
      invariant key in left && todo <= left
      invariant forall other :: other in left && other !in todo ==> NotLater(t, at, key, other)
    {
      var other :| other in todo;
      todo := todo - {other};
      if at(t[other]) < at(t[key]) {
        key := other;
      }
    }
  }

  lemma SetPush(keys: seq<string>, key: string)
    ensures SetOf(keys + [key]) == SetOf(keys) + {key}
  {
  }

  lemma ChooseNext(due: set<string>, left: set<string>, keys: seq<string>, key: string)
    requires Chosen(due, left, keys) && key in left
    ensures Chosen(due, left - {key}, keys + [key])
  {
    SetPush(keys, key);
    assert due - (left - {key}) == (due - left) + {key};
    assert key !in SetOf(keys);
  }

  lemma ChooseEarliest<T>(t: map<string, T>, at: T -> int, left: set<string>, keys: seq<string>, key: string)
    requires InOrder(t, at, keys) && BeforeAll(t, at, keys, left) && key in left && BeforeAll(t, at, [key], left)
    ensures InOrder(t, at, keys + [key]) && BeforeAll(t, at, keys + [key], left - {key})
  {
    assert forall other :: other in left ==> NotLater(t, at, [key][0], other);
  }

  /** Every table has a batch, and this computes one. */
  method FirstBatch<T>(t: map<string, T>, at: T -> int, due: set<string>) returns (keys: seq<string>)
    requires due <= t.Keys
    ensures Batch(t, at, due, keys)
  {
    var left := due;
    keys := [];
    while left != {} && |keys| < BATCH
      invariant Chosen(due, left, keys) && |keys| <= BATCH
      invariant InOrder(t, at, keys) && BeforeAll(t, at, keys, left)
      decreases |left|
    {
      var key := Earliest(t, at, left);
      ChooseNext(due, left, keys, key);
      ChooseEarliest(t, at, left, keys, key);
      keys := keys + [key];
      left := left - {key};
    }
    assert due - SetOf(keys) == left;
  }

  lemma {:induction false} SetOfDistinct(keys: seq<string>)
    requires Distinct(keys)
    ensures |SetOf(keys)| == |keys|
  {
    if keys != [] {
      var front, last := keys[..|keys| - 1], keys[|keys| - 1];
      SetOfDistinct(front);
      assert keys == front + [last];
      SetPush(front, last);
    }
  }

  /** A batch takes min(200, n) of n due rows. */
  lemma BatchTakes<T>(t: map<string, T>, at: T -> int, due: set<string>, keys: seq<string>)
    requires Batch(t, at, due, keys)
    ensures |due - SetOf(keys)| == Less(|due|, 1)
  {
    SetOfDistinct(keys);
    SubsetSize(SetOf(keys), due);
  }

  /** What a batch takes is never later than a due row it leaves. */
  lemma BatchIsEarliest<T>(t: map<string, T>, at: T -> int, due: set<string>, keys: seq<string>, gone: string, left: string)
    requires Batch(t, at, due, keys) && gone in SetOf(keys) && left in due && left !in SetOf(keys)
    ensures NotLater(t, at, gone, left)
  {
    var i :| 0 <= i < |keys| && keys[i] == gone;
    assert left in due - SetOf(keys);
  }

  // ---------------------------------------------------------------- the two listings

  /** The keys of the rows past their cutoff. */
  function Expired(t: UploadTable, anonBefore: int, ownedBefore: int): set<string> {
    set key | key in t && PastCutoff(t[key], anonBefore, ownedBefore)
  }

  function ExpiredShares(t: ShareTable, now: int): set<string> {
    set slug | slug in t && t[slug].expiresAt < now
  }

  function CreatedAt(up: Upload): int {
    up.createdAt
  }

  function ExpiresAt(row: Row): int {
    row.expiresAt
  }

  function Keys(ups: seq<Upload>): seq<string> {
    seq(|ups|, i requires 0 <= i < |ups| => ups[i].storageKey)
  }

  function Slugs(rows: seq<Row>): seq<string> {
    seq(|rows|, i requires 0 <= i < |rows| => rows[i].slug)
  }

  /** The oldest uploads past their cutoff. */
  ghost predicate Listing(t: UploadTable, anonBefore: int, ownedBefore: int, todo: seq<Upload>) {
    && Batch(t, CreatedAt, Expired(t, anonBefore, ownedBefore), Keys(todo))
    && forall i :: 0 <= i < |todo| ==> todo[i].storageKey in t && t[todo[i].storageKey] == todo[i]
  }

  /** The shares that expired first. */
  ghost predicate ShareListing(t: ShareTable, now: int, todo: seq<Row>) {
    && Batch(t, ExpiresAt, ExpiredShares(t, now), Slugs(todo))
    && forall i :: 0 <= i < |todo| ==> todo[i].slug in t && t[todo[i].slug] == todo[i]
  }

  method ListExpired(t: UploadTable, anonBefore: int, ownedBefore: int) returns (todo: seq<Upload>)
    requires forall key :: key in t ==> t[key].storageKey == key
    ensures Listing(t, anonBefore, ownedBefore, todo)
  {
    var keys := FirstBatch(t, CreatedAt, Expired(t, anonBefore, ownedBefore));
    assert forall i :: 0 <= i < |keys| ==> keys[i] in SetOf(keys);
    todo := seq(|keys|, i requires 0 <= i < |keys| => t[keys[i]]);
    assert Keys(todo) == keys;
  }

  method ListExpiredShares(t: ShareTable, now: int) returns (todo: seq<Row>)
    requires Keyed(t)
    ensures ShareListing(t, now, todo)
  {
    var slugs := FirstBatch(t, ExpiresAt, ExpiredShares(t, now));
    assert forall i :: 0 <= i < |slugs| ==> slugs[i] in SetOf(slugs);
    todo := seq(|slugs|, i requires 0 <= i < |slugs| => t[slugs[i]]);
    assert Slugs(todo) == slugs;
  }

  /** What the database returns is a listing the machine accepts. */
  lemma ListingIsAccepted(s: M.State, t: Ttls, todo: seq<Upload>)
    requires s.phase.Idle? && Listing(s.w.uploads, s.clock - t.anon, s.clock - t.owned, todo)
    ensures M.Enabled(s, t, M.List(todo))
  {
    forall i | 0 <= i < |todo|
      ensures M.Listable(s, t, todo[i])
    {
      assert Keys(todo)[i] in SetOf(Keys(todo));
    }
    forall i, j | 0 <= i < j < |todo|
      ensures todo[i].storageKey != todo[j].storageKey
    {
      assert Keys(todo)[i] != Keys(todo)[j];
    }
  }

  // ---------------------------------------------------------------- one fault-free sweep

  function Clean(n: nat): seq<Faults> {
    seq(n, i => NO_FAULTS)
  }

  lemma ProcessClean(w: World, up: Upload, slugs: seq<string>)
    ensures var w' := Process(w, up, NO_FAULTS, slugs);
            && w'.uploads == w.uploads - {up.storageKey} && w'.bucket == w.bucket - {up.storageKey}
            && forall slug :: slug in w'.shares ==> slug in w.shares && w'.shares[slug] == w.shares[slug]
  {
  }

  function Swept(w: World, todo: seq<Upload>, slugs: seq<seq<string>>): World
    requires |slugs| == |todo|
  {
    Sweep(w, todo, Clean(|todo|), slugs)
  }

  /** A fault-free sweep removes exactly the listed rows and their objects, and adds no share. */
  lemma {:induction false} CleanSweep(w: World, todo: seq<Upload>, slugs: seq<seq<string>>)
    requires |slugs| == |todo|
    ensures var w' := Swept(w, todo, slugs);
            && w'.uploads == w.uploads - SetOf(Keys(todo)) && w'.bucket == w.bucket - SetOf(Keys(todo))
            && forall slug :: slug in w'.shares ==> slug in w.shares && w'.shares[slug] == w.shares[slug]
  {
    if todo != [] {
      var n := |todo| - 1;
      CleanSweep(w, todo[..n], slugs[..n]);
      assert Clean(|todo|)[..n] == Clean(n);
      ProcessClean(Swept(w, todo[..n], slugs[..n]), todo[n], slugs[n]);
      assert Keys(todo) == Keys(todo[..n]) + [todo[n].storageKey];
      SetPush(Keys(todo[..n]), todo[n].storageKey);
    }
  }

  /** It clears exactly min(200, n) of n expired rows, and every row it clears is at least as old
      as every expired row it leaves. */
  lemma SweepClearsOldestBatch(w: World, anonBefore: int, ownedBefore: int, todo: seq<Upload>, slugs: seq<seq<string>>)
    requires |slugs| == |todo| && Listing(w.uploads, anonBefore, ownedBefore, todo)
    ensures var w' := Swept(w, todo, slugs);
            var before, after := Expired(w.uploads, anonBefore, ownedBefore), Expired(w'.uploads, anonBefore, ownedBefore);
            && after <= before && |after| == |before| - Min(BATCH, |before|)
            && w'.uploads.Keys - after == w.uploads.Keys - before
            && forall gone, left :: gone in before && gone !in after && left in after ==>
                 w.uploads[gone].createdAt <= w.uploads[left].createdAt
  {
    var before := Expired(w.uploads, anonBefore, ownedBefore);
    CleanSweep(w, todo, slugs);
    BatchTakes(w.uploads, CreatedAt, before, Keys(todo));
    assert Expired(Swept(w, todo, slugs).uploads, anonBefore, ownedBefore) == before - SetOf(Keys(todo));
    forall gone, left | gone in SetOf(Keys(todo)) && left in before && left !in SetOf(Keys(todo))
      ensures w.uploads[gone].createdAt <= w.uploads[left].createdAt
    {
      BatchIsEarliest(w.uploads, CreatedAt, before, Keys(todo), gone, left);
    }
  }

  // ---------------------------------------------------------------- many sweeps

  /** The listings and slug orders of consecutive sweeps. */
  datatype Round = Round(todo: seq<Upload>, slugs: seq<seq<string>>)

  /** The rounds are fault-free sweeps with fixed cutoffs, each over a listing of what the
      previous ones left. */
  ghost predicate CleanRounds(w: World, anonBefore: int, ownedBefore: int, rounds: seq<Round>)
    decreases |rounds|
  {
    rounds == [] || (
      var r := rounds[0];
      && |r.slugs| == |r.todo| && Listing(w.uploads, anonBefore, ownedBefore, r.todo)
      && CleanRounds(Swept(w, r.todo, r.slugs), anonBefore, ownedBefore, rounds[1..]))
  }

  ghost function AfterRounds(w: World, anonBefore: int, ownedBefore: int, rounds: seq<Round>): World
    requires CleanRounds(w, anonBefore, ownedBefore, rounds)
    decreases |rounds|
  {
    if rounds == [] then w
    else AfterRounds(Swept(w, rounds[0].todo, rounds[0].slugs), anonBefore, ownedBefore, rounds[1..])
  }

  /** After k sweeps max(0, n - 200k) of n expired rows are left, so ceil(n / 200) clear them;
      rows within their window stay, and no share is added. */
  lemma {:induction false} BacklogShrinks(w: World, anonBefore: int, ownedBefore: int, rounds: seq<Round>)
    requires CleanRounds(w, anonBefore, ownedBefore, rounds)
    ensures var w' := AfterRounds(w, anonBefore, ownedBefore, rounds);
            var before, after := Expired(w.uploads, anonBefore, ownedBefore), Expired(w'.uploads, anonBefore, ownedBefore);
            && |after| == Less(|before|, |rounds|)
            && w'.uploads.Keys - after == w.uploads.Keys - before
            && forall slug :: slug in w'.shares ==> slug in w.shares && w'.shares[slug] == w.shares[slug]
    decreases |rounds|
  {
    if rounds != [] {
      var r := rounds[0];
      SweepClearsOldestBatch(w, anonBefore, ownedBefore, r.todo, r.slugs);
      CleanSweep(w, r.todo, r.slugs);
      BacklogShrinks(Swept(w, r.todo, r.slugs), anonBefore, ownedBefore, rounds[1..]);
    }
  }

  // ---------------------------------------------------------------- the share purge

  function AllOk(n: nat): seq<bool> {
    seq(n, i => true)
  }

  function PickIf(row: Row, flag: bool): seq<Row> {
    if flag then [row] else []
  }

  /** The rows whose flag is set. */
  function Picked(rows: seq<Row>, flags: seq<bool>): seq<Row>
    requires |rows| == |flags|
  {
    if rows == [] then []
    else
      var n := |rows| - 1;
      Picked(rows[..n], flags[..n]) + PickIf(rows[n], flags[n])
  }

  function Both(a: seq<bool>, b: seq<bool>): (r: seq<bool>)
    requires |a| == |b|
    ensures |r| == |a|
  {
    seq(|a|, i requires 0 <= i < |a| => a[i] && b[i])
  }

  function Entries(rows: seq<Row>): seq<Entry> {
    seq(|rows|, i requires 0 <= i < |rows| => ShareEntry(rows[i]))
  }

  lemma SlugsPush(rows: seq<Row>, row: Row)
    ensures SetOf(Slugs(rows + [row])) == SetOf(Slugs(rows)) + {row.slug}
    ensures Entries(rows + [row]) == Entries(rows) + [ShareEntry(row)]
  {
    assert Slugs(rows + [row]) == Slugs(rows) + [row.slug];
    SetPush(Slugs(rows), row.slug);
  }

  lemma PurgeNext(w: World, w1: World, gone: seq<Row>, noted: seq<Row>, row: Row, deleteOk: bool, auditOk: bool)
    requires w1.shares == w.shares - SetOf(Slugs(gone)) && w1.audit == w.audit + Entries(noted)
    ensures var w' := PurgeOne(w1, row, deleteOk, auditOk);
            && w'.shares == w.shares - SetOf(Slugs(gone + PickIf(row, deleteOk)))
            && w'.audit == w.audit + Entries(noted + PickIf(row, deleteOk && auditOk))
            && w'.uploads == w1.uploads && w'.bucket == w1.bucket
  {
    SlugsPush(gone, row);
    SlugsPush(noted, row);
    if !deleteOk {
      assert gone + [] == gone && noted + [] == noted;
    } else if !auditOk {
      assert noted + [] == noted;
    }
  }

  /** A purge, whatever fails, removes exactly the rows whose delete succeeded, and appends, in
      order, an entry for exactly those of them whose entry could be written. */
  lemma {:induction false} PurgeRemovesAndRecords(w: World, todo: seq<Row>, deletes: seq<bool>, audits: seq<bool>)
    requires |todo| == |deletes| == |audits|
    ensures var w' := Purge(w, todo, deletes, audits);
            && w'.shares == w.shares - SetOf(Slugs(Picked(todo, deletes)))
            && w'.audit == w.audit + Entries(Picked(todo, Both(deletes, audits)))
            && w'.uploads == w.uploads && w'.bucket == w.bucket
  {
    if todo != [] {
      var n := |todo| - 1;
      PurgeRemovesAndRecords(w, todo[..n], deletes[..n], audits[..n]);
      assert Both(deletes, audits)[..n] == Both(deletes[..n], audits[..n]);
      PurgeNext(w, Purge(w, todo[..n], deletes[..n], audits[..n]), Picked(todo[..n], deletes[..n]),
                Picked(todo[..n], Both(deletes, audits)[..n]), todo[n], deletes[n], audits[n]);
    } else {
      assert w.shares - SetOf([]) == w.shares;
    }
  }

  lemma {:induction false} PickedAll(rows: seq<Row>)
    ensures Picked(rows, AllOk(|rows|)) == rows
  {
    if rows != [] {
      var n := |rows| - 1;
      PickedAll(rows[..n]);
      assert AllOk(|rows|)[..n] == AllOk(n);
    }
  }

  function Purged(w: World, todo: seq<Row>): World {
    Purge(w, todo, AllOk(|todo|), AllOk(|todo|))
  }

  lemma CleanPurge(w: World, todo: seq<Row>)
    ensures var w' := Purged(w, todo);
            w'.shares == w.shares - SetOf(Slugs(todo)) && w'.uploads == w.uploads && w'.bucket == w.bucket
  {
    PickedAll(todo);
    PurgeRemovesAndRecords(w, todo, AllOk(|todo|), AllOk(|todo|));
  }

  lemma PurgeClearsBatch(w: World, now: int, todo: seq<Row>)
    requires ShareListing(w.shares, now, todo)
    ensures var w' := Purged(w, todo);
            var before, after := ExpiredShares(w.shares, now), ExpiredShares(w'.shares, now);
            && |after| == Less(|before|, 1)
            && w'.shares.Keys - after == w.shares.Keys - before
            && w'.uploads == w.uploads && w'.bucket == w.bucket
  {
    var before := ExpiredShares(w.shares, now);
    CleanPurge(w, todo);
    BatchTakes(w.shares, ExpiresAt, before, Slugs(todo));
    assert ExpiredShares(w.shares - SetOf(Slugs(todo)), now) == before - SetOf(Slugs(todo));
  }

  ghost predicate CleanPurges(w: World, now: int, rounds: seq<seq<Row>>)
    decreases |rounds|
  {
    rounds == [] || (ShareListing(w.shares, now, rounds[0]) && CleanPurges(Purged(w, rounds[0]), now, rounds[1..]))
  }

  ghost function AfterPurges(w: World, now: int, rounds: seq<seq<Row>>): World
    requires CleanPurges(w, now, rounds)
    decreases |rounds|
  {
    if rounds == [] then w else AfterPurges(Purged(w, rounds[0]), now, rounds[1..])
  }

  lemma {:induction false} SharesShrink(w: World, now: int, rounds: seq<seq<Row>>)
    requires CleanPurges(w, now, rounds)
    ensures var w' := AfterPurges(w, now, rounds);
            var before, after := ExpiredShares(w.shares, now), ExpiredShares(w'.shares, now);
            && |after| == Less(|before|, |rounds|)
            && w'.shares.Keys - after == w.shares.Keys - before
            && w'.uploads == w.uploads && w'.bucket == w.bucket
    decreases |rounds|
  {
    if rounds != [] {
      PurgeClearsBatch(w, now, rounds[0]);
      SharesShrink(Purged(w, rounds[0]), now, rounds[1..]);
    }
  }

  // ---------------------------------------------------------------- everything drains

  /** One run of either job, with the clock it read. */
  datatype Job = Retain(now: int, todo: seq<Upload>, slugs: seq<seq<string>>) | PurgeShares(now: int, rows: seq<Row>)

  ghost predicate JobOk(w: World, t: Ttls, j: Job) {
    match j
    case Retain(now, todo, slugs) => |slugs| == |todo| && Listing(w.uploads, now - t.anon, now - t.owned, todo)
    case PurgeShares(now, rows) => ShareListing(w.shares, now, rows)
  }

  ghost function AfterJob(w: World, t: Ttls, j: Job): World
    requires JobOk(w, t, j)
  {
    match j
    case Retain(_, todo, slugs) => Swept(w, todo, slugs)
    case PurgeShares(_, rows) => Purged(w, rows)
  }

  /** The two jobs run without faults, in any order, at times that do not go back. */
  ghost predicate CleanJobs(w: World, t: Ttls, clock: int, jobs: seq<Job>)
    decreases |jobs|
  {
    jobs == [] || (
      jobs[0].now >= clock && JobOk(w, t, jobs[0]) && CleanJobs(AfterJob(w, t, jobs[0]), t, jobs[0].now, jobs[1..]))
  }

  ghost function AfterJobs(w: World, t: Ttls, clock: int, jobs: seq<Job>): World
    requires CleanJobs(w, t, clock, jobs)
    decreases |jobs|
  {
    if jobs == [] then w else AfterJobs(AfterJob(w, t, jobs[0]), t, jobs[0].now, jobs[1..])
  }

  function Retains(jobs: seq<Job>): nat {
    if jobs == [] then 0 else (if jobs[0].Retain? then 1 else 0) + Retains(jobs[1..])
  }

  function Purges(jobs: seq<Job>): nat {
    if jobs == [] then 0 else (if jobs[0].PurgeShares? then 1 else 0) + Purges(jobs[1..])
  }

  /** Every row is due at `now`, and so at any later time. */
  ghost predicate Overdue(w: World, t: Ttls, now: int) {
    && (forall key :: key in w.uploads ==> PastCutoff(w.uploads[key], now - t.anon, now - t.owned))
    && (forall slug :: slug in w.shares ==> w.shares[slug].expiresAt < now)
  }

  lemma SmallerMap<T>(t: map<string, T>, t': map<string, T>)
    requires t'.Keys <= t.Keys
    ensures |t'| <= |t|
  {
    SubsetSize(t'.Keys, t.Keys);
    assert |t| == |t.Keys| && |t'| == |t'.Keys|;
  }

  lemma AllTaken<T>(t: map<string, T>, at: T -> int, keys: seq<string>)
    requires Batch(t, at, t.Keys, keys)
    ensures |t - SetOf(keys)| == Less(|t|, 1)
  {
    BatchTakes(t, at, t.Keys, keys);
    assert (t - SetOf(keys)).Keys == t.Keys - SetOf(keys);
    assert |t| == |t.Keys| && |t - SetOf(keys)| == |(t - SetOf(keys)).Keys|;
  }

  lemma AllExpired(t: UploadTable, anonBefore: int, ownedBefore: int)
    requires forall key :: key in t ==> PastCutoff(t[key], anonBefore, ownedBefore)
    ensures Expired(t, anonBefore, ownedBefore) == t.Keys
  {
  }

  /** A sweep over a table of which every row is past its cutoff takes a full batch of it. */
  lemma ListingTakes(t: UploadTable, anonBefore: int, ownedBefore: int, todo: seq<Upload>)
    requires forall key :: key in t ==> PastCutoff(t[key], anonBefore, ownedBefore)
    requires Listing(t, anonBefore, ownedBefore, todo)
    ensures |t - SetOf(Keys(todo))| == Less(|t|, 1)
  {
    AllExpired(t, anonBefore, ownedBefore);
    assert Batch(t, CreatedAt, t.Keys, Keys(todo));
    AllTaken(t, CreatedAt, Keys(todo));
  }

  /** The table has no row the other lacks. */
  ghost predicate Within(w': World, w: World) {
    && (forall key :: key in w'.uploads ==> key in w.uploads && w'.uploads[key] == w.uploads[key])
    && (forall slug :: slug in w'.shares ==> slug in w.shares && w'.shares[slug] == w.shares[slug])
  }

  lemma FewerOverdue(w: World, w': World, t: Ttls, now: int)
    requires Overdue(w, t, now) && Within(w', w)
    ensures Overdue(w', t, now)
  {
  }

  lemma SweptWithin(w: World, todo: seq<Upload>, slugs: seq<seq<string>>)
    requires |slugs| == |todo|
    ensures Within(Swept(w, todo, slugs), w)
  {
    CleanSweep(w, todo, slugs);
  }

  lemma SweptSizes(w: World, anonBefore: int, ownedBefore: int, todo: seq<Upload>, slugs: seq<seq<string>>)
    requires forall key :: key in w.uploads ==> PastCutoff(w.uploads[key], anonBefore, ownedBefore)
    requires |slugs| == |todo| && Listing(w.uploads, anonBefore, ownedBefore, todo)
    ensures |Swept(w, todo, slugs).uploads| == Less(|w.uploads|, 1) && |Swept(w, todo, slugs).shares| <= |w.shares|
  {
    ListingTakes(w.uploads, anonBefore, ownedBefore, todo);
    CleanSweep(w, todo, slugs);
    SmallerMap(w.shares, Swept(w, todo, slugs).shares);
  }

  lemma PurgeShrinks(w: World, t: Ttls, now: int, rows: seq<Row>)
    requires Overdue(w, t, now) && JobOk(w, t, PurgeShares(now, rows))
    ensures var w' := Purged(w, rows);
            Overdue(w', t, now) && w'.uploads == w.uploads && |w'.shares| == Less(|w.shares|, 1)
  {
    CleanPurge(w, rows);
    assert ExpiredShares(w.shares, now) == w.shares.Keys;
    AllTaken(w.shares, ExpiresAt, Slugs(rows));
  }

  lemma LessAgain(n: nat, m: nat, k: nat)
    requires m <= Less(n, 1)
    ensures Less(m, k) <= Less(n, k + 1)
    ensures m == Less(n, 1) ==> Less(m, k) == Less(n, k + 1)
  {
  }

  lemma LessOfFewer(n: nat, m: nat, k: nat)
    requires m <= n
    ensures Less(m, k) <= Less(n, k)
  {
  }

  lemma JobShrinks(w: World, t: Ttls, j: Job)
    requires Overdue(w, t, j.now) && JobOk(w, t, j)
    ensures var w' := AfterJob(w, t, j);
            && Overdue(w', t, j.now)
            && |w'.uploads| == (if j.Retain? then Less(|w.uploads|, 1) else |w.uploads|)
            && |w'.shares| <= (if j.Retain? then |w.shares| else Less(|w.shares|, 1))
  {
    match j {
      case Retain(now, todo, slugs) =>
        SweptSizes(w, now - t.anon, now - t.owned, todo, slugs);
        SweptWithin(w, todo, slugs);
        FewerOverdue(w, Swept(w, todo, slugs), t, now);
      case PurgeShares(now, rows) =>
        PurgeShrinks(w, t, now, rows);
    }
  }

  /** However the two jobs interleave, every retention sweep takes 200 upload rows or the rest,
      and every share purge takes at least as many shares. */
  lemma {:induction false} JobsShrink(w: World, t: Ttls, clock: int, jobs: seq<Job>)
    requires Overdue(w, t, clock) && CleanJobs(w, t, clock, jobs)
    ensures var w' := AfterJobs(w, t, clock, jobs);
            |w'.uploads| == Less(|w.uploads|, Retains(jobs)) && |w'.shares| <= Less(|w.shares|, Purges(jobs))
    decreases |jobs|
  {
    if jobs != [] {
      var j, w1, rest := jobs[0], AfterJob(w, t, jobs[0]), jobs[1..];
      assert Overdue(w, t, j.now);
      JobShrinks(w, t, j);
      JobsShrink(w1, t, j.now, rest);
      if j.Retain? {
        LessAgain(|w.uploads|, |w1.uploads|, Retains(rest));
        LessOfFewer(|w.shares|, |w1.shares|, Purges(rest));
      } else {
        LessAgain(|w.shares|, |w1.shares|, Purges(rest));
      }
    }
  }

  /** An object whose row is gone after a job is gone too. */
  lemma {:induction false} ObjectsGoWithRows(w: World, t: Ttls, clock: int, jobs: seq<Job>, key: string)
    requires CleanJobs(w, t, clock, jobs) && (key in w.bucket ==> key in w.uploads)
    ensures var w' := AfterJobs(w, t, clock, jobs); key in w'.bucket ==> key in w'.uploads
    decreases |jobs|
  {
    if jobs != [] {
      match jobs[0] {
        case Retain(_, todo, slugs) => CleanSweep(w, todo, slugs);
        case PurgeShares(_, rows) => CleanPurge(w, rows);
      }
      ObjectsGoWithRows(AfterJob(w, t, jobs[0]), t, jobs[0].now, jobs[1..], key);
    }
  }

  /** Every recorded upload is past its window, and every share's expiry is capped to the
      deadline of its recorded upload. */
  ghost predicate AllOverdue(s: M.State, t: Ttls) {
    && (forall key :: key in s.births ==> Past(t, s.births[key], s.clock))
    && (forall slug :: slug in s.w.shares ==>
          var key := s.w.shares[slug].storageKey;
          key in s.births && s.w.shares[slug].expiresAt <= Deadline(t, s.births[key]))
  }

  /** Once every deadline has passed, fault-free jobs that include ceil(n / 200) retention sweeps
      and ceil(m / 200) share purges, in any order and each at its own time, leave no upload row
      and no share, where n and m are the numbers of upload and share rows; and no object of a
      recorded key that was tracked. Untracked objects stay. */
  lemma EverythingDrains(s: M.State, t: Ttls, jobs: seq<Job>, key: string)
    requires M.RowsOk(s.w.uploads, s.births) && AllOverdue(s, t) && CleanJobs(s.w, t, s.clock, jobs)
    requires BATCH * Retains(jobs) >= |s.w.uploads| && BATCH * Purges(jobs) >= |s.w.shares|
    ensures var w' := AfterJobs(s.w, t, s.clock, jobs);
            && w'.uploads == map[] && w'.shares == map[]
            && (key in s.births && !M.Stray(s, key) ==> key !in w'.bucket)
  {
    JobsShrink(s.w, t, s.clock, jobs);
    if key in s.births && !M.Stray(s, key) {
      ObjectsGoWithRows(s.w, t, s.clock, jobs, key);
    }
  }

  /** The share half is what the share protocol provides: in each of its reachable states in which
      every file shared was recorded and every row's last write was kept in time. */
  lemma ProtocolIsOverdue(clock: int, e: P.Env, actions: seq<P.Action>, s: M.State)
    requires G.Runs(P.Init(clock), e, actions)
    requires var p := G.Final(P.Init(clock), e, actions);
             && s.w.shares == p.shares && s.births == p.births
             && (forall key :: key in s.births ==> Past(e.ttls, s.births[key], s.clock))
             && (forall slug :: slug in p.shares && slug in p.lives ==>
                   p.shares[slug].storageKey in p.births &&
                   G.KeptInTime(e, p.births[p.shares[slug].storageKey], p.lives[slug]))
    ensures AllOverdue(s, e.ttls)
  {
    var p := G.Final(P.Init(clock), e, actions);
    forall slug | slug in p.shares
      ensures p.shares[slug].storageKey in p.births
      ensures p.shares[slug].expiresAt <= Deadline(e.ttls, p.births[p.shares[slug].storageKey])
    {
      G.ReachableRow(clock, e, actions, slug);
      G.InTimeIffKept(e, p.births, slug, p.shares[slug], p.lives[slug]);
    }
  }
}
