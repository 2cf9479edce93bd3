/** The sweep job is one of the machine's runs, and three runs show which promises need their
    conditions. */
module RetentionRuns {
  import opened Store
  import opened Retention
  import opened RetentionMachine
  import opened RetentionLedger

  /** A run is a run of its first part, continued from there. */
  lemma {:induction false} RunsSplit(s: State, t: Ttls, a: seq<Action>, b: seq<Action>)
    ensures Runs(s, t, a + b) <==> Runs(s, t, a) && Runs(Final(s, t, a), t, b)
    ensures Runs(s, t, a + b) ==> Final(s, t, a + b) == Final(Final(s, t, a), t, b)
    decreases |a|
  {
    if a == [] {
      assert a + b == b;
    } else {
      assert (a + b)[0] == a[0] && (a + b)[1..] == a[1..] + b;
      if Enabled(s, t, a[0]) {
        RunsSplit(Apply(s, t, a[0]), t, a[1..], b);
      }
    }
  }

  lemma RunThen(s: State, t: Ttls, a: seq<Action>, next: Action)
    requires Runs(s, t, a) && Enabled(Final(s, t, a), t, next)
    ensures Runs(s, t, a + [next]) && Final(s, t, a + [next]) == Apply(Final(s, t, a), t, next)
  {
    var m := Final(s, t, a);
    var m' := Apply(m, t, next);
    assert [next][1..] == [] && Runs(m', t, []) && Final(m', t, []) == m';
    RunsSplit(s, t, a, [next]);
  }

  // ---------------------------------------------------------------- the job refines the machine

  predicate NoLoss(f: Faults) {
    f.mark && f.audit
  }

  predicate NoLosses(faults: seq<Faults>) {
    forall i :: 0 <= i < |faults| ==> NoLoss(faults[i])
  }

  /** The worker survives, and its marks and audit entries are written. */
  predicate Lossless(a: Action) {
    !a.Crash? && (a.MarkRow? ==> a.ok) && (a.WriteAudit? ==> a.ok)
  }

  predicate AllLossless(actions: seq<Action>) {
    forall i :: 0 <= i < |actions| ==> Lossless(actions[i])
  }

  /** The books of every key are complete after a run that loses nothing. */
  lemma {:induction false} LosslessLosesNothing(s: State, t: Ttls, actions: seq<Action>, key: string)
    requires Runs(s, t, actions) && AllLossless(actions)
    ensures var e := EventsOf(s, t, actions, key); !e.unrecorded && !e.unmarked
    decreases |actions|
  {
    if actions != [] {
      assert Lossless(actions[0]);
      LosslessLosesNothing(Apply(s, t, actions[0]), t, actions[1..], key);
    }
  }

  /** The machine run `actions` from `s` takes the world to `w`, the phase to `p`, loses nothing
      if `kept`, and lets nobody else act. */
  ghost predicate Reaches(s: State, t: Ttls, actions: seq<Action>, w: World, p: Phase, kept: bool) {
    && Runs(s, t, actions)
    && Final(s, t, actions).w == w && Final(s, t, actions).phase == p
    && Final(s, t, actions).births == s.births && Final(s, t, actions).clock == s.clock
    && (forall i :: 0 <= i < |actions| ==> !Environment(actions[i]))
    && (kept ==> AllLossless(actions))
  }

  lemma ReachNext(s: State, t: Ttls, actions: seq<Action>, w: World, p: Phase, kept: bool, next: Action, w': World, p': Phase)
    requires Reaches(s, t, actions, w, p, kept) && !Environment(next) && (kept ==> Lossless(next))
    requires Enabled(Final(s, t, actions), t, next)
    requires Apply(Final(s, t, actions), t, next).w == w' && Apply(Final(s, t, actions), t, next).phase == p'
    ensures Reaches(s, t, actions + [next], w', p', kept)
  {
    RunThen(s, t, actions, next);
  }

  /** Marking a row, and recording the failure if the object's deletion was attempted. */
  lemma MarkTail(s: State, t: Ttls, f: Faults, actions: seq<Action>, w: World, p: Phase)
    requires p.Failing? && Reaches(s, t, actions, w, p, NoLoss(f))
    ensures var key := p.up.storageKey;
            var w2 := If(f.mark, MarkFailed(w, key), w);
            var entry := PurgeUploadFailed(key, p.up.deleteAttempts + 1);
            if p.attempted then
              Reaches(s, t, actions + [MarkRow(f.mark)] + [WriteAudit(f.audit)], If(f.audit, Append(w2, entry), w2), Next(p.rest), NoLoss(f))
            else
              Reaches(s, t, actions + [MarkRow(f.mark)], w2, Next(p.rest), NoLoss(f))
  {
    var key, a := p.up.storageKey, MarkRow(f.mark);
    var w2 := If(f.mark, MarkFailed(w, key), w);
    if p.attempted {
      var entry := PurgeUploadFailed(key, p.up.deleteAttempts + 1);
      ReachNext(s, t, actions, w, p, NoLoss(f), a, w2, Noting(p.up, entry, p.rest));
      ReachNext(s, t, actions + [a], w2, Noting(p.up, entry, p.rest), NoLoss(f), WriteAudit(f.audit),
                If(f.audit, Append(w2, entry), w2), Next(p.rest));
    } else {
      ReachNext(s, t, actions, w, p, NoLoss(f), a, w2, Next(p.rest));
    }
  }

  /** The HEAD of the next upload. */
  lemma HeadRuns(s: State, t: Ttls, f: Faults, result: HeadResult)
    requires s.phase.Next? && s.phase.rest != []
    requires result.Found? <==> f.head && s.phase.rest[0].storageKey in s.w.bucket
    requires result.NotFound? <==> f.head && s.phase.rest[0].storageKey !in s.w.bucket
    ensures var up, rest := s.phase.rest[0], s.phase.rest[1..];
            Reaches(s, t, [HeadObject(result)], s.w,
                    match result
                    case Found => Present(up, s.w.bucket[up.storageKey], rest)
                    case NotFound => Orphan(up, rest)
                    case HeadError => Failing(up, false, rest),
                    NoLoss(f))
  {
    RunThen(s, t, [], HeadObject(result));
    assert [] + [HeadObject(result)] == [HeadObject(result)];
  }

  /** A failed HEAD. */
  lemma HeadErrorRuns(s: State, t: Ttls, f: Faults, slugs: seq<string>) returns (actions: seq<Action>)
    requires s.phase.Next? && s.phase.rest != [] && !f.head
    ensures Reaches(s, t, actions, Process(s.w, s.phase.rest[0], f, slugs), Next(s.phase.rest[1..]), NoLoss(f))
  {
    HeadRuns(s, t, f, HeadError);
    MarkTail(s, t, f, [HeadObject(HeadError)], s.w, Failing(s.phase.rest[0], false, s.phase.rest[1..]));
    actions := [HeadObject(HeadError)] + [MarkRow(f.mark)];
  }

  /** HEAD finds no object. */
  lemma OrphanRuns(s: State, t: Ttls, f: Faults, slugs: seq<string>) returns (actions: seq<Action>)
    requires s.phase.Next? && s.phase.rest != [] && f.head && s.phase.rest[0].storageKey !in s.w.bucket
    ensures Reaches(s, t, actions, Process(s.w, s.phase.rest[0], f, slugs), Next(s.phase.rest[1..]), NoLoss(f))
  {
    var up, rest := s.phase.rest[0], s.phase.rest[1..];
    var a1, a2 := HeadObject(NotFound), DeleteOrphanRow(f.row);
    HeadRuns(s, t, f, NotFound);
    actions := [a1] + [a2];
    if !f.row {
      ReachNext(s, t, [a1], s.w, Orphan(up, rest), NoLoss(f), a2, s.w, Failing(up, false, rest));
      MarkTail(s, t, f, actions, s.w, Failing(up, false, rest));
      actions := actions + [MarkRow(f.mark)];
    } else {
      var w' := Process(s.w, up, f, slugs);
      if up.deleteAttempts > 0 {
        var w1, p1 := RemoveRow(s.w, up.storageKey), Noting(up, OrphanEntry(up), rest);
        ReachNext(s, t, [a1], s.w, Orphan(up, rest), NoLoss(f), a2, w1, p1);
        ReachNext(s, t, actions, w1, p1, NoLoss(f), WriteAudit(f.audit), w', Next(rest));
        actions := actions + [WriteAudit(f.audit)];
      } else {
        ReachNext(s, t, [a1], s.w, Orphan(up, rest), NoLoss(f), a2, w', Next(rest));
      }
    }
  }

  /** HEAD finds the object, whose deletion fails. */
  lemma UndeletableRuns(s: State, t: Ttls, f: Faults, slugs: seq<string>) returns (actions: seq<Action>)
    requires s.phase.Next? && s.phase.rest != [] && f.head && s.phase.rest[0].storageKey in s.w.bucket && !f.file.Deleted?
    ensures Reaches(s, t, actions, Process(s.w, s.phase.rest[0], f, slugs), Next(s.phase.rest[1..]), NoLoss(f))
  {
    var up, rest := s.phase.rest[0], s.phase.rest[1..];
    var a1, a2 := HeadObject(Found), DeleteObject(f.file);
    var w1 := If(f.file.FailedGone?, RemoveObject(s.w, up.storageKey), s.w);
    HeadRuns(s, t, f, Found);
    ReachNext(s, t, [a1], s.w, Present(up, s.w.bucket[up.storageKey], rest), NoLoss(f), a2, w1, Failing(up, true, rest));
    MarkTail(s, t, f, [a1] + [a2], w1, Failing(up, true, rest));
    actions := [a1] + [a2] + [MarkRow(f.mark)] + [WriteAudit(f.audit)];
  }

  /** HEAD finds the object and it is deleted. */
  lemma DeletedRuns(s: State, t: Ttls, f: Faults, slugs: seq<string>) returns (actions: seq<Action>)
    requires s.phase.Next? && s.phase.rest != [] && f.head && s.phase.rest[0].storageKey in s.w.bucket && f.file.Deleted?
    requires ReturnedSlugs(s.w, s.phase.rest[0].storageKey, slugs)
    ensures Reaches(s, t, actions, Process(s.w, s.phase.rest[0], f, slugs), Next(s.phase.rest[1..]), NoLoss(f))
  {
    var up, rest := s.phase.rest[0], s.phase.rest[1..];
    var key, size := up.storageKey, s.w.bucket[up.storageKey];
    var a1, a2 := HeadObject(Found), DeleteObject(Deleted);
    var w1, p2 := RemoveObject(s.w, key), Gone(up, size, rest);
    HeadRuns(s, t, f, Found);
    ReachNext(s, t, [a1], s.w, Present(up, size, rest), NoLoss(f), a2, w1, p2);
    var w2 := If(f.shares, RemoveShares(w1, key), w1);
    var p3 := Unshared(up, size, if f.shares then slugs else [], rest);
    UnshareRuns(s, t, f, slugs, [a1] + [a2], w1, p2);
    actions := [a1] + [a2] + [DeleteShares(f.shares, slugs)];
    DeletedTail(s, t, f, actions, w2, p3);
    actions := actions + [DeleteRow(f.row)] + [if f.row then WriteAudit(f.audit) else MarkRow(f.mark)];
  }

  lemma UnshareRuns(s: State, t: Ttls, f: Faults, slugs: seq<string>, actions: seq<Action>, w: World, p: Phase)
    requires p.Gone? && Reaches(s, t, actions, w, p, NoLoss(f)) && ReturnedSlugs(w, p.up.storageKey, slugs)
    ensures Reaches(s, t, actions + [DeleteShares(f.shares, slugs)],
                    If(f.shares, RemoveShares(w, p.up.storageKey), w),
                    Unshared(p.up, p.size, if f.shares then slugs else [], p.rest), NoLoss(f))
  {
    ReachNext(s, t, actions, w, p, NoLoss(f), DeleteShares(f.shares, slugs),
              If(f.shares, RemoveShares(w, p.up.storageKey), w),
              Unshared(p.up, p.size, if f.shares then slugs else [], p.rest));
  }

  lemma DeletedTail(s: State, t: Ttls, f: Faults, actions: seq<Action>, w: World, p: Phase)
    requires p.Unshared? && Reaches(s, t, actions, w, p, NoLoss(f))
    ensures var key, last := p.up.storageKey, if f.row then WriteAudit(f.audit) else MarkRow(f.mark);
            var entry := PurgeUpload(key, p.up.ownerId, p.up.fileName, p.size, p.up.createdAt, p.slugs);
            Reaches(s, t, actions + [DeleteRow(f.row)] + [last],
                    if f.row then If(f.audit, Append(RemoveRow(w, key), entry), RemoveRow(w, key)) else If(f.mark, MarkFailed(w, key), w),
                    Next(p.rest), NoLoss(f))
  {
    var key := p.up.storageKey;
    var a4 := DeleteRow(f.row);
    if f.row {
      var entry := PurgeUpload(key, p.up.ownerId, p.up.fileName, p.size, p.up.createdAt, p.slugs);
      ReachNext(s, t, actions, w, p, NoLoss(f), a4, RemoveRow(w, key), Noting(p.up, entry, p.rest));
      ReachNext(s, t, actions + [a4], RemoveRow(w, key), Noting(p.up, entry, p.rest), NoLoss(f), WriteAudit(f.audit),
                If(f.audit, Append(RemoveRow(w, key), entry), RemoveRow(w, key)), Next(p.rest));
    } else {
      ReachNext(s, t, actions, w, p, NoLoss(f), a4, w, Failing(p.up, false, p.rest));
      MarkTail(s, t, f, actions + [a4], w, Failing(p.up, false, p.rest));
    }
  }

  lemma ProcessRuns(s: State, t: Ttls, f: Faults, slugs: seq<string>) returns (actions: seq<Action>)
    requires s.phase.Next? && s.phase.rest != []
    requires ReturnedSlugs(s.w, s.phase.rest[0].storageKey, slugs)
    ensures Reaches(s, t, actions, Process(s.w, s.phase.rest[0], f, slugs), Next(s.phase.rest[1..]), NoLoss(f))
  {
    if !f.head {
      actions := HeadErrorRuns(s, t, f, slugs);
    } else if s.phase.rest[0].storageKey !in s.w.bucket {
      actions := OrphanRuns(s, t, f, slugs);
    } else if !f.file.Deleted? {
      actions := UndeletableRuns(s, t, f, slugs);
    } else {
      actions := DeletedRuns(s, t, f, slugs);
    }
  }

  /** Every round's share delete returns what its table held at that moment. */
  ghost predicate SlugsMatch(w: World, todo: seq<Upload>, faults: seq<Faults>, slugs: seq<seq<string>>)
    requires |faults| == |todo| == |slugs|
  {
    forall i :: 0 <= i < |todo| ==> ReturnedSlugs(Sweep(w, todo[..i], faults[..i], slugs[..i]), todo[i].storageKey, slugs[i])
  }

  lemma ReachesConcat(s: State, t: Ttls, a: seq<Action>, w: World, p: Phase, kept: bool, b: seq<Action>, w': World, p': Phase, kept': bool)
    requires Reaches(s, t, a, w, p, kept) && Reaches(Final(s, t, a), t, b, w', p', kept')
    ensures Reaches(s, t, a + b, w', p', kept && kept')
  {
    RunsSplit(s, t, a, b);
  }

  lemma SweepFront(w: World, todo: seq<Upload>, faults: seq<Faults>, slugs: seq<seq<string>>, n: nat)
    requires |faults| == |todo| == |slugs| && n < |todo|
    ensures Sweep(w, todo[..n + 1], faults[..n + 1], slugs[..n + 1]) ==
            Process(Sweep(w, todo[..n], faults[..n], slugs[..n]), todo[n], faults[n], slugs[n])
  {
    assert todo[..n + 1][..n] == todo[..n] && faults[..n + 1][..n] == faults[..n] && slugs[..n + 1][..n] == slugs[..n];
  }

  lemma NoLossesFront(faults: seq<Faults>, n: nat)
    requires n < |faults|
    ensures NoLosses(faults[..n + 1]) <==> NoLosses(faults[..n]) && NoLoss(faults[n])
  {
    if NoLosses(faults[..n + 1]) {
      assert forall i :: 0 <= i < n ==> faults[..n][i] == faults[..n + 1][i];
      assert faults[..n + 1][n] == faults[n];
    }
  }

  lemma {:induction false} SweepRuns(s: State, t: Ttls, todo: seq<Upload>, faults: seq<Faults>, slugs: seq<seq<string>>, n: nat)
    returns (actions: seq<Action>)
    requires s.phase == Next(todo) && |faults| == |todo| == |slugs| && n <= |todo| && SlugsMatch(s.w, todo, faults, slugs)
    ensures Reaches(s, t, actions, Sweep(s.w, todo[..n], faults[..n], slugs[..n]), Next(todo[n..]), NoLosses(faults[..n]))
  {
    if n == 0 {
      actions := [];
      assert todo[0..] == todo;
    } else {
      var m := n - 1;
      var front := SweepRuns(s, t, todo, faults, slugs, m);
      var w := Sweep(s.w, todo[..m], faults[..m], slugs[..m]);
      SweepFront(s.w, todo, faults, slugs, m);
      NoLossesFront(faults, m);
      assert todo[m..][0] == todo[m] && todo[m..][1..] == todo[n..];
      var last := ProcessRuns(Final(s, t, front), t, faults[m], slugs[m]);
      ReachesConcat(s, t, front, w, Next(todo[m..]), NoLosses(faults[..m]),
                    last, Process(w, todo[m], faults[m], slugs[m]), Next(todo[n..]), NoLoss(faults[m]));
      actions := front + last;
    }
  }

  /** What `PurgeExpiredUploads.Run` computes, the machine can do in single effects, from a
      listing to the end of the sweep: all of the machine's guarantees hold for the job, and at
      every point where it may be interrupted. */
  lemma JobIsMachineRun(s: State, t: Ttls, todo: seq<Upload>, faults: seq<Faults>, slugs: seq<seq<string>>)
    returns (actions: seq<Action>)
    requires |faults| == |todo| == |slugs| && Enabled(s, t, List(todo)) && SlugsMatch(s.w, todo, faults, slugs)
    ensures Reaches(s, t, actions, Sweep(s.w, todo, faults, slugs), Idle, NoLosses(faults))
  {
    var kept, start := NoLosses(faults), [List(todo)];
    RunThen(s, t, [], List(todo));
    assert [] + [List(todo)] == start;
    assert Reaches(s, t, start, s.w, Next(todo), kept);
    var body := SweepWhole(Final(s, t, start), t, todo, faults, slugs);
    var w' := Sweep(s.w, todo, faults, slugs);
    ReachesConcat(s, t, start, s.w, Next(todo), kept, body, w', Next([]), kept);
    ReachNext(s, t, start + body, w', Next([]), kept, EndSweep, w', Idle);
    actions := start + body + [EndSweep];
  }

  lemma SweepWhole(s: State, t: Ttls, todo: seq<Upload>, faults: seq<Faults>, slugs: seq<seq<string>>)
    returns (actions: seq<Action>)
    requires s.phase == Next(todo) && |faults| == |todo| == |slugs| && SlugsMatch(s.w, todo, faults, slugs)
    ensures Reaches(s, t, actions, Sweep(s.w, todo, faults, slugs), Next([]), NoLosses(faults))
  {
    var n := |todo|;
    actions := SweepRuns(s, t, todo, faults, slugs, n);
    assert todo[..n] == todo && faults[..n] == faults && slugs[..n] == slugs && todo[n..] == [];
  }

  // ---------------------------------------------------------------- why the conditions are needed

  /** A failed HEAD on an abandoned presign is enough for a bogus record: the trail says the
      file was purged, although no object ever existed. */
  lemma FailedHeadForgesPurge(key: string)
    ensures exists actions :: Runs(Init(map[], 0), Ttls(72, 168), actions) &&
              AllLossless(actions) &&
              var s := Final(Init(map[], 0), Ttls(72, 168), actions);
              s.phase.Idle? && s.removed == {} && Purges(s.w.audit, key) == 1
  {
    var t, up := Ttls(72, 168), Upload(key, "", "", 1, 0, 0);
    var s0 := Init(map[], 0);
    var start, s2 := AbandonedPresign(key, t);
    var bad := SweepOf(s2, t, up, Faults(false, Deleted, true, true, true, true));
    RunsSplit(s0, t, start, bad);
    var s3, up' := Final(s2, t, bad), up.(deleteAttempts := 1);
    assert s3.w == World(map[], map[key := up'], map[], []);
    var again := SweepOf(s3, t, up', NO_FAULTS);
    RunsSplit(s0, t, start + bad, again);
    ForgedEntry(key, up', Final(s3, t, again).w.audit);
    NothingRemoved(s0, t, start + bad + again);
    assert Runs(s0, t, start + bad + again);
  }

  lemma ForgedEntry(key: string, up: Upload, audit: seq<Entry>)
    requires audit == [OrphanEntry(up)] && up.storageKey == key
    ensures Purges(audit, key) == 1
  {
    assert audit == [] + [OrphanEntry(up)];
    PurgesAppend([], OrphanEntry(up), key);
  }

  /** An upload is recorded and nothing is ever put; its window passes. */
  lemma AbandonedPresign(key: string, t: Ttls) returns (actions: seq<Action>, s: State)
    requires t == Ttls(72, 168)
    ensures Runs(Init(map[], 0), t, actions) && Final(Init(map[], 0), t, actions) == s && AllLossless(actions)
    ensures forall i :: 0 <= i < |actions| ==> !actions[i].PutObject?
    ensures s == Init(map[], 100).(w := World(map[], map[key := Upload(key, "", "", 1, 0, 0)], map[], []),
                                   births := map[key := Birth("", 0)])
  {
    var s0, a1, a2 := Init(map[], 0), RecordUpload(key, "", "", 1, 0), Tick(100);
    RunThen(s0, t, [], a1);
    RunThen(s0, t, [] + [a1], a2);
    actions := [] + [a1] + [a2];
    s := Final(s0, t, actions);
  }

  /** A sweep over the single listed upload `up`, whose file has no shares. */
  lemma SweepOf(s: State, t: Ttls, up: Upload, f: Faults) returns (actions: seq<Action>)
    requires s.phase.Idle? && s.w.shares == map[] && Listable(s, t, up) && NoLoss(f)
    ensures Reaches(s, t, actions, Process(s.w, up, f, []), Idle, true)
  {
    var todo, faults, slugs: seq<seq<string>> := [up], [f], [[]];
    assert todo[..0] == [] && faults[..0] == [] && slugs[..0] == [];
    assert ReturnedSlugs(Sweep(s.w, todo[..0], faults[..0], slugs[..0]), todo[0].storageKey, slugs[0]);
    actions := JobIsMachineRun(s, t, todo, faults, slugs);
    assert Sweep(s.w, todo, faults, slugs) == Process(Sweep(s.w, [], [], []), up, f, []);
  }

  /** Nothing is ever removed from a bucket that is and stays empty. */
  lemma {:induction false} NothingRemoved(s: State, t: Ttls, actions: seq<Action>)
    requires Runs(s, t, actions) && s.w.bucket == map[] && forall i :: 0 <= i < |actions| ==> !actions[i].PutObject?
    ensures Final(s, t, actions).removed == s.removed
    decreases |actions|
  {
    if actions != [] {
      NothingRemoved(Apply(s, t, actions[0]), t, actions[1..]);
    }
  }

  /** A crash between the object's deletion and everything after it loses the record: the row
      still reads as never tried, so the next sweep drops it in silence. */
  lemma CrashLosesPurge(key: string)
    ensures exists actions :: Runs(Init(map[], 0), Ttls(72, 168), actions) &&
              var s := Final(Init(map[], 0), Ttls(72, 168), actions);
              s.phase.Idle? && key in s.removed && key !in s.w.uploads && Purges(s.w.audit, key) == 0
  {
    var t := Ttls(72, 168);
    var up := Upload(key, "", "", 1, 0, 0);
    var s0 := Init(map[], 0);
    RunThen(s0, t, [], RecordUpload(key, "", "", 1, 0));
    var as1 := [] + [RecordUpload(key, "", "", 1, 0)];
    RunThen(s0, t, as1, PutObject(key, 5));
    var as2 := as1 + [PutObject(key, 5)];
    RunThen(s0, t, as2, Tick(100));
    var as3 := as2 + [Tick(100)];
    var s3 := Final(s0, t, as3);
    assert s3.w == World(map[key := 5], map[key := up], map[], []) && s3.clock == 100 && s3.phase == Idle;
    var cut := CrashAfterDelete(s3, t, up);
    RunsSplit(s0, t, as3, cut);
    var s4 := Final(s3, t, cut);
    var silent := SweepOf(s4, t, up, NO_FAULTS);
    RunsSplit(s0, t, as3 + cut, silent);
    var s5 := Final(s4, t, silent);
    RemovedGrows(s4, t, silent);
    assert s5.w.audit == [];
    assert Runs(s0, t, as3 + cut + silent);
  }

  lemma CrashAfterDelete(s: State, t: Ttls, up: Upload) returns (actions: seq<Action>)
    requires s.phase.Idle? && Listable(s, t, up) && up.storageKey in s.w.bucket
    ensures Runs(s, t, actions)
    ensures var s' := Final(s, t, actions);
            && s'.phase.Idle? && s'.w == RemoveObject(s.w, up.storageKey) && up.storageKey in s'.removed
            && s'.clock == s.clock
  {
    var a1, a2, a3, a4 := List([up]), HeadObject(Found), DeleteObject(Deleted), Crash;
    RunThen(s, t, [], a1);
    RunThen(s, t, [] + [a1], a2);
    RunThen(s, t, [] + [a1] + [a2], a3);
    RunThen(s, t, [] + [a1] + [a2] + [a3], a4);
    actions := [] + [a1] + [a2] + [a3] + [a4];
  }

  lemma {:induction false} RemovedGrows(s: State, t: Ttls, actions: seq<Action>)
    requires Runs(s, t, actions)
    ensures s.removed <= Final(s, t, actions).removed
    decreases |actions|
  {
    if actions != [] {
      RemovedGrows(Apply(s, t, actions[0]), t, actions[1..]);
    }
  }

  /** An object that is put under an issued key after the window has passed may never be deleted:
      a sweep that came first took the row for an abandoned presign and dropped it. */
  lemma LateObjectIsUntracked(key: string, size: int)
    ensures exists actions :: Runs(Init(map[], 0), Ttls(72, 168), actions) && AllLossless(actions) &&
              var s := Final(Init(map[], 0), Ttls(72, 168), actions);
              s.phase.Idle? && key in s.births && key in s.w.bucket && key !in s.w.uploads
  {
    var t, up := Ttls(72, 168), Upload(key, "", "", 1, 0, 0);
    var s0 := Init(map[], 0);
    var start, s2 := AbandonedPresign(key, t);
    var sweep := SweepOf(s2, t, up, NO_FAULTS);
    RunsSplit(s0, t, start, sweep);
    assert Final(s2, t, sweep).w == World(map[], map[], map[], []);
    RunThen(s0, t, start + sweep, PutObject(key, size));
    assert Runs(s0, t, start + sweep + [PutObject(key, size)]);
  }
}
