/** The embedded migration runner (internal/migrate/migrate.go).

    Any number of instances boot at once and may boot again. A runner is a database session; its
    statements are single steps, each of which may fail, and its process may die between any two
    of them. The advisory lock belongs to the session and nests. A commit whose outcome the
    client does not learn is resolved later, but before the session gives up its lock. */
module Migration {
  // ---------------------------------------------------------------- the file list

  datatype DirEntry = DirEntry(name: string, isDir: bool)

  /** Byte-wise lexicographic order; for UTF-8 it is the order of the characters. */
  predicate Before(a: string, b: string) {
    if b == [] then false
    else if a == [] then true
    else a[0] < b[0] || (a[0] == b[0] && Before(a[1..], b[1..]))
  }

  lemma {:induction false} BeforeIsTotal(a: string, b: string)
    ensures Before(a, b) || Before(b, a) || a == b
    ensures !(Before(a, b) && Before(b, a)) && !Before(a, a)
  {
    if a != [] && b != [] {
      BeforeIsTotal(a[1..], b[1..]);
      assert a == [a[0]] + a[1..] && b == [b[0]] + b[1..];
    }
    if a != [] {
      BeforeIsTotal(a[1..], a[1..]);
    }
  }

  lemma {:induction false} BeforeIsTransitive(a: string, b: string, c: string)
    requires Before(a, b) && Before(b, c)
    ensures Before(a, c)
  {
    if a != [] {
      if a[0] == b[0] == c[0] {
        BeforeIsTransitive(a[1..], b[1..], c[1..]);
      }
    }
  }

  /** Strictly ascending: sorted and without duplicates. */
  ghost predicate Ascending(names: seq<string>) {
    forall i, j :: 0 <= i < j < |names| ==> Before(names[i], names[j])
  }

  predicate EndsWith(s: string, suffix: string) {
    |s| >= |suffix| && s[|s| - |suffix|..] == suffix
  }

  predicate IsMigration(e: DirEntry) {
    !e.isDir && EndsWith(e.name, ".sql")
  }

  /** Puts a name where it belongs in an ascending list. */
  function Insert(names: seq<string>, name: string): (r: seq<string>)
    ensures multiset(r) == multiset(names) + multiset{name}
  {
    if names == [] then [name]
    else if Before(name, names[|names| - 1]) then
      assert names == names[..|names| - 1] + [names[|names| - 1]];
      Insert(names[..|names| - 1], name) + [names[|names| - 1]]
    else names + [name]
  }

  lemma PushKeepsAscending(names: seq<string>, name: string)
    requires Ascending(names) && (names != [] ==> Before(names[|names| - 1], name))
    ensures Ascending(names + [name])
  {
    forall i | 0 <= i < |names|
      ensures Before(names[i], name)
    {
      if i < |names| - 1 {
        BeforeIsTransitive(names[i], names[|names| - 1], name);
      }
    }
  }

  lemma {:induction false} InsertMembers(names: seq<string>, name: string)
    ensures forall x :: x in Insert(names, name) <==> x in names || x == name
  {
    if names != [] {
      assert names == names[..|names| - 1] + [names[|names| - 1]];
      InsertMembers(names[..|names| - 1], name);
    }
  }

  lemma {:induction false} InsertKeepsAscending(names: seq<string>, name: string)
    requires Ascending(names) && name !in names
    ensures Ascending(Insert(names, name))
  {
    if names != [] {
      var front, last := names[..|names| - 1], names[|names| - 1];
      if Before(name, last) {
        InsertKeepsAscending(front, name);
        InsertMembers(front, name);
        var grown := Insert(front, name);
        assert grown[|grown| - 1] in grown;
        PushKeepsAscending(grown, last);
      } else {
        BeforeIsTotal(name, last);
        PushKeepsAscending(names, name);
      }
    }
  }

  /** The migrations of a directory, whose entries have distinct names: the plain files ending
      in .sql, each once, in ascending order. */
  method MigrationFiles(entries: seq<DirEntry>) returns (names: seq<string>)
    requires forall i, j :: 0 <= i < j < |entries| ==> entries[i].name != entries[j].name
    ensures Ascending(names)
    ensures forall x :: x in names <==> exists i :: 0 <= i < |entries| && entries[i].name == x && IsMigration(entries[i])
  {
    names := [];
    for k := 0 to |entries|
      invariant Ascending(names)
      invariant forall x :: x in names <==> exists i :: 0 <= i < k && entries[i].name == x && IsMigration(entries[i])
    {
      var e := entries[k];
      if !e.isDir && EndsWith(e.name, ".sql") {
        InsertKeepsAscending(names, e.name);
        InsertMembers(names, e.name);
        names := Insert(names, e.name);
      }
    }
  }

  // ---------------------------------------------------------------- the runners

  /** What an open transaction has done so far, for nobody else to see: the migrations whose
      statements it ran and the versions it inserted. */
  datatype Tx = Tx(ran: seq<string>, versions: seq<string>)

  /** Where one session stands. `snap` is the set of versions it read, `i` its place in the file
      list. */
  datatype Phase =
    | Ready
    | Waiting
    | Locked
    | Reading
    | Loop(snap: set<string>, i: nat)
    | Begun(snap: set<string>, i: nat, tx: Tx)       // transaction open
    | Executed(snap: set<string>, i: nat, tx: Tx)    // migration executed in it
    | Recorded(snap: set<string>, i: nat, tx: Tx)    // version inserted in it
    | InDoubt(i: nat, tx: Tx)                        // commit sent, the caller told it failed
    | Unlocking(ok: bool)
    | Returned(ok: bool)

  datatype Lock = Free | Held(holder: nat, level: nat)

  /** `history` is the content of schema_migrations, `schema` the migrations whose statements
      have taken effect, both in the order of their commits. */
  datatype State = State(history: seq<string>, schema: seq<string>, lock: Lock, runners: map<nat, Phase>)

  datatype CommitOutcome = Committed | RolledBack | Unknown

  datatype Action =
    | Boot(r: nat)
    | Acquire(r: nat)
    | LockFails(r: nat)
    | EnsureTable(r: nat, ok: bool)
    | ReadApplied(r: nat, ok: bool)
    | Skip(r: nat)
    | Begin(r: nat, ok: bool)
    | ExecuteFile(r: nat, ok: bool)
    | InsertVersion(r: nat, ok: bool)
    | Commit(r: nat, outcome: CommitOutcome)
    | Resolve(r: nat, committed: bool)
    | Finish(r: nat)
    | Unlock(r: nat, ok: bool)
    | SessionEnds(r: nat)

  function At(s: State, r: nat): Phase {
    if r in s.runners then s.runners[r] else Ready
  }

  predicate Enabled(s: State, files: seq<string>, a: Action) {
    var p := At(s, a.r);
    match a
    case Boot(_) => p.Ready? || p.Returned?
    case Acquire(r) => p.Waiting? && (s.lock.Free? || s.lock.holder == r)
    case LockFails(_) => p.Waiting?
    case EnsureTable(_, _) => p.Locked?
    case ReadApplied(_, _) => p.Reading?
    case Skip(_) => p.Loop? && p.i < |files| && files[p.i] in p.snap
    case Begin(_, _) => p.Loop? && p.i < |files| && files[p.i] !in p.snap
    case ExecuteFile(_, _) => p.Begun? && p.i < |files|
    case InsertVersion(_, _) => p.Executed? && p.i < |files|
    case Commit(_, _) => p.Recorded?
    case Resolve(_, _) => p.InDoubt?
    case Finish(_) => p.Loop? && p.i >= |files|
    case Unlock(_, _) => p.Unlocking?
    case SessionEnds(_) => !p.InDoubt?
  }

  function Move(s: State, r: nat, p: Phase): State {
    s.(runners := s.runners[r := p])
  }

  function Versions(history: seq<string>): set<string> {
    set i | 0 <= i < |history| :: history[i]
  }

  /** A committed transaction takes effect as a whole, whatever it contains. */
  function Land(s: State, tx: Tx): State {
    s.(history := s.history + tx.versions, schema := s.schema + tx.ran)
  }

  function AfterCommit(s: State, r: nat, p: Phase, outcome: CommitOutcome): State
    requires p.Recorded?
  {
    match outcome
    case Committed => Move(Land(s, p.tx), r, Loop(p.snap, p.i + 1))
    case RolledBack => Move(s, r, Unlocking(false))
    case Unknown => Move(s, r, InDoubt(p.i, p.tx))
  }

  function AfterUnlock(s: State, r: nat, ok: bool): State {
    var s1 := Move(s, r, Returned(At(s, r).Unlocking? && At(s, r).ok));
    if !ok || s.lock.Free? || s.lock.holder != r then s1
    else if s.lock.level <= 1 then s1.(lock := Free)
    else s1.(lock := Held(r, s.lock.level - 1))
  }

  function Apply(s: State, files: seq<string>, a: Action): State
    requires Enabled(s, files, a)
  {
    var p := At(s, a.r);
    match a
    case Boot(r) => Move(s, r, Waiting)
    case Acquire(r) => Move(s.(lock := Held(r, if s.lock.Free? then 1 else s.lock.level + 1)), r, Locked)
    case LockFails(r) => Move(s, r, Returned(false))
    case EnsureTable(r, ok) => Move(s, r, if ok then Reading else Unlocking(false))
    case ReadApplied(r, ok) => Move(s, r, if ok then Loop(Versions(s.history), 0) else Unlocking(false))
    case Skip(r) => Move(s, r, Loop(p.snap, p.i + 1))
    case Begin(r, ok) => Move(s, r, if ok then Begun(p.snap, p.i, Tx([], [])) else Unlocking(false))
    case ExecuteFile(r, ok) =>
      Move(s, r, if ok then Executed(p.snap, p.i, p.tx.(ran := p.tx.ran + [files[p.i]])) else Unlocking(false))
    case InsertVersion(r, ok) =>
      Move(s, r, if ok then Recorded(p.snap, p.i, p.tx.(versions := p.tx.versions + [files[p.i]])) else Unlocking(false))
    case Commit(r, outcome) => AfterCommit(s, r, p, outcome)
    case Resolve(r, committed) => Move(if committed then Land(s, p.tx) else s, r, Unlocking(false))
    case Finish(r) => Move(s, r, Unlocking(true))
    case Unlock(r, ok) => AfterUnlock(s, r, ok)
    case SessionEnds(r) =>
      Move(if s.lock.Held? && s.lock.holder == r then s.(lock := Free) else s, r, if p.Returned? then p else Ready)
  }

  function Init(): State {
    State([], [], Free, map[])
  }

  predicate Runs(s: State, files: seq<string>, actions: seq<Action>)
    decreases |actions|
  {
    actions == [] || (Enabled(s, files, actions[0]) && Runs(Apply(s, files, actions[0]), files, actions[1..]))
  }

  function Final(s: State, files: seq<string>, actions: seq<Action>): State
    requires Runs(s, files, actions)
    decreases |actions|
  {
    if actions == [] then s else Final(Apply(s, files, actions[0]), files, actions[1..])
  }

  // ---------------------------------------------------------------- the invariant

  /** The phases in which a session relies on holding the lock. */
  predicate Critical(p: Phase) {
    p.Locked? || p.Reading? || p.Loop? || p.Begun? || p.Executed? || p.Recorded? || p.InDoubt? || p.Unlocking?
  }

  /** From its place `i` on, the session's snapshot tells exactly which files are applied. */
  ghost predicate Current(n: nat, files: seq<string>, snap: set<string>, i: nat) {
    && i <= n <= |files|
    && forall j :: i <= j < |files| ==> (files[j] in snap <==> j < n)
  }

  /** The transaction of one migration, complete. */
  function Whole(name: string): Tx {
    Tx([name], [name])
  }

  ghost predicate PhaseOk(n: nat, files: seq<string>, p: Phase) {
    match p
    case Loop(snap, i) => Current(n, files, snap, i)
    case Begun(snap, i, tx) => Current(n, files, snap, i) && i == n < |files| && tx == Tx([], [])
    case Executed(snap, i, tx) => Current(n, files, snap, i) && i == n < |files| && tx == Tx([files[i]], [])
    case Recorded(snap, i, tx) => Current(n, files, snap, i) && i == n < |files| && tx == Whole(files[i])
    case InDoubt(i, tx) => i == n < |files| && tx == Whole(files[i])
    case Unlocking(ok) => ok ==> n == |files|
    case Returned(ok) => ok ==> n == |files|
    case _ => true
  }

  ghost predicate Inv(s: State, files: seq<string>) {
    && s.history <= files && s.schema == s.history
    && (forall r :: r in s.runners ==> PhaseOk(|s.history|, files, s.runners[r]))
    && (forall r :: r in s.runners && Critical(s.runners[r]) ==> s.lock.Held? && s.lock.holder == r)
  }

  lemma SnapshotIsCurrent(history: seq<string>, files: seq<string>)
    requires history <= files && Ascending(files)
    ensures Current(|history|, files, Versions(history), 0)
  {
    forall j | 0 <= j < |files|
      ensures files[j] in Versions(history) <==> j < |history|
    {
      if j < |history| {
        assert history[j] == files[j];
      } else if files[j] in Versions(history) {
        var i :| 0 <= i < |history| && history[i] == files[j];
        BeforeIsTotal(files[i], files[j]);
      }
    }
  }

  /** Landing the next file keeps every other session's phase in order: none of them is relying
      on the lock. */
  lemma LandKeepsOthers(s: State, files: seq<string>, r: nat, other: nat)
    requires Inv(s, files) && s.lock.Held? && s.lock.holder == r && |s.history| < |files|
    requires other in s.runners && other != r
    ensures PhaseOk(|s.history| + 1, files, s.runners[other])
  {
  }

  lemma MoveKeepsInv(s: State, files: seq<string>, r: nat, p: Phase)
    requires Inv(s, files) && PhaseOk(|s.history|, files, p)
    requires Critical(p) ==> s.lock.Held? && s.lock.holder == r
    ensures Inv(Move(s, r, p), files)
  {
  }

  lemma LandKeepsInv(s: State, files: seq<string>, r: nat, p: Phase)
    requires Inv(s, files) && r in s.runners && Critical(s.runners[r]) && |s.history| < |files|
    requires PhaseOk(|s.history| + 1, files, p)
    ensures Inv(Move(Land(s, Whole(files[|s.history|])), r, p), files)
  {
    var s' := Move(Land(s, Whole(files[|s.history|])), r, p);
    forall other | other in s'.runners
      ensures PhaseOk(|s'.history|, files, s'.runners[other])
    {
      if other != r {
        LandKeepsOthers(s, files, r, other);
      }
    }
  }

  /** Taking and giving up the lock: nobody else is relying on it. */
  lemma LockStepKeepsInv(s: State, files: seq<string>, a: Action)
    requires Inv(s, files) && Enabled(s, files, a) && (a.Acquire? || a.Unlock? || a.SessionEnds?)
    ensures Inv(Apply(s, files, a), files)
  {
    if s.lock.Free? || s.lock.holder == a.r {
      assert forall other :: other in s.runners && Critical(s.runners[other]) ==> other == a.r;
    }
  }

  lemma StepKeepsInv(s: State, files: seq<string>, a: Action)
    requires Inv(s, files) && Enabled(s, files, a) && Ascending(files)
    ensures Inv(Apply(s, files, a), files)
  {
    var p := At(s, a.r);
    if a.Acquire? || a.Unlock? || a.SessionEnds? {
      LockStepKeepsInv(s, files, a);
    } else if a.Commit? && a.outcome.Committed? {
      LandKeepsInv(s, files, a.r, Loop(p.snap, p.i + 1));
    } else if a.Resolve? && a.committed {
      LandKeepsInv(s, files, a.r, Unlocking(false));
    } else {
      if a.ReadApplied? {
        SnapshotIsCurrent(s.history, files);
      }
      MoveKeepsInv(s, files, a.r, At(Apply(s, files, a), a.r));
    }
  }

  lemma {:induction false} InvAlways(s: State, files: seq<string>, actions: seq<Action>)
    requires Inv(s, files) && Runs(s, files, actions) && Ascending(files)
    ensures Inv(Final(s, files, actions), files)
    decreases |actions|
  {
    if actions != [] {
      StepKeepsInv(s, files, actions[0]);
      InvAlways(Apply(s, files, actions[0]), files, actions[1..]);
    }
  }

  /** Whatever the instances do and wherever they fail, the applied migrations are a prefix of
      the sorted names without duplicates, their statements have taken effect exactly as
      recorded, and an instance whose run reported success left all of them applied. */
  lemma AppliedIsSortedPrefix(files: seq<string>, actions: seq<Action>, r: nat)
    requires Ascending(files) && Runs(Init(), files, actions)
    ensures var s := Final(Init(), files, actions);
            && s.history <= files && s.schema == s.history
            && (forall i, j :: 0 <= i < j < |s.history| ==> s.history[i] != s.history[j])
            && (At(s, r) == Returned(true) ==> s.history == files)
  {
    InvAlways(Init(), files, actions);
    var s := Final(Init(), files, actions);
    forall i, j | 0 <= i < j < |s.history|
      ensures s.history[i] != s.history[j]
    {
      BeforeIsTotal(files[i], files[j]);
    }
  }

  /** Two instances are never past the lock at the same time. */
  lemma OneInstanceAtATime(files: seq<string>, actions: seq<Action>, r: nat, r': nat)
    requires Ascending(files) && Runs(Init(), files, actions)
    requires Critical(At(Final(Init(), files, actions), r)) && Critical(At(Final(Init(), files, actions), r'))
    ensures r == r'
  {
    InvAlways(Init(), files, actions);
  }

  // ---------------------------------------------------------------- the loop of one instance

  /** How the transaction of one file ends. */
  datatype Ending = Applied | Failed | ReportedFailedButApplied

  /** File `i` is the first of the missing ones whose application was reported as failed, and
      the history ends with it or just before it. */
  ghost predicate StoppedAt(n: nat, files: seq<string>, endings: seq<Ending>, i: int, history: seq<string>)
    requires |endings| == |files|
  {
    && n <= i < |files| && !endings[i].Applied?
    && (forall j :: n <= j < i ==> endings[j].Applied?)
    && history == files[..if endings[i].Failed? then i else i + 1]
  }

  class Database {
    var history: seq<string>

    constructor ()
      ensures history == []
    {
      history := [];
    }

    /** What one instance does while it holds the lock: it starts from the prefix it finds, adds
        the missing files in order and stops at the first reported failure. It reports success
        exactly when none was reported, and then nothing is missing. */
    method Run(files: seq<string>, endings: seq<Ending>) returns (ok: bool)
      requires Ascending(files) && |endings| == |files| && history <= files
      modifies this
      ensures old(history) <= history <= files
      ensures ok <==> forall i :: |old(history)| <= i < |files| ==> endings[i].Applied?
      ensures ok ==> history == files
      ensures !ok ==> exists i :: StoppedAt(|old(history)|, files, endings, i, history)
    {
      var applied := Versions(history);
      SnapshotIsCurrent(history, files);
      ghost var n := |history|;
      for i := 0 to |files|
        invariant n <= |history| <= |files| && history == files[..|history|]
        invariant |history| == if i <= n then n else i
        invariant forall j :: n <= j < i ==> endings[j].Applied?
        invariant old(history) == files[..n]
      {
        if files[i] in applied {
          continue;
        }
        assert files[..i + 1] == files[..i] + [files[i]];
        match endings[i] {
          case Applied => history := history + [files[i]];
          case Failed =>
            assert StoppedAt(n, files, endings, i, history);
            return false;
          case ReportedFailedButApplied =>
            history := history + [files[i]];
            assert StoppedAt(n, files, endings, i, history);
            return false;
        }
      }
      ok := true;
    }
  }
}
