/** The retention audit trail: every purge is recorded exactly once, key by key. */
module RetentionLedger {
  import opened Codes
  import opened Store
  import opened Retention
  import opened RetentionMachine

  /** How many purge_upload entries the trail holds for a key. */
  function Purges(audit: seq<Entry>, key: string): nat {
    if audit == [] then 0
    else
      var last := audit[|audit| - 1];
      Purges(audit[..|audit| - 1], key) + if last.PurgeUpload? && last.key == key then 1 else 0
  }

  lemma PurgesAppend(audit: seq<Entry>, entry: Entry, key: string)
    ensures Purges(audit + [entry], key) == Purges(audit, key) + if entry.PurgeUpload? && entry.key == key then 1 else 0
  {
    assert (audit + [entry])[..|audit|] == audit;
  }

  // ---------------------------------------------------------------- what may happen to a key

  /** What happened to a key: a HEAD or the deletion of its row when the object was found gone
      failed (`spoiled`), the deletion of its object failed (`resisted`), its row was dropped
      without an entry because its counter said never tried (`silent`), the entry of its purge was
      lost (`unrecorded`), its row was marked (`marked`), and a counter at 0 was not raised although a
      call had failed or the object was gone (`unmarked`). */
  datatype Events = Events(spoiled: bool, resisted: bool, silent: bool, unrecorded: bool, marked: bool, unmarked: bool)

  const NOTHING := Events(false, false, false, false, false, false)

  function Or(a: Events, b: Events): Events {
    Events(a.spoiled || b.spoiled, a.resisted || b.resisted, a.silent || b.silent,
           a.unrecorded || b.unrecorded, a.marked || b.marked, a.unmarked || b.unmarked)
  }

  lemma OrIsAssociative(a: Events, b: Events, c: Events)
    ensures Or(Or(a, b), c) == Or(a, Or(b, c)) && Or(a, NOTHING) == a
  {
  }

  predicate Spoils(s: State, a: Action, key: string) {
    || (a.HeadObject? && a.result.HeadError? && Rest(s.phase) != [] && Rest(s.phase)[0].storageKey == key)
    || (a.DeleteOrphanRow? && !a.ok && Holds(s.phase, key))
  }

  predicate Resists(s: State, a: Action, key: string) {
    a.DeleteObject? && !a.outcome.Deleted? && Holds(s.phase, key)
  }

  predicate DropsSilently(s: State, a: Action, key: string) {
    a.DeleteOrphanRow? && a.ok && Holds(s.phase, key) && s.phase.up.deleteAttempts == 0
  }

  predicate LosesEntry(s: State, a: Action, key: string) {
    && (a.Crash? || (a.WriteAudit? && !a.ok))
    && Holds(s.phase, key) && s.phase.Noting? && s.phase.entry.PurgeUpload?
  }

  predicate Marks(s: State, a: Action, key: string) {
    a.MarkRow? && a.ok && Holds(s.phase, key)
  }

  predicate LosesMark(s: State, a: Action, key: string) {
    && (a.Crash? || (a.MarkRow? && !a.ok))
    && Holds(s.phase, key) && (s.phase.Gone? || s.phase.Unshared? || s.phase.Failing?) && s.phase.up.deleteAttempts == 0
  }

  function EventsAt(s: State, a: Action, key: string): Events {
    Events(Spoils(s, a, key), Resists(s, a, key), DropsSilently(s, a, key), LosesEntry(s, a, key), Marks(s, a, key),
           LosesMark(s, a, key))
  }

  ghost function EventsOf(s: State, t: Ttls, actions: seq<Action>, key: string): Events
    requires Runs(s, t, actions)
    decreases |actions|
  {
    if actions == [] then NOTHING
    else Or(EventsAt(s, actions[0], key), EventsOf(Apply(s, t, actions[0]), t, actions[1..], key))
  }

  // ---------------------------------------------------------------- the books of one key

  /** All the machine knows about one key. */
  datatype View = View(known: bool, row: Option<Upload>, present: bool, removed: bool, purges: nat)

  function ViewOf(s: State, key: string): View {
    View(key in s.births, if key in s.w.uploads then Some(s.w.uploads[key]) else None,
         key in s.w.bucket, key in s.removed, Purges(s.w.audit, key))
  }

  /** The object was removed or a call that raises the counter failed. */
  predicate Touched(v: View, e: Events) {
    v.removed || e.spoiled || e.resisted
  }

  /** A key with its row: no entry yet, nothing dropped; an object that resisted is there or was
      taken after all; a raised counter has its reason. */
  predicate RowBooks(v: View, e: Events) {
    && v.row.Some? && v.purges == 0 && !e.silent && !e.unrecorded
    && (e.resisted ==> v.present || v.removed)
    && (v.row.value.deleteAttempts >= 1 <==> e.marked) && (e.marked ==> Touched(v, e))
  }

  /** Unless a mark was lost, every reason has raised the counter. */
  predicate Marked(v: View, e: Events) {
    v.row.Some? && (Touched(v, e) && !e.unmarked ==> v.row.value.deleteAttempts >= 1)
  }

  /** A key without its row: exactly one entry unless it was dropped in silence or the entry was
      lost; an entry has its reason; and silence was right unless a mark was lost. */
  predicate ClosedBooks(v: View, e: Events) {
    && v.row.None? && v.purges == (if e.silent || e.unrecorded then 0 else 1)
    && (!e.silent ==> v.removed || e.spoiled)
    && (e.silent && !e.unmarked ==> !v.removed && !e.spoiled)
  }

  /** The books of a key nobody is working on. */
  predicate Settled(v: View, e: Events) {
    if v.row.Some? then RowBooks(v, e) && Marked(v, e) else ClosedBooks(v, e)
  }

  /** The books of the key in hand, phase by phase. */
  predicate InProgress(v: View, p: Phase, e: Events)
    requires InHand(p).Some?
  {
    match p
    case Orphan(up, _) => v.row == Some(up) && RowBooks(v, e) && Marked(v, e) && (e.resisted ==> v.removed)
    case Present(up, _, _) => v.row == Some(up) && RowBooks(v, e) && Marked(v, e) && v.present
    case Gone(up, _, _) => v.row == Some(up) && RowBooks(v, e) && v.removed
    case Unshared(up, _, _, _) => v.row == Some(up) && RowBooks(v, e) && v.removed
    case Failing(up, _, _) => v.row == Some(up) && RowBooks(v, e) && Touched(v, e)
    case Noting(up, entry, _) =>
      if entry.PurgeUpload? then
        v.row.None? && v.purges == 0 && !e.silent && !e.unrecorded && (v.removed || e.spoiled)
      else RowBooks(v, e) && Marked(v, e)
  }

  predicate KeyOk(v: View, p: Phase, key: string, e: Events) {
    if !v.known then v.purges == 0 && !v.removed && v.row.None? && !Holds(p, key) && e == NOTHING
    else if Holds(p, key) then InProgress(v, p, e)
    else Settled(v, e)
  }

  // ---------------------------------------------------------------- preservation

  lemma RowStepKeepsTables(s: State, t: Ttls, a: Action, key: string)
    requires Enabled(s, t, a) && !Holds(s.phase, key) && (a.DeleteOrphanRow? || a.DeleteRow?)
    ensures var (v, v') := (ViewOf(s, key), ViewOf(Apply(s, t, a), key));
            v' == v.(purges := v'.purges)
  {
  }

  lemma MarkKeepsTables(s: State, t: Ttls, a: Action, key: string)
    requires Enabled(s, t, a) && !Holds(s.phase, key) && a.MarkRow?
    ensures var (v, v') := (ViewOf(s, key), ViewOf(Apply(s, t, a), key));
            v' == v.(purges := v'.purges)
  {
  }

  lemma ObjectStepKeepsTables(s: State, t: Ttls, a: Action, key: string)
    requires Enabled(s, t, a) && !Holds(s.phase, key) && a.DeleteObject?
    ensures var (v, v') := (ViewOf(s, key), ViewOf(Apply(s, t, a), key));
            v' == v.(purges := v'.purges)
  {
  }

  lemma OthersKeepTables(s: State, t: Ttls, a: Action, key: string)
    requires Enabled(s, t, a) && !Environment(a) && !Holds(s.phase, key) && !a.HeadObject?
    ensures var (v, v') := (ViewOf(s, key), ViewOf(Apply(s, t, a), key));
            v' == v.(purges := v'.purges)
  {
    if a.DeleteOrphanRow? || a.DeleteRow? {
      RowStepKeepsTables(s, t, a, key);
    } else if a.MarkRow? {
      MarkKeepsTables(s, t, a, key);
    } else if a.DeleteObject? {
      ObjectStepKeepsTables(s, t, a, key);
    }
  }

  lemma OthersKeepPurges(s: State, t: Ttls, a: Action, key: string)
    requires RestOk(s) && Enabled(s, t, a) && !Environment(a) && !Holds(s.phase, key)
    ensures Purges(Apply(s, t, a).w.audit, key) == Purges(s.w.audit, key)
  {
    if a.WriteAudit? {
      PurgesAppend(s.w.audit, s.phase.entry, key);
    } else {
      assert Apply(s, t, a).w.audit == s.w.audit;
    }
  }

  /** The worker leaves alone every key but the one in hand (and the next, whose HEAD may fail). */
  lemma OthersKeepView(s: State, t: Ttls, a: Action, key: string)
    requires RestOk(s) && Enabled(s, t, a) && !Environment(a) && !Holds(s.phase, key) && !a.HeadObject?
    ensures ViewOf(Apply(s, t, a), key) == ViewOf(s, key)
  {
    OthersKeepTables(s, t, a, key);
    OthersKeepPurges(s, t, a, key);
  }

  lemma RowsAreKnown(s: State, t: Ttls, key: string)
    requires Safe(s, t) && key !in s.births
    ensures key !in s.w.uploads && !Holds(s.phase, key)
  {
  }

  lemma EnvironmentKeepsView(s: State, t: Ttls, a: Action, key: string)
    requires Enabled(s, t, a) && Environment(a)
    ensures Apply(s, t, a).phase == s.phase && EventsAt(s, a, key) == NOTHING
    ensures var (v, v') := (ViewOf(s, key), ViewOf(Apply(s, t, a), key));
            if a.RecordUpload? && a.key == key then v' == v.(known := true, row := v'.row)
            else v' == v.(present := v'.present) && (v.present ==> v'.present)
  {
  }

  lemma MorePresent(v: View, v': View, p: Phase, key: string, e: Events)
    requires KeyOk(v, p, key, e) && v' == v.(present := v'.present) && (v.present ==> v'.present)
    ensures KeyOk(v', p, key, e)
  {
  }

  lemma EnvironmentKeepsKey(s: State, t: Ttls, a: Action, key: string, e: Events)
    requires Safe(s, t) && Environment(a) && KeyOk(ViewOf(s, key), s.phase, key, e) && Enabled(s, t, a)
    ensures KeyOk(ViewOf(Apply(s, t, a), key), Apply(s, t, a).phase, key, Or(e, EventsAt(s, a, key)))
  {
    EnvironmentKeepsView(s, t, a, key);
    OrIsAssociative(e, NOTHING, NOTHING);
    if a.RecordUpload? && a.key == key {
      RowsAreKnown(s, t, key);
    } else {
      MorePresent(ViewOf(s, key), ViewOf(Apply(s, t, a), key), s.phase, key, e);
    }
  }

  lemma HeadKeepsKey(s: State, t: Ttls, a: Action, key: string, e: Events)
    requires Safe(s, t) && RestOk(s) && a.HeadObject? && KeyOk(ViewOf(s, key), s.phase, key, e) && Enabled(s, t, a)
    ensures KeyOk(ViewOf(Apply(s, t, a), key), Apply(s, t, a).phase, key, Or(e, EventsAt(s, a, key)))
  {
    var up := Rest(s.phase)[0];
    assert up.storageKey in s.w.uploads && s.w.uploads[up.storageKey] == up && ListedOk(s, t, up);
  }

  lemma OrphanKeepsKey(s: State, t: Ttls, a: Action, key: string, e: Events)
    requires Holds(s.phase, key) && a.DeleteOrphanRow? && KeyOk(ViewOf(s, key), s.phase, key, e) && Enabled(s, t, a)
    ensures KeyOk(ViewOf(Apply(s, t, a), key), Apply(s, t, a).phase, key, Or(e, EventsAt(s, a, key)))
  {
  }

  lemma DeleteObjectKeepsKey(s: State, t: Ttls, a: Action, key: string, e: Events)
    requires Holds(s.phase, key) && a.DeleteObject? && KeyOk(ViewOf(s, key), s.phase, key, e) && Enabled(s, t, a)
    ensures KeyOk(ViewOf(Apply(s, t, a), key), Apply(s, t, a).phase, key, Or(e, EventsAt(s, a, key)))
  {
  }

  lemma DeletedKeepsKey(s: State, t: Ttls, a: Action, key: string, e: Events)
    requires Holds(s.phase, key) && (a.DeleteShares? || a.DeleteRow?) && KeyOk(ViewOf(s, key), s.phase, key, e) && Enabled(s, t, a)
    ensures KeyOk(ViewOf(Apply(s, t, a), key), Apply(s, t, a).phase, key, Or(e, EventsAt(s, a, key)))
  {
  }

  lemma MarkKeepsKey(s: State, t: Ttls, a: Action, key: string, e: Events)
    requires Holds(s.phase, key) && a.MarkRow? && KeyOk(ViewOf(s, key), s.phase, key, e) && Enabled(s, t, a)
    ensures KeyOk(ViewOf(Apply(s, t, a), key), Apply(s, t, a).phase, key, Or(e, EventsAt(s, a, key)))
  {
  }

  lemma AuditKeepsKey(s: State, t: Ttls, a: Action, key: string, e: Events)
    requires Holds(s.phase, key) && RestOk(s) && a.WriteAudit? && KeyOk(ViewOf(s, key), s.phase, key, e) && Enabled(s, t, a)
    ensures KeyOk(ViewOf(Apply(s, t, a), key), Apply(s, t, a).phase, key, Or(e, EventsAt(s, a, key)))
  {
    PurgesAppend(s.w.audit, s.phase.entry, key);
  }

  lemma CrashKeepsKey(s: State, t: Ttls, a: Action, key: string, e: Events)
    requires Holds(s.phase, key) && a.Crash? && KeyOk(ViewOf(s, key), s.phase, key, e) && Enabled(s, t, a)
    ensures KeyOk(ViewOf(Apply(s, t, a), key), Apply(s, t, a).phase, key, Or(e, EventsAt(s, a, key)))
  {
  }

  lemma OthersKeepKey(s: State, t: Ttls, a: Action, key: string, e: Events)
    requires RestOk(s) && !Holds(s.phase, key) && !Environment(a) && !a.HeadObject? && KeyOk(ViewOf(s, key), s.phase, key, e) && Enabled(s, t, a)
    ensures KeyOk(ViewOf(Apply(s, t, a), key), Apply(s, t, a).phase, key, Or(e, EventsAt(s, a, key)))
  {
    OthersKeepView(s, t, a, key);
    HandStays(s, t, a, key);
  }

  lemma StepKeepsKey(s: State, t: Ttls, a: Action, key: string, e: Events)
    requires Safe(s, t) && RestOk(s) && KeyOk(ViewOf(s, key), s.phase, key, e) && Enabled(s, t, a)
    ensures KeyOk(ViewOf(Apply(s, t, a), key), Apply(s, t, a).phase, key, Or(e, EventsAt(s, a, key)))
  {
    if Environment(a) {
      EnvironmentKeepsKey(s, t, a, key, e);
    } else if a.HeadObject? {
      HeadKeepsKey(s, t, a, key, e);
    } else if !Holds(s.phase, key) {
      OthersKeepKey(s, t, a, key, e);
    } else if a.DeleteOrphanRow? {
      OrphanKeepsKey(s, t, a, key, e);
    } else if a.DeleteObject? {
      DeleteObjectKeepsKey(s, t, a, key, e);
    } else if a.MarkRow? {
      MarkKeepsKey(s, t, a, key, e);
    } else if a.WriteAudit? {
      AuditKeepsKey(s, t, a, key, e);
    } else if a.Crash? {
      CrashKeepsKey(s, t, a, key, e);
    } else {
      DeletedKeepsKey(s, t, a, key, e);
    }
  }

  lemma {:induction false} LedgerOverRun(s: State, t: Ttls, actions: seq<Action>, key: string, e: Events)
    requires Safe(s, t) && RestOk(s) && KeyOk(ViewOf(s, key), s.phase, key, e) && Runs(s, t, actions)
    ensures KeyOk(ViewOf(Final(s, t, actions), key), Final(s, t, actions).phase, key, Or(e, EventsOf(s, t, actions, key)))
    decreases |actions|
  {
    if actions == [] {
      OrIsAssociative(e, NOTHING, NOTHING);
    } else {
      var a, rest := actions[0], actions[1..];
      StepKeepsKey(s, t, a, key, e);
      StepKeepsRest(s, t, a);
      StepKeepsSafe(s, t, a);
      LedgerOverRun(Apply(s, t, a), t, rest, key, Or(e, EventsAt(s, a, key)));
      OrIsAssociative(e, EventsAt(s, a, key), EventsOf(Apply(s, t, a), t, rest, key));
    }
  }

  lemma ReachableBooks(bucket: map<string, int>, clock: int, t: Ttls, actions: seq<Action>, key: string)
    requires Runs(Init(bucket, clock), t, actions)
    ensures var s := Final(Init(bucket, clock), t, actions);
            KeyOk(ViewOf(s, key), s.phase, key, EventsOf(Init(bucket, clock), t, actions, key))
  {
    LedgerOverRun(Init(bucket, clock), t, actions, key, NOTHING);
  }

  // ---------------------------------------------------------------- exactly once

  /** At most once, and exactly when it is once, in every run: whatever HEADs, deletes (ambiguous
      ones included), marks and audit entries fail and wherever the worker crashes. A key has no
      entry while its row is there, whose counter is raised exactly if some mark of it succeeded,
      and never more than one. Once its row is gone and nobody works
      on it, it has its one entry if and only if the row was not dropped in silence, its counter
      saying never tried, and the entry was not lost, to a failed write or to a crash just before
      it. */
  lemma PurgesAreRecordedExactlyOnce(bucket: map<string, int>, clock: int, t: Ttls, actions: seq<Action>, key: string)
    requires Runs(Init(bucket, clock), t, actions)
    ensures var s, e := Final(Init(bucket, clock), t, actions), EventsOf(Init(bucket, clock), t, actions, key);
            var n := Purges(s.w.audit, key);
            && n <= 1
            && (key in s.w.uploads ==> n == 0 && (s.w.uploads[key].deleteAttempts >= 1 <==> e.marked))
            && (key in s.births && key !in s.w.uploads && !Holds(s.phase, key) ==> (n == 1 <==> !e.silent && !e.unrecorded))
  {
    ReachableBooks(bucket, clock, t, actions, key);
  }

  /** Which keys have an entry or a raised counter. In every run an entry means that the object
      was removed, or that a HEAD or orphan-row delete failed; and a raised counter that the
      object was removed or a HEAD, object delete or orphan-row delete failed. So where those
      calls did not fail, an entry or a raised counter means a removed object. */
  lemma RecordedPurgesAreReal(bucket: map<string, int>, clock: int, t: Ttls, actions: seq<Action>, key: string)
    requires Runs(Init(bucket, clock), t, actions)
    ensures var s, e := Final(Init(bucket, clock), t, actions), EventsOf(Init(bucket, clock), t, actions, key);
            && (Purges(s.w.audit, key) >= 1 ==> key in s.removed || e.spoiled)
            && (key in s.w.uploads && s.w.uploads[key].deleteAttempts >= 1 ==> key in s.removed || e.spoiled || e.resisted)
  {
    ReachableBooks(bucket, clock, t, actions, key);
  }

  /** Conversely, if no mark that would have been the first was lost, nor the entry of the purge,
      the books of a key nobody works on are complete: its row is marked exactly if its object was
      removed or one of those calls failed, and a key without its row has exactly one entry if
      its object was removed or a HEAD or orphan-row delete failed, and none otherwise. */
  lemma BooksAreComplete(bucket: map<string, int>, clock: int, t: Ttls, actions: seq<Action>, key: string)
    requires Runs(Init(bucket, clock), t, actions)
    requires var e := EventsOf(Init(bucket, clock), t, actions, key); !e.unmarked && !e.unrecorded
    requires var s := Final(Init(bucket, clock), t, actions); key in s.births && !Holds(s.phase, key)
    ensures var s, e := Final(Init(bucket, clock), t, actions), EventsOf(Init(bucket, clock), t, actions, key);
            && (key in s.w.uploads ==>
                  (s.w.uploads[key].deleteAttempts >= 1 <==> key in s.removed || e.spoiled || e.resisted))
            && (key !in s.w.uploads ==> Purges(s.w.audit, key) == if key in s.removed || e.spoiled then 1 else 0)
  {
    ReachableBooks(bucket, clock, t, actions, key);
  }
}
