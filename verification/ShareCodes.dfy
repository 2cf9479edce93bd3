/** How many codes a file hands out, over all the rows it ever has. */
module ShareCodes {
  import opened Codes
  import opened Shares
  import opened Store
  import opened ShareProtocol
  import opened ShareGuarantees

  // ---------------------------------------------------------------- the row of a key

  predicate HasRow(t: ShareTable, key: string) {
    exists slug :: slug in t && t[slug].storageKey == key
  }

  /** The stored count of the key's row, or 0 without one. */
  ghost function StoredCount(t: ShareTable, key: string): int {
    if HasRow(t, key) then
      var slug :| slug in t && t[slug].storageKey == key;
      t[slug].shareCount
    else 0
  }

  lemma CountOfRow(t: ShareTable, slug: string)
    requires Keyed(t) && slug in t
    ensures HasRow(t, t[slug].storageKey) && StoredCount(t, t[slug].storageKey) == t[slug].shareCount
  {
  }

  lemma InsertCount(t: ShareTable, row: Row, key: string)
    requires Keyed(t) && CanInsert(t, row)
    ensures var t' := t[row.slug := row];
            if key == row.storageKey then !HasRow(t, key) && HasRow(t', key) && StoredCount(t', key) == row.shareCount
            else HasRow(t', key) == HasRow(t, key) && StoredCount(t', key) == StoredCount(t, key)
  {
    InsertKeepsKeyed(t, row);
    if key == row.storageKey {
      CountOfRow(t[row.slug := row], row.slug);
    } else {
      SameCount(t, t[row.slug := row], row.slug, key);
    }
  }

  lemma RotateCount(t: ShareTable, row: Row, key: string)
    requires Keyed(t) && row.slug in t
    ensures var t' := Rotate(t, row);
            && HasRow(t', key) == HasRow(t, key)
            && StoredCount(t', key) == if key == t[row.slug].storageKey then row.shareCount else StoredCount(t, key)
  {
    var t' := Rotate(t, row);
    RotateKeepsKeyed(t, row);
    CountOfRow(t, row.slug);
    CountOfRow(t', row.slug);
    if key != t[row.slug].storageKey {
      SameCount(t, t', row.slug, key);
    }
  }

  /** The tables agree except at `mine`, which in neither is the key's row. */
  lemma SameCount(t: ShareTable, t': ShareTable, mine: string, key: string)
    requires Keyed(t) && Keyed(t')
    requires forall slug :: slug != mine ==> (slug in t <==> slug in t') && (slug in t ==> t[slug] == t'[slug])
    requires (mine in t ==> t[mine].storageKey != key) && (mine in t' ==> t'[mine].storageKey != key)
    ensures HasRow(t', key) == HasRow(t, key) && StoredCount(t', key) == StoredCount(t, key)
  {
    if HasRow(t, key) {
      var slug :| slug in t && t[slug].storageKey == key;
      CountOfRow(t, slug);
      CountOfRow(t', slug);
    }
  }

  lemma FewerCount(t: ShareTable, t': ShareTable, key: string)
    requires Keyed(t) && forall slug :: slug in t' ==> slug in t && t'[slug] == t[slug]
    ensures HasRow(t', key) ==> HasRow(t, key) && StoredCount(t', key) == StoredCount(t, key)
    ensures Keyed(t')
  {
    if HasRow(t', key) {
      var slug :| slug in t' && t'[slug].storageKey == key;
      CountOfRow(t, slug);
      CountOfRow(t', slug);
    }
  }

  // ---------------------------------------------------------------- the books of a run

  /** What a run does for one key: codes answered to clients, rows inserted, rows removed and the
      counts they had, rotations written from an outdated snapshot, and by how much the
      snapshots behind the writes had fallen short of the stored count. */
  datatype Tally = Tally(codes: nat, rows: nat, removals: nat, retired: int, stale: nat, lost: int)

  function Add(a: Tally, b: Tally): Tally {
    Tally(a.codes + b.codes, a.rows + b.rows, a.removals + b.removals, a.retired + b.retired, a.stale + b.stale, a.lost + b.lost)
  }

  function One(b: bool): nat {
    if b then 1 else 0
  }

  /** The step from `s` to `s'` answers its client with a new code for `key`. */
  predicate HandsOut(s: State, s': State, a: Action, key: string) {
    && (a.InsertShare? || a.WriteRotation?) && a.id in s.requests && s.requests[a.id].key == key
    && a.id in s'.requests && s'.requests[a.id].phase.Done? && s'.requests[a.id].phase.reply.Handed?
  }

  predicate WritesStale(s: State, a: Action, key: string) {
    && a.WriteRotation? && a.id in s.requests && s.requests[a.id].key == key && s.requests[a.id].phase.Writing?
    && StaleWrite(s, a, s.requests[a.id].phase.row.slug)
  }

  /** The stored count when a rotation of the key is written, less the count its snapshot had. */
  ghost function ShortBy(s: State, s': State, a: Action, key: string): int {
    if a.WriteRotation? && HandsOut(s, s', a, key) && s.requests[a.id].phase.Writing? then
      StoredCount(s.shares, key) - (s.requests[a.id].phase.row.shareCount - 1)
    else 0
  }

  ghost function Books(t: ShareTable, t': ShareTable, key: string, codes: nat, stale: nat, lost: int): Tally {
    Tally(codes,
          One(!HasRow(t, key) && HasRow(t', key)),
          One(HasRow(t, key) && !HasRow(t', key)),
          if HasRow(t', key) then 0 else StoredCount(t, key),
          stale, lost)
  }

  ghost function StepTally(s: State, s': State, a: Action, key: string): Tally {
    Books(s.shares, s'.shares, key, One(HandsOut(s, s', a, key)), One(WritesStale(s, a, key)), ShortBy(s, s', a, key))
  }

  ghost function TallyOf(s: State, e: Env, actions: seq<Action>, key: string): Tally
    requires Runs(s, e, actions)
    decreases |actions|
  {
    if actions == [] then Tally(0, 0, 0, 0, 0, 0)
    else Add(StepTally(s, Apply(s, e, actions[0]), actions[0], key), TallyOf(Apply(s, e, actions[0]), e, actions[1..], key))
  }

  /** No live row of the key was ever written from an outdated snapshot. */
  ghost predicate NeverStale(shares: ShareTable, lives: map<string, Life>, key: string) {
    forall slug :: slug in shares && slug in lives && shares[slug].storageKey == key ==> !lives[slug].overlapped
  }

  /** The books of what led from `t` to `t'` are in order. */
  ghost predicate Balanced(t: ShareTable, lives: map<string, Life>, t': ShareTable, lives': map<string, Life>, key: string, y: Tally) {
    && y.codes + StoredCount(t, key) == StoredCount(t', key) + y.lost + y.retired
    && One(HasRow(t, key)) + y.rows == One(HasRow(t', key)) + y.removals
    && y.removals <= y.retired <= MAX_SHARE_COUNT * y.removals
    && y.lost >= 0
    && (NeverStale(t, lives, key) ==> (y.lost == 0 <==> y.stale == 0) && (y.stale == 0 ==> NeverStale(t', lives', key)))
  }

  lemma LiveCount(s: State, e: Env, key: string)
    requires Inv(s, e)
    ensures if HasRow(s.shares, key) then 1 <= StoredCount(s.shares, key) <= MAX_SHARE_COUNT else StoredCount(s.shares, key) == 0
  {
    if HasRow(s.shares, key) {
      var slug :| slug in s.shares && s.shares[slug].storageKey == key;
      assert RowOk(e, s.births, slug, s.shares[slug], s.lives[slug]);
      CountOfRow(s.shares, slug);
    }
  }

  lemma InsertBooks(t: ShareTable, lives: map<string, Life>, row: Row, life: Life, key: string)
    requires Keyed(t) && CanInsert(t, row) && row.shareCount == 1 && !life.overlapped
    ensures var t' := t[row.slug := row];
            Balanced(t, lives, t', lives[row.slug := life], key, Books(t, t', key, One(row.storageKey == key), 0, 0))
  {
    InsertCount(t, row, key);
  }

  lemma FewerBooks(t: ShareTable, t': ShareTable, lives: map<string, Life>, key: string)
    requires Keyed(t) && forall slug :: slug in t' ==> slug in t && t'[slug] == t[slug]
    requires HasRow(t, key) ==> 1 <= StoredCount(t, key) <= MAX_SHARE_COUNT
    ensures Balanced(t, lives, t', lives, key, Books(t, t', key, 0, 0, 0))
  {
    FewerCount(t, t', key);
  }

  lemma InsertTally(s: State, a: Action, key: string)
    requires a.InsertShare? && a.id in s.requests && s.requests[a.id].phase.Inserting?
    requires s.requests[a.id].phase.row.storageKey == s.requests[a.id].key
    ensures var s' := InsertStep(s, a.id, a.ok);
            && (HandsOut(s, s', a, key) <==> a.ok && s.requests[a.id].phase.row.storageKey == key)
            && !WritesStale(s, a, key) && ShortBy(s, s', a, key) == 0
  {
  }

  lemma InserterFacts(s: State, e: Env, r: Request, id: nat)
    requires Inv(s, e) && id in s.requests && s.requests[id] == r && r.phase.Inserting?
    ensures r.phase.row.storageKey == r.key && r.phase.row.shareCount == 1
  {
    assert RequestOk(s.slugs, s.lives, s.births, e, id, r);
  }

  lemma InsertBalanced(s: State, e: Env, a: Action, key: string)
    requires Inv(s, e) && a.InsertShare? && RequestEnabled(s, a)
    ensures var s' := InsertStep(s, a.id, a.ok);
            Balanced(s.shares, s.lives, s'.shares, s'.lives, key, StepTally(s, s', a, key))
  {
    var r := s.requests[a.id];
    InserterFacts(s, e, r, a.id);
    InsertTally(s, a, key);
    if a.ok {
      InsertBooks(s.shares, s.lives, r.phase.row, NewLife(r.phase), key);
    } else {
      LiveCount(s, e, key);
      FewerBooks(s.shares, s.shares, s.lives, key);
    }
  }

  /** A snapshot is current exactly when its count is the stored one, as long as no earlier write
      of the row was stale. */
  lemma SnapshotCount(e: Env, births: map<string, Birth>, slug: string, row: Row, life: Life, user: string, snapshot: Row, count: int, read: nat)
    requires RowOk(e, births, slug, row, life) && SnapshotOk(life, user, snapshot, count, read) && count < MAX_SHARE_COUNT
    ensures row.shareCount >= count
    ensures !life.overlapped ==> (row.shareCount == count <==> read == |life.handed|)
  {
  }

  lemma WriteBooks(t: ShareTable, lives: map<string, Life>, p: Phase, key: string)
    requires Keyed(t) && p.Writing? && p.row.slug in t && p.row.slug in lives && t[p.row.slug].shareCount >= p.row.shareCount - 1
    requires var life := lives[p.row.slug];
             !life.overlapped ==> (t[p.row.slug].shareCount == p.row.shareCount - 1 <==> p.read == |life.handed|)
    ensures var (t', mine) := (Rotate(t, p.row), t[p.row.slug].storageKey == key);
            Balanced(t, lives, t', lives[p.row.slug := Written(lives[p.row.slug], p)], key,
                     Books(t, t', key, One(mine), One(mine && p.read != |lives[p.row.slug].handed|),
                           if mine then StoredCount(t, key) - (p.row.shareCount - 1) else 0))
  {
    CountOfRow(t, p.row.slug);
    RotateCount(t, p.row, key);
  }

  lemma WriterFacts(s: State, e: Env, r: Request, id: nat)
    requires Inv(s, e) && id in s.requests && s.requests[id] == r && r.phase.Writing?
    ensures var slug := r.phase.row.slug;
            && slug in s.lives && r.phase.row.storageKey == r.key && s.lives[slug].key == r.key
            && (slug in s.shares ==>
                  && s.shares[slug].storageKey == r.key && s.shares[slug].shareCount >= r.phase.row.shareCount - 1
                  && (!s.lives[slug].overlapped ==>
                        (s.shares[slug].shareCount == r.phase.row.shareCount - 1 <==> r.phase.read == |s.lives[slug].handed|)))
  {
    var slug := r.phase.row.slug;
    assert RequestOk(s.slugs, s.lives, s.births, e, id, r);
    if slug in s.shares {
      assert RowOk(e, s.births, slug, s.shares[slug], s.lives[slug]);
      SnapshotCount(e, s.births, slug, s.shares[slug], s.lives[slug], r.user, r.phase.row, r.phase.row.shareCount - 1, r.phase.read);
    }
  }

  /** The rotation's write reaches its row. */
  predicate Lands(s: State, a: Action) {
    && a.WriteRotation? && a.ok && a.id in s.requests && s.requests[a.id].phase.Writing?
    && s.requests[a.id].phase.row.slug in s.shares && s.requests[a.id].phase.row.slug in s.lives
  }

  lemma WriteTally(s: State, a: Action, key: string)
    requires Lands(s, a) && s.shares[s.requests[a.id].phase.row.slug].storageKey == s.requests[a.id].key
    ensures var (s', p) := (WriteStep(s, a.id, a.ok), s.requests[a.id].phase);
            var mine := s.shares[p.row.slug].storageKey == key;
            && (HandsOut(s, s', a, key) <==> mine)
            && (WritesStale(s, a, key) <==> mine && p.read != |s.lives[p.row.slug].handed|)
            && ShortBy(s, s', a, key) == if mine then StoredCount(s.shares, key) - (p.row.shareCount - 1) else 0
  {
  }

  lemma LostWriteTally(s: State, a: Action, key: string)
    requires a.WriteRotation? && a.id in s.requests && s.requests[a.id].phase.Writing? && !Lands(s, a)
    ensures var s' := WriteStep(s, a.id, a.ok);
            && !HandsOut(s, s', a, key) && !WritesStale(s, a, key) && ShortBy(s, s', a, key) == 0
            && s'.shares == s.shares && s'.lives == s.lives
  {
  }

  lemma WriteBalanced(s: State, e: Env, a: Action, key: string)
    requires Inv(s, e) && a.WriteRotation? && RequestEnabled(s, a)
    ensures var s' := WriteStep(s, a.id, a.ok);
            Balanced(s.shares, s.lives, s'.shares, s'.lives, key, StepTally(s, s', a, key))
  {
    WriterFacts(s, e, s.requests[a.id], a.id);
    if Lands(s, a) {
      WriteTally(s, a, key);
      WriteBooks(s.shares, s.lives, s.requests[a.id].phase, key);
    } else {
      LostWriteTally(s, a, key);
      LiveCount(s, e, key);
      FewerBooks(s.shares, s.shares, s.lives, key);
    }
  }

  lemma StepBalanced(s: State, e: Env, a: Action, key: string)
    requires Inv(s, e) && Enabled(s, e, a)
    ensures var s' := Apply(s, e, a);
            Balanced(s.shares, s.lives, s'.shares, s'.lives, key, StepTally(s, s', a, key))
  {
    if a.InsertShare? {
      InsertBalanced(s, e, a, key);
    } else if a.WriteRotation? {
      WriteBalanced(s, e, a, key);
    } else {
      LiveCount(s, e, key);
      QuietStep(s, e, a);
      FewerBooks(s.shares, Apply(s, e, a).shares, s.lives, key);
    }
  }

  lemma BooksAdd(t: ShareTable, lives: map<string, Life>, t1: ShareTable, lives1: map<string, Life>, y: Tally,
                 t2: ShareTable, lives2: map<string, Life>, z: Tally, key: string)
    requires Balanced(t, lives, t1, lives1, key, y) && Balanced(t1, lives1, t2, lives2, key, z)
    ensures Balanced(t, lives, t2, lives2, key, Add(y, z))
  {
  }

  lemma {:induction false} RunBalanced(s: State, e: Env, actions: seq<Action>, key: string)
    requires Inv(s, e) && Runs(s, e, actions)
    ensures var s' := Final(s, e, actions);
            Balanced(s.shares, s.lives, s'.shares, s'.lives, key, TallyOf(s, e, actions, key))
    decreases |actions|
  {
    if actions != [] {
      var s1, a, rest := Apply(s, e, actions[0]), actions[0], actions[1..];
      StepBalanced(s, e, a, key);
      StepKeepsInv(s, e, a);
      RunBalanced(s1, e, rest, key);
      var s2 := Final(s1, e, rest);
      BooksAdd(s.shares, s.lives, s1.shares, s1.lives, StepTally(s, s1, a, key),
               s2.shares, s2.lives, TallyOf(s1, e, rest, key), key);
    }
  }

  // ---------------------------------------------------------------- the same sum over lives

  function CodesIn(life: Life, key: string): nat {
    if life.key == key then |life.handed| else 0
  }

  /** The codes handed out for a key: the sum over all lives its rows ever had. */
  ghost function HandedFor(lives: map<string, Life>, key: string): nat
    decreases |lives|
  {
    if lives == map[] then 0
    else
      var slug :| slug in lives;
      CodesIn(lives[slug], key) + HandedFor(lives - {slug}, key)
  }

  lemma {:induction false} HandedWithout(lives: map<string, Life>, key: string, slug: string)
    requires slug in lives
    ensures HandedFor(lives, key) == CodesIn(lives[slug], key) + HandedFor(lives - {slug}, key)
    decreases |lives|
  {
    var first :| first in lives && HandedFor(lives, key) == CodesIn(lives[first], key) + HandedFor(lives - {first}, key);
    if first != slug {
      HandedWithout(lives - {first}, key, slug);
      HandedWithout(lives - {slug}, key, first);
      assert lives - {first} - {slug} == lives - {slug} - {first};
    }
  }

  lemma HandedUpdate(lives: map<string, Life>, key: string, slug: string, life: Life)
    ensures HandedFor(lives[slug := life], key) ==
            HandedFor(lives, key) + CodesIn(life, key) - (if slug in lives then CodesIn(lives[slug], key) else 0)
  {
    HandedWithout(lives[slug := life], key, slug);
    if slug in lives {
      HandedWithout(lives, key, slug);
      assert lives[slug := life] - {slug} == lives - {slug};
    } else {
      assert lives[slug := life] - {slug} == lives;
    }
  }

  lemma InsertHanded(s: State, e: Env, a: Action, key: string)
    requires Inv(s, e) && a.InsertShare? && RequestEnabled(s, a)
    ensures var s' := InsertStep(s, a.id, a.ok);
            HandedFor(s'.lives, key) == HandedFor(s.lives, key) + One(HandsOut(s, s', a, key))
  {
    assert RequestOk(s.slugs, s.lives, s.births, e, a.id, s.requests[a.id]);
    var p := s.requests[a.id].phase;
    HandedUpdate(s.lives, key, p.row.slug, NewLife(p));
  }

  lemma WriteHanded(s: State, e: Env, a: Action, key: string)
    requires Inv(s, e) && a.WriteRotation? && RequestEnabled(s, a)
    ensures var s' := WriteStep(s, a.id, a.ok);
            HandedFor(s'.lives, key) == HandedFor(s.lives, key) + One(HandsOut(s, s', a, key))
  {
    WriterFacts(s, e, s.requests[a.id], a.id);
    if Lands(s, a) {
      var p := s.requests[a.id].phase;
      WriteTally(s, a, key);
      HandedUpdate(s.lives, key, p.row.slug, Written(s.lives[p.row.slug], p));
    } else {
      LostWriteTally(s, a, key);
    }
  }

  lemma StepHanded(s: State, e: Env, a: Action, key: string)
    requires Inv(s, e) && Enabled(s, e, a)
    ensures var s' := Apply(s, e, a);
            HandedFor(s'.lives, key) == HandedFor(s.lives, key) + One(HandsOut(s, s', a, key))
  {
    if a.InsertShare? {
      InsertHanded(s, e, a, key);
    } else if a.WriteRotation? {
      WriteHanded(s, e, a, key);
    } else {
      QuietStep(s, e, a);
    }
  }

  lemma {:induction false} RunHanded(s: State, e: Env, actions: seq<Action>, key: string)
    requires Inv(s, e) && Runs(s, e, actions)
    ensures HandedFor(Final(s, e, actions).lives, key) == HandedFor(s.lives, key) + TallyOf(s, e, actions, key).codes
    decreases |actions|
  {
    if actions != [] {
      StepHanded(s, e, actions[0], key);
      StepKeepsInv(s, e, actions[0]);
      RunHanded(Apply(s, e, actions[0]), e, actions[1..], key);
    }
  }

  // ---------------------------------------------------------------- three codes per file

  /** Every run, every file. The codes answered to clients are the sum over the lives of the
      file's rows; they are accounted for, to the last one, by the count of its current row, the
      counts of its removed rows and what stale rotations overwrote. So they equal the
      current row's count exactly when the file has had one row and no rotation of it was
      written from an outdated snapshot; and with at most one row, removed or not, and no
      such rotation they are at most three. */
  lemma CodesPerFile(clock: int, e: Env, actions: seq<Action>, key: string)
    requires Runs(Init(clock), e, actions)
    ensures var s, t := Final(Init(clock), e, actions), TallyOf(Init(clock), e, actions, key);
            && t.codes == HandedFor(s.lives, key)
            && t.codes == StoredCount(s.shares, key) + t.retired + t.lost
            && (t.codes == StoredCount(s.shares, key) + t.retired <==> t.stale == 0)
            && (HasRow(s.shares, key) ==> (t.codes == StoredCount(s.shares, key) <==> t.rows == 1 && t.stale == 0))
            && (t.stale == 0 ==> t.codes <= MAX_SHARE_COUNT * t.rows)
  {
    InitInv(clock, e);
    RunBalanced(Init(clock), e, actions, key);
    RunHanded(Init(clock), e, actions, key);
    InvAlways(Init(clock), e, actions);
    LiveCount(Final(Init(clock), e, actions), e, key);
  }
}
