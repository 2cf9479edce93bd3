/** What the share protocol guarantees over whole runs, and what it does not. */
module ShareGuarantees {
  import opened Codes
  import opened Shares
  import opened Store
  import opened ShareProtocol

  predicate Runs(s: State, e: Env, actions: seq<Action>)
    decreases |actions|
  {
    actions == [] || (Enabled(s, e, actions[0]) && Runs(Apply(s, e, actions[0]), e, actions[1..]))
  }

  function Final(s: State, e: Env, actions: seq<Action>): State
    requires Runs(s, e, actions)
    decreases |actions|
  {
    if actions == [] then s else Final(Apply(s, e, actions[0]), e, actions[1..])
  }

  lemma {:induction false} InvAlways(s: State, e: Env, actions: seq<Action>)
    requires Inv(s, e) && Runs(s, e, actions)
    ensures Inv(Final(s, e, actions), e)
    decreases |actions|
  {
    if actions != [] {
      StepKeepsInv(s, e, actions[0]);
      InvAlways(Apply(s, e, actions[0]), e, actions[1..]);
    }
  }

  lemma ReachableKeyed(clock: int, e: Env, actions: seq<Action>)
    requires Runs(Init(clock), e, actions)
    ensures Keyed(Final(Init(clock), e, actions).shares)
  {
    InitInv(clock, e);
    InvAlways(Init(clock), e, actions);
  }

  lemma ReachableRow(clock: int, e: Env, actions: seq<Action>, slug: string)
    requires Runs(Init(clock), e, actions) && slug in Final(Init(clock), e, actions).shares
    ensures var s := Final(Init(clock), e, actions);
            slug in s.lives && RowOk(e, s.births, slug, s.shares[slug], s.lives[slug])
  {
    InitInv(clock, e);
    InvAlways(Init(clock), e, actions);
  }

  lemma ReachableUpload(clock: int, e: Env, actions: seq<Action>, key: string)
    requires Runs(Init(clock), e, actions) && key in Final(Init(clock), e, actions).uploads
    ensures var s := Final(Init(clock), e, actions);
            key in s.births && s.births[key] == BirthOf(s.uploads[key])
  {
    InitInv(clock, e);
    InvAlways(Init(clock), e, actions);
  }

  /** The minting a request draws, if the action draws one. */
  function Drawn(a: Action): set<Mint> {
    if a.MintShare? || a.MintRotation? then {a.mint} else {}
  }

  function AllDrawn(actions: seq<Action>): set<Mint> {
    if actions == [] then {} else Drawn(actions[0]) + AllDrawn(actions[1..])
  }

  function Holding(p: Phase): set<Mint> {
    if p.CapNew? || p.Inserting? || p.CapOld? || p.Writing? then {p.mint} else {}
  }

  ghost predicate PhasesFrom(requests: map<nat, Request>, drawn: set<Mint>) {
    forall id :: id in requests ==> Holding(requests[id].phase) <= drawn
  }

  ghost predicate LivesFrom(lives: map<string, Life>, drawn: set<Mint>) {
    forall slug, m :: slug in lives && m in lives[slug].handed ==> m in drawn
  }

  /** Every minting handed out or about to be was drawn. */
  ghost predicate MintsFrom(s: State, drawn: set<Mint>) {
    PhasesFrom(s.requests, drawn) && LivesFrom(s.lives, drawn)
  }

  lemma NextHolds(s: State, e: Env, a: Action)
    requires RequestStep(a) && RequestEnabled(s, a) && !a.Begin? && !a.InsertShare? && !a.WriteRotation?
    ensures Holding(NextPhase(s, e, a)) <= Holding(s.requests[a.id].phase) + Drawn(a)
  {
  }

  lemma PhaseFrom(requests: map<nat, Request>, id: nat, r: Request, drawn: set<Mint>, drawn': set<Mint>)
    requires PhasesFrom(requests, drawn) && drawn <= drawn' && Holding(r.phase) <= drawn'
    ensures PhasesFrom(requests[id := r], drawn')
  {
  }

  lemma LifeFrom(lives: map<string, Life>, slug: string, life: Life, drawn: set<Mint>, m: Mint)
    requires LivesFrom(lives, drawn) && m in drawn
    requires life.handed == [m] || (slug in lives && life.handed == lives[slug].handed + [m])
    ensures LivesFrom(lives[slug := life], drawn)
  {
  }

  lemma InsertMintsFrom(s: State, id: nat, ok: bool, drawn: set<Mint>)
    requires id in s.requests && s.requests[id].phase.Inserting? && MintsFrom(s, drawn)
    ensures MintsFrom(InsertStep(s, id, ok), drawn)
  {
    var p := s.requests[id].phase;
    assert p.mint in Holding(p);
    LifeFrom(s.lives, p.row.slug, NewLife(p), drawn, p.mint);
    PhaseFrom(s.requests, id, InsertStep(s, id, ok).requests[id], drawn, drawn);
  }

  lemma WriteMintsFrom(s: State, id: nat, ok: bool, drawn: set<Mint>)
    requires id in s.requests && s.requests[id].phase.Writing? && MintsFrom(s, drawn)
    ensures MintsFrom(WriteStep(s, id, ok), drawn)
  {
    var p := s.requests[id].phase;
    assert p.mint in Holding(p);
    if p.row.slug in s.lives {
      LifeFrom(s.lives, p.row.slug, Written(s.lives[p.row.slug], p), drawn, p.mint);
    }
    PhaseFrom(s.requests, id, WriteStep(s, id, ok).requests[id], drawn, drawn);
  }

  lemma StepMintsFrom(s: State, e: Env, a: Action, drawn: set<Mint>)
    requires Enabled(s, e, a) && MintsFrom(s, drawn)
    ensures MintsFrom(Apply(s, e, a), drawn + Drawn(a))
  {
    if a.InsertShare? {
      InsertMintsFrom(s, a.id, a.ok, drawn);
    } else if a.WriteRotation? {
      WriteMintsFrom(s, a.id, a.ok, drawn);
    } else if !RequestStep(a) {
      OtherStep(s, e, a);
    } else {
      var r' := Apply(s, e, a).requests[a.id];
      if !a.Begin? {
        NextHolds(s, e, a);
      }
      PhaseFrom(s.requests, a.id, r', drawn, drawn + Drawn(a));
    }
  }

  lemma {:induction false} MintsOverRun(s: State, e: Env, actions: seq<Action>, drawn: set<Mint>)
    requires Runs(s, e, actions) && MintsFrom(s, drawn)
    ensures MintsFrom(Final(s, e, actions), drawn + AllDrawn(actions))
    decreases |actions|
  {
    if actions != [] {
      StepMintsFrom(s, e, actions[0], drawn);
      MintsOverRun(Apply(s, e, actions[0]), e, actions[1..], drawn + Drawn(actions[0]));
      assert drawn + Drawn(actions[0]) + AllDrawn(actions[1..]) == drawn + AllDrawn(actions);
    } else {
      assert drawn + {} == drawn;
    }
  }

  lemma ReachableMint(clock: int, e: Env, actions: seq<Action>, slug: string, m: Mint)
    requires Runs(Init(clock), e, actions)
    requires var s := Final(Init(clock), e, actions); slug in s.lives && m in s.lives[slug].handed
    ensures m in AllDrawn(actions)
  {
    MintsOverRun(Init(clock), e, actions, {});
  }

  /** Every interleaving, from an empty database: one row per slug and per storage key, a count
      between 1 and 3, and a salt and digest that come from one and the same minting of the run. */
  lemma TableStaysSound(clock: int, e: Env, actions: seq<Action>, a: string, b: string)
    requires Runs(Init(clock), e, actions)
    requires var t := Final(Init(clock), e, actions).shares; a in t && b in t
    ensures var t := Final(Init(clock), e, actions).shares;
            && t[a].slug == a
            && (t[a].storageKey == t[b].storageKey ==> a == b)
            && 1 <= t[a].shareCount <= MAX_SHARE_COUNT
            && exists m :: m in AllDrawn(actions) && GoodMint(m) && Carries(t[a], m.salt, m.code, e.hash)
  {
    ReachableKeyed(clock, e, actions);
    ReachableRow(clock, e, actions, a);
    var life := Final(Init(clock), e, actions).lives[a];
    var m := life.handed[|life.handed| - 1];
    ReachableMint(clock, e, actions, a, m);
    assert m in AllDrawn(actions) && GoodMint(m);
  }

  // ---------------------------------------------------------------- identity and ownership

  predicate SameIdentity(row: Row, row': Row) {
    && row'.slug == row.slug && row'.storageKey == row.storageKey && row'.ownerId == row.ownerId
    && row'.createdAt == row.createdAt && row'.fileName == row.fileName && row'.fileSize == row.fileSize
  }

  predicate SameCode(row: Row, row': Row) {
    row'.codeSalt == row.codeSalt && row'.codeHash == row.codeHash
    && row'.shareCount == row.shareCount && row'.expiresAt == row.expiresAt
  }

  /** Only two actions write rows; every other one at most removes some. */
  lemma QuietStep(s: State, e: Env, a: Action)
    requires Enabled(s, e, a) && !a.WriteRotation? && !a.InsertShare?
    ensures Apply(s, e, a).lives == s.lives
    ensures forall slug :: slug in Apply(s, e, a).shares ==>
              slug in s.shares && Apply(s, e, a).shares[slug] == s.shares[slug]
  {
    if RequestStep(a) {
      assert Apply(s, e, a).lives == s.lives && Apply(s, e, a).shares == s.shares;
    } else {
      OtherStep(s, e, a);
    }
  }

  /** The action is a rotation's write to this very row. */
  predicate WritesTo(s: State, a: Action, slug: string) {
    && a.WriteRotation? && a.ok && a.id in s.requests && s.requests[a.id].phase.Writing?
    && s.requests[a.id].phase.row.slug == slug
  }

  ghost predicate RespectsRow(s: State, s': State, a: Action, slug: string) {
    && (slug in s.shares && slug in s'.shares ==>
          && SameIdentity(s.shares[slug], s'.shares[slug])
          && (SameCode(s.shares[slug], s'.shares[slug]) ||
              (WritesTo(s, a, slug) && Owns(s.requests[a.id].user, s.shares[slug].ownerId))))
    && (slug in s.lives && slug !in s.shares ==> slug !in s'.shares)
    && (slug in s.lives ==> slug in s'.lives)
  }

  /** A drawn slug is new until its share is inserted. */
  lemma DrawnIsNew(s: State, e: Env, id: nat)
    requires Inv(s, e) && id in s.requests && s.requests[id].phase.Inserting?
    ensures s.requests[id].phase.row.slug !in s.lives && s.requests[id].phase.row.slug !in s.shares
  {
    assert RequestOk(s.slugs, s.lives, s.births, e, id, s.requests[id]);
  }

  lemma InsertRespectsRows(s: State, a: Action, slug: string)
    requires a.InsertShare? && a.id in s.requests && s.requests[a.id].phase.Inserting?
    requires s.requests[a.id].phase.row.slug !in s.lives && s.requests[a.id].phase.row.slug !in s.shares
    ensures RespectsRow(s, InsertStep(s, a.id, a.ok), a, slug)
  {
  }

  lemma WriteRespectsRows(s: State, a: Action, slug: string)
    requires a.WriteRotation? && a.id in s.requests && s.requests[a.id].phase.Writing?
    requires slug in s.shares ==> slug in s.lives && s.shares[slug].slug == slug
    requires slug in s.shares && WritesTo(s, a, slug) ==> Owns(s.requests[a.id].user, s.shares[slug].ownerId)
    ensures RespectsRow(s, WriteStep(s, a.id, a.ok), a, slug)
  {
  }

  lemma WriterOwns(s: State, e: Env, a: Action, slug: string)
    requires Inv(s, e) && WritesTo(s, a, slug) && slug in s.shares
    ensures Owns(s.requests[a.id].user, s.shares[slug].ownerId)
  {
    assert RequestOk(s.slugs, s.lives, s.births, e, a.id, s.requests[a.id]);
    assert RowOk(e, s.births, slug, s.shares[slug], s.lives[slug]);
  }

  /** One step of anybody: a surviving row keeps its identity, its code changes only through a
      rotation written to it for its owner (anyone, if it has none), and a row once gone stays
      gone. */
  lemma StepRespectsRows(s: State, e: Env, a: Action, slug: string)
    requires Inv(s, e) && Enabled(s, e, a)
    ensures RespectsRow(s, Apply(s, e, a), a, slug)
  {
    if a.InsertShare? {
      DrawnIsNew(s, e, a.id);
      InsertRespectsRows(s, a, slug);
    } else if a.WriteRotation? {
      if slug in s.shares && WritesTo(s, a, slug) {
        WriterOwns(s, e, a, slug);
      }
      WriteRespectsRows(s, a, slug);
    } else {
      QuietStep(s, e, a);
    }
  }

  /** Whole runs: while its slug is in the table, a row is the same file, of the same owner. */
  lemma {:induction false} IdentityOverRun(s: State, e: Env, actions: seq<Action>, slug: string)
    requires Inv(s, e) && Runs(s, e, actions) && slug in s.lives
    ensures var s' := Final(s, e, actions);
            slug in s'.shares ==> slug in s.shares && SameIdentity(s.shares[slug], s'.shares[slug])
    decreases |actions|
  {
    if actions != [] {
      StepRespectsRows(s, e, actions[0], slug);
      StepKeepsInv(s, e, actions[0]);
      IdentityOverRun(Apply(s, e, actions[0]), e, actions[1..], slug);
    }
  }

  /** A request of `user` writes a rotation to this row. */
  predicate WritesFor(s: State, a: Action, user: string, slug: string) {
    WritesTo(s, a, slug) && s.requests[a.id].user == user
  }

  /** No action of the run writes a rotation of this row for `user`. */
  predicate Inactive(s: State, e: Env, actions: seq<Action>, user: string, slug: string)
    requires Runs(s, e, actions)
    decreases |actions|
  {
    actions == [] || (!WritesFor(s, actions[0], user, slug) && Inactive(Apply(s, e, actions[0]), e, actions[1..], user, slug))
  }

  /** Whole runs: unless its owner rotates this very row, and whatever the owner does to other
      files, nobody changes its code. */
  lemma {:induction false} OnlyOwnerChangesCode(s: State, e: Env, actions: seq<Action>, slug: string)
    requires Inv(s, e) && Runs(s, e, actions) && slug in s.shares && s.shares[slug].ownerId != ""
    requires Inactive(s, e, actions, s.shares[slug].ownerId, slug)
    ensures var s' := Final(s, e, actions);
            slug in s'.shares ==> SameCode(s.shares[slug], s'.shares[slug])
    decreases |actions|
  {
    if actions != [] {
      var s1 := Apply(s, e, actions[0]);
      StepRespectsRows(s, e, actions[0], slug);
      StepKeepsInv(s, e, actions[0]);
      if slug in s1.shares {
        OnlyOwnerChangesCode(s1, e, actions[1..], slug);
      } else {
        assert slug in s.lives;
        IdentityOverRun(s1, e, actions[1..], slug);
      }
    }
  }

  // ---------------------------------------------------------------- codes handed out

  /** The action writes a rotation of `slug` from a snapshot that is no longer current. */
  predicate StaleWrite(s: State, a: Action, slug: string) {
    && WritesTo(s, a, slug) && slug in s.shares && slug in s.lives
    && s.requests[a.id].phase.read != |s.lives[slug].handed|
  }

  /** Some rotation of `slug` in the run overlapped another between its read and its write. */
  predicate Overlaps(s: State, e: Env, actions: seq<Action>, slug: string)
    requires Runs(s, e, actions)
    decreases |actions|
  {
    actions != [] && (StaleWrite(s, actions[0], slug) || Overlaps(Apply(s, e, actions[0]), e, actions[1..], slug))
  }

  function Overlapped(s: State, slug: string): bool {
    slug in s.lives && s.lives[slug].overlapped
  }

  lemma InsertOverlap(s: State, e: Env, a: Action, slug: string)
    requires Inv(s, e) && a.InsertShare? && Enabled(s, e, a)
    ensures Overlapped(InsertStep(s, a.id, a.ok), slug) <==> Overlapped(s, slug)
  {
    assert RequestOk(s.slugs, s.lives, s.births, e, a.id, s.requests[a.id]);
  }

  lemma WriteOverlap(s: State, a: Action, slug: string)
    requires a.WriteRotation? && a.id in s.requests && s.requests[a.id].phase.Writing?
    requires slug in s.shares ==> slug in s.lives
    ensures Overlapped(WriteStep(s, a.id, a.ok), slug) <==> Overlapped(s, slug) || StaleWrite(s, a, slug)
  {
  }

  lemma StepOverlap(s: State, e: Env, a: Action, slug: string)
    requires Inv(s, e) && Enabled(s, e, a)
    ensures Overlapped(Apply(s, e, a), slug) <==> Overlapped(s, slug) || StaleWrite(s, a, slug)
  {
    if a.WriteRotation? {
      WriteOverlap(s, a, slug);
    } else if a.InsertShare? {
      InsertOverlap(s, e, a, slug);
    } else {
      QuietStep(s, e, a);
    }
  }

  lemma {:induction false} OverlapOverRun(s: State, e: Env, actions: seq<Action>, slug: string)
    requires Inv(s, e) && Runs(s, e, actions)
    ensures Overlapped(Final(s, e, actions), slug) <==> Overlapped(s, slug) || Overlaps(s, e, actions, slug)
    decreases |actions|
  {
    if actions != [] {
      StepOverlap(s, e, actions[0], slug);
      StepKeepsInv(s, e, actions[0]);
      OverlapOverRun(Apply(s, e, actions[0]), e, actions[1..], slug);
    }
  }

  /** The number of codes handed out for a live row equals its stored count exactly in the runs
      where none of its rotations overlapped; in those it is at most 3, and in all others it
      is larger than the count. */
  lemma HandedEqualsCountIffNoOverlap(clock: int, e: Env, actions: seq<Action>, slug: string)
    requires Runs(Init(clock), e, actions) && slug in Final(Init(clock), e, actions).shares
    ensures var s := Final(Init(clock), e, actions);
            && slug in s.lives
            && |s.lives[slug].handed| >= s.shares[slug].shareCount
            && (|s.lives[slug].handed| == s.shares[slug].shareCount <==> !Overlaps(Init(clock), e, actions, slug))
            && (!Overlaps(Init(clock), e, actions, slug) ==> |s.lives[slug].handed| <= MAX_SHARE_COUNT)
  {
    InitInv(clock, e);
    InvAlways(Init(clock), e, actions);
    OverlapOverRun(Init(clock), e, actions, slug);
  }

  /** In every reachable state the row accepts the code written last, in all its spellings and
      until it expires, and refuses every other code ever handed out for it. */
  lemma OnlyLatestCodeVerifies(clock: int, e: Env, actions: seq<Action>, slug: string, typed: string, now: int)
    requires Runs(Init(clock), e, actions) && slug in Final(Init(clock), e, actions).shares
    requires Injective(e.hash)
    ensures var s := Final(Init(clock), e, actions);
            && slug in s.lives && s.lives[slug].handed != []
            && var handed := s.lives[slug].handed;
               var row := s.shares[slug];
            && (Verify(row, typed, now, e.hash) == Accepted <==>
                  now <= row.expiresAt && Variant(typed, handed[|handed| - 1].code))
            && (forall i :: 0 <= i < |handed| && handed[i].code != handed[|handed| - 1].code ==>
                  Verify(row, handed[i].code, now, e.hash) != Accepted)
  {
    ReachableRow(clock, e, actions, slug);
    var s := Final(Init(clock), e, actions);
    LatestCode(e, s.births, slug, s.shares[slug], s.lives[slug], typed, now);
  }

  lemma LatestCode(e: Env, births: map<string, Birth>, slug: string, row: Row, life: Life, typed: string, now: int)
    requires RowOk(e, births, slug, row, life) && Injective(e.hash)
    ensures var last := life.handed[|life.handed| - 1].code;
            && (Verify(row, typed, now, e.hash) == Accepted <==> now <= row.expiresAt && Variant(typed, last))
            && (forall i :: 0 <= i < |life.handed| && life.handed[i].code != last ==>
                  Verify(row, life.handed[i].code, now, e.hash) != Accepted)
  {
    var m := life.handed[|life.handed| - 1];
    assert GoodMint(m);
    VerifyAcceptsExactlyVariants(row, m.salt, m.code, typed, now, e.hash);
    forall i | 0 <= i < |life.handed| && life.handed[i].code != m.code
      ensures Verify(row, life.handed[i].code, now, e.hash) != Accepted
    {
      var code := life.handed[i].code;
      VerifyAcceptsExactlyVariants(row, m.salt, m.code, code, now, e.hash);
      NormalizeMeansVariant(code, m.code);
      CodeNormalizesToItself(code);
    }
  }

  // ---------------------------------------------------------------- unlocking on a stale row

  /** A visit loaded `row`; if it has been checked since, it was by `Verify` on that row, at the
      time of the check. */
  ghost predicate VisitOf(e: Env, v: Visit, row: Row, from: int, to: int) {
    match v
    case Loaded(r) => r == row
    case Checked(typed, at, verdict) => from <= at <= to && verdict == Verify(row, typed, at, e.hash)
  }

  lemma RequestsKeepVisits(s: State, e: Env, a: Action)
    requires RequestStep(a) && RequestEnabled(s, a)
    ensures ApplyRequest(s, e, a).visits == s.visits && ApplyRequest(s, e, a).clock == s.clock
  {
    if a.InsertShare? {
      assert InsertStep(s, a.id, a.ok).visits == s.visits;
    } else if a.WriteRotation? {
      assert WriteStep(s, a.id, a.ok).visits == s.visits;
    }
  }

  lemma StepKeepsVisit(s: State, e: Env, a: Action, id: nat, row: Row, from: int)
    requires Enabled(s, e, a) && id in s.visits && VisitOf(e, s.visits[id], row, from, s.clock) && from <= s.clock
    ensures var s' := Apply(s, e, a);
            id in s'.visits && VisitOf(e, s'.visits[id], row, from, s'.clock) && from <= s'.clock
  {
    if RequestStep(a) {
      RequestsKeepVisits(s, e, a);
    }
  }

  lemma {:induction false} VisitOverRun(s: State, e: Env, actions: seq<Action>, id: nat, row: Row, from: int)
    requires Runs(s, e, actions)
    requires id in s.visits && VisitOf(e, s.visits[id], row, from, s.clock) && from <= s.clock
    ensures var s' := Final(s, e, actions);
            id in s'.visits && VisitOf(e, s'.visits[id], row, from, s'.clock)
    decreases |actions|
  {
    if actions != [] {
      StepKeepsVisit(s, e, actions[0], id, row, from);
      VisitOverRun(Apply(s, e, actions[0]), e, actions[1..], id, row, from);
    }
  }

  /** If the visit has been answered, it was accepted exactly when a spelling of `code` was typed
      by `expiresAt`. */
  predicate AnswersFor(v: Visit, expiresAt: int, code: string, from: int, to: int) {
    v.Checked? ==>
      && from <= v.at <= to
      && (v.verdict == Accepted <==> v.at <= expiresAt && Variant(v.typed, code))
  }

  lemma CheckedAgainst(e: Env, births: map<string, Birth>, slug: string, row: Row, life: Life, v: Visit, from: int, to: int)
    requires RowOk(e, births, slug, row, life) && Injective(e.hash) && VisitOf(e, v, row, from, to)
    ensures AnswersFor(v, row.expiresAt, life.handed[|life.handed| - 1].code, from, to)
  {
    if v.Checked? {
      LatestCode(e, births, slug, row, life, v.typed, v.at);
    }
  }

  lemma RowInOrder(s: State, e: Env, slug: string)
    requires Inv(s, e) && slug in s.shares
    ensures slug in s.lives && RowOk(e, s.births, slug, s.shares[slug], s.lives[slug])
  {
  }

  /** The code the row was written with last. */
  function LatestOf(life: Life): string {
    if life.handed == [] then "" else life.handed[|life.handed| - 1].code
  }

  lemma AnswerAfterLoad(s1: State, e: Env, births: map<string, Birth>, id: nat, slug: string, row: Row, life: Life, actions: seq<Action>)
    requires RowOk(e, births, slug, row, life) && Injective(e.hash)
    requires id in s1.visits && s1.visits[id] == Loaded(row) && Runs(s1, e, actions)
    ensures var s' := Final(s1, e, actions);
            id in s'.visits && AnswersFor(s'.visits[id], row.expiresAt, LatestOf(life), s1.clock, s'.clock)
  {
    VisitOverRun(s1, e, actions, id, row, s1.clock);
    var s' := Final(s1, e, actions);
    CheckedAgainst(e, births, slug, row, life, s'.visits[id], s1.clock, s'.clock);
  }

  /** An unlock request may check its code long after it loaded the row, which may have been
      rotated, revoked or purged by then. It accepts exactly the spellings of the code that was
      the row's latest when it was loaded, up to the expiry the row had then. */
  lemma UnlockAcceptsLatestAtLoad(s: State, e: Env, id: nat, slug: string, s1: State, actions: seq<Action>)
    requires Inv(s, e) && Injective(e.hash) && Enabled(s, e, LoadShare(id, slug)) && s1 == Apply(s, e, LoadShare(id, slug))
    requires Runs(s1, e, actions)
    ensures var s' := Final(s1, e, actions);
            && slug in s.lives && s.lives[slug].handed != [] && id in s'.visits
            && AnswersFor(s'.visits[id], s.shares[slug].expiresAt, LatestOf(s.lives[slug]), s.clock, s'.clock)
  {
    RowInOrder(s, e, slug);
    AnswerAfterLoad(s1, e, s.births, id, slug, s.shares[slug], s.lives[slug], actions);
  }

  // ---------------------------------------------------------------- retention never cuts a share short

  /** Whenever retention could select the upload, an expiry at `expiresAt` is already over. */
  ghost predicate NeverCutShort(e: Env, up: Upload, expiresAt: int) {
    forall now :: RetentionSelects(e, up, now) ==> now > expiresAt
  }

  /** The cap is exactly what the promise needs, and no tighter: an expiry is never cut short if
      and only if it is within the deadline, and the capped expiry is the latest one not after
      the requested expiry that is never cut short. */
  lemma CapIsExact(e: Env, up: Upload, row: Row)
    ensures NeverCutShort(e, up, row.expiresAt) <==> row.expiresAt <= Deadline(e.ttls, BirthOf(up))
    ensures Window(e.ttls, up.ownerId) > 0 ==>
              && NeverCutShort(e, up, Capped(e, row, up).expiresAt)
              && forall other :: other <= row.expiresAt && NeverCutShort(e, up, other) ==> other <= Capped(e, row, up).expiresAt
  {
    assert RetentionSelects(e, up, Deadline(e.ttls, BirthOf(up)) + 1);
  }

  /** The last write of the row found the upload and its window is positive, or it asked for an
      expiry within the deadline to begin with. */
  predicate KeptInTime(e: Env, b: Birth, life: Life) {
    (life.capped && Window(e.ttls, b.owner) > 0) || life.asked <= Deadline(e.ttls, b)
  }

  /** The cutoff selects an upload exactly when its window has passed. */
  lemma SelectsWhenPast(e: Env, up: Upload, now: int)
    ensures RetentionSelects(e, up, now) <==> Past(e.ttls, BirthOf(up), now)
  {
  }

  lemma InTimeIffKept(e: Env, births: map<string, Birth>, slug: string, row: Row, life: Life)
    requires RowOk(e, births, slug, row, life) && row.storageKey in births
    ensures KeptInTime(e, births[row.storageKey], life) <==> row.expiresAt <= Deadline(e.ttls, births[row.storageKey])
  {
  }

  /** Row by row, in every run, for every file that was ever recorded, whether its upload row is
      still there or the sweep has dropped it: whenever its window has passed, now or later, every
      code is refused as expired, exactly when the row's last write was kept in time. Whatever
      other lookups of the run missed does not matter. */
  lemma RetentionNeverCutsShareShort(clock: int, e: Env, actions: seq<Action>, key: string, slug: string)
    requires Runs(Init(clock), e, actions)
    requires var s := Final(Init(clock), e, actions);
             key in s.births && slug in s.shares && s.shares[slug].storageKey == key
    ensures var s := Final(Init(clock), e, actions);
            && slug in s.lives
            && (KeptInTime(e, s.births[key], s.lives[slug]) <==>
                  forall typed, now :: Past(e.ttls, s.births[key], now) ==>
                    Verify(s.shares[slug], typed, now, e.hash) == Expired)
    ensures var s := Final(Init(clock), e, actions);
            key in s.uploads ==> forall now :: RetentionSelects(e, s.uploads[key], now) <==> Past(e.ttls, s.births[key], now)
  {
    ReachableRow(clock, e, actions, slug);
    var s := Final(Init(clock), e, actions);
    var row, life, b := s.shares[slug], s.lives[slug], s.births[key];
    InTimeIffKept(e, s.births, slug, row, life);
    if !KeptInTime(e, b, life) {
      assert Past(e.ttls, b, row.expiresAt) && Verify(row, "", row.expiresAt, e.hash) != Expired;
    }
    if key in s.uploads {
      ReachableUpload(clock, e, actions, key);
      forall now
        ensures RetentionSelects(e, s.uploads[key], now) <==> Past(e.ttls, b, now)
      {
        SelectsWhenPast(e, s.uploads[key], now);
      }
    }
  }

  lemma LatestIsAccepted(e: Env, births: map<string, Birth>, slug: string, row: Row, life: Life, now: int)
    requires RowOk(e, births, slug, row, life) && Injective(e.hash) && now <= row.expiresAt
    ensures Verify(row, life.handed[|life.handed| - 1].code, now, e.hash) == Accepted
  {
    var last := life.handed[|life.handed| - 1];
    assert GoodMint(last);
    LatestCode(e, births, slug, row, life, last.code, now);
    CodeNormalizesToItself(last.code);
    NormalizeMeansVariant(last.code, last.code);
  }

  /** And a row that was not kept in time is cut short unless something happens to it first: as
      time passes, the window of its file is over (and the sweep selects it, if its upload row is
      still there) while the row still accepts its latest code. */
  lemma LateRowIsCutShort(clock: int, e: Env, actions: seq<Action>, key: string, slug: string)
    requires Runs(Init(clock), e, actions) && Injective(e.hash)
    requires var s := Final(Init(clock), e, actions);
             && key in s.births && slug in s.shares && s.shares[slug].storageKey == key && slug in s.lives
             && !KeptInTime(e, s.births[key], s.lives[slug]) && s.clock <= s.shares[slug].expiresAt
    ensures var s := Final(Init(clock), e, actions);
            var (row, handed) := (s.shares[slug], s.lives[slug].handed);
            && Enabled(s, e, Tick(row.expiresAt))
            && var s' := Apply(s, e, Tick(row.expiresAt));
               && Past(e.ttls, s'.births[key], s'.clock) && handed != []
               && (key in s'.uploads ==> RetentionSelects(e, s'.uploads[key], s'.clock))
               && Verify(s'.shares[slug], handed[|handed| - 1].code, s'.clock, e.hash) == Accepted
  {
    ReachableRow(clock, e, actions, slug);
    var s := Final(Init(clock), e, actions);
    var row, life := s.shares[slug], s.lives[slug];
    InTimeIffKept(e, s.births, slug, row, life);
    LatestIsAccepted(e, s.births, slug, row, life, row.expiresAt);
    if key in s.uploads {
      ReachableUpload(clock, e, actions, key);
      SelectsWhenPast(e, s.uploads[key], row.expiresAt);
    }
  }

  // ---------------------------------------------------------------- what a sweep finds

  /** The sweep has listed only uploads whose window has passed. */
  ghost predicate RetiringPast(s: State, e: Env) {
    forall key :: key in s.retiring ==> key in s.births && Past(e.ttls, s.births[key], s.clock)
  }

  lemma ListedArePast(s: State, e: Env, a: Action)
    requires Inv(s, e) && a.RetentionList? && Enabled(s, e, a)
    ensures RetiringPast(Apply(s, e, a), e)
  {
    forall key | key in a.keys
      ensures key in s.births && Past(e.ttls, s.births[key], s.clock)
    {
      SelectsWhenPast(e, s.uploads[key], s.clock);
    }
  }

  lemma RequestsKeepRetiring(s: State, e: Env, a: Action)
    requires RequestStep(a) && RequestEnabled(s, a)
    ensures var s' := ApplyRequest(s, e, a); s'.retiring == s.retiring && s'.births == s.births && s'.clock == s.clock
  {
    if a.InsertShare? {
      assert InsertStep(s, a.id, a.ok).retiring == s.retiring;
    } else if a.WriteRotation? {
      assert WriteStep(s, a.id, a.ok).retiring == s.retiring;
    }
  }

  lemma StepKeepsRetiring(s: State, e: Env, a: Action)
    requires Inv(s, e) && RetiringPast(s, e) && Enabled(s, e, a)
    ensures RetiringPast(Apply(s, e, a), e)
  {
    if RequestStep(a) {
      RequestsKeepRetiring(s, e, a);
    } else if a.RetentionList? {
      ListedArePast(s, e, a);
    }
  }

  lemma {:induction false} RetiringOverRun(s: State, e: Env, actions: seq<Action>)
    requires Inv(s, e) && RetiringPast(s, e) && Runs(s, e, actions)
    ensures RetiringPast(Final(s, e, actions), e)
    decreases |actions|
  {
    if actions != [] {
      StepKeepsRetiring(s, e, actions[0]);
      StepKeepsInv(s, e, actions[0]);
      RetiringOverRun(Apply(s, e, actions[0]), e, actions[1..]);
    }
  }

  /** The event itself, in every run: when the sweep is about to delete a file, its object, its
      shares or its row, every share of it that was kept in time is already refused as expired. */
  lemma SweptSharesAreExpired(clock: int, e: Env, actions: seq<Action>, key: string, slug: string, typed: string, now: int)
    requires Runs(Init(clock), e, actions)
    requires var s := Final(Init(clock), e, actions);
             && Enabled(s, e, RetentionDeleteObject(key)) && now >= s.clock
             && slug in s.shares && s.shares[slug].storageKey == key
             && (key in s.births && slug in s.lives ==> KeptInTime(e, s.births[key], s.lives[slug]))
    ensures Verify(Final(Init(clock), e, actions).shares[slug], typed, now, e.hash) == Expired
  {
    InitInv(clock, e);
    RetiringOverRun(Init(clock), e, actions);
    ReachableRow(clock, e, actions, slug);
    var s := Final(Init(clock), e, actions);
    InTimeIffKept(e, s.births, slug, s.shares[slug], s.lives[slug]);
  }
}
