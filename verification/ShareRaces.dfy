/** Runs of the share protocol in which a promise fails: overlapping rotations and revoked links
    hand out any number of codes of one file, a cap lookup that misses leaves a share the
    retention sweep cuts short, and a file may be shared after it was swept. */
module ShareRaces {
  import opened Codes
  import opened Shares
  import opened Store
  import opened ShareProtocol
  import opened ShareGuarantees
  import opened ShareCodes

  lemma {:induction false} RunsConcat(s: State, e: Env, a: seq<Action>, b: seq<Action>)
    requires Runs(s, e, a) && Runs(Final(s, e, a), e, b)
    ensures Runs(s, e, a + b) && Final(s, e, a + b) == Final(Final(s, e, a), e, b)
    decreases |a|
  {
    if a == [] {
      assert a + b == b;
    } else {
      assert (a + b)[0] == a[0] && (a + b)[1..] == a[1..] + b;
      RunsConcat(Apply(s, e, a[0]), e, a[1..], b);
    }
  }

  /** The run leads from `s` to `s'`. */
  ghost predicate Reaches(s: State, e: Env, actions: seq<Action>, s': State) {
    Runs(s, e, actions) && Final(s, e, actions) == s'
  }

  lemma ReachesConcat(s: State, e: Env, a: seq<Action>, s1: State, b: seq<Action>, s2: State)
    requires Reaches(s, e, a, s1) && Reaches(s1, e, b, s2)
    ensures Reaches(s, e, a + b, s2)
  {
    RunsConcat(s, e, a, b);
  }

  lemma RunOne(s: State, e: Env, a: Action)
    requires Enabled(s, e, a)
    ensures Reaches(s, e, [a], Apply(s, e, a))
  {
    var s' := Apply(s, e, a);
    assert [a][1..] == [] && Runs(s', e, []) && Final(s', e, []) == s';
  }

  lemma ReachNext(s: State, e: Env, actions: seq<Action>, s1: State, a: Action, s2: State)
    requires Reaches(s, e, actions, s1) && Enabled(s1, e, a) && Apply(s1, e, a) == s2
    ensures Reaches(s, e, actions + [a], s2)
  {
    RunOne(s1, e, a);
    ReachesConcat(s, e, actions, s1, [a], s2);
  }

  /** `s` with request `id` replaced (or added). */
  function With(s: State, id: nat, r: Request): State {
    s.(requests := s.requests[id := r])
  }

  lemma WithTwice(s: State, id: nat, r: Request, r': Request)
    ensures With(With(s, id, r), id, r') == With(s, id, r')
  {
    assert s.requests[id := r][id := r'] == s.requests[id := r'];
  }

  /** The request of a caller (anonymous if empty) for this key. */
  function Caller(key: string, user: string, phase: Phase): Request {
    Request(key, user, "", 0, phase)
  }

  /** One step of the caller that neither writes a row nor draws a slug. */
  lemma CallerMoves(s: State, e: Env, key: string, user: string, phase: Phase, a: Action, phase': Phase)
    requires a.Lookup? || a.HeadObject? || a.MintRotation? || a.CapLookup?
    requires RequestEnabled(With(s, a.id, Caller(key, user, phase)), a)
    requires NextPhase(With(s, a.id, Caller(key, user, phase)), e, a) == phase'
    ensures Reaches(With(s, a.id, Caller(key, user, phase)), e, [a], With(s, a.id, Caller(key, user, phase')))
  {
    var s1 := With(s, a.id, Caller(key, user, phase));
    RunOne(s1, e, a);
    WithTwice(s, a.id, Caller(key, user, phase), Caller(key, user, phase'));
  }

  lemma CallerBegins(s: State, e: Env, key: string, user: string, id: nat)
    requires id !in s.requests
    ensures Reaches(s, e, [Begin(id, key, user, "", 0)], With(s, id, Caller(key, user, Looking)))
  {
    RunOne(s, e, Begin(id, key, user, "", 0));
  }

  // ---------------------------------------------------------------- overlapping rotations

  function Snapshot(s: State, slug: string): Row
    requires slug in s.shares
  {
    s.shares[slug].(recipientEmail := "")
  }

  /** A live, ownerless row whose object is in the bucket and whose count allows a rotation. */
  predicate Rotatable(s: State, slug: string) {
    && slug in s.shares && slug in s.lives && s.shares[slug].slug == slug
    && s.shares[slug].ownerId == "" && s.shares[slug].shareCount < MAX_SHARE_COUNT
    && s.shares[slug].storageKey in s.bucket
  }

  /** The anonymous caller's snapshot, rotated with `mint`. */
  function Fresh(s: State, e: Env, slug: string, mint: Mint): Row
    requires Rotatable(s, slug)
  {
    RotatedRow(Snapshot(s, slug), 0, mint.code, mint.salt, s.clock, e.hash)
  }

  /** What the caller holds just before writing. */
  function Poised(s: State, e: Env, slug: string, mint: Mint): Phase
    requires Rotatable(s, slug)
  {
    Writing(Fresh(s, e, slug, mint), |s.lives[slug].handed|, mint, Fresh(s, e, slug, mint).expiresAt, false)
  }

  function ReadActions(s: State, slug: string, id: nat): seq<Action>
    requires slug in s.shares
  {
    [Begin(id, s.shares[slug].storageKey, "", "", 0)] + [Lookup(id, Found.Found(slug))] + [HeadObject(id, Present)]
  }

  lemma CallerReads(s: State, e: Env, slug: string, id: nat)
    requires Rotatable(s, slug) && id !in s.requests
    ensures Reaches(s, e, ReadActions(s, slug, id),
                    With(s, id, Caller(s.shares[slug].storageKey, "", MintOld(Snapshot(s, slug), |s.lives[slug].handed|))))
  {
    var key, read := s.shares[slug].storageKey, |s.lives[slug].handed|;
    var p1, p2 := HeadOld(Snapshot(s, slug), read), MintOld(Snapshot(s, slug), read);
    var a0, a1, a2 := Begin(id, key, "", "", 0), Lookup(id, Found.Found(slug)), HeadObject(id, Present);
    CallerBegins(s, e, key, "", id);
    CallerMoves(s, e, key, "", Looking, a1, p1);
    CallerMoves(s, e, key, "", p1, a2, p2);
    ReachesConcat(s, e, [a0], With(s, id, Caller(key, "", Looking)), [a1], With(s, id, Caller(key, "", p1)));
    ReachesConcat(s, e, [a0] + [a1], With(s, id, Caller(key, "", p1)), [a2], With(s, id, Caller(key, "", p2)));
  }

  lemma CallerMints(s: State, e: Env, slug: string, id: nat, mint: Mint)
    requires Rotatable(s, slug) && GoodMint(mint)
    ensures var key := s.shares[slug].storageKey;
            Reaches(With(s, id, Caller(key, "", MintOld(Snapshot(s, slug), |s.lives[slug].handed|))), e,
                    [MintRotation(id, mint)] + [CapLookup(id, false)], With(s, id, Caller(key, "", Poised(s, e, slug, mint))))
  {
    var key, read := s.shares[slug].storageKey, |s.lives[slug].handed|;
    var p0, p1, p2 := MintOld(Snapshot(s, slug), read), CapOld(Fresh(s, e, slug, mint), read, mint), Poised(s, e, slug, mint);
    CallerMoves(s, e, key, "", p0, MintRotation(id, mint), p1);
    CallerMoves(s, e, key, "", p1, CapLookup(id, false), p2);
    ReachesConcat(With(s, id, Caller(key, "", p0)), e, [MintRotation(id, mint)], With(s, id, Caller(key, "", p1)),
                  [CapLookup(id, false)], With(s, id, Caller(key, "", p2)));
  }

  /** `s` with one poised caller for each minting, numbered from `base`. */
  function Crowd(s: State, e: Env, slug: string, base: nat, mints: seq<Mint>): State
    requires Rotatable(s, slug)
    ensures var c := Crowd(s, e, slug, base, mints); c == s.(requests := c.requests)
    ensures forall id :: id in Crowd(s, e, slug, base, mints).requests ==> id in s.requests || base <= id < base + |mints|
  {
    if mints == [] then s
    else With(Crowd(s, e, slug, base, mints[..|mints| - 1]), base + |mints| - 1,
              Caller(s.shares[slug].storageKey, "", Poised(s, e, slug, mints[|mints| - 1])))
  }

  predicate GoodMints(mints: seq<Mint>) {
    forall i :: 0 <= i < |mints| ==> GoodMint(mints[i])
  }

  predicate Unused(s: State, base: nat) {
    forall id :: id in s.requests ==> id < base
  }

  lemma CrowdGrows(c: State, e: Env, slug: string, id: nat, mint: Mint) returns (actions: seq<Action>)
    requires Rotatable(c, slug) && GoodMint(mint) && id !in c.requests
    ensures Reaches(c, e, actions, With(c, id, Caller(c.shares[slug].storageKey, "", Poised(c, e, slug, mint))))
  {
    var key := c.shares[slug].storageKey;
    var mints := [MintRotation(id, mint)] + [CapLookup(id, false)];
    CallerReads(c, e, slug, id);
    CallerMints(c, e, slug, id, mint);
    actions := ReadActions(c, slug, id) + mints;
    ReachesConcat(c, e, ReadActions(c, slug, id), With(c, id, Caller(key, "", MintOld(Snapshot(c, slug), |c.lives[slug].handed|))),
                  mints, With(c, id, Caller(key, "", Poised(c, e, slug, mint))));
  }

  /** What a caller holds does not depend on the other requests. */
  lemma PoisedAlike(s: State, c: State, e: Env, slug: string, mint: Mint)
    requires c == s.(requests := c.requests) && Rotatable(s, slug)
    ensures Rotatable(c, slug) && Poised(c, e, slug, mint) == Poised(s, e, slug, mint)
  {
  }

  lemma CrowdNext(s: State, e: Env, slug: string, base: nat, mints: seq<Mint>) returns (actions: seq<Action>)
    requires Rotatable(s, slug) && mints != [] && GoodMint(mints[|mints| - 1]) && Unused(s, base)
    ensures Reaches(Crowd(s, e, slug, base, mints[..|mints| - 1]), e, actions, Crowd(s, e, slug, base, mints))
  {
    var n := |mints| - 1;
    var c := Crowd(s, e, slug, base, mints[..n]);
    PoisedAlike(s, c, e, slug, mints[n]);
    assert base + n !in c.requests;
    actions := CrowdGrows(c, e, slug, base + n, mints[n]);
    assert Crowd(s, e, slug, base, mints) == With(c, base + n, Caller(c.shares[slug].storageKey, "", Poised(c, e, slug, mints[n])));
  }

  /** Any number of callers can read the row before the first of them writes. */
  lemma {:induction false} CrowdForms(s: State, e: Env, slug: string, base: nat, mints: seq<Mint>) returns (actions: seq<Action>)
    requires Rotatable(s, slug) && GoodMints(mints) && Unused(s, base)
    ensures Reaches(s, e, actions, Crowd(s, e, slug, base, mints))
  {
    if mints == [] {
      actions := [];
    } else {
      var front := mints[..|mints| - 1];
      var looks := CrowdForms(s, e, slug, base, front);
      var more := CrowdNext(s, e, slug, base, mints);
      ReachesConcat(s, e, looks, Crowd(s, e, slug, base, front), more, Crowd(s, e, slug, base, mints));
      actions := looks + more;
    }
  }

  predicate PoisedAt(s: State, e: Env, slug: string, base: nat, mints: seq<Mint>, start: State, i: nat)
    requires Rotatable(start, slug) && i < |mints|
  {
    base + i in s.requests && s.requests[base + i].phase == Poised(start, e, slug, mints[i])
  }

  /** `j` of the poised callers have written. */
  ghost predicate HaveWritten(s: State, e: Env, slug: string, base: nat, mints: seq<Mint>, start: State, j: nat)
    requires Rotatable(start, slug) && j <= |mints|
  {
    && slug in s.shares && slug in s.lives && s.shares[slug].slug == slug
    && s.lives[slug].handed == start.lives[slug].handed + mints[..j]
    && s.shares[slug].shareCount == start.shares[slug].shareCount + (if j == 0 then 0 else 1)
    && forall i :: j <= i < |mints| ==> PoisedAt(s, e, slug, base, mints, start, i)
  }

  lemma {:induction false} CrowdIsPoised(s: State, e: Env, slug: string, base: nat, mints: seq<Mint>, i: nat)
    requires Rotatable(s, slug) && i < |mints|
    ensures base + i in Crowd(s, e, slug, base, mints).requests
    ensures Crowd(s, e, slug, base, mints).requests[base + i].phase == Poised(s, e, slug, mints[i])
  {
    if i < |mints| - 1 {
      CrowdIsPoised(s, e, slug, base, mints[..|mints| - 1], i);
    }
  }

  lemma NextWrites(s: State, e: Env, slug: string, base: nat, mints: seq<Mint>, start: State, j: nat)
    requires Rotatable(start, slug) && j < |mints| && HaveWritten(s, e, slug, base, mints, start, j)
    ensures Enabled(s, e, WriteRotation(base + j, true))
    ensures HaveWritten(Apply(s, e, WriteRotation(base + j, true)), e, slug, base, mints, start, j + 1)
  {
    assert mints[..j + 1] == mints[..j] + [mints[j]];
    assert PoisedAt(s, e, slug, base, mints, start, j);
    var s' := WriteStep(s, base + j, true);
    assert s'.lives[slug].handed == s.lives[slug].handed + [mints[j]];
    forall i | j + 1 <= i < |mints|
      ensures PoisedAt(s', e, slug, base, mints, start, i)
    {
      assert PoisedAt(s, e, slug, base, mints, start, i);
    }
  }

  lemma {:induction false} AllWrite(s: State, e: Env, slug: string, base: nat, mints: seq<Mint>, start: State, j: nat)
    returns (actions: seq<Action>)
    requires Rotatable(start, slug) && j <= |mints| && HaveWritten(s, e, slug, base, mints, start, j)
    ensures Runs(s, e, actions) && HaveWritten(Final(s, e, actions), e, slug, base, mints, start, |mints|)
    decreases |mints| - j
  {
    if j == |mints| {
      actions := [];
    } else {
      var a := WriteRotation(base + j, true);
      NextWrites(s, e, slug, base, mints, start, j);
      var rest := AllWrite(Apply(s, e, a), e, slug, base, mints, start, j + 1);
      RunOne(s, e, a);
      RunsConcat(s, e, [a], rest);
      actions := [a] + rest;
    }
  }

  /** The limit of three codes does not hold for overlapping rotations: from any state with a
      live, rotatable, ownerless row and for any list of mintings, some run hands out every one
      of their codes while the stored count rises by one. */
  lemma OverlappingRotationsAreUnbounded(s: State, e: Env, slug: string, base: nat, mints: seq<Mint>)
    requires Rotatable(s, slug) && GoodMints(mints) && mints != [] && Unused(s, base)
    ensures exists actions :: Runs(s, e, actions) &&
              var s' := Final(s, e, actions);
              && slug in s'.shares && slug in s'.lives
              && s'.lives[slug].handed == s.lives[slug].handed + mints
              && s'.shares[slug].shareCount == s.shares[slug].shareCount + 1
  {
    var looks := CrowdForms(s, e, slug, base, mints);
    var c := Crowd(s, e, slug, base, mints);
    forall i | 0 <= i < |mints|
      ensures PoisedAt(c, e, slug, base, mints, s, i)
    {
      CrowdIsPoised(s, e, slug, base, mints, i);
    }
    assert s.lives[slug].handed + mints[..0] == s.lives[slug].handed;
    var writes := AllWrite(c, e, slug, base, mints, s, 0);
    RunsConcat(s, e, looks, writes);
    assert mints[..|mints|] == mints;
    assert Runs(s, e, looks + writes);
  }

  // ---------------------------------------------------------------- a first share

  function FirstRow(e: Env, slug: string, key: string, user: string, mint: Mint, now: int): Row {
    NewRow(slug, key, "", 0, user, "", "", 0, mint.code, mint.salt, now, e.hash)
  }

  /** The state after the caller's request was answered with the code of a new, uncapped row. */
  function Shared(s: State, e: Env, slug: string, key: string, user: string, id: nat, mint: Mint): State {
    var row := FirstRow(e, slug, key, user, mint, s.clock);
    s.(requests := s.requests[id := Caller(key, user, Done(Handed(slug, mint.code)))],
       slugs := s.slugs[slug := id],
       shares := s.shares[slug := row],
       lives := s.lives[slug := Life(key, user, [mint], false, row.expiresAt, false)])
  }

  predicate Insertable(s: State, slug: string, key: string, mint: Mint) {
    !HasRow(s.shares, key) && slug !in s.slugs && slug !in s.shares && GoodMint(mint)
  }

  predicate Sharable(s: State, slug: string, key: string, id: nat, mint: Mint) {
    Insertable(s, slug, key, mint) && key in s.bucket && id !in s.requests
  }

  function AskActions(key: string, user: string, id: nat): seq<Action> {
    [Begin(id, key, user, "", 0)] + [Lookup(id, Missing)] + [HeadObject(id, Present)]
  }

  lemma FirstShareAsks(s: State, e: Env, slug: string, key: string, user: string, id: nat, mint: Mint)
    requires Sharable(s, slug, key, id, mint)
    ensures Reaches(s, e, AskActions(key, user, id), With(s, id, Caller(key, user, MintNew)))
  {
    var s0, s1, s2 := With(s, id, Caller(key, user, Looking)), With(s, id, Caller(key, user, HeadNew)), With(s, id, Caller(key, user, MintNew));
    CallerBegins(s, e, key, user, id);
    CallerMoves(s, e, key, user, Looking, Lookup(id, Missing), HeadNew);
    CallerMoves(s, e, key, user, HeadNew, HeadObject(id, Present), MintNew);
    ReachesConcat(s, e, [Begin(id, key, user, "", 0)], s0, [Lookup(id, Missing)], s1);
    ReachesConcat(s, e, [Begin(id, key, user, "", 0)] + [Lookup(id, Missing)], s1, [HeadObject(id, Present)], s2);
  }

  function MintActions(slug: string, id: nat, mint: Mint): seq<Action> {
    [MintShare(id, slug, "", 0, "", mint)] + [CapLookup(id, false)]
  }

  lemma FirstShareMints(s: State, e: Env, slug: string, key: string, user: string, id: nat, mint: Mint)
    requires Insertable(s, slug, key, mint)
    ensures var row := FirstRow(e, slug, key, user, mint, s.clock);
            Reaches(With(s, id, Caller(key, user, MintNew)), e, MintActions(slug, id, mint),
                    With(s, id, Caller(key, user, Inserting(row, mint, row.expiresAt, false))).(slugs := s.slugs[slug := id]))
  {
    var row := FirstRow(e, slug, key, user, mint, s.clock);
    var a1, a2 := MintShare(id, slug, "", 0, "", mint), CapLookup(id, false);
    var s0 := With(s, id, Caller(key, user, MintNew));
    var drawn := s.(slugs := s.slugs[slug := id]);
    var s1 := With(drawn, id, Caller(key, user, CapNew(row, mint)));
    RunOne(s0, e, a1);
    WithTwice(s, id, Caller(key, user, MintNew), Caller(key, user, CapNew(row, mint)));
    assert Apply(s0, e, a1) == s1;
    CallerMoves(drawn, e, key, user, CapNew(row, mint), a2, Inserting(row, mint, row.expiresAt, false));
    ReachesConcat(s0, e, [a1], s1, [a2], With(drawn, id, Caller(key, user, Inserting(row, mint, row.expiresAt, false))));
  }

  lemma FirstShareInserts(s: State, e: Env, slug: string, key: string, user: string, id: nat, mint: Mint)
    requires Insertable(s, slug, key, mint)
    ensures var row := FirstRow(e, slug, key, user, mint, s.clock);
            Reaches(With(s, id, Caller(key, user, Inserting(row, mint, row.expiresAt, false))).(slugs := s.slugs[slug := id]), e,
                    [InsertShare(id, true)], Shared(s, e, slug, key, user, id, mint))
  {
    var row := FirstRow(e, slug, key, user, mint, s.clock);
    var drawn := s.(slugs := s.slugs[slug := id]);
    var p := Inserting(row, mint, row.expiresAt, false);
    var s1 := With(drawn, id, Caller(key, user, p));
    RunOne(s1, e, InsertShare(id, true));
    WithTwice(drawn, id, Caller(key, user, p), Caller(key, user, Done(Handed(slug, mint.code))));
    assert Apply(s1, e, InsertShare(id, true)) == Shared(s, e, slug, key, user, id, mint);
  }

  /** A caller shares a file that has no row, and the cap lookup misses. */
  lemma FirstShare(s: State, e: Env, slug: string, key: string, user: string, id: nat, mint: Mint) returns (actions: seq<Action>)
    requires Sharable(s, slug, key, id, mint)
    ensures Reaches(s, e, actions, Shared(s, e, slug, key, user, id, mint)) && NoRotation(actions)
  {
    var row := FirstRow(e, slug, key, user, mint, s.clock);
    var s1 := With(s, id, Caller(key, user, MintNew));
    var s2 := With(s, id, Caller(key, user, Inserting(row, mint, row.expiresAt, false))).(slugs := s.slugs[slug := id]);
    FirstShareAsks(s, e, slug, key, user, id, mint);
    FirstShareMints(s, e, slug, key, user, id, mint);
    FirstShareInserts(s, e, slug, key, user, id, mint);
    ReachesConcat(s, e, AskActions(key, user, id), s1, MintActions(slug, id, mint), s2);
    ReachesConcat(s, e, AskActions(key, user, id) + MintActions(slug, id, mint), s2,
                  [InsertShare(id, true)], Shared(s, e, slug, key, user, id, mint));
    actions := AskActions(key, user, id) + MintActions(slug, id, mint) + [InsertShare(id, true)];
  }

  // ---------------------------------------------------------------- revoking and sharing again

  predicate NoRotation(actions: seq<Action>) {
    forall i :: 0 <= i < |actions| ==> !actions[i].WriteRotation?
  }

  lemma {:induction false} NoRotationNoStale(s: State, e: Env, actions: seq<Action>, key: string)
    requires Runs(s, e, actions) && NoRotation(actions)
    ensures TallyOf(s, e, actions, key).stale == 0
    decreases |actions|
  {
    if actions != [] {
      NoRotationNoStale(Apply(s, e, actions[0]), e, actions[1..], key);
    }
  }

  /** `Shared`, with the new row removed again: everything is as it was but for the histories, to
      which one code was added. */
  function Revoked(s: State, e: Env, slug: string, key: string, user: string, id: nat, mint: Mint): State {
    Shared(s, e, slug, key, user, id, mint).(shares := s.shares)
  }

  lemma RevokedHanded(s: State, e: Env, slug: string, key: string, user: string, id: nat, mint: Mint)
    requires slug !in s.lives
    ensures HandedFor(Revoked(s, e, slug, key, user, id, mint).lives, key) == HandedFor(s.lives, key) + 1
  {
    HandedUpdate(s.lives, key, slug, Shared(s, e, slug, key, user, id, mint).lives[slug]);
  }

  lemma ShareAndRevoke(s: State, e: Env, slug: string, key: string, user: string, id: nat, mint: Mint)
    returns (actions: seq<Action>)
    requires Sharable(s, slug, key, id, mint) && user != ""
    ensures Reaches(s, e, actions, Revoked(s, e, slug, key, user, id, mint)) && NoRotation(actions)
  {
    var s1 := Shared(s, e, slug, key, user, id, mint);
    var share := FirstShare(s, e, slug, key, user, id, mint);
    assert s1.shares - {slug} == s.shares;
    assert Apply(s1, e, Revoke(user, slug)) == Revoked(s, e, slug, key, user, id, mint);
    ReachNext(s, e, share, s1, Revoke(user, slug), Revoked(s, e, slug, key, user, id, mint));
    actions := share + [Revoke(user, slug)];
  }

  predicate AllFresh(s: State, slugs: seq<string>) {
    && (forall i :: 0 <= i < |slugs| ==> slugs[i] !in s.slugs && slugs[i] !in s.shares && slugs[i] !in s.lives)
    && (forall i, j :: 0 <= i < j < |slugs| ==> slugs[i] != slugs[j])
  }

  lemma {:induction false} ShareAgain(s: State, e: Env, key: string, user: string, base: nat, slugs: seq<string>, mints: seq<Mint>)
    returns (actions: seq<Action>, s': State)
    requires key in s.bucket && !HasRow(s.shares, key) && user != "" && Unused(s, base)
    requires |slugs| == |mints| && AllFresh(s, slugs) && GoodMints(mints)
    ensures Reaches(s, e, actions, s') && NoRotation(actions)
    ensures HandedFor(s'.lives, key) == HandedFor(s.lives, key) + |mints|
    decreases |mints|
  {
    if mints == [] {
      actions, s' := [], s;
    } else {
      var first := ShareAndRevoke(s, e, slugs[0], key, user, base, mints[0]);
      var s1 := Revoked(s, e, slugs[0], key, user, base, mints[0]);
      RevokedHanded(s, e, slugs[0], key, user, base, mints[0]);
      var rest, s2 := ShareAgain(s1, e, key, user, base + 1, slugs[1..], mints[1..]);
      ReachesConcat(s, e, first, s1, rest, s2);
      actions, s' := first + rest, s2;
    }
  }

  /** The limit of three codes per file does not hold across rows either: whoever owns a file's
      link, or shares a file that has none, can go on revoking and sharing it. In any reachable
      state and for any list of mintings some run without any rotation hands out every one of
      their codes for the file. */
  lemma RevokingIsUnbounded(s: State, e: Env, key: string, user: string, base: nat, slugs: seq<string>, mints: seq<Mint>)
    requires Inv(s, e) && key in s.bucket && user != "" && Unused(s, base)
    requires forall slug :: slug in s.shares && s.shares[slug].storageKey == key ==> s.shares[slug].ownerId == user
    requires |slugs| == |mints| && AllFresh(s, slugs) && GoodMints(mints)
    ensures exists actions :: Runs(s, e, actions) && NoRotation(actions) &&
              var t := TallyOf(s, e, actions, key);
              t.codes == |mints| && t.stale == 0
  {
    var revoke, s1 := RevokeFirst(s, e, key, user);
    var again, s2 := ShareAgain(s1, e, key, user, base, slugs, mints);
    ReachesConcat(s, e, revoke, s1, again, s2);
    RunHanded(s, e, revoke + again, key);
    NoRotationNoStale(s, e, revoke + again, key);
    assert Runs(s, e, revoke + again);
  }

  lemma RevokeFirst(s: State, e: Env, key: string, user: string) returns (actions: seq<Action>, s': State)
    requires Keyed(s.shares) && user != ""
    requires forall slug :: slug in s.shares && s.shares[slug].storageKey == key ==> s.shares[slug].ownerId == user
    ensures Reaches(s, e, actions, s') && NoRotation(actions) && !HasRow(s'.shares, key)
    ensures s' == s.(shares := s'.shares) && forall slug :: slug in s'.shares ==> slug in s.shares
  {
    if HasRow(s.shares, key) {
      var slug :| slug in s.shares && s.shares[slug].storageKey == key;
      s' := s.(shares := s.shares - {slug});
      RunOne(s, e, Revoke(user, slug));
      actions := [Revoke(user, slug)];
    } else {
      actions, s' := [], s;
    }
  }

  // ---------------------------------------------------------------- a missed cap

  /** One cap lookup that misses (the code treats an error like an untracked file) is enough: an
      upload recorded at 0 and shared an hour before its deadline is selected by retention while
      its share verifies. */
  lemma MissedCapIsCutShort(hash: Hash, key: string, slug: string, mint: Mint)
    requires GoodMint(mint) && Injective(hash)
    ensures var e := Env(hash, Ttls(72 * HOUR, 168 * HOUR));
            exists actions :: Runs(Init(0), e, actions) &&
              var s := Final(Init(0), e, actions);
              && key in s.uploads && RetentionSelects(e, s.uploads[key], s.clock)
              && slug in s.shares && s.shares[slug].storageKey == key
              && Verify(s.shares[slug], mint.code, s.clock, hash) == Accepted
  {
    var e := Env(hash, Ttls(72 * HOUR, 168 * HOUR));
    var start, s := LateUpload(e, key, 71 * HOUR);
    var share := FirstShare(s, e, slug, key, "", 0, mint);
    ReachesConcat(Init(0), e, start, s, share, Shared(s, e, slug, key, "", 0, mint));
    var longer := WaitForExpiry(e, start + share, Shared(s, e, slug, key, "", 0, mint), key, slug);
    assert Runs(Init(0), e, longer);
  }

  /** Time passes until the expiry of a late row. */
  lemma WaitForExpiry(e: Env, actions: seq<Action>, s: State, key: string, slug: string) returns (longer: seq<Action>)
    requires Reaches(Init(0), e, actions, s) && Injective(e.hash)
    requires key in s.births && key in s.uploads && slug in s.shares && s.shares[slug].storageKey == key && slug in s.lives
    requires !KeptInTime(e, s.births[key], s.lives[slug]) && s.clock <= s.shares[slug].expiresAt && s.lives[slug].handed != []
    ensures Reaches(Init(0), e, longer, s.(clock := s.shares[slug].expiresAt))
    ensures RetentionSelects(e, s.uploads[key], s.shares[slug].expiresAt)
    ensures Verify(s.shares[slug], s.lives[slug].handed[|s.lives[slug].handed| - 1].code, s.shares[slug].expiresAt, e.hash) == Accepted
  {
    LateRowIsCutShort(0, e, actions, key, slug);
    ReachNext(Init(0), e, actions, s, Tick(s.shares[slug].expiresAt), s.(clock := s.shares[slug].expiresAt));
    longer := actions + [Tick(s.shares[slug].expiresAt)];
  }

  /** An anonymous upload recorded at 0 and put into the bucket, seen at `now`. */
  lemma LateUpload(e: Env, key: string, now: nat) returns (actions: seq<Action>, s: State)
    ensures Reaches(Init(0), e, actions, s)
    ensures s == Init(0).(uploads := map[key := Upload(key, "", "", 1, 0, 0)], bucket := {key}, clock := now,
                          births := map[key := Birth("", 0)])
  {
    var a1, a2, a3 := RecordUpload(key, "", "", 1, 0), PutObject(key), Tick(now);
    var s1 := Apply(Init(0), e, a1);
    RunOne(Init(0), e, a1);
    ReachNext(Init(0), e, [a1], s1, a2, Apply(s1, e, a2));
    s := Apply(Apply(s1, e, a2), e, a3);
    ReachNext(Init(0), e, [a1] + [a2], Apply(s1, e, a2), a3, s);
    actions := [a1] + [a2] + [a3];
  }

  // ---------------------------------------------------------------- sharing a swept file

  /** `s` after the sweep has dealt with a file that had no share. */
  function Swept(s: State, key: string): State {
    s.(retiring := {key}, bucket := s.bucket - {key}, uploads := s.uploads - {key})
  }

  lemma SweepListsAndDeletes(s: State, e: Env, key: string)
    requires key in s.uploads && RetentionSelects(e, s.uploads[key], s.clock)
    ensures Reaches(s, e, [RetentionList({key})] + [RetentionDeleteObject(key)],
                    s.(retiring := {key}, bucket := s.bucket - {key}))
  {
    RunOne(s, e, RetentionList({key}));
    ReachNext(s, e, [RetentionList({key})], s.(retiring := {key}), RetentionDeleteObject(key),
              s.(retiring := {key}, bucket := s.bucket - {key}));
  }

  lemma SweepDropsRows(s: State, e: Env, key: string)
    requires key in s.retiring && !HasRow(s.shares, key)
    ensures Reaches(s, e, [RetentionDeleteShares(key)] + [RetentionDeleteRow(key)], s.(uploads := s.uploads - {key}))
  {
    assert WithoutKey(s.shares, key) == s.shares;
    RunOne(s, e, RetentionDeleteShares(key));
    ReachNext(s, e, [RetentionDeleteShares(key)], s, RetentionDeleteRow(key), s.(uploads := s.uploads - {key}));
  }

  lemma SweepRuns(s: State, e: Env, key: string) returns (actions: seq<Action>)
    requires key in s.uploads && RetentionSelects(e, s.uploads[key], s.clock) && !HasRow(s.shares, key)
    ensures Reaches(s, e, actions, Swept(s, key))
  {
    var s1 := s.(retiring := {key}, bucket := s.bucket - {key});
    var first, last := [RetentionList({key})] + [RetentionDeleteObject(key)], [RetentionDeleteShares(key)] + [RetentionDeleteRow(key)];
    SweepListsAndDeletes(s, e, key);
    SweepDropsRows(s1, e, key);
    ReachesConcat(s, e, first, s1, last, Swept(s, key));
    actions := first + last;
  }

  /** A first share may find the object in the bucket, be overtaken by the sweep, find no upload
      row to cap to, and be inserted: in any state with a file the sweep selects and that has no
      share, some run ends with a share of it that verifies while the file and its row are gone. */
  lemma SweptFileIsShared(s: State, e: Env, slug: string, key: string, id: nat, mint: Mint)
    requires Sharable(s, slug, key, id, mint) && Injective(e.hash)
    requires key in s.uploads && RetentionSelects(e, s.uploads[key], s.clock)
    ensures exists actions :: Runs(s, e, actions) &&
              var s' := Final(s, e, actions);
              && key !in s'.bucket && key !in s'.uploads
              && slug in s'.shares && s'.shares[slug].storageKey == key
              && Verify(s'.shares[slug], mint.code, s'.clock, e.hash) == Accepted
  {
    var row := FirstRow(e, slug, key, "", mint, s.clock);
    var asked := With(s, id, Caller(key, "", MintNew));
    var swept := Swept(s, key);
    FirstShareAsks(s, e, slug, key, "", id, mint);
    var sweep := SweepRuns(asked, e, key);
    ReachesConcat(s, e, AskActions(key, "", id), asked, sweep, Swept(asked, key));
    var insert := SweptShareInserts(swept, e, slug, key, id, mint);
    ReachesConcat(s, e, AskActions(key, "", id) + sweep, With(swept, id, Caller(key, "", MintNew)),
                  insert, Shared(swept, e, slug, key, "", id, mint));
    FirstRowVerifies(e, slug, key, mint, s.clock);
    assert Runs(s, e, AskActions(key, "", id) + sweep + insert);
  }

  lemma SweptShareInserts(s: State, e: Env, slug: string, key: string, id: nat, mint: Mint) returns (actions: seq<Action>)
    requires Insertable(s, slug, key, mint)
    ensures Reaches(With(s, id, Caller(key, "", MintNew)), e, actions, Shared(s, e, slug, key, "", id, mint))
  {
    var row := FirstRow(e, slug, key, "", mint, s.clock);
    FirstShareMints(s, e, slug, key, "", id, mint);
    FirstShareInserts(s, e, slug, key, "", id, mint);
    actions := MintActions(slug, id, mint) + [InsertShare(id, true)];
    ReachesConcat(With(s, id, Caller(key, "", MintNew)), e, MintActions(slug, id, mint),
                  With(s, id, Caller(key, "", Inserting(row, mint, row.expiresAt, false))).(slugs := s.slugs[slug := id]),
                  [InsertShare(id, true)], Shared(s, e, slug, key, "", id, mint));
  }

  lemma FirstRowVerifies(e: Env, slug: string, key: string, mint: Mint, now: int)
    requires GoodMint(mint) && Injective(e.hash)
    ensures Verify(FirstRow(e, slug, key, "", mint, now), mint.code, now, e.hash) == Accepted
  {
    VerifyAcceptsExactlyVariants(FirstRow(e, slug, key, "", mint, now), mint.salt, mint.code, mint.code, now, e.hash);
    CodeNormalizesToItself(mint.code);
    NormalizeMeansVariant(mint.code, mint.code);
  }
}
