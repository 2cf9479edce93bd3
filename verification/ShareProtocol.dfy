/** Creating, rotating, revoking and purging shares as an interleaved protocol
    (internal/handlers/share.go, internal/store/store.go).

    Every SQL or bucket call is one atomic action; between two actions of a request any number of
    actions of other requests, of the share purge and of the retention sweep may happen. A
    request that rotates works on a private snapshot, which may be stale when it is written
    back. A failed SQL call has no effect. Slugs and storage keys are drawn from random sources
    and assumed never to repeat.

    `lives` is a history: for every slug ever inserted it remembers what was handed out. No
    action reads it to decide anything.

    Unlocking reads the row and checks the typed code later, on what it read. */
module ShareProtocol {
  import opened Codes
  import opened Shares
  import opened Store

  /** The digest and the two retention windows. */
  datatype Env = Env(hash: Hash, ttls: Ttls)

  /** One minting: a salt and a code drawn together. */
  datatype Mint = Mint(salt: seq<Byte>, code: string)

  /** The life of one row: its fixed identity, the mintings whose codes were handed out, in the
      order their writes reached the table, whether some write landed on a row that had been
      rewritten since it was read, and, of the last write, the expiry before any cap and whether
      it found the upload's row. */
  datatype Life = Life(key: string, owner: string, handed: seq<Mint>, overlapped: bool, asked: int, capped: bool)

  datatype Reply = Handed(slug: string, code: string) | Forbidden | NotFound | Limit | Unavailable

  /** How far a request has come. `read` is the number of writes the row had seen when the
      request read it. */
  datatype Phase =
    | Looking
    | HeadNew
    | MintNew
    | CapNew(row: Row, mint: Mint)
    | Inserting(row: Row, mint: Mint, asked: int, capped: bool)
    | Relooking
    | HeadOld(row: Row, read: nat)
    | MintOld(row: Row, read: nat)
    | CapOld(row: Row, read: nat, mint: Mint)
    | Writing(row: Row, read: nat, mint: Mint, asked: int, capped: bool)
    | Done(reply: Reply)

  datatype Request = Request(key: string, user: string, recipient: string, ttl: int, phase: Phase)

  /** An unlock request that has loaded the row, and what came of it. */
  datatype Visit = Loaded(row: Row) | Checked(typed: string, at: int, verdict: Verdict)

  datatype State = State(
    shares: ShareTable, uploads: UploadTable, bucket: set<string>, clock: int,
    requests: map<nat, Request>, visits: map<nat, Visit>,
    purging: set<string>, retiring: set<string>,
    slugs: map<string, nat>,       // every slug ever drawn, with the request that drew it
    lives: map<string, Life>,      // every slug ever inserted
    births: map<string, Birth>)    // every upload ever recorded

  datatype Found = Found(slug: string) | Missing | Failed
  datatype Head = Present | Absent | Broken

  datatype Action =
    | Tick(now: int)
    | RecordUpload(key: string, owner: string, fileName: string, size: int, createdAt: int)
    | PutObject(key: string)
    | Begin(id: nat, key: string, user: string, recipient: string, ttl: int)
    | Lookup(id: nat, found: Found)
    | HeadObject(id: nat, head: Head)
    | MintShare(id: nat, slug: string, fileName: string, size: int, email: string, mint: Mint)
    | MintRotation(id: nat, mint: Mint)
    | MintFails(id: nat)
    | CapLookup(id: nat, hit: bool)
    | InsertShare(id: nat, ok: bool)
    | WriteRotation(id: nat, ok: bool)
    | LoadShare(id: nat, slug: string)
    | VerifyCode(id: nat, typed: string)
    | Revoke(user: string, slug: string)
    | PurgeList(slugs: set<string>)
    | PurgeDelete(slug: string)
    | RetentionList(keys: set<string>)
    | RetentionDeleteObject(key: string)
    | RetentionDeleteShares(key: string)
    | RetentionDeleteRow(key: string)

  // ---------------------------------------------------------------- retention windows

  /** The expiry stored by a writer that found the upload: what was asked for, cut to the
      deadline when the window is positive. */
  function CappedAt(t: Ttls, b: Birth, asked: int): int {
    if Window(t, b.owner) > 0 && asked > Deadline(t, b) then Deadline(t, b) else asked
  }

  /** What `capToRetention` leaves of the row when it finds the upload. */
  function Capped(e: Env, row: Row, up: Upload): Row {
    row.(expiresAt := CappedAt(e.ttls, BirthOf(up), row.expiresAt))
  }

  predicate RetentionSelects(e: Env, up: Upload, now: int) {
    PastCutoff(up, now - e.ttls.anon, now - e.ttls.owned)
  }

  // ---------------------------------------------------------------- steps

  predicate GoodMint(m: Mint) {
    |m.salt| == SALT_LENGTH && CodeText(m.code)
  }

  predicate Owns(user: string, owner: string) {
    owner == "" || user == owner
  }

  /** The actions of the requests that share files. */
  predicate RequestStep(a: Action) {
    a.Begin? || a.Lookup? || a.HeadObject? || a.MintShare? || a.MintRotation? || a.MintFails? || a.CapLookup?
    || a.InsertShare? || a.WriteRotation?
  }

  predicate RequestEnabled(s: State, a: Action)
    requires RequestStep(a)
  {
    if a.Begin? then a.id !in s.requests
    else
      && a.id in s.requests
      && var r := s.requests[a.id];
         match a
         case Lookup(_, found) =>
           && (r.phase.Looking? || r.phase.Relooking?)
           && (found.Found? ==> found.slug in s.shares && s.shares[found.slug].storageKey == r.key)
           && (found.Missing? ==> forall slug :: slug in s.shares ==> s.shares[slug].storageKey != r.key)
         case HeadObject(_, head) =>
           && (r.phase.HeadNew? || r.phase.HeadOld?)
           && (head.Present? ==> r.key in s.bucket) && (head.Absent? ==> r.key !in s.bucket)
         case MintShare(_, slug, _, _, _, mint) => r.phase.MintNew? && slug !in s.slugs && GoodMint(mint)
         case MintRotation(_, mint) => r.phase.MintOld? && GoodMint(mint)
         case MintFails(_) => r.phase.MintNew? || r.phase.MintOld?
         case CapLookup(_, hit) => (r.phase.CapNew? || r.phase.CapOld?) && (hit ==> r.key in s.uploads)
         case InsertShare(_, ok) => r.phase.Inserting? && (ok ==> CanInsert(s.shares, r.phase.row))
         case WriteRotation(_, _) => r.phase.Writing?
  }

  predicate Enabled(s: State, e: Env, a: Action) {
    if RequestStep(a) then RequestEnabled(s, a)
    else
      match a
      case Tick(now) => now >= s.clock
      case RecordUpload(key, _, _, _, createdAt) => key !in s.births && createdAt <= s.clock
      case PutObject(_) => true
      case LoadShare(id, slug) => id !in s.visits && slug in s.shares
      case VerifyCode(id, _) => id in s.visits && s.visits[id].Loaded?
      case Revoke(user, _) => user != ""
      case PurgeList(slugs) => forall slug :: slug in slugs ==> slug in s.shares && s.shares[slug].expiresAt < s.clock
      case PurgeDelete(slug) => slug in s.purging
      case RetentionList(keys) => forall key :: key in keys ==> key in s.uploads && RetentionSelects(e, s.uploads[key], s.clock)
      case RetentionDeleteObject(key) => key in s.retiring
      case RetentionDeleteShares(key) => key in s.retiring
      case RetentionDeleteRow(key) => key in s.retiring
  }

  function Moved(s: State, id: nat, phase: Phase): map<nat, Request>
    requires id in s.requests
  {
    s.requests[id := s.requests[id].(phase := phase)]
  }

  function Advance(s: State, id: nat, phase: Phase): State
    requires id in s.requests
  {
    s.(requests := Moved(s, id, phase))
  }

  /** Reading the row of an existing share: refused for anyone but its owner. */
  function AfterFound(s: State, r: Request, slug: string): Phase
    requires slug in s.shares
  {
    var row := s.shares[slug];
    if !Owns(r.user, row.ownerId) then Done(Forbidden)
    else HeadOld(row.(recipientEmail := r.recipient), if slug in s.lives then |s.lives[slug].handed| else 0)
  }

  function AfterLookup(s: State, r: Request, found: Found): Phase
    requires found.Found? ==> found.slug in s.shares
  {
    match found
    case Found(slug) => AfterFound(s, r, slug)
    case Missing => if r.phase.Looking? then HeadNew else Done(Unavailable)
    case Failed => Done(Unavailable)
  }

  function AfterHead(phase: Phase, head: Head): Phase
    requires phase.HeadNew? || phase.HeadOld?
  {
    match head
    case Present => if phase.HeadNew? then MintNew else MintOld(phase.row, phase.read)
    case Absent => Done(NotFound)
    case Broken => Done(Unavailable)
  }

  /** `Rotate` refuses once the snapshot's count has reached the limit. */
  function AfterRotation(e: Env, phase: Phase, ttl: int, mint: Mint, now: int): Phase
    requires phase.MintOld?
  {
    if phase.row.shareCount >= MAX_SHARE_COUNT then Done(Limit)
    else CapOld(RotatedRow(phase.row, ttl, mint.code, mint.salt, now, e.hash), phase.read, mint)
  }

  function AfterCap(s: State, e: Env, r: Request, hit: bool): Phase
    requires r.phase.CapNew? || r.phase.CapOld?
    requires hit ==> r.key in s.uploads
  {
    var row := if hit then Capped(e, r.phase.row, s.uploads[r.key]) else r.phase.row;
    if r.phase.CapNew? then Inserting(row, r.phase.mint, r.phase.row.expiresAt, hit)
    else Writing(row, r.phase.read, r.phase.mint, r.phase.row.expiresAt, hit)
  }

  /** The life of a row begins with the first code. */
  function NewLife(p: Phase): Life
    requires p.Inserting?
  {
    Life(p.row.storageKey, p.row.ownerId, [p.mint], false, p.asked, p.capped)
  }

  function InsertStep(s: State, id: nat, ok: bool): State
    requires id in s.requests && s.requests[id].phase.Inserting?
  {
    var p := s.requests[id].phase;
    if !ok then Advance(s, id, Relooking)
    else
      s.(requests := Moved(s, id, Done(Handed(p.row.slug, p.mint.code))),
         shares := s.shares[p.row.slug := p.row],
         lives := s.lives[p.row.slug := NewLife(p)])
  }

  /** What the write of a rotation adds to the life of its row. */
  function Written(life: Life, p: Phase): Life
    requires p.Writing?
  {
    life.(handed := life.handed + [p.mint], overlapped := life.overlapped || p.read != |life.handed|,
          asked := p.asked, capped := p.capped)
  }

  /** The write is keyed by slug alone: whatever the row became since the snapshot was read, it
      gets the snapshot's code, expiry and count. */
  function WriteStep(s: State, id: nat, ok: bool): State
    requires id in s.requests && s.requests[id].phase.Writing?
  {
    var p := s.requests[id].phase;
    if !(ok && p.row.slug in s.shares && p.row.slug in s.lives) then Advance(s, id, Done(Unavailable))
    else
      s.(requests := Moved(s, id, Done(Handed(p.row.slug, p.mint.code))),
         shares := Rotate(s.shares, p.row),
         lives := s.lives[p.row.slug := Written(s.lives[p.row.slug], p)])
  }

  /** Where a step that writes no row takes its request. */
  function NextPhase(s: State, e: Env, a: Action): Phase
    requires RequestStep(a) && RequestEnabled(s, a) && !a.Begin? && !a.InsertShare? && !a.WriteRotation?
  {
    var r := s.requests[a.id];
    match a
    case Lookup(_, found) => AfterLookup(s, r, found)
    case HeadObject(_, head) => AfterHead(r.phase, head)
    case MintShare(_, slug, fileName, size, email, mint) =>
      CapNew(NewRow(slug, r.key, fileName, size, r.user, email, r.recipient, r.ttl, mint.code, mint.salt, s.clock, e.hash), mint)
    case MintRotation(_, mint) => AfterRotation(e, r.phase, r.ttl, mint, s.clock)
    case MintFails(_) => Done(Unavailable)
    case CapLookup(_, hit) => AfterCap(s, e, r, hit)
  }

  function ApplyRequest(s: State, e: Env, a: Action): State
    requires RequestStep(a) && RequestEnabled(s, a)
  {
    if a.Begin? then s.(requests := s.requests[a.id := Request(a.key, a.user, a.recipient, a.ttl, Looking)])
    else if a.InsertShare? then InsertStep(s, a.id, a.ok)
    else if a.WriteRotation? then WriteStep(s, a.id, a.ok)
    else
      s.(requests := Moved(s, a.id, NextPhase(s, e, a)),
         slugs := if a.MintShare? then s.slugs[a.slug := a.id] else s.slugs)
  }

  function Apply(s: State, e: Env, a: Action): State
    requires Enabled(s, e, a)
  {
    if RequestStep(a) then ApplyRequest(s, e, a)
    else
      match a
      case Tick(now) => s.(clock := now)
      case RecordUpload(key, owner, fileName, size, createdAt) =>
        s.(uploads := Record(s.uploads, Upload(key, owner, fileName, size, createdAt, 0)),
           births := s.births[key := Birth(owner, createdAt)])
      case PutObject(key) => s.(bucket := s.bucket + {key})
      case LoadShare(id, slug) => s.(visits := s.visits[id := Loaded(s.shares[slug])])
      case VerifyCode(id, typed) =>
        s.(visits := s.visits[id := Checked(typed, s.clock, Verify(s.visits[id].row, typed, s.clock, e.hash))])
      case Revoke(user, slug) => s.(shares := DeleteOwned(s.shares, slug, user))
      case PurgeList(slugs) => s.(purging := slugs)
      case PurgeDelete(slug) => s.(shares := s.shares - {slug})
      case RetentionList(keys) => s.(retiring := keys)
      case RetentionDeleteObject(key) => s.(bucket := s.bucket - {key})
      case RetentionDeleteShares(key) => s.(shares := WithoutKey(s.shares, key))
      case RetentionDeleteRow(key) => s.(uploads := s.uploads - {key})
  }

  function Init(clock: int): State {
    State(map[], map[], {}, clock, map[], map[], {}, {}, map[], map[], map[])
  }

  // ---------------------------------------------------------------- the invariant

  /** The stored expiry is the one asked for, cut to the deadline by a writer that found the
      upload. */
  predicate ExpiryOk(t: Ttls, births: map<string, Birth>, key: string, asked: int, capped: bool, expiresAt: int) {
    if capped then key in births && expiresAt == CappedAt(t, births[key], asked) else expiresAt == asked
  }

  predicate RowOk(e: Env, births: map<string, Birth>, slug: string, row: Row, life: Life) {
    var n := |life.handed|;
    && row.slug == slug && row.storageKey == life.key && row.ownerId == life.owner
    && 1 <= row.shareCount <= MAX_SHARE_COUNT && row.shareCount <= n
    && (life.overlapped <==> row.shareCount < n)
    && (n >= 2 ==> row.shareCount >= 2)
    && (forall i :: 0 <= i < n ==> GoodMint(life.handed[i]))
    && Carries(row, life.handed[n - 1].salt, life.handed[n - 1].code, e.hash)
    && ExpiryOk(e.ttls, births, life.key, life.asked, life.capped, row.expiresAt)
  }

  /** A snapshot with count `count`, read after `read` writes of the row's life. */
  predicate SnapshotOk(life: Life, user: string, row: Row, count: int, read: nat) {
    && row.storageKey == life.key && row.ownerId == life.owner && Owns(user, life.owner)
    && 1 <= read <= |life.handed|
    && 1 <= count <= MAX_SHARE_COUNT && (count >= 2 ==> read >= 2)
    && (!life.overlapped ==> count == read)
  }

  predicate FreshOk(slugs: map<string, nat>, lives: map<string, Life>, e: Env, id: nat, r: Request, row: Row, mint: Mint) {
    && row.slug in slugs && slugs[row.slug] == id && row.slug !in lives
    && row.storageKey == r.key && row.ownerId == r.user && row.shareCount == 1
    && GoodMint(mint) && Carries(row, mint.salt, mint.code, e.hash)
  }

  predicate SnapshotIn(lives: map<string, Life>, r: Request, row: Row, count: int, read: nat) {
    row.slug in lives && row.storageKey == r.key && SnapshotOk(lives[row.slug], r.user, row, count, read)
  }

  predicate RotationOk(lives: map<string, Life>, e: Env, r: Request, row: Row, read: nat, mint: Mint) {
    && SnapshotIn(lives, r, row, row.shareCount - 1, read)
    && row.shareCount <= MAX_SHARE_COUNT
    && GoodMint(mint) && Carries(row, mint.salt, mint.code, e.hash)
  }

  predicate RequestOk(slugs: map<string, nat>, lives: map<string, Life>, births: map<string, Birth>, e: Env, id: nat, r: Request) {
    match r.phase
    case CapNew(row, mint) => FreshOk(slugs, lives, e, id, r, row, mint)
    case Inserting(row, mint, asked, capped) =>
      FreshOk(slugs, lives, e, id, r, row, mint) && ExpiryOk(e.ttls, births, r.key, asked, capped, row.expiresAt)
    case HeadOld(row, read) => SnapshotIn(lives, r, row, row.shareCount, read)
    case MintOld(row, read) => SnapshotIn(lives, r, row, row.shareCount, read)
    case CapOld(row, read, mint) => RotationOk(lives, e, r, row, read, mint)
    case Writing(row, read, mint, asked, capped) =>
      RotationOk(lives, e, r, row, read, mint) && ExpiryOk(e.ttls, births, r.key, asked, capped, row.expiresAt)
    case _ => true
  }

  ghost predicate RowsOk(shares: ShareTable, lives: map<string, Life>, births: map<string, Birth>, e: Env) {
    forall slug :: slug in shares ==> slug in lives && RowOk(e, births, slug, shares[slug], lives[slug])
  }

  ghost predicate UploadsOk(uploads: UploadTable, births: map<string, Birth>) {
    forall key :: key in uploads ==>
      key in births && uploads[key].storageKey == key && births[key] == BirthOf(uploads[key])
  }

  ghost predicate RequestsOk(slugs: map<string, nat>, lives: map<string, Life>, births: map<string, Birth>, e: Env,
                             requests: map<nat, Request>) {
    forall id :: id in requests ==> RequestOk(slugs, lives, births, e, id, requests[id])
  }

  ghost predicate Inv(s: State, e: Env) {
    && Keyed(s.shares)
    && RowsOk(s.shares, s.lives, s.births, e)
    && RequestsOk(s.slugs, s.lives, s.births, e, s.requests)
    && UploadsOk(s.uploads, s.births)
    && s.lives.Keys <= s.slugs.Keys
  }

  lemma InitInv(clock: int, e: Env)
    ensures Inv(Init(clock), e)
  {
  }

  // ---------------------------------------------------------------- what stays true as histories grow

  predicate LifeExtends(l: Life, l': Life) {
    l'.key == l.key && l'.owner == l.owner && |l.handed| <= |l'.handed| && (l.overlapped ==> l'.overlapped)
  }

  ghost predicate LivesExtend(lives: map<string, Life>, lives': map<string, Life>) {
    forall slug :: slug in lives ==> slug in lives' && LifeExtends(lives[slug], lives'[slug])
  }

  ghost predicate BirthsExtend(births: map<string, Birth>, births': map<string, Birth>) {
    forall key :: key in births ==> key in births' && births'[key] == births[key]
  }

  /** A request stays in order while slugs are drawn, uploads recorded and other rows written,
      as long as nobody else inserts the slug it drew. */
  lemma RequestStaysOk(slugs: map<string, nat>, lives: map<string, Life>, births: map<string, Birth>,
                       slugs': map<string, nat>, lives': map<string, Life>, births': map<string, Birth>,
                       e: Env, id: nat, r: Request)
    requires RequestOk(slugs, lives, births, e, id, r)
    requires forall slug :: slug in slugs ==> slug in slugs' && slugs'[slug] == slugs[slug]
    requires LivesExtend(lives, lives') && BirthsExtend(births, births')
    requires forall slug :: slug in lives' && slug !in lives ==> slug in slugs && slugs[slug] != id
    ensures RequestOk(slugs', lives', births', e, id, r)
  {
  }

  // ---------------------------------------------------------------- preservation

  lemma AdvanceKeepsInv(s: State, e: Env, id: nat, phase: Phase)
    requires Inv(s, e) && id in s.requests
    requires RequestOk(s.slugs, s.lives, s.births, e, id, s.requests[id].(phase := phase))
    ensures Inv(Advance(s, id, phase), e)
  {
  }

  lemma LookupIsOk(s: State, e: Env, a: Action)
    requires Inv(s, e) && a.Lookup? && RequestEnabled(s, a)
    ensures RequestOk(s.slugs, s.lives, s.births, e, a.id, s.requests[a.id].(phase := NextPhase(s, e, a)))
  {
    if a.found.Found? {
      var slug := a.found.slug;
      assert RowOk(e, s.births, slug, s.shares[slug], s.lives[slug]);
    }
  }

  lemma CapIsOk(s: State, e: Env, a: Action)
    requires Inv(s, e) && a.CapLookup? && RequestEnabled(s, a)
    ensures RequestOk(s.slugs, s.lives, s.births, e, a.id, s.requests[a.id].(phase := NextPhase(s, e, a)))
  {
    assert RequestOk(s.slugs, s.lives, s.births, e, a.id, s.requests[a.id]);
  }

  lemma HeadIsOk(s: State, e: Env, a: Action)
    requires Inv(s, e) && a.HeadObject? && RequestEnabled(s, a)
    ensures RequestOk(s.slugs, s.lives, s.births, e, a.id, s.requests[a.id].(phase := NextPhase(s, e, a)))
  {
    assert RequestOk(s.slugs, s.lives, s.births, e, a.id, s.requests[a.id]);
  }

  lemma MintIsOk(s: State, e: Env, a: Action)
    requires Inv(s, e) && (a.MintRotation? || a.MintFails?) && RequestEnabled(s, a)
    ensures RequestOk(s.slugs, s.lives, s.births, e, a.id, s.requests[a.id].(phase := NextPhase(s, e, a)))
  {
    assert RequestOk(s.slugs, s.lives, s.births, e, a.id, s.requests[a.id]);
  }

  lemma MiddleStepKeepsInv(s: State, e: Env, a: Action)
    requires Inv(s, e) && RequestStep(a) && RequestEnabled(s, a)
    requires !a.Begin? && !a.MintShare? && !a.InsertShare? && !a.WriteRotation?
    ensures Inv(Advance(s, a.id, NextPhase(s, e, a)), e)
  {
    if a.Lookup? {
      LookupIsOk(s, e, a);
    } else if a.HeadObject? {
      HeadIsOk(s, e, a);
    } else if a.CapLookup? {
      CapIsOk(s, e, a);
    } else {
      MintIsOk(s, e, a);
    }
    AdvanceKeepsInv(s, e, a.id, NextPhase(s, e, a));
  }

  ghost predicate SlugsExtend(slugs: map<string, nat>, slugs': map<string, nat>) {
    forall slug :: slug in slugs ==> slug in slugs' && slugs'[slug] == slugs[slug]
  }

  /** Request `id` moves to `r` while histories grow; a slug inserted on the way was drawn by
      `id`. */
  lemma RequestsStayOk(slugs: map<string, nat>, lives: map<string, Life>, births: map<string, Birth>,
                       slugs': map<string, nat>, lives': map<string, Life>, births': map<string, Birth>,
                       e: Env, requests: map<nat, Request>, id: nat, r: Request)
    requires RequestsOk(slugs, lives, births, e, requests) && RequestOk(slugs', lives', births', e, id, r)
    requires SlugsExtend(slugs, slugs') && LivesExtend(lives, lives') && BirthsExtend(births, births')
    requires forall slug :: slug in lives' && slug !in lives ==> slug in slugs && slugs[slug] == id
    ensures RequestsOk(slugs', lives', births', e, requests[id := r])
  {
    forall other | other in requests && other != id
      ensures RequestOk(slugs', lives', births', e, other, requests[other])
    {
      RequestStaysOk(slugs, lives, births, slugs', lives', births', e, other, requests[other]);
    }
  }

  lemma SlugExtends(slugs: map<string, nat>, slug: string, id: nat)
    requires slug !in slugs
    ensures SlugsExtend(slugs, slugs[slug := id])
  {
  }

  lemma MintShareKeepsInv(s: State, e: Env, a: Action)
    requires Inv(s, e) && a.MintShare? && RequestEnabled(s, a)
    ensures Inv(ApplyRequest(s, e, a), e)
  {
    var r' := s.requests[a.id].(phase := NextPhase(s, e, a));
    SlugExtends(s.slugs, a.slug, a.id);
    RequestsStayOk(s.slugs, s.lives, s.births, s.slugs[a.slug := a.id], s.lives, s.births, e, s.requests, a.id, r');
  }

  lemma BirthExtends(births: map<string, Birth>, key: string, birth: Birth)
    requires key !in births
    ensures BirthsExtend(births, births[key := birth])
  {
  }

  lemma RowsKnowMore(e: Env, births: map<string, Birth>, births': map<string, Birth>, shares: ShareTable, lives: map<string, Life>)
    requires RowsOk(shares, lives, births, e) && BirthsExtend(births, births')
    ensures RowsOk(shares, lives, births', e)
  {
    forall slug | slug in shares
      ensures slug in lives && RowOk(e, births', slug, shares[slug], lives[slug])
    {
      assert RowOk(e, births, slug, shares[slug], lives[slug]);
    }
  }

  lemma RequestsKnowMore(slugs: map<string, nat>, lives: map<string, Life>, births: map<string, Birth>,
                         births': map<string, Birth>, e: Env, requests: map<nat, Request>)
    requires RequestsOk(slugs, lives, births, e, requests) && BirthsExtend(births, births')
    ensures RequestsOk(slugs, lives, births', e, requests)
  {
    forall id | id in requests
      ensures RequestOk(slugs, lives, births', e, id, requests[id])
    {
      RequestStaysOk(slugs, lives, births, slugs, lives, births', e, id, requests[id]);
    }
  }

  lemma UploadRecorded(uploads: UploadTable, births: map<string, Birth>, up: Upload)
    requires UploadsOk(uploads, births) && up.storageKey !in births
    ensures UploadsOk(Record(uploads, up), births[up.storageKey := BirthOf(up)])
  {
  }

  /** A recorded upload is a new key: nothing any request or row knows about another changes. */
  lemma RecordUploadKeepsInv(s: State, e: Env, a: Action)
    requires Inv(s, e) && a.RecordUpload? && Enabled(s, e, a)
    ensures Inv(Apply(s, e, a), e)
  {
    var births' := s.births[a.key := Birth(a.owner, a.createdAt)];
    BirthExtends(s.births, a.key, Birth(a.owner, a.createdAt));
    RowsKnowMore(e, s.births, births', s.shares, s.lives);
    RequestsKnowMore(s.slugs, s.lives, s.births, births', e, s.requests);
    UploadRecorded(s.uploads, s.births, Upload(a.key, a.owner, a.fileName, a.size, a.createdAt, 0));
  }

  lemma LifeExtendsLives(lives: map<string, Life>, slug: string, life: Life)
    requires slug in lives ==> LifeExtends(lives[slug], life)
    ensures LivesExtend(lives, lives[slug := life])
  {
  }

  lemma InsertedRows(e: Env, births: map<string, Birth>, shares: ShareTable, lives: map<string, Life>, row: Row, life: Life)
    requires RowsOk(shares, lives, births, e) && row.slug !in shares && RowOk(e, births, row.slug, row, life)
    ensures RowsOk(shares[row.slug := row], lives[row.slug := life], births, e)
  {
  }

  lemma NewRowIsOk(e: Env, births: map<string, Birth>, key: string, p: Phase)
    requires p.Inserting? && p.row.storageKey == key && p.row.shareCount == 1
    requires GoodMint(p.mint) && Carries(p.row, p.mint.salt, p.mint.code, e.hash)
    requires ExpiryOk(e.ttls, births, key, p.asked, p.capped, p.row.expiresAt)
    ensures RowOk(e, births, p.row.slug, p.row, NewLife(p))
  {
  }

  lemma InsertKeepsInv(s: State, e: Env, a: Action)
    requires Inv(s, e) && a.InsertShare? && RequestEnabled(s, a)
    ensures Inv(InsertStep(s, a.id, a.ok), e)
  {
    var r := s.requests[a.id];
    assert RequestOk(s.slugs, s.lives, s.births, e, a.id, r);
    if a.ok {
      var p, slug := r.phase, r.phase.row.slug;
      InsertKeepsKeyed(s.shares, p.row);
      NewRowIsOk(e, s.births, r.key, p);
      InsertedRows(e, s.births, s.shares, s.lives, p.row, NewLife(p));
      LifeExtendsLives(s.lives, slug, NewLife(p));
      RequestsStayOk(s.slugs, s.lives, s.births, s.slugs, s.lives[slug := NewLife(p)], s.births, e, s.requests, a.id,
                     r.(phase := Done(Handed(slug, p.mint.code))));
    } else {
      AdvanceKeepsInv(s, e, a.id, Relooking);
    }
  }

  /** The heart of the protocol: what a write does to a row, whatever happened to the row since
      the snapshot was read. */
  lemma WriteKeepsRowOk(e: Env, births: map<string, Birth>, stored: Row, life: Life, r: Request, p: Phase)
    requires p.Writing? && RowOk(e, births, p.row.slug, stored, life)
    requires SnapshotOk(life, r.user, p.row, p.row.shareCount - 1, p.read) && p.row.storageKey == r.key
    requires p.row.shareCount <= MAX_SHARE_COUNT
    requires GoodMint(p.mint) && Carries(p.row, p.mint.salt, p.mint.code, e.hash)
    requires ExpiryOk(e.ttls, births, r.key, p.asked, p.capped, p.row.expiresAt)
    ensures RowOk(e, births, p.row.slug, Overwrite(stored, p.row), Written(life, p))
  {
  }

  lemma WrittenKeepsRows(e: Env, births: map<string, Birth>, shares: ShareTable, lives: map<string, Life>, r: Request)
    requires r.phase.Writing? && r.phase.row.slug in shares && r.phase.row.slug in lives
    requires RowsOk(shares, lives, births, e) && RotationOk(lives, e, r, r.phase.row, r.phase.read, r.phase.mint)
    requires ExpiryOk(e.ttls, births, r.key, r.phase.asked, r.phase.capped, r.phase.row.expiresAt)
    ensures var (p, mine) := (r.phase, r.phase.row.slug);
            RowsOk(Rotate(shares, p.row), lives[mine := Written(lives[mine], p)], births, e)
  {
    var p, mine := r.phase, r.phase.row.slug;
    WriteKeepsRowOk(e, births, shares[mine], lives[mine], r, p);
    forall slug | slug in shares && slug != mine
      ensures slug in lives && RowOk(e, births, slug, shares[slug], lives[slug])
    {
    }
  }

  lemma WriteKeepsInv(s: State, e: Env, a: Action)
    requires Inv(s, e) && a.WriteRotation? && RequestEnabled(s, a)
    ensures Inv(WriteStep(s, a.id, a.ok), e)
  {
    var r := s.requests[a.id];
    assert RequestOk(s.slugs, s.lives, s.births, e, a.id, r);
    if a.ok && r.phase.row.slug in s.shares {
      var p, slug := r.phase, r.phase.row.slug;
      var life' := Written(s.lives[slug], p);
      WrittenKeepsRows(e, s.births, s.shares, s.lives, r);
      RotateKeepsKeyed(s.shares, p.row);
      LifeExtendsLives(s.lives, slug, life');
      RequestsStayOk(s.slugs, s.lives, s.births, s.slugs, s.lives[slug := life'], s.births, e, s.requests, a.id,
                     r.(phase := Done(Handed(slug, p.mint.code))));
    } else {
      AdvanceKeepsInv(s, e, a.id, Done(Unavailable));
    }
  }

  lemma RequestStepKeepsInv(s: State, e: Env, a: Action)
    requires Inv(s, e) && RequestStep(a) && RequestEnabled(s, a)
    ensures Inv(ApplyRequest(s, e, a), e)
  {
    if a.InsertShare? {
      InsertKeepsInv(s, e, a);
    } else if a.WriteRotation? {
      WriteKeepsInv(s, e, a);
    } else if a.MintShare? {
      MintShareKeepsInv(s, e, a);
    } else if !a.Begin? {
      MiddleStepKeepsInv(s, e, a);
    }
  }

  /** Everybody else leaves the requests and the histories alone and rewrites no row. */
  lemma OtherStep(s: State, e: Env, a: Action)
    requires Enabled(s, e, a) && !RequestStep(a)
    ensures var s' := Apply(s, e, a);
            && s'.requests == s.requests && s'.lives == s.lives && s'.slugs == s.slugs
            && (!a.RecordUpload? ==> s'.births == s.births)
            && (forall slug :: slug in s'.shares ==> slug in s.shares && s'.shares[slug] == s.shares[slug])
            && (!a.RecordUpload? ==> forall key :: key in s'.uploads ==> key in s.uploads && s'.uploads[key] == s.uploads[key])
  {
  }

  lemma OtherStepKeepsInv(s: State, e: Env, a: Action)
    requires Inv(s, e) && Enabled(s, e, a) && !RequestStep(a) && !a.RecordUpload?
    ensures Inv(Apply(s, e, a), e)
  {
    OtherStep(s, e, a);
  }

  lemma StepKeepsInv(s: State, e: Env, a: Action)
    requires Inv(s, e) && Enabled(s, e, a)
    ensures Inv(Apply(s, e, a), e)
  {
    if RequestStep(a) {
      RequestStepKeepsInv(s, e, a);
    } else if a.RecordUpload? {
      RecordUploadKeepsInv(s, e, a);
    } else {
      OtherStepKeepsInv(s, e, a);
    }
  }
}
