/** Guessing a share's code: the two limiters in front of `Verify`
    (internal/handlers/share.go, UnlockShare).

    Any number of unlock requests are in flight. Each limiter call is one atomic step (it holds
    the limiter's mutex) and reads its own clock, so the calls of different requests interleave
    freely: a request that passed the per-slug limiter may reach the per-IP limiter much later. */
module UnlockLimits {
  import opened RateLimiter
  import Codes

  const MINUTE := 60_000_000_000
  const SLUG_LIMIT := Config(30, MINUTE, 10000)
  const IP_LIMIT := Config(10, MINUTE, 10000)

  datatype Outcome = Pending | Refused | Admitted(at: int) | Checked(admittedAt: int)

  /** A request that passed the per-slug limiter at `slugAt`, and how it went on. */
  datatype Request = Request(slug: string, ip: string, slugAt: int, outcome: Outcome)

  datatype State = State(
    slugCalls: seq<Call>, slugEvents: Events,
    ipCalls: seq<Call>, ipEvents: Events,
    requests: seq<Request>, clock: int)

  datatype Action =
    | Arrive(slug: string, ip: string, at: int)  // validation, then the per-slug limiter
    | CheckIp(i: nat, at: int)                   // the per-IP limiter
    | VerifyCode(i: nat)                         // the code check itself; binding or loading may fail instead

  function Init(clock: int): State {
    State([], map[], [], map[], [], clock)
  }

  /** The per-IP limiter's key. */
  function Joined(slug: string, ip: string): string {
    slug + "|" + ip
  }

  predicate Enabled(s: State, a: Action) {
    match a
    case Arrive(_, _, at) => at >= s.clock
    case CheckIp(i, at) => at >= s.clock && i < |s.requests| && s.requests[i].outcome.Pending?
    case VerifyCode(i) => i < |s.requests| && s.requests[i].outcome.Admitted?
  }

  function Apply(s: State, a: Action): State
    requires Enabled(s, a)
  {
    match a
    case Arrive(slug, ip, at) =>
      if !Codes.ValidSlug(slug) then s.(clock := at)
      else
        var (events, ok) := AllowStep(SLUG_LIMIT, s.slugEvents, slug, at);
        var s' := s.(slugCalls := s.slugCalls + [Call(slug, at)], slugEvents := events, clock := at);
        if ok then s'.(requests := s.requests + [Request(slug, ip, at, Pending)]) else s'
    case CheckIp(i, at) =>
      var r := s.requests[i];
      var key := Joined(r.slug, r.ip);
      var (events, ok) := AllowStep(IP_LIMIT, s.ipEvents, key, at);
      s.(ipCalls := s.ipCalls + [Call(key, at)], ipEvents := events, clock := at,
         requests := s.requests[i := r.(outcome := if ok then Admitted(at) else Refused)])
    case VerifyCode(i) =>
      var r := s.requests[i];
      s.(requests := s.requests[i := r.(outcome := Checked(r.outcome.at))])
  }

  predicate Runs(s: State, actions: seq<Action>)
    decreases |actions|
  {
    actions == [] || (Enabled(s, actions[0]) && Runs(Apply(s, actions[0]), actions[1..]))
  }

  function Final(s: State, actions: seq<Action>): State
    requires Runs(s, actions)
    decreases |actions|
  {
    if actions == [] then s else Final(Apply(s, actions[0]), actions[1..])
  }

  // ---------------------------------------------------------------- what is counted

  /** The time a request was admitted by the per-IP limiter. */
  function AdmittedAt(r: Request): Codes.Option<int> {
    match r.outcome
    case Admitted(at) => Codes.Some(at)
    case Checked(at) => Codes.Some(at)
    case _ => Codes.None
  }

  function Hit(b: bool): nat {
    if b then 1 else 0
  }

  /** Code checks of `slug` whose per-slug admission lies in (low, high]. */
  function SlugChecks(rs: seq<Request>, slug: string, low: int, high: int): nat {
    if rs == [] then 0
    else
      var r := rs[|rs| - 1];
      SlugChecks(rs[..|rs| - 1], slug, low, high)
      + Hit(r.outcome.Checked? && r.slug == slug && low < r.slugAt <= high)
  }

  /** Code checks of (slug, ip) whose per-IP admission lies in (low, high]. */
  function IpChecks(rs: seq<Request>, slug: string, ip: string, low: int, high: int): nat {
    if rs == [] then 0
    else
      var r := rs[|rs| - 1];
      IpChecks(rs[..|rs| - 1], slug, ip, low, high)
      + Hit(r.outcome.Checked? && r.slug == slug && r.ip == ip && low < r.outcome.admittedAt <= high)
  }

  /** Requests whose per-IP key is `key` and whose per-IP admission lies in (low, high]. */
  function KeyAdmissions(rs: seq<Request>, key: string, low: int, high: int): nat {
    if rs == [] then 0
    else KeyAdmissions(rs[..|rs| - 1], key, low, high) + KeyHit(rs[|rs| - 1], key, low, high)
  }

  function KeyHit(r: Request, key: string, low: int, high: int): nat {
    Hit(AdmittedAt(r).Some? && Joined(r.slug, r.ip) == key && low < AdmittedAt(r).value <= high)
  }

  // ---------------------------------------------------------------- the joined key

  /** Validated slugs have a fixed length, so the joined key determines slug and address. */
  lemma JoinedIsInjective(slug: string, ip: string, slug': string, ip': string)
    requires |slug| == |slug'| && Joined(slug, ip) == Joined(slug', ip')
    ensures slug == slug' && ip == ip'
  {
    assert slug == Joined(slug, ip)[..|slug|];
    assert slug' == Joined(slug', ip')[..|slug'|];
    assert ip == Joined(slug, ip)[|slug| + 1..];
    assert ip' == Joined(slug', ip')[|slug'| + 1..];
  }

  /** Without the fixed length it does not: whatever the three texts, these two different pairs
      share a budget. */
  lemma JoinedCollidesOnFreeLengths(a: string, b: string, c: string)
    ensures Joined(a, b + "|" + c) == Joined(a + "|" + b, c)
    ensures a != a + "|" + b
  {
    assert a + "|" + (b + "|" + c) == (a + "|" + b) + "|" + c;
    assert |a + "|" + b| > |a|;
  }

  // ---------------------------------------------------------------- the invariant

  ghost predicate Inv(s: State) {
    && LimiterInv(SLUG_LIMIT, s.slugCalls, s.slugEvents, s.clock)
    && LimiterInv(IP_LIMIT, s.ipCalls, s.ipEvents, s.clock)
    && SlugInv(s.requests, AcceptedBy(SLUG_LIMIT, s.slugCalls))
    && KeyInv(s.requests, AcceptedBy(IP_LIMIT, s.ipCalls))
  }

  ghost predicate LimiterInv(c: Config, calls: seq<Call>, events: Events, clock: int) {
    && Monotone(calls)
    && (forall i :: 0 <= i < |calls| ==> calls[i].at <= clock)
    && events == BoundedRun(c, calls).0
  }

  function AcceptedBy(c: Config, calls: seq<Call>): seq<Call> {
    Accepted(calls, BoundedRun(c, calls).1)
  }

  /** The requests are, one for one and in order, the calls the per-slug limiter accepted. */
  ghost predicate SlugInv(rs: seq<Request>, accepted: seq<Call>) {
    && |rs| == |accepted|
    && forall i :: 0 <= i < |rs| ==>
         Codes.ValidSlug(rs[i].slug) && accepted[i] == Call(rs[i].slug, rs[i].slugAt)
  }

  /** Per joined key, admissions are the calls the per-IP limiter accepted. */
  ghost predicate KeyInv(rs: seq<Request>, accepted: seq<Call>) {
    forall key, low, high :: KeyAdmissions(rs, key, low, high) == CountIn(accepted, key, low, high)
  }

  /** One call of a limiter: the table stays the outcome of all calls so far, and the accepted
      calls grow by this one exactly when it was allowed. */
  lemma {:induction false} LimiterStep(c: Config, calls: seq<Call>, events: Events, clock: int, call: Call)
    requires LimiterInv(c, calls, events, clock) && call.at >= clock
    ensures var (events', ok) := AllowStep(c, events, call.key, call.at);
            && LimiterInv(c, calls + [call], events', call.at)
            && AcceptedBy(c, calls + [call]) == if ok then AcceptedBy(c, calls) + [call] else AcceptedBy(c, calls)
  {
    assert (calls + [call])[..|calls|] == calls;
    var ds := BoundedRun(c, calls + [call]).1;
    assert ds[..|ds| - 1] == BoundedRun(c, calls).1;
  }

  lemma {:induction false} KeyAdmissionsUpdate(rs: seq<Request>, i: nat, r: Request, key: string, low: int, high: int)
    requires i < |rs|
    ensures KeyAdmissions(rs[i := r], key, low, high) ==
            KeyAdmissions(rs, key, low, high) - KeyHit(rs[i], key, low, high) + KeyHit(r, key, low, high)
  {
    var front := rs[..|rs| - 1];
    if i == |rs| - 1 {
      assert rs[i := r][..|rs| - 1] == front;
    } else {
      assert rs[i := r][..|rs| - 1] == front[i := r];
      KeyAdmissionsUpdate(front, i, r, key, low, high);
    }
  }

  /** A new pending request counts for no key. */
  lemma KeyInvArrive(rs: seq<Request>, r: Request, accepted: seq<Call>)
    requires KeyInv(rs, accepted) && r.outcome.Pending?
    ensures KeyInv(rs + [r], accepted)
  {
    forall key, low, high
      ensures KeyAdmissions(rs + [r], key, low, high) == CountIn(accepted, key, low, high)
    {
      assert (rs + [r])[..|rs|] == rs;
    }
  }

  /** Deciding a pending request counts once, for its own key, exactly when it is admitted. */
  lemma KeyInvDecide(rs: seq<Request>, i: nat, at: int, ok: bool, accepted: seq<Call>)
    requires KeyInv(rs, accepted) && i < |rs| && rs[i].outcome.Pending?
    ensures var call := Call(Joined(rs[i].slug, rs[i].ip), at);
            KeyInv(rs[i := rs[i].(outcome := if ok then Admitted(at) else Refused)],
                   if ok then accepted + [call] else accepted)
  {
    var r' := rs[i].(outcome := if ok then Admitted(at) else Refused);
    var call := Call(Joined(rs[i].slug, rs[i].ip), at);
    var accepted' := if ok then accepted + [call] else accepted;
    forall key, low, high
      ensures KeyAdmissions(rs[i := r'], key, low, high) == CountIn(accepted', key, low, high)
    {
      KeyAdmissionsUpdate(rs, i, r', key, low, high);
      CountAppend(accepted, call, key, low, high);
    }
  }

  lemma KeyInvVerify(rs: seq<Request>, i: nat, accepted: seq<Call>)
    requires KeyInv(rs, accepted) && i < |rs| && rs[i].outcome.Admitted?
    ensures KeyInv(rs[i := rs[i].(outcome := Checked(rs[i].outcome.at))], accepted)
  {
    var r' := rs[i].(outcome := Checked(rs[i].outcome.at));
    forall key, low, high
      ensures KeyAdmissions(rs[i := r'], key, low, high) == CountIn(accepted, key, low, high)
    {
      KeyAdmissionsUpdate(rs, i, r', key, low, high);
    }
  }

  lemma SlugInvArrive(rs: seq<Request>, r: Request, accepted: seq<Call>)
    requires SlugInv(rs, accepted) && Codes.ValidSlug(r.slug)
    ensures SlugInv(rs + [r], accepted + [Call(r.slug, r.slugAt)])
  {
  }

  lemma InvArrive(s: State, a: Action)
    requires Inv(s) && a.Arrive? && Enabled(s, a)
    ensures Inv(Apply(s, a))
  {
    if Codes.ValidSlug(a.slug) {
      LimiterStep(SLUG_LIMIT, s.slugCalls, s.slugEvents, s.clock, Call(a.slug, a.at));
      var r := Request(a.slug, a.ip, a.at, Pending);
      KeyInvArrive(s.requests, r, AcceptedBy(IP_LIMIT, s.ipCalls));
      SlugInvArrive(s.requests, r, AcceptedBy(SLUG_LIMIT, s.slugCalls));
      var s' := Apply(s, a);
      assert LimiterInv(IP_LIMIT, s'.ipCalls, s'.ipEvents, s'.clock);
    }
  }

  /** The per-slug side does not notice what becomes of a request. */
  lemma SlugSideUnchanged(s: State, i: nat, outcome: Outcome, clock: int)
    requires Inv(s) && i < |s.requests| && clock >= s.clock
    ensures LimiterInv(SLUG_LIMIT, s.slugCalls, s.slugEvents, clock)
    ensures SlugInv(s.requests[i := s.requests[i].(outcome := outcome)], AcceptedBy(SLUG_LIMIT, s.slugCalls))
  {
  }

  lemma InvCheckIp(s: State, a: Action)
    requires Inv(s) && a.CheckIp? && Enabled(s, a)
    ensures Inv(Apply(s, a))
  {
    var r := s.requests[a.i];
    var call := Call(Joined(r.slug, r.ip), a.at);
    LimiterStep(IP_LIMIT, s.ipCalls, s.ipEvents, s.clock, call);
    var ok := AllowStep(IP_LIMIT, s.ipEvents, call.key, a.at).1;
    KeyInvDecide(s.requests, a.i, a.at, ok, AcceptedBy(IP_LIMIT, s.ipCalls));
    SlugSideUnchanged(s, a.i, if ok then Admitted(a.at) else Refused, a.at);
  }

  lemma InvVerify(s: State, a: Action)
    requires Inv(s) && a.VerifyCode? && Enabled(s, a)
    ensures Inv(Apply(s, a))
  {
    KeyInvVerify(s.requests, a.i, AcceptedBy(IP_LIMIT, s.ipCalls));
  }

  lemma {:induction false} InvAlways(s: State, actions: seq<Action>)
    requires Inv(s) && Runs(s, actions)
    ensures Inv(Final(s, actions))
    decreases |actions|
  {
    if actions != [] {
      var a := actions[0];
      match a {
        case Arrive(_, _, _) => InvArrive(s, a);
        case CheckIp(_, _) => InvCheckIp(s, a);
        case VerifyCode(_) => InvVerify(s, a);
      }
      InvAlways(Apply(s, a), actions[1..]);
    }
  }

  lemma InitInv(clock: int)
    ensures Inv(Init(clock))
  {
  }

  // ---------------------------------------------------------------- the bounds

  lemma {:induction false} SlugChecksAreCalls(rs: seq<Request>, calls: seq<Call>, slug: string, low: int, high: int)
    requires |rs| == |calls| && forall i :: 0 <= i < |rs| ==> calls[i] == Call(rs[i].slug, rs[i].slugAt)
    ensures SlugChecks(rs, slug, low, high) <= CountIn(calls, slug, low, high)
  {
    if rs != [] {
      SlugChecksAreCalls(rs[..|rs| - 1], calls[..|calls| - 1], slug, low, high);
    }
  }

  lemma {:induction false} IpChecksAreAdmissions(rs: seq<Request>, slug: string, ip: string, low: int, high: int)
    ensures IpChecks(rs, slug, ip, low, high) <= KeyAdmissions(rs, Joined(slug, ip), low, high)
  {
    if rs != [] {
      IpChecksAreAdmissions(rs[..|rs| - 1], slug, ip, low, high);
    }
  }

  /** Over every run of any number of interleaved unlock requests, and in every window of one
      minute, at most 30 code checks of a slug were admitted by the per-slug limiter and at
      most 10 of one (slug, address) pair by the per-IP limiter. */
  lemma GuessesAreBounded(clock: int, actions: seq<Action>, slug: string, ip: string, end: int)
    requires Runs(Init(clock), actions)
    ensures var rs := Final(Init(clock), actions).requests;
            && SlugChecks(rs, slug, end - MINUTE, end) <= 30
            && IpChecks(rs, slug, ip, end - MINUTE, end) <= 10
  {
    InitInv(clock);
    InvAlways(Init(clock), actions);
    var s := Final(Init(clock), actions);
    var accepted := AcceptedBy(SLUG_LIMIT, s.slugCalls);
    SlugChecksAreCalls(s.requests, accepted, slug, end - MINUTE, end);
    WindowBound(SLUG_LIMIT, s.slugCalls, slug, end);
    IpChecksAreAdmissions(s.requests, slug, ip, end - MINUTE, end);
    WindowBound(IP_LIMIT, s.ipCalls, Joined(slug, ip), end);
  }

  // ---------------------------------------------------------------- exactly when a request is refused

  /** A limiter that has seen `calls` decides on the calls it accepted. */
  lemma LimiterDecides(c: Config, calls: seq<Call>, events: Events, clock: int, key: string, at: int)
    requires LimiterInv(c, calls, events, clock) && at >= clock && c.limit >= 1
    ensures AllowStep(c, events, key, at).1 == Admits(c, AcceptedBy(c, calls), key, at)
  {
    BoundedRefinesReference(c, calls);
    ReferenceHistoryIsAccepted(c, calls);
    var before := if calls == [] then at else calls[|calls| - 1].at;
    assert Agrees(c, events, ReferenceRun(c, calls).0, before);
    StepDecision(c, events, ReferenceRun(c, calls).0, before, key, at);
  }

  predicate AdmittedIn(r: Request, low: int, high: int) {
    AdmittedAt(r).Some? && low < AdmittedAt(r).value <= high
  }

  /** Requests of (slug, ip) admitted by the per-IP limiter in (low, high]. */
  function PairAdmissions(rs: seq<Request>, slug: string, ip: string, low: int, high: int): nat {
    if rs == [] then 0
    else
      var r := rs[|rs| - 1];
      PairAdmissions(rs[..|rs| - 1], slug, ip, low, high) + Hit(AdmittedIn(r, low, high) && r.slug == slug && r.ip == ip)
  }

  /** The other pairs with such a request. */
  function OtherPairs(rs: seq<Request>, slug: string, ip: string, low: int, high: int): set<(string, string)> {
    set i | 0 <= i < |rs| && AdmittedIn(rs[i], low, high) && (rs[i].slug, rs[i].ip) != (slug, ip) :: (rs[i].slug, rs[i].ip)
  }

  predicate AllValid(rs: seq<Request>) {
    forall i :: 0 <= i < |rs| ==> Codes.ValidSlug(rs[i].slug)
  }

  /** Validated pairs never draw on each other's budget: what counts for the joined key is what
      the pair was admitted for. */
  lemma {:induction false} AdmissionsBelongToPair(rs: seq<Request>, slug: string, ip: string, low: int, high: int)
    requires AllValid(rs) && Codes.ValidSlug(slug)
    ensures KeyAdmissions(rs, Joined(slug, ip), low, high) == PairAdmissions(rs, slug, ip, low, high)
  {
    if rs != [] {
      var r := rs[|rs| - 1];
      AdmissionsBelongToPair(rs[..|rs| - 1], slug, ip, low, high);
      if Joined(r.slug, r.ip) == Joined(slug, ip) {
        JoinedIsInjective(r.slug, r.ip, slug, ip);
      }
    }
  }

  lemma {:induction false} KeyAdmissionsPositive(rs: seq<Request>, key: string, low: int, high: int)
    ensures KeyAdmissions(rs, key, low, high) > 0 <==>
            exists i :: 0 <= i < |rs| && AdmittedIn(rs[i], low, high) && Joined(rs[i].slug, rs[i].ip) == key
  {
    if rs != [] {
      KeyAdmissionsPositive(rs[..|rs| - 1], key, low, high);
    }
  }

  function JoinedAll(pairs: set<(string, string)>): set<string> {
    set p | p in pairs :: Joined(p.0, p.1)
  }

  /** Different validated pairs have different keys. */
  lemma {:induction false} JoinedAllSize(pairs: set<(string, string)>)
    requires forall p :: p in pairs ==> |p.0| == Codes.SLUG_LENGTH
    ensures |JoinedAll(pairs)| == |pairs|
    decreases |pairs|
  {
    if pairs != {} {
      var p :| p in pairs;
      JoinedAllSize(pairs - {p});
      assert JoinedAll(pairs) == JoinedAll(pairs - {p}) + {Joined(p.0, p.1)};
      if Joined(p.0, p.1) in JoinedAll(pairs - {p}) {
        var q :| q in pairs - {p} && Joined(q.0, q.1) == Joined(p.0, p.1);
        JoinedIsInjective(p.0, p.1, q.0, q.1);
      }
    }
  }

  lemma OtherKey(rs: seq<Request>, accepted: seq<Call>, slug: string, ip: string, low: int, high: int, key: string)
    requires KeyInv(rs, accepted) && AllValid(rs) && Codes.ValidSlug(slug)
    ensures key in ActiveOthers(accepted, Joined(slug, ip), low, high) <==> key in JoinedAll(OtherPairs(rs, slug, ip, low, high))
  {
    CountPositive(accepted, key, low, high);
    KeyAdmissionsPositive(rs, key, low, high);
    assert KeyAdmissions(rs, key, low, high) == CountIn(accepted, key, low, high);
    if key in ActiveOthers(accepted, Joined(slug, ip), low, high) {
      var i :| 0 <= i < |rs| && AdmittedIn(rs[i], low, high) && Joined(rs[i].slug, rs[i].ip) == key;
      assert (rs[i].slug, rs[i].ip) in OtherPairs(rs, slug, ip, low, high);
    } else if key in JoinedAll(OtherPairs(rs, slug, ip, low, high)) {
      var p :| p in OtherPairs(rs, slug, ip, low, high) && Joined(p.0, p.1) == key;
      var i :| 0 <= i < |rs| && AdmittedIn(rs[i], low, high) && (rs[i].slug, rs[i].ip) == p && p != (slug, ip);
      if key == Joined(slug, ip) {
        JoinedIsInjective(p.0, p.1, slug, ip);
      }
    }
  }

  lemma OtherKeysAreOtherPairs(rs: seq<Request>, accepted: seq<Call>, slug: string, ip: string, low: int, high: int)
    requires KeyInv(rs, accepted) && AllValid(rs) && Codes.ValidSlug(slug)
    ensures |ActiveOthers(accepted, Joined(slug, ip), low, high)| == |OtherPairs(rs, slug, ip, low, high)|
  {
    forall key
      ensures key in ActiveOthers(accepted, Joined(slug, ip), low, high) <==> key in JoinedAll(OtherPairs(rs, slug, ip, low, high))
    {
      OtherKey(rs, accepted, slug, ip, low, high, key);
    }
    JoinedAllSize(OtherPairs(rs, slug, ip, low, high));
    assert ActiveOthers(accepted, Joined(slug, ip), low, high) == JoinedAll(OtherPairs(rs, slug, ip, low, high));
  }

  /** In every run, the per-IP limiter refuses a request exactly when ten requests of the same
      slug and address were admitted in the last minute, or ten thousand other pairs had one
      admitted. */
  lemma IpRefusesExactly(clock: int, actions: seq<Action>, i: nat, at: int)
    requires Runs(Init(clock), actions) && Enabled(Final(Init(clock), actions), CheckIp(i, at))
    ensures var s := Final(Init(clock), actions);
            var r, low := s.requests[i], at - MINUTE;
            Apply(s, CheckIp(i, at)).requests[i].outcome ==
            if PairAdmissions(s.requests, r.slug, r.ip, low, at) >= 10 || |OtherPairs(s.requests, r.slug, r.ip, low, at)| >= 10000
            then Refused else Admitted(at)
  {
    InitInv(clock);
    InvAlways(Init(clock), actions);
    var s := Final(Init(clock), actions);
    PairDecision(s.requests, AcceptedBy(IP_LIMIT, s.ipCalls), s.requests[i].slug, s.requests[i].ip, at - MINUTE, at);
    LimiterDecides(IP_LIMIT, s.ipCalls, s.ipEvents, s.clock, Joined(s.requests[i].slug, s.requests[i].ip), at);
  }

  lemma PairDecision(rs: seq<Request>, accepted: seq<Call>, slug: string, ip: string, low: int, at: int)
    requires KeyInv(rs, accepted) && AllValid(rs) && Codes.ValidSlug(slug) && low == at - MINUTE
    ensures Admits(IP_LIMIT, accepted, Joined(slug, ip), at) <==>
            PairAdmissions(rs, slug, ip, low, at) < 10 && |OtherPairs(rs, slug, ip, low, at)| < 10000
  {
    assert KeyAdmissions(rs, Joined(slug, ip), low, at) == CountIn(accepted, Joined(slug, ip), low, at);
    AdmissionsBelongToPair(rs, slug, ip, low, at);
    OtherKeysAreOtherPairs(rs, accepted, slug, ip, low, at);
  }

  /** Requests of the slug that passed the per-slug limiter in (low, high]. */
  function SlugAdmissions(rs: seq<Request>, slug: string, low: int, high: int): nat {
    if rs == [] then 0
    else
      var r := rs[|rs| - 1];
      SlugAdmissions(rs[..|rs| - 1], slug, low, high) + Hit(r.slug == slug && low < r.slugAt <= high)
  }

  function OtherSlugs(rs: seq<Request>, slug: string, low: int, high: int): set<string> {
    set i | 0 <= i < |rs| && rs[i].slug != slug && low < rs[i].slugAt <= high :: rs[i].slug
  }

  lemma {:induction false} SlugAdmissionsAreCalls(rs: seq<Request>, calls: seq<Call>, slug: string, low: int, high: int)
    requires |rs| == |calls| && forall i :: 0 <= i < |rs| ==> calls[i] == Call(rs[i].slug, rs[i].slugAt)
    ensures SlugAdmissions(rs, slug, low, high) == CountIn(calls, slug, low, high)
  {
    if rs != [] {
      SlugAdmissionsAreCalls(rs[..|rs| - 1], calls[..|calls| - 1], slug, low, high);
    }
  }

  lemma OtherSlugsAreCalls(rs: seq<Request>, calls: seq<Call>, slug: string, low: int, high: int)
    requires |rs| == |calls| && forall i :: 0 <= i < |rs| ==> calls[i] == Call(rs[i].slug, rs[i].slugAt)
    ensures OtherSlugs(rs, slug, low, high) == ActiveOthers(calls, slug, low, high)
  {
    forall k | k in OtherSlugs(rs, slug, low, high)
      ensures k in ActiveOthers(calls, slug, low, high)
    {
      var i :| 0 <= i < |rs| && rs[i].slug != slug && low < rs[i].slugAt <= high && rs[i].slug == k;
      assert calls[i].key == k && calls[i].at == rs[i].slugAt;
    }
    forall k | k in ActiveOthers(calls, slug, low, high)
      ensures k in OtherSlugs(rs, slug, low, high)
    {
      var i :| 0 <= i < |calls| && calls[i].key != slug && low < calls[i].at <= high && calls[i].key == k;
      assert rs[i].slug == k;
    }
  }

  lemma SlugDecision(rs: seq<Request>, calls: seq<Call>, slug: string, low: int, at: int)
    requires |rs| == |calls| && forall i :: 0 <= i < |rs| ==> calls[i] == Call(rs[i].slug, rs[i].slugAt)
    requires low == at - MINUTE
    ensures Admits(SLUG_LIMIT, calls, slug, at) <==>
            SlugAdmissions(rs, slug, low, at) < 30 && |OtherSlugs(rs, slug, low, at)| < 10000
  {
    SlugAdmissionsAreCalls(rs, calls, slug, low, at);
    OtherSlugsAreCalls(rs, calls, slug, low, at);
  }

  /** And the per-slug limiter turns away a request exactly when its slug is malformed, or thirty
      requests of the slug passed in the last minute, or ten thousand other slugs had one pass. */
  lemma SlugRefusesExactly(clock: int, actions: seq<Action>, slug: string, ip: string, at: int)
    requires Runs(Init(clock), actions) && Enabled(Final(Init(clock), actions), Arrive(slug, ip, at))
    ensures var s, low := Final(Init(clock), actions), at - MINUTE;
            Apply(s, Arrive(slug, ip, at)).requests ==
            if !Codes.ValidSlug(slug) || SlugAdmissions(s.requests, slug, low, at) >= 30
               || |OtherSlugs(s.requests, slug, low, at)| >= 10000
            then s.requests else s.requests + [Request(slug, ip, at, Pending)]
  {
    InitInv(clock);
    InvAlways(Init(clock), actions);
    var s := Final(Init(clock), actions);
    SlugDecision(s.requests, AcceptedBy(SLUG_LIMIT, s.slugCalls), slug, at - MINUTE, at);
    LimiterDecides(SLUG_LIMIT, s.slugCalls, s.slugEvents, s.clock, slug, at);
  }
}
