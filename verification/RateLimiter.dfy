/** The in-memory sliding-window rate limiter (internal/handlers/ratelimit.go).

    `Limiter` is the bounded implementation: a map from keys to timestamps, compacted in
    place on every call and evicted when the table is full. `Admits` is the reference it is
    measured against: a decision taken on the full, never discarded history of accepted calls.
    Times are integers on a clock that never goes backwards. */
module RateLimiter {
  import opened Sets

  type Events = map<string, seq<int>>

  /** limit, window and maxKeys of one limiter. */
  datatype Config = Config(limit: int, window: int, maxKeys: int) {
    function Capacity(): nat {
      if maxKeys > 0 then maxKeys else 0
    }
  }

  datatype Call = Call(key: string, at: int)

  // ---------------------------------------------------------------- timestamps

  /** The timestamps strictly after `cutoff`, in order. */
  function After(times: seq<int>, cutoff: int): (r: seq<int>)
    ensures |r| <= |times|
  {
    if times == [] then []
    else
      var front := After(times[..|times| - 1], cutoff);
      if times[|times| - 1] > cutoff then front + [times[|times| - 1]] else front
  }

  predicate Sorted(times: seq<int>) {
    forall i, j :: 0 <= i <= j < |times| ==> times[i] <= times[j]
  }

  /** Sorted, and nothing later than `now`. */
  predicate SortedUpTo(times: seq<int>, now: int) {
    Sorted(times) && (times != [] ==> times[|times| - 1] <= now)
  }

  lemma {:induction false} AfterTwice(times: seq<int>, low: int, high: int)
    requires low <= high
    ensures After(After(times, low), high) == After(times, high)
  {
    if times != [] {
      var front, last := times[..|times| - 1], times[|times| - 1];
      AfterTwice(front, low, high);
      if last > low {
        assert After(times, low)[..|After(times, low)| - 1] == After(front, low);
      }
    }
  }

  lemma {:induction false} AfterOfSorted(times: seq<int>, cutoff: int)
    requires Sorted(times)
    ensures Sorted(After(times, cutoff))
    ensures After(times, cutoff) != [] <==> times != [] && times[|times| - 1] > cutoff
    ensures After(times, cutoff) != [] ==> After(times, cutoff)[|After(times, cutoff)| - 1] == times[|times| - 1]
  {
    if times != [] {
      var front, last := times[..|times| - 1], times[|times| - 1];
      AfterOfSorted(front, cutoff);
      if last > cutoff {
        assert After(times, cutoff) == After(front, cutoff) + [last];
        assert After(front, cutoff) != [] ==> After(front, cutoff)[|After(front, cutoff)| - 1] == front[|front| - 1] <= last;
      }
    }
  }

  lemma PushSorted(times: seq<int>, now: int)
    requires SortedUpTo(times, now)
    ensures SortedUpTo(times + [now], now)
  {
  }

  // ---------------------------------------------------------------- one call

  function Get(events: Events, key: string): seq<int> {
    if key in events then events[key] else []
  }

  /** No timestamp after the cutoff, for timestamps in order. */
  predicate Stale(times: seq<int>, cutoff: int) {
    times == [] || times[|times| - 1] <= cutoff
  }

  /** What `evictStale` leaves: the keys whose newest timestamp is after the cutoff. */
  function Fresh(events: Events, cutoff: int): Events {
    map k | k in events && !Stale(events[k], cutoff) :: events[k]
  }

  /** The table and the decision after one call of `Allow`. */
  function AllowStep(c: Config, events: Events, key: string, now: int): (Events, bool) {
    AllowAfter(c, events, key, now, now - c.window)
  }

  function AllowAfter(c: Config, events: Events, key: string, now: int, cutoff: int): (Events, bool) {
    var kept := After(Get(events, key), cutoff);
    if |kept| >= c.limit then (events[key := kept], false)
    else if key !in events && |events| >= c.maxKeys then
      var left := Fresh(events, cutoff);
      if |left| >= c.maxKeys then (left, false) else (left[key := kept + [now]], true)
    else (events[key := kept + [now]], true)
  }

  /** Compaction through a slice that shares its backing array with the slice being read:
      survivors are written to the front of the very buffer the loop is still scanning. */
  method CompactInPlace(buf: array<int>, len: nat, cutoff: int) returns (kept: nat)
    requires len <= buf.Length
    modifies buf
    ensures kept <= len
    ensures buf[..kept] == After(old(buf[..len]), cutoff)
  {
    kept := 0;
    var i := 0;
    ghost var was := buf[..len];
    while i < len
      invariant kept <= i <= len
      invariant buf[..kept] == After(was[..i], cutoff)
      invariant forall j :: i <= j < len ==> buf[j] == was[j]
    {
      assert was[..i + 1][..i] == was[..i];
      if buf[i] > cutoff {
        buf[kept] := buf[i];
        kept := kept + 1;
      }
      i := i + 1;
    }
    assert was[..i] == was;
  }

  /** One key's slice: the first `len` cells of a backing array no other key uses. The cells
      beyond are spare and still hold what earlier calls left there. */
  datatype Slice = Slice(cells: seq<int>, len: nat) {
    predicate Valid() {
      len <= |cells|
    }

    function Times(): seq<int>
      requires Valid()
    {
      cells[..len]
    }

    /** `append`: into the spare cells while there are any, otherwise into a larger array. */
    function Append(x: int): (r: Slice)
      requires Valid()
      ensures r.Valid() && r.Times() == Times() + [x]
    {
      if len < |cells| then Slice(cells[len := x], len + 1) else Slice(cells + [x] + seq(len, _ => 0), len + 1)
    }
  }

  /** Loads the backing array, compacts it in place and keeps all of it, spare cells included. */
  method Compacted(s: Slice, cutoff: int) returns (kept: Slice)
    requires s.Valid()
    ensures kept.Valid() && |kept.cells| == |s.cells| && kept.Times() == After(s.Times(), cutoff)
  {
    var cells := s.cells;
    var buf := new int[|cells|](i requires 0 <= i < |cells| => cells[i]);
    assert buf[..] == cells && buf[..s.len] == s.Times();
    var n := CompactInPlace(buf, s.len, cutoff);
    kept := Slice(buf[..], n);
    assert buf[..][..n] == buf[..n];
  }

  /** The timestamps the slices hold. */
  function TableOf(slices: map<string, Slice>): Events
    requires forall k :: k in slices ==> slices[k].Valid()
  {
    map k | k in slices :: slices[k].Times()
  }

  lemma TableSize(slices: map<string, Slice>)
    requires forall k :: k in slices ==> slices[k].Valid()
    ensures TableOf(slices).Keys == slices.Keys && |TableOf(slices)| == |slices|
  {
    assert |TableOf(slices)| == |TableOf(slices).Keys| && |slices| == |slices.Keys|;
  }

  lemma FreshTable(slices: map<string, Slice>, left: map<string, Slice>, cutoff: int)
    requires forall k :: k in slices ==> slices[k].Valid()
    requires forall k :: k in left ==> k in slices && left[k] == slices[k]
    requires forall k :: k in slices ==> (k in left <==> !Stale(slices[k].Times(), cutoff))
    ensures TableOf(left) == Fresh(TableOf(slices), cutoff)
  {
    assert TableOf(left).Keys == Fresh(TableOf(slices), cutoff).Keys;
  }

  class Limiter {
    var slices: map<string, Slice>
    const c: Config

    predicate Valid()
      reads this
    {
      forall k :: k in slices ==> slices[k].Valid()
    }

    function Table(): Events
      requires Valid()
      reads this
    {
      TableOf(slices)
    }

    constructor (limit: int, window: int)
      ensures Valid() && Table() == map[] && c == Config(limit, window, 10000)
    {
      slices := map[];
      c := Config(limit, window, 10000);
    }

    /** Deletes stale keys while walking the map in an arbitrary order. */
    method EvictStale(cutoff: int)
      requires Valid()
      modifies this
      ensures Valid() && Table() == Fresh(old(Table()), cutoff)
    {
      ghost var before := slices;
      var todo := slices.Keys;
      while todo != {}
        invariant todo <= slices.Keys <= before.Keys
        invariant forall k :: k in slices ==> slices[k] == before[k]
        invariant forall k :: k in before && k !in todo ==> (k in slices <==> !Stale(before[k].Times(), cutoff))
        decreases |todo|
      {
        var k :| k in todo;
        todo := todo - {k};
        var times := slices[k];
        if times.len == 0 || times.cells[times.len - 1] <= cutoff {
          slices := slices - {k};
        }
      }
      FreshTable(before, slices, cutoff);
    }

    method Put(key: string, s: Slice)
      requires Valid() && s.Valid()
      modifies this
      ensures Valid() && Table() == old(Table())[key := s.Times()]
    {
      slices := slices[key := s];
    }

    method Allow(key: string, now: int) returns (ok: bool)
      requires Valid()
      modifies this
      ensures Valid() && (Table(), ok) == AllowStep(c, old(Table()), key, now)
    {
      var cutoff := now - c.window;
      TableSize(slices);
      ghost var was := Table();
      var times := if key in slices then slices[key] else Slice([], 0);
      assert times.Times() == Get(was, key);
      var kept := Compacted(times, cutoff);
      if kept.len >= c.limit {
        Put(key, kept);
        return false;
      }
      if key !in slices && |slices| >= c.maxKeys {
        EvictStale(cutoff);
        TableSize(slices);
        if |slices| >= c.maxKeys {
          return false;
        }
      }
      Put(key, kept.Append(now));
      return true;
    }
  }

  // ---------------------------------------------------------------- the reference

  /** How many calls of `key` in `h` lie in (low, high]. */
  function CountIn(h: seq<Call>, key: string, low: int, high: int): nat {
    if h == [] then 0
    else
      var last := h[|h| - 1];
      CountIn(h[..|h| - 1], key, low, high) + if last.key == key && low < last.at <= high then 1 else 0
  }

  /** The keys other than `key` with an accepted call in (low, high]. */
  function ActiveOthers(h: seq<Call>, key: string, low: int, high: int): set<string> {
    set i | 0 <= i < |h| && h[i].key != key && low < h[i].at <= high :: h[i].key
  }

  /** The reference decision, on the whole history `h` of accepted calls: the key has fewer
      than `limit` of them in the window and fewer than `maxKeys` other keys have any. */
  predicate Admits(c: Config, h: seq<Call>, key: string, now: int) {
    Room(c, CountIn(h, key, now - c.window, now), |ActiveOthers(h, key, now - c.window, now)|)
  }

  predicate Room(c: Config, count: nat, active: nat) {
    count < c.limit && active < c.maxKeys
  }

  predicate Monotone(calls: seq<Call>) {
    forall i, j :: 0 <= i <= j < |calls| ==> calls[i].at <= calls[j].at
  }

  /** The accepted calls and all decisions of the reference limiter. */
  function ReferenceRun(c: Config, calls: seq<Call>): (r: (seq<Call>, seq<bool>))
    ensures |r.1| == |calls|
  {
    if calls == [] then ([], [])
    else
      var (h, ds) := ReferenceRun(c, calls[..|calls| - 1]);
      var call := calls[|calls| - 1];
      if Admits(c, h, call.key, call.at) then (h + [call], ds + [true]) else (h, ds + [false])
  }

  /** The table and all decisions of the bounded limiter. */
  function BoundedRun(c: Config, calls: seq<Call>): (r: (Events, seq<bool>))
    ensures |r.1| == |calls|
  {
    if calls == [] then (map[], [])
    else
      var (events, ds) := BoundedRun(c, calls[..|calls| - 1]);
      var call := calls[|calls| - 1];
      var (events', ok) := AllowStep(c, events, call.key, call.at);
      (events', ds + [ok])
  }

  /** The calls a list of decisions accepted. */
  function Accepted(calls: seq<Call>, ds: seq<bool>): seq<Call>
    requires |calls| == |ds|
  {
    if calls == [] then []
    else
      var front := Accepted(calls[..|calls| - 1], ds[..|ds| - 1]);
      if ds[|ds| - 1] then front + [calls[|calls| - 1]] else front
  }

  // ---------------------------------------------------------------- refinement

  /** The table's count of a key's calls after `low` is the history's count up to `high`. */
  predicate Answers(events: Events, h: seq<Call>, key: string, low: int, high: int) {
    |After(Get(events, key), low)| == CountIn(h, key, low, high)
  }

  /** The table answers every question about windows ending at `now` or later exactly as
      the discarded history would. */
  ghost predicate Agrees(c: Config, events: Events, h: seq<Call>, now: int) {
    && (forall i :: 0 <= i < |h| ==> h[i].at <= now)
    && (forall k :: k in events ==> events[k] != [] && SortedUpTo(events[k], now))
    && (forall k, low, high :: low >= now - c.window && high >= now ==> Answers(events, h, k, low, high))
    && |events| <= c.Capacity()
  }

  lemma {:induction false} CountPositive(h: seq<Call>, key: string, low: int, high: int)
    ensures CountIn(h, key, low, high) > 0 <==>
            exists i :: 0 <= i < |h| && h[i].key == key && low < h[i].at <= high
  {
    if h != [] {
      CountPositive(h[..|h| - 1], key, low, high);
    }
  }

  /** Seen from `now`, the keys in the table that are not stale are exactly the active ones. */
  lemma FreshIsActive(c: Config, events: Events, h: seq<Call>, before: int, key: string, now: int, low: int)
    requires Agrees(c, events, h, before) && before <= now && low == now - c.window
    ensures Fresh(events, low).Keys - {key} == ActiveOthers(h, key, low, now)
  {
    forall k
      ensures k in Fresh(events, low) <==> CountIn(h, k, low, now) > 0
    {
      assert Answers(events, h, k, low, now);
      if k in events {
        AfterOfSorted(events[k], low);
      }
    }
    forall k
      ensures k != key ==> (CountIn(h, k, low, now) > 0 <==> k in ActiveOthers(h, key, low, now))
    {
      CountPositive(h, k, low, now);
    }
  }

  /** The two numbers the decisions depend on are the same. */
  lemma FreshCount(c: Config, events: Events, h: seq<Call>, before: int, key: string, now: int, low: int)
    requires Agrees(c, events, h, before) && before <= now && low == now - c.window
    ensures |After(Get(events, key), low)| == CountIn(h, key, low, now)
    ensures |Fresh(events, low).Keys - {key}| == |ActiveOthers(h, key, low, now)|
  {
    FreshIsActive(c, events, h, before, key, now, low);
    assert Answers(events, h, key, low, now);
  }

  lemma PutSize(events: Events, key: string, times: seq<int>)
    ensures |events[key := times]| == if key in events then |events| else |events| + 1
  {
    assert events[key := times].Keys == events.Keys + {key};
    assert |events| == |events.Keys| && |events[key := times]| == |events[key := times].Keys|;
  }

  lemma FreshSize(events: Events, cutoff: int, key: string)
    ensures |Fresh(events, cutoff)| <= |events|
    ensures |Fresh(events, cutoff).Keys - {key}| <= |events| - if key in events then 1 else 0
    ensures key !in events ==> |Fresh(events, cutoff).Keys - {key}| == |Fresh(events, cutoff)|
  {
    var left := Fresh(events, cutoff);
    assert |left| == |left.Keys| && |events| == |events.Keys|;
    SubsetSize(left.Keys, events.Keys);
    SubsetSize(left.Keys - {key}, events.Keys - {key});
    if key !in events {
      assert left.Keys - {key} == left.Keys;
    }
  }

  /** The decision, from the numbers it depends on. */
  predicate Decides(c: Config, kept: nat, known: bool, size: nat, live: nat) {
    kept < c.limit && (known || size < c.maxKeys || live < c.maxKeys)
  }

  lemma StepDecides(c: Config, events: Events, key: string, now: int, low: int)
    ensures AllowAfter(c, events, key, now, low).1 ==
            Decides(c, |After(Get(events, key), low)|, key in events, |events|, |Fresh(events, low)|)
  {
  }

  lemma DecidesByActive(c: Config, kept: nat, known: bool, size: nat, live: nat, active: nat)
    requires size <= c.Capacity() && live <= size
    requires active <= size - (if known then 1 else 0) && (!known ==> active == live)
    ensures Decides(c, kept, known, size, live) == Room(c, kept, active)
  {
  }

  /** The bounded table counts its live keys, the reference the active others. */
  lemma ActiveDecides(c: Config, events: Events, key: string, low: int, kept: nat, active: nat)
    requires |events| <= c.Capacity() && |Fresh(events, low).Keys - {key}| == active
    ensures Decides(c, kept, key in events, |events|, |Fresh(events, low)|) == Room(c, kept, active)
  {
    FreshSize(events, low, key);
    DecidesByActive(c, kept, key in events, |events|, |Fresh(events, low)|, active);
  }

  lemma AgreesIsBounded(c: Config, events: Events, h: seq<Call>, now: int)
    requires Agrees(c, events, h, now)
    ensures |events| <= c.Capacity()
  {
  }

  lemma SameDecision(c: Config, events: Events, key: string, now: int, low: int, count: nat, active: nat)
    requires |events| <= c.Capacity()
    requires |After(Get(events, key), low)| == count && |Fresh(events, low).Keys - {key}| == active
    ensures AllowAfter(c, events, key, now, low).1 == Room(c, count, active)
  {
    ActiveDecides(c, events, key, low, count, active);
    StepDecides(c, events, key, now, low);
  }

  lemma DecisionAfter(c: Config, events: Events, h: seq<Call>, before: int, key: string, now: int, low: int)
    requires Agrees(c, events, h, before) && before <= now && low == now - c.window
    ensures AllowAfter(c, events, key, now, low).1 == Room(c, CountIn(h, key, low, now), |ActiveOthers(h, key, low, now)|)
  {
    FreshCount(c, events, h, before, key, now, low);
    AgreesIsBounded(c, events, h, before);
    SameDecision(c, events, key, now, low, CountIn(h, key, low, now), |ActiveOthers(h, key, low, now)|);
  }

  /** One call: the bounded decision is the reference decision. */
  lemma StepDecision(c: Config, events: Events, h: seq<Call>, before: int, key: string, now: int)
    requires Agrees(c, events, h, before) && before <= now && c.limit >= 1
    ensures AllowStep(c, events, key, now).1 == Admits(c, h, key, now)
  {
    DecisionAfter(c, events, h, before, key, now, now - c.window);
  }

  /** What one call does to the key's own entry, whatever its decision. */
  predicate UpdatesOwn(c: Config, events: Events, key: string, now: int, events': Events, ok: bool) {
    var kept := After(Get(events, key), now - c.window);
    && (ok ==> key in events' && events'[key] == kept + [now])
    && (!ok && key in events' ==> events'[key] == kept && |kept| >= c.limit)
    && (!ok && key !in events' ==> kept == [])
  }

  /** What one call does to the entries of the table. */
  ghost predicate Updates(c: Config, events: Events, key: string, now: int, events': Events, ok: bool) {
    && (forall k :: k in events' && k != key ==> k in events && events'[k] == events[k])
    && (forall k :: k in events && k !in events' ==> Stale(events[k], now - c.window))
    && UpdatesOwn(c, events, key, now, events', ok)
  }

  lemma StepUpdates(c: Config, events: Events, key: string, now: int)
    ensures var (events', ok) := AllowStep(c, events, key, now);
            Updates(c, events, key, now, events', ok)
  {
  }

  lemma {:induction false} AfterAppend(times: seq<int>, t: int, cutoff: int)
    ensures After(times + [t], cutoff) == if t > cutoff then After(times, cutoff) + [t] else After(times, cutoff)
  {
    assert (times + [t])[..|times|] == times;
  }

  lemma {:induction false} CountAppend(h: seq<Call>, call: Call, key: string, low: int, high: int)
    ensures CountIn(h + [call], key, low, high) ==
            CountIn(h, key, low, high) + if call.key == key && low < call.at <= high then 1 else 0
  {
    assert (h + [call])[..|h|] == h;
  }

  lemma KeptAnswers(times: seq<int>, cutoff: int, low: int, now: int)
    requires cutoff <= low
    ensures |After(After(times, cutoff), low)| == |After(times, low)|
    ensures |After(After(times, cutoff) + [now], low)| == |After(times, low)| + if now > low then 1 else 0
    ensures After(times, cutoff) == [] ==> |After(times, low)| == 0
  {
    AfterTwice(times, cutoff, low);
    AfterAppend(After(times, cutoff), now, low);
  }

  lemma UpdatesAnswerKey(c: Config, events: Events, key: string, now: int, events': Events, ok: bool, low: int)
    requires UpdatesOwn(c, events, key, now, events', ok) && low >= now - c.window
    ensures |After(Get(events', key), low)| == |After(Get(events, key), low)| + if ok && now > low then 1 else 0
  {
    KeptAnswers(Get(events, key), now - c.window, low, now);
  }

  lemma UpdatesAnswerOther(c: Config, events: Events, key: string, now: int, events': Events, ok: bool, k: string, low: int)
    requires Updates(c, events, key, now, events', ok) && low >= now - c.window
    requires k != key && Sorted(Get(events, k))
    ensures |After(Get(events', k), low)| == |After(Get(events, k), low)|
  {
    if k in events && k !in events' {
      AfterOfSorted(events[k], low);
    }
  }

  lemma UpdatesEntry(c: Config, events: Events, key: string, now: int, events': Events, ok: bool, k: string)
    requires Updates(c, events, key, now, events', ok) && c.limit >= 1
    requires SortedUpTo(Get(events, k), now)
    requires k in events' && (k in events ==> events[k] != [])
    ensures events'[k] != [] && SortedUpTo(events'[k], now)
  {
    if k == key {
      var times := Get(events, key);
      AfterOfSorted(times, now - c.window);
      PushSorted(After(times, now - c.window), now);
    }
  }

  lemma StepAnswers(c: Config, events: Events, h: seq<Call>, before: int, key: string, now: int, events': Events, ok: bool,
                    k: string, low: int, high: int)
    requires Agrees(c, events, h, before) && before <= now && low >= now - c.window && high >= now
    requires Updates(c, events, key, now, events', ok)
    ensures Answers(events', if ok then h + [Call(key, now)] else h, k, low, high)
  {
    assert Answers(events, h, k, low, high);
    CountAppend(h, Call(key, now), k, low, high);
    if k == key {
      UpdatesAnswerKey(c, events, key, now, events', ok, low);
    } else {
      UpdatesAnswerOther(c, events, key, now, events', ok, k, low);
    }
  }

  lemma StepAnswersAll(c: Config, events: Events, h: seq<Call>, before: int, key: string, now: int, events': Events, ok: bool, h': seq<Call>)
    requires Agrees(c, events, h, before) && before <= now && Updates(c, events, key, now, events', ok)
    requires h' == if ok then h + [Call(key, now)] else h
    ensures forall k, low, high :: low >= now - c.window && high >= now ==> Answers(events', h', k, low, high)
  {
    forall k, low, high | low >= now - c.window && high >= now
      ensures Answers(events', h', k, low, high)
    {
      StepAnswers(c, events, h, before, key, now, events', ok, k, low, high);
    }
  }

  lemma StepEntries(c: Config, events: Events, h: seq<Call>, before: int, key: string, now: int, events': Events, ok: bool)
    requires Agrees(c, events, h, before) && before <= now && c.limit >= 1 && Updates(c, events, key, now, events', ok)
    ensures forall k :: k in events' ==> events'[k] != [] && SortedUpTo(events'[k], now)
  {
    forall k | k in events'
      ensures events'[k] != [] && SortedUpTo(events'[k], now)
    {
      UpdatesEntry(c, events, key, now, events', ok, k);
    }
  }

  /** One call: the table still answers for the history, whichever way the decision went. */
  lemma StepAgrees(c: Config, events: Events, h: seq<Call>, before: int, key: string, now: int, events': Events, ok: bool)
    requires Agrees(c, events, h, before) && before <= now && c.limit >= 1
    requires Updates(c, events, key, now, events', ok) && |events'| <= c.Capacity()
    ensures Agrees(c, events', if ok then h + [Call(key, now)] else h, now)
  {
    StepAnswersAll(c, events, h, before, key, now, events', ok, if ok then h + [Call(key, now)] else h);
    StepEntries(c, events, h, before, key, now, events', ok);
  }

  lemma SizeAfter(c: Config, events: Events, key: string, now: int, low: int)
    requires c.limit >= 1 && |events| <= c.Capacity()
    ensures |AllowAfter(c, events, key, now, low).0| <= c.Capacity()
  {
    var kept, left := After(Get(events, key), low), Fresh(events, low);
    FreshSize(events, low, key);
    if |kept| >= c.limit {
      PutSize(events, key, kept);
    } else if key !in events && |events| >= c.maxKeys {
      PutSize(left, key, kept + [now]);
    } else {
      PutSize(events, key, kept + [now]);
    }
  }

  lemma StepSize(c: Config, events: Events, key: string, now: int)
    requires c.limit >= 1 && |events| <= c.Capacity()
    ensures |AllowStep(c, events, key, now).0| <= c.Capacity()
  {
    SizeAfter(c, events, key, now, now - c.window);
  }

  /** The bounded limiter refines the unbounded one: over every sequence of calls at
      non-decreasing times the two take the same decisions, and the table stays bounded. */
  lemma {:induction false} BoundedRefinesReference(c: Config, calls: seq<Call>)
    requires c.limit >= 1 && Monotone(calls)
    ensures BoundedRun(c, calls).1 == ReferenceRun(c, calls).1
    ensures |BoundedRun(c, calls).0| <= c.Capacity()
    ensures calls != [] ==> Agrees(c, BoundedRun(c, calls).0, ReferenceRun(c, calls).0, calls[|calls| - 1].at)
  {
    if calls != [] {
      var front, call := calls[..|calls| - 1], calls[|calls| - 1];
      BoundedRefinesReference(c, front);
      var events, h := BoundedRun(c, front).0, ReferenceRun(c, front).0;
      var before := if front == [] then call.at else front[|front| - 1].at;
      assert Agrees(c, events, h, before);
      StepDecision(c, events, h, before, call.key, call.at);
      var (events', ok) := AllowStep(c, events, call.key, call.at);
      StepUpdates(c, events, call.key, call.at);
      StepSize(c, events, call.key, call.at);
      StepAgrees(c, events, h, before, call.key, call.at, events', ok);
    }
  }

  lemma {:induction false} ReferenceHistoryIsAccepted(c: Config, calls: seq<Call>)
    ensures ReferenceRun(c, calls).0 == Accepted(calls, ReferenceRun(c, calls).1)
  {
    if calls != [] {
      ReferenceHistoryIsAccepted(c, calls[..|calls| - 1]);
      assert ReferenceRun(c, calls).1[..|calls| - 1] == ReferenceRun(c, calls[..|calls| - 1]).1;
    }
  }

  // ---------------------------------------------------------------- the window bound

  lemma {:induction false} CountShrinks(h: seq<Call>, key: string, low: int, high: int, low': int, high': int)
    requires low' <= low && forall i :: 0 <= i < |h| ==> h[i].at <= high'
    ensures CountIn(h, key, low, high) <= CountIn(h, key, low', high')
  {
    if h != [] {
      CountShrinks(h[..|h| - 1], key, low, high, low', high');
    }
  }

  lemma {:induction false} ReferenceTimes(c: Config, calls: seq<Call>, now: int)
    requires forall i :: 0 <= i < |calls| ==> calls[i].at <= now
    ensures forall i :: 0 <= i < |ReferenceRun(c, calls).0| ==> ReferenceRun(c, calls).0[i].at <= now
  {
    if calls != [] {
      ReferenceTimes(c, calls[..|calls| - 1], now);
    }
  }

  /** An accepted call is in its own window, which had room for it. */
  lemma AdmittedFits(c: Config, h: seq<Call>, call: Call, key: string, end: int)
    requires Admits(c, h, call.key, call.at) && forall i :: 0 <= i < |h| ==> h[i].at <= call.at
    requires CountIn(h, key, end - c.window, end) <= c.limit
    ensures CountIn(h + [call], key, end - c.window, end) <= c.limit
  {
    CountAppend(h, call, key, end - c.window, end);
    if call.key == key && end - c.window < call.at <= end {
      CountShrinks(h, key, end - c.window, end, call.at - c.window, call.at);
    }
  }

  lemma {:induction false} ReferenceWindowBound(c: Config, calls: seq<Call>, key: string, end: int)
    requires c.limit >= 0 && Monotone(calls)
    ensures CountIn(ReferenceRun(c, calls).0, key, end - c.window, end) <= c.limit
  {
    if calls != [] {
      var front, call := calls[..|calls| - 1], calls[|calls| - 1];
      ReferenceWindowBound(c, front, key, end);
      if Admits(c, ReferenceRun(c, front).0, call.key, call.at) {
        ReferenceTimes(c, front, call.at);
        AdmittedFits(c, ReferenceRun(c, front).0, call, key, end);
      }
    }
  }

  /** Every window (end - window, end] of every run of the real limiter holds at most `limit`
      accepted calls of each key, although eviction discards history along the way. */
  lemma WindowBound(c: Config, calls: seq<Call>, key: string, end: int)
    requires c.limit >= 1 && Monotone(calls)
    ensures CountIn(Accepted(calls, BoundedRun(c, calls).1), key, end - c.window, end) <= c.limit
  {
    BoundedRefinesReference(c, calls);
    ReferenceHistoryIsAccepted(c, calls);
    ReferenceWindowBound(c, calls, key, end);
  }

  /** The keys of all calls. */
  function Called(calls: seq<Call>): set<string> {
    set i | 0 <= i < |calls| :: calls[i].key
  }

  lemma CalledPush(calls: seq<Call>)
    requires calls != []
    ensures Called(calls) == Called(calls[..|calls| - 1]) + {calls[|calls| - 1].key}
  {
    assert calls == calls[..|calls| - 1] + [calls[|calls| - 1]];
  }

  /** `limit >= 1` is needed for the bound: with a limit of 0 or less every call is refused and
      leaves an entry behind, whatever the maximum, so the table holds every key ever called. */
  lemma {:induction false} ZeroLimitKeepsEveryKey(c: Config, calls: seq<Call>)
    requires c.limit <= 0
    ensures BoundedRun(c, calls).0.Keys == Called(calls)
    ensures forall i :: 0 <= i < |calls| ==> !BoundedRun(c, calls).1[i]
  {
    if calls != [] {
      ZeroLimitKeepsEveryKey(c, calls[..|calls| - 1]);
      CalledPush(calls);
    }
  }
}
