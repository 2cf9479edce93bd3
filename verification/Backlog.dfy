/** Backlogs under faults: which rows a sweep is sure to reach, and how rows that keep failing hold
    up the younger ones (internal/worker/retention.go, internal/store/uploads.go). */
module Backlog {
  import opened Sets
  import opened Store
  import opened Retention
  import opened Drain

  // ---------------------------------------------------------------- every listing

  lemma {:induction false} EarliestExists<T>(t: map<string, T>, at: T -> int, left: set<string>) returns (key: string)
    requires left != {} && left <= t.Keys
    ensures key in left && BeforeAll(t, at, [key], left)
    decreases |left|
  {
    var some :| some in left;
    if left == {some} {
      key := some;
    } else {
      var rest := EarliestExists(t, at, left - {some});
      key := if at(t[some]) < at(t[rest]) then some else rest;
      forall other | other in left
        ensures NotLater(t, at, key, other)
      {
        if other != some {
          assert other in left - {some} && NotLater(t, at, [rest][0], other);
        }
      }
    }
  }

  lemma {:induction false} BatchFrom<T>(t: map<string, T>, at: T -> int, due: set<string>, left: set<string>, keys: seq<string>)
    returns (all: seq<string>)
    requires due <= t.Keys && Chosen(due, left, keys) && |keys| <= BATCH
    requires InOrder(t, at, keys) && BeforeAll(t, at, keys, left)
    ensures Batch(t, at, due, all)
    decreases |left|
  {
    if left == {} || |keys| == BATCH {
      all := keys;
      assert due - SetOf(keys) == left;
    } else {
      var key := EarliestExists(t, at, left);
      ChooseNext(due, left, keys, key);
      ChooseEarliest(t, at, left, keys, key);
      all := BatchFrom(t, at, due, left - {key}, keys + [key]);
    }
  }

  /** The expired rows, other than the key's, that are no younger than it. */
  function NoYounger(t: UploadTable, anonBefore: int, ownedBefore: int, key: string): set<string>
    requires key in t
  {
    set other | other in Expired(t, anonBefore, ownedBefore) && other != key && t[other].createdAt <= t[key].createdAt
  }

  lemma FewAreListed(t: UploadTable, anonBefore: int, ownedBefore: int, todo: seq<Upload>, key: string)
    requires Listing(t, anonBefore, ownedBefore, todo) && key in Expired(t, anonBefore, ownedBefore)
    requires |NoYounger(t, anonBefore, ownedBefore, key)| < BATCH
    ensures key in SetOf(Keys(todo))
  {
    var due, keys := Expired(t, anonBefore, ownedBefore), Keys(todo);
    SetOfDistinct(keys);
    if key !in SetOf(keys) {
      forall other | other in SetOf(keys)
        ensures other in NoYounger(t, anonBefore, ownedBefore, key)
      {
        BatchIsEarliest(t, CreatedAt, due, keys, other, key);
      }
      SubsetSize(SetOf(keys), NoYounger(t, anonBefore, ownedBefore, key));
      SubsetSize(SetOf(keys) + {key}, due);
    }
  }

  /** A batch of the others is a batch of all when enough of them are no younger. */
  lemma OthersFillBatch(t: UploadTable, due: set<string>, key: string, keys: seq<string>, older: set<string>)
    requires key in due && Batch(t, CreatedAt, due - {key}, keys)
    requires older <= due - {key} && |older| >= BATCH
    requires forall other :: other in older ==> NotLater(t, CreatedAt, other, key)
    ensures Batch(t, CreatedAt, due, keys)
  {
    SubsetSize(older, due - {key});
    SubsetSize(due - {key}, due);
    SetOfDistinct(keys);
    forall i, left | 0 <= i < |keys| && left in due - SetOf(keys)
      ensures NotLater(t, CreatedAt, keys[i], left)
    {
      if left == key {
        OlderIsLeft(t, due - {key}, keys, older, key, i);
      } else {
        assert left in due - {key} - SetOf(keys);
      }
    }
  }

  lemma NotAllWithin(a: set<string>, b: set<string>)
    requires |a| > |b|
    ensures exists x :: x in a && x !in b
  {
    if a <= b {
      SubsetSize(a, b);
    }
  }

  lemma OlderIsLeft(t: UploadTable, due: set<string>, keys: seq<string>, older: set<string>, key: string, i: nat)
    requires Batch(t, CreatedAt, due, keys) && older <= due && |older| >= BATCH == |keys| && i < |keys|
    requires forall other :: other in older ==> NotLater(t, CreatedAt, other, key)
    ensures NotLater(t, CreatedAt, keys[i], key)
  {
    SetOfDistinct(keys);
    var mine := keys[i];
    assert mine in SetOf(keys);
    if mine !in older {
      var others := SetOf(keys) - {mine};
      assert |others| == |keys| - 1 by {
        assert SetOf(keys) == others + {mine};
      }
      NotAllWithin(older, others);
      var other :| other in older && other !in others;
      assert other in due - SetOf(keys) && NotLater(t, CreatedAt, keys[i], other);
    }
  }

  /** An expired row is in every listing, however the database breaks ties, if and only if fewer
      than 200 other expired rows are no younger than it. */
  lemma SureToBeListed(t: UploadTable, anonBefore: int, ownedBefore: int, key: string)
    requires (forall k :: k in t ==> t[k].storageKey == k) && key in Expired(t, anonBefore, ownedBefore)
    ensures (forall todo :: Listing(t, anonBefore, ownedBefore, todo) ==> key in SetOf(Keys(todo))) <==>
            |NoYounger(t, anonBefore, ownedBefore, key)| < BATCH
  {
    if |NoYounger(t, anonBefore, ownedBefore, key)| < BATCH {
      forall todo | Listing(t, anonBefore, ownedBefore, todo)
        ensures key in SetOf(Keys(todo))
      {
        FewAreListed(t, anonBefore, ownedBefore, todo, key);
      }
    } else {
      var todo := ListingWithout(t, anonBefore, ownedBefore, key);
    }
  }

  lemma ListingWithout(t: UploadTable, anonBefore: int, ownedBefore: int, key: string) returns (todo: seq<Upload>)
    requires (forall k :: k in t ==> t[k].storageKey == k) && key in Expired(t, anonBefore, ownedBefore)
    requires |NoYounger(t, anonBefore, ownedBefore, key)| >= BATCH
    ensures Listing(t, anonBefore, ownedBefore, todo) && key !in SetOf(Keys(todo))
  {
    var due := Expired(t, anonBefore, ownedBefore);
    var keys := BatchFrom(t, CreatedAt, due - {key}, due - {key}, []);
    OthersFillBatch(t, due, key, keys, NoYounger(t, anonBefore, ownedBefore, key));
    assert forall i :: 0 <= i < |keys| ==> keys[i] in SetOf(keys);
    todo := seq(|keys|, i requires 0 <= i < |keys| => t[keys[i]]);
    assert Keys(todo) == keys;
  }

  // ---------------------------------------------------------------- rows that keep failing

  /** A row behind 200 strictly older expired ones is in no listing. */
  lemma HeldUp(t: UploadTable, anonBefore: int, ownedBefore: int, todo: seq<Upload>, stuck: set<string>, key: string)
    requires Listing(t, anonBefore, ownedBefore, todo) && key in t && |stuck| >= BATCH
    requires stuck <= Expired(t, anonBefore, ownedBefore)
    requires forall k :: k in stuck ==> t[k].createdAt < t[key].createdAt
    ensures key !in SetOf(Keys(todo))
  {
    var due, keys := Expired(t, anonBefore, ownedBefore), Keys(todo);
    SetOfDistinct(keys);
    if key in SetOf(keys) {
      forall k | k in stuck
        ensures k in SetOf(keys) - {key}
      {
        if k !in SetOf(keys) {
          BatchIsEarliest(t, CreatedAt, due, keys, key, k);
        }
      }
      SubsetSize(stuck, SetOf(keys) - {key});
      SubsetSize({key}, SetOf(keys));
    }
  }

  /** Sweeps with any faults, each with its own cutoffs, over a listing of what the previous ones
      left. */
  datatype FaultyRound = FaultyRound(anonBefore: int, ownedBefore: int,
                                     todo: seq<Upload>, faults: seq<Faults>, slugs: seq<seq<string>>)

  ghost predicate RoundOk(w: World, r: FaultyRound) {
    |r.faults| == |r.todo| == |r.slugs| && Listing(w.uploads, r.anonBefore, r.ownedBefore, r.todo)
  }

  ghost predicate FaultyRounds(w: World, rounds: seq<FaultyRound>)
    decreases |rounds|
  {
    rounds == [] || (
      RoundOk(w, rounds[0]) && FaultyRounds(Sweep(w, rounds[0].todo, rounds[0].faults, rounds[0].slugs), rounds[1..]))
  }

  ghost function After(w: World, rounds: seq<FaultyRound>): World
    requires FaultyRounds(w, rounds)
    decreases |rounds|
  {
    if rounds == [] then w else After(Sweep(w, rounds[0].todo, rounds[0].faults, rounds[0].slugs), rounds[1..])
  }

  /** Whenever the sweep reaches one of the stuck rows, that upload fails. */
  predicate StuckFails(w: World, todo: seq<Upload>, faults: seq<Faults>, slugs: seq<seq<string>>, stuck: set<string>)
    requires |faults| == |todo| == |slugs|
  {
    forall i :: 0 <= i < |todo| && todo[i].storageKey in stuck ==>
      Fails(Sweep(w, todo[..i], faults[..i], slugs[..i]), todo[i], faults[i])
  }

  ghost predicate AlwaysFails(w: World, rounds: seq<FaultyRound>, stuck: set<string>)
    requires FaultyRounds(w, rounds)
    decreases |rounds|
  {
    rounds == [] || (
      && StuckFails(w, rounds[0].todo, rounds[0].faults, rounds[0].slugs, stuck)
      && AlwaysFails(Sweep(w, rounds[0].todo, rounds[0].faults, rounds[0].slugs), rounds[1..], stuck))
  }

  /** All but the counter. */
  predicate SameUpload(up: Upload, up': Upload) {
    up' == up.(deleteAttempts := up'.deleteAttempts)
  }

  predicate KeepsRow(t: UploadTable, t': UploadTable, key: string) {
    key in t && key in t' && SameUpload(t[key], t'[key])
  }

  lemma TablesKeepRow(t: UploadTable, other: string, key: string)
    requires key in t
    ensures KeepsRow(t, t, key) && KeepsRow(t, Mark(t, other), key) && (other != key ==> KeepsRow(t, t - {other}, key))
  {
  }

  lemma ProcessKeepsRow(w: World, up: Upload, f: Faults, slugs: seq<string>, key: string)
    requires key in w.uploads && (up.storageKey == key ==> Fails(w, up, f))
    ensures KeepsRow(w.uploads, Process(w, up, f, slugs).uploads, key)
  {
    TablesKeepRow(w.uploads, up.storageKey, key);
    var t' := Process(w, up, f, slugs).uploads;
    assert t' == w.uploads || t' == Mark(w.uploads, up.storageKey) || t' == w.uploads - {up.storageKey};
  }

  lemma {:induction false} SweepKeepsRow(w: World, todo: seq<Upload>, faults: seq<Faults>, slugs: seq<seq<string>>, key: string)
    requires |faults| == |todo| == |slugs| && key in w.uploads && StuckFails(w, todo, faults, slugs, {key})
    ensures KeepsRow(w.uploads, Sweep(w, todo, faults, slugs).uploads, key)
  {
    if todo != [] {
      var n := |todo| - 1;
      FrontFails(w, todo, faults, slugs, {key}, n);
      SweepKeepsRow(w, todo[..n], faults[..n], slugs[..n], key);
      ProcessKeepsRow(Sweep(w, todo[..n], faults[..n], slugs[..n]), todo[n], faults[n], slugs[n], key);
    }
  }

  lemma FrontFails(w: World, todo: seq<Upload>, faults: seq<Faults>, slugs: seq<seq<string>>, stuck: set<string>, n: nat)
    requires |faults| == |todo| == |slugs| && n <= |todo| && StuckFails(w, todo, faults, slugs, stuck)
    ensures StuckFails(w, todo[..n], faults[..n], slugs[..n], stuck)
  {
    forall i | 0 <= i < n && todo[..n][i].storageKey in stuck
      ensures Fails(Sweep(w, todo[..n][..i], faults[..n][..i], slugs[..n][..i]), todo[..n][i], faults[..n][i])
    {
      assert todo[..n][..i] == todo[..i] && faults[..n][..i] == faults[..i] && slugs[..n][..i] == slugs[..i];
      assert todo[i].storageKey in stuck;
    }
  }

  lemma UnlistedFails(w: World, todo: seq<Upload>, faults: seq<Faults>, slugs: seq<seq<string>>, key: string)
    requires |faults| == |todo| == |slugs| && key !in SetOf(Keys(todo))
    ensures StuckFails(w, todo, faults, slugs, {key})
  {
    forall i | 0 <= i < |todo|
      ensures todo[i].storageKey != key
    {
      assert Keys(todo)[i] in SetOf(Keys(todo));
    }
  }

  /** Past every cutoff of the rounds. */
  predicate PastAll(up: Upload, rounds: seq<FaultyRound>) {
    forall i :: 0 <= i < |rounds| ==> PastCutoff(up, rounds[i].anonBefore, rounds[i].ownedBefore)
  }

  lemma RoundKeepsRows(w: World, r: FaultyRound, stuck: set<string>, key: string)
    requires RoundOk(w, r) && StuckFails(w, r.todo, r.faults, r.slugs, stuck) && |stuck| >= BATCH && stuck <= w.uploads.Keys
    requires forall k :: k in stuck ==> PastCutoff(w.uploads[k], r.anonBefore, r.ownedBefore)
    requires key in w.uploads && forall k :: k in stuck ==> w.uploads[k].createdAt < w.uploads[key].createdAt
    ensures var t' := Sweep(w, r.todo, r.faults, r.slugs).uploads;
            KeepsRow(w.uploads, t', key) && forall k :: k in stuck ==> KeepsRow(w.uploads, t', k)
  {
    HeldUp(w.uploads, r.anonBefore, r.ownedBefore, r.todo, stuck, key);
    UnlistedFails(w, r.todo, r.faults, r.slugs, key);
    SweepKeepsRow(w, r.todo, r.faults, r.slugs, key);
    forall k | k in stuck
      ensures KeepsRow(w.uploads, Sweep(w, r.todo, r.faults, r.slugs).uploads, k)
    {
      SweepKeepsRow(w, r.todo, r.faults, r.slugs, k);
    }
  }

  /** Nothing lets a sweep past rows that keep failing: as long as 200 expired rows fail whenever
      they are reached, however many sweeps run and whatever else happens in them, every row
      strictly younger than all of those keeps its row, and so do they. */
  lemma {:induction false} StuckRowsBlockYounger(w: World, rounds: seq<FaultyRound>, stuck: set<string>, key: string)
    requires FaultyRounds(w, rounds) && AlwaysFails(w, rounds, stuck) && |stuck| >= BATCH && stuck <= w.uploads.Keys
    requires forall k :: k in stuck ==> PastAll(w.uploads[k], rounds)
    requires key in w.uploads && forall k :: k in stuck ==> w.uploads[k].createdAt < w.uploads[key].createdAt
    ensures var t' := After(w, rounds).uploads;
            KeepsRow(w.uploads, t', key) && forall k :: k in stuck ==> KeepsRow(w.uploads, t', k)
    decreases |rounds|
  {
    if rounds != [] {
      var r, rest := rounds[0], rounds[1..];
      var w1 := Sweep(w, r.todo, r.faults, r.slugs);
      RoundKeepsRows(w, r, stuck, key);
      forall k | k in stuck
        ensures PastAll(w1.uploads[k], rest)
      {
        assert forall i :: 0 <= i < |rest| ==> rest[i] == rounds[i + 1];
        assert KeepsRow(w.uploads, w1.uploads, k);
      }
      StuckRowsBlockYounger(w1, rest, stuck, key);
    }
  }
}
