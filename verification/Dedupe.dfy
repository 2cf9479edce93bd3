/** The dedupe step of migration 0004 (db/migrations/0004_share_rotation.sql) as a transformation
    of the shares table: it makes room for the unique index on the storage key. */
module Dedupe {

  /** A row of the shares table; the id is the primary key. */
  datatype OldRow = OldRow(id: int, storageKey: string, createdAt: int)

  ghost predicate DistinctIds(rows: set<OldRow>) {
    forall a, b :: a in rows && b in rows && a.id == b.id ==> a == b
  }

  /** (created_at, id) of `a` is smaller than that of `b`. */
  predicate Older(a: OldRow, b: OldRow) {
    a.createdAt < b.createdAt || (a.createdAt == b.createdAt && a.id < b.id)
  }

  /** `delete from shares a using shares b`: every row goes for which the table, as it stood
      before the statement, holds a younger one with the same key. */
  function Dedupe(rows: set<OldRow>): set<OldRow> {
    set a | a in rows && !exists b :: b in rows && a.storageKey == b.storageKey && Older(a, b)
  }

  /** Row by row: the delete keeps a row unless it meets a younger one with the same key. */
  method DedupeTable(rows: set<OldRow>) returns (left: set<OldRow>)
    ensures left == Dedupe(rows)
  {
    left := {};
    var todo := rows;
    while todo != {}
      invariant todo <= rows
      invariant forall a :: a in left <==> a in rows - todo && a in Dedupe(rows)
    {
      var a :| a in todo;
      todo := todo - {a};
      var doomed := exists b :: b in rows && a.storageKey == b.storageKey && Older(a, b);
      if !doomed {
        left := left + {a};
      }
    }
  }

  function OfKey(rows: set<OldRow>, key: string): set<OldRow> {
    set a | a in rows && a.storageKey == key
  }

  /** Every nonempty set of rows with distinct ids has a youngest one. */
  lemma {:induction false} YoungestExists(rows: set<OldRow>) returns (top: OldRow)
    requires rows != {} && DistinctIds(rows)
    ensures top in rows && forall a :: a in rows && a != top ==> Older(a, top)
    decreases |rows|
  {
    var first :| first in rows;
    var others := rows - {first};
    top := first;
    if others != {} {
      var best := YoungestExists(others);
      assert best.id != first.id;
      if Older(first, best) {
        top := best;
      }
      forall a | a in rows && a != top
        ensures Older(a, top)
      {
        assert a == first || a == best || Older(a, best);
      }
    } else {
      assert rows == {first};
    }
  }

  /** For each key that had any row exactly one is left, the youngest by (created_at, id); keys
      that had none get none, so no key is lost and the unique index can be built. */
  lemma DedupeKeepsYoungestPerKey(rows: set<OldRow>, key: string)
    requires DistinctIds(rows)
    ensures Dedupe(rows) <= rows
    ensures |OfKey(Dedupe(rows), key)| == if OfKey(rows, key) == {} then 0 else 1
    ensures forall a, b :: a in OfKey(Dedupe(rows), key) && b in rows && b.storageKey == key ==> b == a || Older(b, a)
  {
    var mine, kept := OfKey(rows, key), OfKey(Dedupe(rows), key);
    if mine == {} {
      assert kept == {};
    } else {
      var top := YoungestExists(mine);
      forall a
        ensures a in kept <==> a == top
      {
        if a in mine && a != top {
          assert top in rows && a.storageKey == top.storageKey && Older(a, top);
        }
        if a == top {
          forall b | b in rows && b.storageKey == key
            ensures !Older(top, b)
          {
            assert b in mine;
          }
        }
      }
      assert kept == {top};
    }
  }

  /** The index can always be built: after the step no two rows share a key. */
  lemma UniqueIndexBuilds(rows: set<OldRow>, a: OldRow, b: OldRow)
    requires DistinctIds(rows) && a in Dedupe(rows) && b in Dedupe(rows) && a.storageKey == b.storageKey
    ensures a == b
  {
    assert !Older(a, b) && !Older(b, a);
  }

  /** Running the step again changes nothing. */
  lemma DedupeIsIdempotent(rows: set<OldRow>)
    ensures Dedupe(Dedupe(rows)) == Dedupe(rows)
  {
    forall a | a in Dedupe(rows)
      ensures a in Dedupe(Dedupe(rows))
    {
      assert forall b :: b in Dedupe(rows) ==> b in rows;
    }
  }
}
