/** The shares and uploads tables as atomic steps (internal/store/store.go, uploads.go).

    Every SQL statement is one function from a table to a table. `ShareStore` and `UploadStore`
    are the objects the service holds; their methods are proved against those functions. */
module Store {
  import opened Codes
  import opened Shares

  type ShareTable = map<string, Row>

  datatype Upload = Upload(storageKey: string, ownerId: string, fileName: string, sizeBytes: int,
                           createdAt: int, deleteAttempts: nat)

  type UploadTable = map<string, Upload>

  // ---------------------------------------------------------------- shares

  /** Rows are filed under their slug and no two share a storage key: the primary key and the
      unique indexes of the schema. */
  ghost predicate Keyed(t: ShareTable) {
    && (forall slug :: slug in t ==> t[slug].slug == slug)
    && (forall a, b :: a in t && b in t && t[a].storageKey == t[b].storageKey ==> a == b)
  }

  predicate CanInsert(t: ShareTable, row: Row) {
    row.slug !in t && forall slug :: slug in t ==> t[slug].storageKey != row.storageKey
  }

  /** `update shares set code_hash, code_salt, expires_at, share_count, recipient_email`. */
  function Overwrite(stored: Row, row: Row): Row {
    stored.(codeHash := row.codeHash, codeSalt := row.codeSalt, expiresAt := row.expiresAt,
            shareCount := row.shareCount, recipientEmail := row.recipientEmail)
  }

  function Rotate(t: ShareTable, row: Row): ShareTable {
    if row.slug in t then t[row.slug := Overwrite(t[row.slug], row)] else t
  }

  /** An absent owner is stored as NULL, which equals no id. */
  function DeleteOwned(t: ShareTable, slug: string, ownerId: string): ShareTable {
    if slug in t && t[slug].ownerId != "" && t[slug].ownerId == ownerId then t - {slug} else t
  }

  function WithoutKey(t: ShareTable, key: string): ShareTable {
    map slug | slug in t && t[slug].storageKey != key :: t[slug]
  }

  lemma InsertKeepsKeyed(t: ShareTable, row: Row)
    requires Keyed(t) && CanInsert(t, row)
    ensures Keyed(t[row.slug := row])
  {
  }

  lemma RotateKeepsKeyed(t: ShareTable, row: Row)
    requires Keyed(t)
    ensures Keyed(Rotate(t, row))
  {
  }

  class ShareStore {
    var rows: ShareTable

    constructor ()
      ensures rows == map[]
    {
      rows := map[];
    }

    /** Refused when the slug or the storage key is already taken. */
    method Create(row: Row) returns (ok: bool)
      requires Keyed(rows)
      modifies this
      ensures Keyed(rows)
      ensures ok <==> CanInsert(old(rows), row)
      ensures rows == if ok then old(rows)[row.slug := row] else old(rows)
    {
      ok := CanInsert(rows, row);
      if ok {
        rows := rows[row.slug := row];
      }
    }

    /** Neither the slug, the key, the owner nor the creation time of any row changes. */
    method RotateCode(row: Row) returns (ok: bool)
      requires Keyed(rows)
      modifies this
      ensures Keyed(rows)
      ensures ok <==> row.slug in old(rows)
      ensures rows == Rotate(old(rows), row) && rows.Keys == old(rows).Keys
      ensures forall slug :: slug in rows ==>
                && rows[slug].storageKey == old(rows)[slug].storageKey
                && rows[slug].ownerId == old(rows)[slug].ownerId
                && rows[slug].createdAt == old(rows)[slug].createdAt
    {
      ok := row.slug in rows;
      if ok {
        rows := rows[row.slug := Overwrite(rows[row.slug], row)];
      }
    }

    method GetByStorageKey(key: string) returns (r: Option<Row>)
      requires Keyed(rows)
      ensures r.None? <==> forall slug :: slug in rows ==> rows[slug].storageKey != key
      ensures r.Some? ==> r.value.storageKey == key && r.value.slug in rows && rows[r.value.slug] == r.value
    {
      var left := rows.Keys;
      while left != {}
        invariant left <= rows.Keys
        invariant forall slug :: slug in rows && slug !in left ==> rows[slug].storageKey != key
      {
        var slug :| slug in left;
        if rows[slug].storageKey == key {
          return Some(rows[slug]);
        }
        left := left - {slug};
      }
      return None;
    }

    method Delete(slug: string, ownerId: string) returns (found: bool)
      modifies this
      ensures rows == DeleteOwned(old(rows), slug, ownerId)
      ensures found <==> rows != old(rows)
    {
      found := slug in rows && rows[slug].ownerId != "" && rows[slug].ownerId == ownerId;
      if found {
        rows := rows - {slug};
        assert slug !in rows && slug in old(rows);
      }
    }

    /** Deletes every share of a file and returns their slugs. */
    method DeleteByStorageKey(key: string) returns (slugs: seq<string>)
      modifies this
      ensures rows == WithoutKey(old(rows), key)
      ensures forall slug :: slug in slugs <==> slug in old(rows) && slug !in rows
      ensures forall i, j :: 0 <= i < j < |slugs| ==> slugs[i] != slugs[j]
    {
      slugs := [];
      var left := rows.Keys;
      while left != {}
        invariant left <= rows.Keys <= old(rows).Keys
        invariant forall i, j :: 0 <= i < j < |slugs| ==> slugs[i] != slugs[j]
        invariant forall slug :: slug in rows ==> rows[slug] == old(rows)[slug]
        invariant forall slug :: slug in slugs <==> slug in old(rows) && slug !in rows
        invariant forall slug :: slug in old(rows) && slug !in left ==>
                    (slug in rows <==> old(rows)[slug].storageKey != key)
        decreases |left|
      {
        var slug :| slug in left;
        left := left - {slug};
        if rows[slug].storageKey == key {
          rows := rows - {slug};
          slugs := slugs + [slug];
        }
      }
    }
  }

  // ---------------------------------------------------------------- uploads

  /** An upload is past its window when it was created strictly before the cutoff of its kind. */
  predicate PastCutoff(up: Upload, anonBefore: int, ownedBefore: int) {
    if up.ownerId == "" then up.createdAt < anonBefore else up.createdAt < ownedBefore
  }

  /** The two retention windows, which the handlers and the worker share. */
  datatype Ttls = Ttls(anon: int, owned: int)

  /** What never changes about a recorded upload. */
  datatype Birth = Birth(owner: string, createdAt: int)

  function BirthOf(up: Upload): Birth {
    Birth(up.ownerId, up.createdAt)
  }

  function Window(t: Ttls, owner: string): int {
    if owner == "" then t.anon else t.owned
  }

  function Deadline(t: Ttls, b: Birth): int {
    b.createdAt + Window(t, b.owner)
  }

  predicate Past(t: Ttls, b: Birth, now: int) {
    Deadline(t, b) < now
  }

  function Mark(t: UploadTable, key: string): UploadTable {
    if key in t then t[key := t[key].(deleteAttempts := t[key].deleteAttempts + 1)] else t
  }

  /** `on conflict (storage_key) do nothing`. */
  function Record(t: UploadTable, up: Upload): UploadTable {
    if up.storageKey in t then t else t[up.storageKey := up.(deleteAttempts := 0)]
  }

  class UploadStore {
    var rows: UploadTable

    constructor ()
      ensures rows == map[]
    {
      rows := map[];
    }

    /** A recorded key stays as it is; a new one starts with its counter at 0. */
    method Create(up: Upload)
      modifies this
      ensures rows == Record(old(rows), up)
      ensures up.storageKey in rows && rows.Keys == old(rows).Keys + {up.storageKey}
    {
      if up.storageKey !in rows {
        rows := rows[up.storageKey := up.(deleteAttempts := 0)];
      }
    }

    method Delete(key: string)
      modifies this
      ensures rows == old(rows) - {key}
    {
      rows := rows - {key};
    }

    method MarkDeleteFailed(key: string)
      modifies this
      ensures rows == Mark(old(rows), key) && rows.Keys == old(rows).Keys
    {
      if key in rows {
        rows := rows[key := rows[key].(deleteAttempts := rows[key].deleteAttempts + 1)];
      }
    }
  }
}
