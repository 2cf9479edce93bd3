/** A share and its access code: minting, rotating and verifying (internal/domain/share.go). */
module Shares {
  import opened Codes

  /** The value of a share, as the shares table stores it. */
  datatype Row = Row(
    slug: string, storageKey: string, fileName: string, fileSize: int,
    ownerId: string, ownerEmail: string, recipientEmail: string,
    codeSalt: string, codeHash: string, shareCount: int, createdAt: int, expiresAt: int)

  datatype Verdict = Accepted | Expired | BadSalt | WrongCode

  datatype MintResult = Minted(code: string) | ShareLimit | RandomFailed

  /** A signed 64-bit product, as `time.Duration(hours) * time.Hour` computes it. */
  function TtlFromHours(hours: int): (ttl: int)
    ensures -0x8000_0000_0000_0000 <= ttl < 0x8000_0000_0000_0000
    ensures (ttl - hours * HOUR) % 0x1_0000_0000_0000_0000 == 0
  {
    var m := (hours * HOUR) % 0x1_0000_0000_0000_0000;
    if m < 0x8000_0000_0000_0000 then m else m - 0x1_0000_0000_0000_0000
  }

  /** Whatever was asked for, including a wrapped product, a share lives at most seven days; what
      cannot be granted becomes the default of three. */
  function EffectiveTtl(ttl: int): (r: int)
    ensures 0 < r <= MAX_TTL
    ensures 0 < ttl <= MAX_TTL ==> r == ttl
    ensures r != ttl ==> r == 72 * HOUR
  {
    if ttl <= 0 || ttl > MAX_TTL then DEFAULT_TTL else ttl
  }

  /** The row carries exactly this salt and the digest of this code under it. */
  predicate Carries(row: Row, salt: seq<Byte>, code: string, hash: Hash) {
    && row.codeSalt == EncodeHex(salt)
    && row.codeHash == hash(salt, code)
  }

  ghost predicate Injective(hash: Hash) {
    forall salt, a, b :: |salt| == SALT_LENGTH && hash(salt, a) == hash(salt, b) ==> a == b
  }

  function NewRow(slug: string, key: string, fileName: string, fileSize: int, ownerId: string, ownerEmail: string,
                  recipientEmail: string, ttl: int, code: string, salt: seq<Byte>, now: int, hash: Hash): Row {
    Row(slug, key, fileName, fileSize, ownerId, ownerEmail, recipientEmail,
        EncodeHex(salt), hash(salt, code), 1, now, now + EffectiveTtl(ttl))
  }

  function RotatedRow(row: Row, ttl: int, code: string, salt: seq<Byte>, now: int, hash: Hash): Row {
    row.(codeSalt := EncodeHex(salt), codeHash := hash(salt, code),
         shareCount := row.shareCount + 1, expiresAt := now + EffectiveTtl(ttl))
  }

  function Verify(row: Row, typed: string, now: int, hash: Hash): Verdict {
    if now > row.expiresAt then Expired
    else
      match DecodeHex(row.codeSalt)
      case None => BadSalt
      case Some(salt) => if row.codeHash == hash(salt, Normalize(typed)) then Accepted else WrongCode
  }

  /** What `Verify` decides, without normalising or hashing: until it expires, a row carrying
      `code` accepts the spellings of that code with spaces, dashes and lower case, and no
      other input. */
  lemma VerifyAcceptsExactlyVariants(row: Row, salt: seq<Byte>, code: string, typed: string, now: int, hash: Hash)
    requires |salt| == SALT_LENGTH && CodeText(code) && Carries(row, salt, code, hash) && Injective(hash)
    ensures Verify(row, typed, now, hash) ==
            if now > row.expiresAt then Expired
            else if Variant(typed, code) then Accepted
            else WrongCode
  {
    HexRoundTrip(salt);
    NormalizeMeansVariant(typed, code);
  }

  /** Two codes of which neither is the other: after a rotation the old one is refused. */
  lemma RotationRetiresOldCode(row: Row, oldCode: string, ttl: int, code: string, salt: seq<Byte>, at: int, now: int, hash: Hash)
    requires |salt| == SALT_LENGTH && CodeText(code) && CodeText(oldCode) && code != oldCode && Injective(hash)
    ensures var r := RotatedRow(row, ttl, code, salt, at, hash);
            now <= r.expiresAt ==>
              Verify(r, code, now, hash) == Accepted && Verify(r, oldCode, now, hash) == WrongCode
  {
    var r := RotatedRow(row, ttl, code, salt, at, hash);
    VerifyAcceptsExactlyVariants(r, salt, code, code, now, hash);
    VerifyAcceptsExactlyVariants(r, salt, code, oldCode, now, hash);
    CodeNormalizesToItself(code);
    CodeNormalizesToItself(oldCode);
    NormalizeMeansVariant(code, code);
    NormalizeMeansVariant(oldCode, code);
  }

  lemma {:induction false} CodeNormalizesToItself(code: string)
    requires CodeText(code)
    ensures Normalize(code) == code
  {
    if code != [] {
      CodeNormalizesToItself(code[..|code| - 1]);
      assert code == code[..|code| - 1] + [code[|code| - 1]];
    }
  }

  /** The share object the handlers hold: a private snapshot whose fields `Rotate` overwrites. */
  class Share {
    const slug: string
    const storageKey: string
    const fileName: string
    const fileSize: int
    const ownerId: string
    const ownerEmail: string
    const createdAt: int
    var recipientEmail: string
    var codeSalt: string
    var codeHash: string
    var shareCount: int
    var expiresAt: int

    function Value(): Row
      reads this
    {
      Row(slug, storageKey, fileName, fileSize, ownerId, ownerEmail, recipientEmail,
          codeSalt, codeHash, shareCount, createdAt, expiresAt)
    }

    constructor (row: Row)
      ensures Value() == row
    {
      slug, storageKey, fileName, fileSize := row.slug, row.storageKey, row.fileName, row.fileSize;
      ownerId, ownerEmail, createdAt := row.ownerId, row.ownerEmail, row.createdAt;
      recipientEmail, codeSalt, codeHash := row.recipientEmail, row.codeSalt, row.codeHash;
      shareCount, expiresAt := row.shareCount, row.expiresAt;
    }

    /** A refused or failed rotation leaves every field as it was; a successful one carries the
        returned code and nothing of the previous one. */
    method Rotate(ttl: int, now: int, stream: seq<Byte>, random: Option<seq<Byte>>, hash: Hash) returns (r: MintResult)
      requires random.Some? ==> |random.value| == SALT_LENGTH
      modifies this
      ensures r.ShareLimit? <==> old(shareCount) >= MAX_SHARE_COUNT
      ensures r.RandomFailed? <==>
                old(shareCount) < MAX_SHARE_COUNT && (|Kept(stream, |CODE_ALPHABET|)| < CODE_LENGTH || random.None?)
      ensures !r.Minted? ==> Value() == old(Value())
      ensures r.Minted? ==>
                && random.Some? && |r.code| == CODE_LENGTH && CodeText(r.code)
                && |Kept(stream, |CODE_ALPHABET|)| >= CODE_LENGTH
                && r.code == Select(CODE_ALPHABET, Kept(stream, |CODE_ALPHABET|)[..CODE_LENGTH])
                && Value() == RotatedRow(old(Value()), ttl, r.code, random.value, now, hash)
                && Carries(Value(), random.value, r.code, hash)
    {
      if shareCount >= MAX_SHARE_COUNT {
        return ShareLimit;
      }
      var life := if ttl <= 0 || ttl > MAX_TTL then DEFAULT_TTL else ttl;
      var code, _ := RandomString(CODE_ALPHABET, CODE_LENGTH, stream);
      if code.None? {
        return RandomFailed;
      }
      if random.None? {
        return RandomFailed;
      }
      GeneratedCodeIsCodeText(Kept(stream, |CODE_ALPHABET|)[..CODE_LENGTH]);
      codeSalt := EncodeHex(random.value);
      codeHash := hash(random.value, code.value);
      shareCount := shareCount + 1;
      expiresAt := now + life;
      return Minted(code.value);
    }

    method Check(typed: string, now: int, hash: Hash) returns (v: Verdict)
      ensures v == Verify(Value(), typed, now, hash)
    {
      if now > expiresAt {
        return Expired;
      }
      var salt := DecodeHex(codeSalt);
      if salt.None? {
        return BadSalt;
      }
      var normal := NormalizeCode(typed);
      return if codeHash == hash(salt.value, normal) then Accepted else WrongCode;
    }
  }

  /** A new share, or nothing when the random source fails. The slug is valid, the count is 1
      and the row carries the code handed back. */
  method NewShare(key: string, fileName: string, fileSize: int, ownerId: string, ownerEmail: string,
                  recipientEmail: string, ttl: int, now: int,
                  slugStream: seq<Byte>, codeStream: seq<Byte>, random: Option<seq<Byte>>, hash: Hash)
    returns (r: Option<(Row, string)>)
    requires random.Some? ==> |random.value| == SALT_LENGTH
    ensures r.Some? <==>
              && |Kept(slugStream, |SLUG_ALPHABET|)| >= SLUG_LENGTH
              && |Kept(codeStream, |CODE_ALPHABET|)| >= CODE_LENGTH
              && random.Some?
    ensures r.Some? ==>
              var (row, code) := r.value;
              && ValidSlug(row.slug) && CodeText(code) && |code| == CODE_LENGTH
              && row.slug == Select(SLUG_ALPHABET, Kept(slugStream, |SLUG_ALPHABET|)[..SLUG_LENGTH])
              && code == Select(CODE_ALPHABET, Kept(codeStream, |CODE_ALPHABET|)[..CODE_LENGTH])
              && row == NewRow(row.slug, key, fileName, fileSize, ownerId, ownerEmail, recipientEmail,
                               ttl, code, random.value, now, hash)
              && Carries(row, random.value, code, hash)
  {
    var life := if ttl <= 0 || ttl > MAX_TTL then DEFAULT_TTL else ttl;
    var slug, _ := RandomString(SLUG_ALPHABET, SLUG_LENGTH, slugStream);
    var code, _ := RandomString(CODE_ALPHABET, CODE_LENGTH, codeStream);
    if slug.None? || code.None? || random.None? {
      return None;
    }
    GeneratedSlugIsValid(Kept(slugStream, |SLUG_ALPHABET|)[..SLUG_LENGTH]);
    GeneratedCodeIsCodeText(Kept(codeStream, |CODE_ALPHABET|)[..CODE_LENGTH]);
    var row := Row(slug.value, key, fileName, fileSize, ownerId, ownerEmail, recipientEmail,
                   EncodeHex(random.value), hash(random.value, code.value), 1, now, now + life);
    return Some((row, code.value));
  }
}
