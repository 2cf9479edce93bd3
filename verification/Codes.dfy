/** Slugs, access codes and the share that carries them (internal/domain/share.go).

    The random source is an explicit byte stream, the clock an explicit integer (nanoseconds),
    and SHA-256 a function parameter `hash` over (salt, code), assumed injective only where a
    result needs it. */
module Codes {

  type Byte = b: int | 0 <= b < 256

  /** The salted digest as stored: hex text computed from a salt and a code. */
  type Hash = (seq<Byte>, string) -> string

  datatype Option<+T> = None | Some(value: T)

  const SLUG_LENGTH := 10
  const CODE_LENGTH := 6
  const SALT_LENGTH := 16
  const HOUR := 3_600_000_000_000
  const DEFAULT_TTL := 72 * HOUR
  const MAX_TTL := 7 * 24 * HOUR
  const LOWER := "abcdefghijklmnopqrstuvwxyz"
  const UPPER := "ABCDEFGHIJKLMNOPQRSTUVWXYZ"
  const DIGITS := "0123456789"
  const SLUG_ALPHABET := LOWER + UPPER + DIGITS
  const CODE_ALPHABET := "ABCDEFGHJKLMNPQRSTUVWXYZ23456789"
  const MAX_SHARE_COUNT := 3

  // ---------------------------------------------------------------- rejection sampling

  /** Bytes at or above this bound are rejected. */
  function Bound(n: int): int
    requires 1 <= n <= 256
  {
    256 - 256 % n
  }

  /** The accepted bytes of a stream, in order. */
  function Kept(stream: seq<Byte>, n: int): (r: seq<Byte>)
    requires 1 <= n <= 256
  {
    if stream == [] then []
    else
      var front := Kept(stream[..|stream| - 1], n);
      if stream[|stream| - 1] < Bound(n) then front + [stream[|stream| - 1]] else front
  }

  /** The characters the accepted bytes select. */
  function Select(alphabet: string, bytes: seq<Byte>): (r: string)
    requires 1 <= |alphabet| <= 256
    ensures |r| == |bytes|
    ensures forall i :: 0 <= i < |r| ==> r[i] == alphabet[bytes[i] % |alphabet|]
  {
    seq(|bytes|, i requires 0 <= i < |bytes| => alphabet[bytes[i] % |alphabet|])
  }

  lemma {:induction false} KeptOfPrefix(stream: seq<Byte>, m: nat, n: int)
    requires 1 <= n <= 256 && m <= |stream|
    ensures Kept(stream[..m], n) <= Kept(stream, n)
  {
    if m < |stream| {
      var front := stream[..|stream| - 1];
      assert front[..m] == stream[..m];
      KeptOfPrefix(front, m, n);
    } else {
      assert stream[..m] == stream;
    }
  }

  /** Fills `length` characters from the stream. It fails exactly when the stream ends before
      it holds enough accepted bytes, and reads no byte beyond the last one it needs. */
  method RandomString(alphabet: string, length: nat, stream: seq<Byte>) returns (r: Option<string>, used: nat)
    requires 1 <= |alphabet| <= 256
    ensures used <= |stream|
    ensures r.Some? <==> |Kept(stream, |alphabet|)| >= length
    ensures r.Some? ==> r.value == Select(alphabet, Kept(stream, |alphabet|)[..length])
    ensures r.Some? ==> |Kept(stream[..used], |alphabet|)| == length
    ensures r.Some? && used > 0 ==> |Kept(stream[..used - 1], |alphabet|)| < length
  {
    var n := |alphabet|;
    var max := 256 - 256 % n;
    var out := "";
    var i := 0;
    used := 0;
    while i < length
      invariant used <= |stream|
      invariant i == |out| == |Kept(stream[..used], n)| <= length
      invariant out == Select(alphabet, Kept(stream[..used], n))
      invariant used > 0 && i == length ==> |Kept(stream[..used - 1], n)| < length
      decreases |stream| - used
    {
      if used == |stream| {
        assert stream[..used] == stream;
        return None, used;
      }
      var b := stream[used];
      assert stream[..used + 1][..used] == stream[..used];
      used := used + 1;
      assert stream[..used - 1] == stream[..used][..used - 1];
      if b >= max {
        continue;
      }
      out := out + [alphabet[b % n]];
      i := i + 1;
    }
    KeptOfPrefix(stream, used, n);
    assert Kept(stream, n)[..length] == Kept(stream[..used], n);
    r := Some(out);
  }

  /** The accepted byte values below k*n that select index i. */
  function Hits(n: int, i: int, k: nat): set<int>
    requires 1 <= n && 0 <= i < n
  {
    set b | 0 <= b < k * n && b % n == i
  }

  lemma AtLeastOneMultiple(d: int, n: int)
    requires d >= 1 && n >= 1
    ensures d * n >= n
  {
  }

  lemma DivModUnique(q: int, n: int, r: int)
    requires n >= 1 && 0 <= r < n
    ensures (q * n + r) / n == q && (q * n + r) % n == r
  {
    var a := q * n + r;
    var d := a / n - q;
    assert a == (a / n) * n + a % n;
    assert d * n == (a / n) * n - q * n;
    assert d * n == r - a % n;
    if d >= 1 {
      AtLeastOneMultiple(d, n);
    } else if d <= -1 {
      AtLeastOneMultiple(-d, n);
    }
  }

  lemma NextBlock(n: int, i: int, k: nat)
    requires 1 <= n && 0 <= i < n
    ensures k * n + i !in Hits(n, i, k)
    ensures Hits(n, i, k + 1) == Hits(n, i, k) + {k * n + i}
  {
    assert (k + 1) * n == k * n + n;
    forall x | k * n <= x < k * n + n
      ensures x % n == x - k * n
    {
      DivModUnique(k, n, x - k * n);
    }
  }

  lemma {:induction false} HitsPerBlock(n: int, i: int, k: nat)
    requires 1 <= n && 0 <= i < n
    ensures |Hits(n, i, k)| == k
  {
    if k == 0 {
      assert Hits(n, i, 0) == {};
    } else {
      HitsPerBlock(n, i, k - 1);
      NextBlock(n, i, k - 1);
    }
  }

  /** No modulo bias: for every alphabet size from 1 to 256, each index is selected by exactly
      (256 - 256 mod n) / n of the byte values that are not rejected. */
  lemma SelectionIsUniform(n: int, i: int)
    requires 1 <= n <= 256 && 0 <= i < n
    ensures |set b | 0 <= b < Bound(n) && b % n == i| == Bound(n) / n
  {
    var k := 256 / n;
    assert Bound(n) == k * n;
    HitsPerBlock(n, i, k);
    assert (set b | 0 <= b < Bound(n) && b % n == i) == Hits(n, i, k);
    DivModUnique(k, n, 0);
  }

  // ---------------------------------------------------------------- slugs

  predicate AlphaNumeric(c: char) {
    'a' <= c <= 'z' || 'A' <= c <= 'Z' || '0' <= c <= '9'
  }

  predicate ValidSlug(slug: string) {
    |slug| == SLUG_LENGTH && forall i :: 0 <= i < |slug| ==> AlphaNumeric(slug[i])
  }

  /** The scan of a slug taken from a URL. */
  method ValidateSlug(slug: string) returns (ok: bool)
    ensures ok <==> ValidSlug(slug)
  {
    if |slug| != SLUG_LENGTH {
      return false;
    }
    for i := 0 to |slug|
      invariant forall j :: 0 <= j < i ==> AlphaNumeric(slug[j])
    {
      if !(('a' <= slug[i] <= 'z') || ('A' <= slug[i] <= 'Z') || ('0' <= slug[i] <= '9')) {
        return false;
      }
    }
    return true;
  }

  lemma SlugAlphabetIsAlphaNumeric(i: int)
    requires 0 <= i < |SLUG_ALPHABET|
    ensures AlphaNumeric(SLUG_ALPHABET[i])
  {
    LettersAndDigits();
    if i < 26 {
      assert SLUG_ALPHABET[i] == LOWER[i];
    } else if i < 52 {
      assert SLUG_ALPHABET[i] == UPPER[i - 26];
    } else {
      assert SLUG_ALPHABET[i] == DIGITS[i - 52];
    }
  }

  lemma LettersAndDigits()
    ensures forall i :: 0 <= i < 26 ==> AlphaNumeric(LOWER[i])
    ensures forall i :: 0 <= i < 26 ==> AlphaNumeric(UPPER[i])
    ensures forall i :: 0 <= i < 10 ==> AlphaNumeric(DIGITS[i])
  {
  }

  /** Every slug the generator can emit passes the validation. */
  lemma GeneratedSlugIsValid(bytes: seq<Byte>)
    requires |bytes| == SLUG_LENGTH
    ensures ValidSlug(Select(SLUG_ALPHABET, bytes))
  {
    forall i | 0 <= i < |bytes|
      ensures AlphaNumeric(Select(SLUG_ALPHABET, bytes)[i])
    {
      SlugAlphabetIsAlphaNumeric(bytes[i] % |SLUG_ALPHABET|);
    }
  }

  /** Upper-case letters and digits: what a code is made of. */
  predicate CodeText(code: string) {
    forall i :: 0 <= i < |code| ==> 'A' <= code[i] <= 'Z' || '0' <= code[i] <= '9'
  }

  lemma CodeAlphabetIsCodeText()
    ensures CodeText(CODE_ALPHABET)
  {
    assert CODE_ALPHABET[..16] == "ABCDEFGHJKLMNPQR";
    assert CODE_ALPHABET[16..] == "STUVWXYZ23456789";
    forall i | 0 <= i < |CODE_ALPHABET|
      ensures 'A' <= CODE_ALPHABET[i] <= 'Z' || '0' <= CODE_ALPHABET[i] <= '9'
    {
      if i < 16 {
        assert CODE_ALPHABET[i] == CODE_ALPHABET[..16][i];
      } else {
        assert CODE_ALPHABET[i] == CODE_ALPHABET[16..][i - 16];
      }
    }
  }

  lemma GeneratedCodeIsCodeText(bytes: seq<Byte>)
    ensures CodeText(Select(CODE_ALPHABET, bytes))
  {
    CodeAlphabetIsCodeText();
  }

  // ---------------------------------------------------------------- normalisation

  function Upper(c: char): char {
    if 'a' <= c <= 'z' then c - (32 as char) else c
  }

  /** Drops spaces and dashes and upper-cases ASCII letters. */
  function Normalize(code: string): (r: string)
    ensures |r| <= |code|
  {
    if code == [] then []
    else
      var front, last := Normalize(code[..|code| - 1]), code[|code| - 1];
      if last == ' ' || last == '-' then front else front + [Upper(last)]
  }

  method NormalizeCode(code: string) returns (out: string)
    ensures out == Normalize(code)
  {
    out := "";
    for i := 0 to |code|
      invariant out == Normalize(code[..i])
    {
      assert code[..i + 1][..i] == code[..i];
      if code[i] == ' ' || code[i] == '-' {
        continue;
      }
      var r := code[i];
      if 'a' <= r <= 'z' {
        r := r - (32 as char);
      }
      out := out + [r];
    }
    assert code[..|code|] == code;
  }

  /** Independent of `Normalize`: `typed` is `code` with any number of spaces and dashes
      inserted and any of its letters put in lower case. */
  predicate Variant(typed: string, code: string)
    decreases |typed|
  {
    if typed == [] then code == []
    else
      var c := typed[|typed| - 1];
      if c == ' ' || c == '-' then Variant(typed[..|typed| - 1], code)
      else
        && code != []
        && (c == code[|code| - 1] || ('A' <= code[|code| - 1] <= 'Z' && c == code[|code| - 1] + (32 as char)))
        && Variant(typed[..|typed| - 1], code[..|code| - 1])
  }

  lemma {:induction false} NormalizeMeansVariant(typed: string, code: string)
    requires CodeText(code)
    ensures Normalize(typed) == code <==> Variant(typed, code)
    decreases |typed|
  {
    if typed != [] {
      var front, c := typed[..|typed| - 1], typed[|typed| - 1];
      if c == ' ' || c == '-' {
        NormalizeMeansVariant(front, code);
      } else if code != [] {
        var code', d := code[..|code| - 1], code[|code| - 1];
        NormalizeMeansVariant(front, code');
        assert code == code' + [d];
        assert Upper(c) == d <==> (c == d || ('A' <= d <= 'Z' && c == d + (32 as char))) by {
          UpperMatches(c, d);
        }
        if Normalize(typed) == code {
          assert Normalize(front) == Normalize(typed)[..|code'|] == code';
        }
      }
    }
  }

  lemma UpperMatches(c: char, d: char)
    requires 'A' <= d <= 'Z' || '0' <= d <= '9'
    ensures Upper(c) == d <==> (c == d || ('A' <= d <= 'Z' && c == d + (32 as char)))
  {
  }

  lemma {:induction false} NormalizeIsIdempotent(code: string)
    ensures Normalize(Normalize(code)) == Normalize(code)
  {
    if code != [] {
      var front, last := code[..|code| - 1], code[|code| - 1];
      NormalizeIsIdempotent(front);
      if last != ' ' && last != '-' {
        assert Normalize(code)[..|Normalize(code)| - 1] == Normalize(front);
      }
    }
  }

  // ---------------------------------------------------------------- hex (section 8 of RFC 4648)

  function HexDigit(v: int): char
    requires 0 <= v < 16
  {
    if v < 10 then '0' + (v as char) else 'a' + ((v - 10) as char)
  }

  function HexValue(c: char): Option<int> {
    if '0' <= c <= '9' then Some((c - '0') as int)
    else if 'a' <= c <= 'f' then Some((c - 'a') as int + 10)
    else if 'A' <= c <= 'F' then Some((c - 'A') as int + 10)
    else None
  }

  function EncodeHex(bytes: seq<Byte>): (r: string)
    ensures |r| == 2 * |bytes|
  {
    if bytes == [] then []
    else [HexDigit(bytes[0] / 16), HexDigit(bytes[0] % 16)] + EncodeHex(bytes[1..])
  }

  /** Fails on an odd length and on any character that is not a hex digit. */
  function DecodeHex(text: string): (r: Option<seq<Byte>>)
    ensures r.Some? ==> |text| == 2 * |r.value|
  {
    if text == [] then Some([])
    else if |text| == 1 then None
    else
      var rest := DecodeHex(text[2..]);
      match (HexValue(text[0]), HexValue(text[1]), rest)
      case (Some(hi), Some(lo), Some(bytes)) => Some([(16 * hi + lo) as Byte] + bytes)
      case _ => None
  }

  lemma {:induction false} HexRoundTrip(bytes: seq<Byte>)
    ensures DecodeHex(EncodeHex(bytes)) == Some(bytes)
  {
    if bytes != [] {
      HexRoundTrip(bytes[1..]);
      assert EncodeHex(bytes)[2..] == EncodeHex(bytes[1..]);
      assert bytes == [bytes[0]] + bytes[1..];
    }
  }
}
