/** File names and storage keys: sanitising (internal/handlers/file.go), building and splitting
    (internal/storagekey/storagekey.go), validating (internal/handlers/multipart.go).

    A string is a sequence of Unicode characters; `ByteLen` is its length in UTF-8. */
module Filenames {

  const MAX_FILENAME := 180
  const MAX_EXT := 20
  const MAX_KEY := 40 + MAX_FILENAME

  // ---------------------------------------------------------------- path and string helpers

  predicate IsControl(c: char) {
    c as int < 0x20 || c as int == 0x7f
  }

  /** `unicode.IsSpace`. */
  predicate IsSpace(c: char) {
    var v := c as int;
    v == 0x20 || 0x09 <= v <= 0x0d || v == 0x85 || v == 0xa0 || v == 0x1680 || 0x2000 <= v <= 0x200a
    || v == 0x2028 || v == 0x2029 || v == 0x202f || v == 0x205f || v == 0x3000
  }

  predicate IsSlash(c: char) {
    c == '/' || c == '\\'
  }

  function Last(s: string): char
    requires s != []
  {
    s[|s| - 1]
  }

  function Front(s: string): string
    requires s != []
  {
    s[..|s| - 1]
  }

  /** `strings.ReplaceAll(name, "\\", "/")`. */
  function Unslash(s: string): (r: string)
    ensures |r| == |s|
    ensures forall i :: 0 <= i < |s| ==> r[i] == if s[i] == '\\' then '/' else s[i]
  {
    seq(|s|, i requires 0 <= i < |s| => if s[i] == '\\' then '/' else s[i])
  }

  function StripSlashes(s: string): string {
    if s != [] && Last(s) == '/' then StripSlashes(Front(s)) else s
  }

  function AfterSlash(s: string): string {
    if s == [] || Last(s) == '/' then [] else AfterSlash(Front(s)) + [Last(s)]
  }

  /** `path.Base`. */
  function Base(s: string): string {
    if s == [] then "."
    else
      var r := AfterSlash(StripSlashes(s));
      if r == [] then "/" else r
  }

  function DropControls(s: string): string {
    if s == [] then []
    else if IsControl(Last(s)) then DropControls(Front(s))
    else DropControls(Front(s)) + [Last(s)]
  }

  function TrimRight(s: string): string {
    if s != [] && IsSpace(Last(s)) then TrimRight(Front(s)) else s
  }

  function TrimLeft(s: string): string {
    if s != [] && IsSpace(s[0]) then TrimLeft(s[1..]) else s
  }

  function Trim(s: string): string {
    TrimRight(TrimLeft(s))
  }

  /** `path.Ext`: from the last dot on, if no slash follows it. */
  function Ext(s: string): string {
    if s == [] || Last(s) == '/' then []
    else if Last(s) == '.' then "."
    else
      var e := Ext(Front(s));
      if e == [] then [] else e + [Last(s)]
  }

  // ---------------------------------------------------------------- sanitising

  /** The name before it is shortened. */
  function Cleaned(name: string): string {
    Trim(DropControls(Base(Unslash(name))))
  }

  /** The extension a shortened name keeps. */
  function KeptExt(s: string): string {
    if |Ext(s)| > MAX_EXT then [] else Ext(s)
  }

  function Shorten(s: string): string {
    if |s| <= MAX_FILENAME then s else s[..MAX_FILENAME - |KeptExt(s)|] + KeptExt(s)
  }

  function OrFile(s: string): string {
    if s == "" || s == "." || s == ".." then "file" else s
  }

  function Sanitize(name: string): string {
    OrFile(Shorten(Cleaned(name)))
  }

  // ---------------------------------------------------------------- what each stage leaves

  /** No separator, no control character. */
  predicate Plain(s: string) {
    forall i :: 0 <= i < |s| ==> !IsSlash(s[i]) && !IsControl(s[i])
  }

  predicate NoSlash(s: string) {
    forall i :: 0 <= i < |s| ==> !IsSlash(s[i])
  }

  predicate NoBackslash(s: string) {
    forall i :: 0 <= i < |s| ==> s[i] != '\\'
  }

  predicate OnlySlashes(s: string) {
    forall i :: 0 <= i < |s| ==> IsSlash(s[i])
  }

  predicate Trimmed(s: string) {
    s != [] ==> !IsSpace(s[0]) && !IsSpace(Last(s))
  }

  lemma {:induction false} StripKeepsChars(s: string)
    requires NoBackslash(s)
    ensures NoBackslash(StripSlashes(s))
    ensures StripSlashes(s) == [] <==> OnlySlashes(s)
    ensures StripSlashes(s) != [] ==> Last(StripSlashes(s)) != '/'
  {
    if s != [] && Last(s) == '/' {
      StripKeepsChars(Front(s));
      if OnlySlashes(Front(s)) {
        assert forall i :: 0 <= i < |s| - 1 ==> s[i] == Front(s)[i];
      }
      if OnlySlashes(s) {
        assert forall i :: 0 <= i < |s| - 1 ==> Front(s)[i] == s[i];
      }
    } else if s != [] {
      assert !IsSlash(s[|s| - 1]);
    }
  }

  lemma {:induction false} AfterSlashHasNone(s: string)
    requires NoBackslash(s)
    ensures NoSlash(AfterSlash(s))
    ensures NoSlash(s) ==> AfterSlash(s) == s
    ensures s != [] && Last(s) != '/' ==> AfterSlash(s) != []
  {
    if s != [] && Last(s) != '/' {
      AfterSlashHasNone(Front(s));
      assert s == Front(s) + [Last(s)];
    } else if s != [] {
      assert IsSlash(s[|s| - 1]);
    }
  }

  lemma {:induction false} DropControlsLeavesPlain(s: string)
    requires NoSlash(s)
    ensures Plain(DropControls(s))
    ensures Plain(s) ==> DropControls(s) == s
  {
    if s != [] {
      DropControlsLeavesPlain(Front(s));
      assert s == Front(s) + [Last(s)];
    }
  }

  lemma {:induction false} TrimRightShape(s: string)
    ensures TrimRight(s) <= s
    ensures TrimRight(s) != [] ==> !IsSpace(Last(TrimRight(s)))
    ensures TrimRight(s) == s <==> s == [] || !IsSpace(Last(s))
  {
    if s != [] && IsSpace(Last(s)) {
      TrimRightShape(Front(s));
    }
  }

  lemma {:induction false} TrimLeftShape(s: string)
    ensures |TrimLeft(s)| <= |s| && TrimLeft(s) == s[|s| - |TrimLeft(s)|..]
    ensures TrimLeft(s) != [] ==> !IsSpace(TrimLeft(s)[0])
    ensures s != [] && !IsSpace(s[0]) ==> TrimLeft(s) == s
  {
    if s != [] && IsSpace(s[0]) {
      TrimLeftShape(s[1..]);
    }
  }

  lemma TrimShape(s: string)
    ensures Trimmed(Trim(s))
    ensures Plain(s) ==> Plain(Trim(s))
    ensures Trimmed(s) ==> Trim(s) == s
  {
    TrimLeftShape(s);
    TrimRightShape(TrimLeft(s));
    var t := Trim(s);
    assert t <= TrimLeft(s);
    assert t != [] ==> t[0] == TrimLeft(s)[0];
    forall i | 0 <= i < |t|
      ensures t[i] == s[|s| - |TrimLeft(s)| + i]
    {
      assert t[i] == TrimLeft(s)[i];
    }
  }

  /** Up to shortening: either the lone separator that a name of nothing but separators leaves,
      or a plain, trimmed name. */
  lemma CleanedShape(name: string)
    ensures if name != [] && OnlySlashes(name) then Cleaned(name) == "/" else Plain(Cleaned(name)) && Trimmed(Cleaned(name))
  {
    var u := Unslash(name);
    StripKeepsChars(u);
    AfterSlashHasNone(StripSlashes(u));
    assert OnlySlashes(name) <==> OnlySlashes(u) by {
      assert forall i :: 0 <= i < |name| ==> (IsSlash(name[i]) <==> IsSlash(u[i]));
    }
    var b := Base(u);
    if name != [] && OnlySlashes(name) {
      assert b == "/";
      SlashCleaned();
    } else {
      assert NoSlash(b);
      DropControlsLeavesPlain(b);
      TrimShape(DropControls(b));
    }
  }

  lemma SlashCleaned()
    ensures Trim(DropControls("/")) == "/"
  {
    assert Front("/") == [] && DropControls("/") == [] + ['/'];
    TrimShape("/");
  }

  lemma {:induction false} ExtIsSuffix(s: string)
    ensures |Ext(s)| <= |s| && Ext(s) == s[|s| - |Ext(s)|..]
    ensures Ext(s) != [] ==> Ext(s)[0] == '.' && forall i :: 0 < i < |Ext(s)| ==> Ext(s)[i] != '.' && Ext(s)[i] != '/'
  {
    if s != [] && Last(s) != '/' && Last(s) != '.' {
      ExtIsSuffix(Front(s));
    }
  }

  lemma ShortenShape(s: string)
    requires Plain(s) && Trimmed(s)
    ensures Plain(Shorten(s)) && |Shorten(s)| <= MAX_FILENAME
    ensures Shorten(s) == [] <==> s == []
    ensures s != [] ==> Shorten(s)[0] == s[0]
    ensures |s| > MAX_FILENAME ==> |Shorten(s)| == MAX_FILENAME
    ensures |s| > MAX_FILENAME && KeptExt(s) != [] ==> Last(Shorten(s)) == Last(s)
    ensures |s| > MAX_FILENAME && KeptExt(s) == [] ==> Last(Shorten(s)) == s[MAX_FILENAME - 1]
  {
    ExtIsSuffix(s);
    if |s| > MAX_FILENAME {
      var keep := MAX_FILENAME - |KeptExt(s)|;
      forall i | 0 <= i < |Shorten(s)|
        ensures !IsSlash(Shorten(s)[i]) && !IsControl(Shorten(s)[i])
      {
        if i < keep {
          assert Shorten(s)[i] == s[i];
        } else {
          assert Shorten(s)[i] == s[|s| - |KeptExt(s)| + (i - keep)];
        }
      }
    }
  }

  // ---------------------------------------------------------------- the sanitiser's promises

  /** At most 180 characters, never empty, no control character, no separator: the one exception
      is a nonempty name of separators only, which becomes a lone slash. */
  lemma SanitizedShape(name: string)
    ensures 1 <= |Sanitize(name)| <= MAX_FILENAME
    ensures forall i :: 0 <= i < |Sanitize(name)| ==> !IsControl(Sanitize(name)[i])
    ensures if name != [] && OnlySlashes(name) then Sanitize(name) == "/" else Plain(Sanitize(name))
    ensures Sanitize(name) != "." && Sanitize(name) != ".."
  {
    CleanedShape(name);
    if !(name != [] && OnlySlashes(name)) {
      ShortenShape(Cleaned(name));
    }
  }

  /** Shortening keeps a final extension of up to 20 characters. */
  lemma ShorteningKeepsExtension(name: string)
    requires |Cleaned(name)| > MAX_FILENAME && 0 < |Ext(Cleaned(name))| <= MAX_EXT
    ensures var e := Ext(Cleaned(name));
            && |Sanitize(name)| == MAX_FILENAME
            && Sanitize(name)[MAX_FILENAME - |e|..] == e
            && Sanitize(name)[..MAX_FILENAME - |e|] == Cleaned(name)[..MAX_FILENAME - |e|]
            && Ext(Sanitize(name)) == e
  {
    ShortenedParts(Cleaned(name));
  }

  lemma ShortenedParts(c: string)
    requires |c| > MAX_FILENAME && 0 < |Ext(c)| <= MAX_EXT
    ensures var (e, keep) := (Ext(c), MAX_FILENAME - |Ext(c)|);
            && Shorten(c) == c[..keep] + e && |Shorten(c)| == MAX_FILENAME && OrFile(Shorten(c)) == Shorten(c)
            && Shorten(c)[keep..] == e && Shorten(c)[..keep] == c[..keep] && Ext(Shorten(c)) == e
  {
    ExtIsSuffix(c);
    var keep := MAX_FILENAME - |Ext(c)|;
    ExtOfAppended(c[..keep], Ext(c));
    JoinedParts(c[..keep], Ext(c));
  }

  lemma JoinedParts(a: string, b: string)
    ensures (a + b)[..|a|] == a && (a + b)[|a|..] == b
  {
  }

  lemma {:induction false} ExtOfAppended(s: string, e: string)
    requires e != [] && e[0] == '.' && forall i :: 0 < i < |e| ==> e[i] != '.' && e[i] != '/'
    ensures Ext(s + e) == e
  {
    assert Last(s + e) == Last(e);
    if |e| == 1 {
      assert e == ".";
    } else {
      assert Front(s + e) == s + Front(e);
      ExtOfAppended(s, Front(e));
      assert e == Front(e) + [Last(e)];
    }
  }

  /** The name was cut, no extension was kept, and the cut ends in white space. */
  predicate CutEndsInSpace(name: string) {
    var c := Cleaned(name);
    |c| > MAX_FILENAME && KeptExt(c) == [] && IsSpace(c[MAX_FILENAME - 1])
  }

  /** A plain name within the limit is only trimmed. */
  lemma PlainIsOnlyTrimmed(s: string)
    requires Plain(s) && s != [] && |s| <= MAX_FILENAME
    ensures Cleaned(s) == Trim(s)
  {
    assert Unslash(s) == s;
    assert !IsSlash(s[|s| - 1]);
    assert StripSlashes(s) == s;
    AfterSlashHasNone(s);
    DropControlsLeavesPlain(s);
  }

  lemma TrimShrinks(s: string)
    requires s != [] && !IsSpace(s[0]) && IsSpace(Last(s))
    ensures |Trim(s)| < |s|
  {
    TrimLeftShape(s);
    TrimRightShape(s);
  }

  lemma ResanitizePlain(y: string)
    requires Plain(y) && 1 <= |y| <= MAX_FILENAME
    ensures Sanitize(y) == OrFile(Trim(y))
  {
    PlainIsOnlyTrimmed(y);
    TrimLeftShape(y);
    TrimRightShape(TrimLeft(y));
  }

  /** A cut that ends in white space is trimmed the second time, whatever is left of it. */
  lemma TrimmedCutDiffers(y: string)
    requires |y| == MAX_FILENAME && !IsSpace(y[0]) && IsSpace(Last(y))
    ensures OrFile(Trim(y)) != y
  {
    TrimShrinks(y);
  }

  /** A name that starts and ends visibly is a fixed point. */
  lemma TrimmedIsFixed(y: string)
    requires Plain(y) && 1 <= |y| <= MAX_FILENAME && Trimmed(y) && y != "." && y != ".."
    ensures Sanitize(y) == y
  {
    ResanitizePlain(y);
    TrimShape(y);
  }

  lemma SlashIsFixed()
    ensures Sanitize("/") == "/"
  {
    CleanedShape("/");
  }

  /** Sanitising twice is sanitising once, exactly unless a cut ended in white space. */
  lemma SanitizeIsIdempotentIff(name: string)
    ensures Sanitize(Sanitize(name)) == Sanitize(name) <==> !CutEndsInSpace(name)
  {
    var c, y := Cleaned(name), Sanitize(name);
    CleanedShape(name);
    SanitizedShape(name);
    if name != [] && OnlySlashes(name) {
      SlashIsFixed();
    } else if CutEndsInSpace(name) {
      ShortenShape(c);
      ResanitizePlain(y);
      TrimmedCutDiffers(y);
    } else {
      VisibleEnds(name);
      TrimmedIsFixed(y);
    }
  }

  lemma ShortenedIsTrimmed(c: string)
    requires Plain(c) && Trimmed(c)
    requires |c| > MAX_FILENAME && KeptExt(c) == [] ==> !IsSpace(c[MAX_FILENAME - 1])
    ensures Trimmed(Shorten(c))
  {
    ShortenShape(c);
  }

  lemma VisibleEnds(name: string)
    requires !CutEndsInSpace(name) && !(name != [] && OnlySlashes(name))
    ensures Trimmed(Sanitize(name))
  {
    CleanedShape(name);
    ShortenedIsTrimmed(Cleaned(name));
  }

  lemma {:induction false} AfterLastSlash(dir: string, base: string)
    requires NoSlash(base)
    ensures AfterSlash(dir + "/" + base) == base
  {
    var s := dir + "/" + base;
    if base == [] {
      assert Last(s) == '/';
    } else {
      assert IsSlash('/') && !IsSlash(base[|base| - 1]);
      assert Front(s) == dir + "/" + Front(base) && Last(s) == Last(base);
      AfterLastSlash(dir, Front(base));
      assert base == Front(base) + [Last(base)];
    }
  }

  /** No directory part survives, whichever separator introduces the last component. */
  lemma DirectoriesAreDropped(dir: string, sep: char, base: string)
    requires IsSlash(sep) && NoSlash(base) && base != []
    ensures Sanitize(dir + [sep] + base) == Sanitize(base)
  {
    var s, u := dir + [sep] + base, Unslash(dir) + "/" + base;
    assert Unslash(s) == u;
    assert Unslash(base) == base;
    assert !IsSlash(base[|base| - 1]);
    assert Last(u) == Last(base);
    AfterLastSlash(Unslash(dir), base);
    AfterSlashHasNone(base);
  }

  // ---------------------------------------------------------------- keys

  function CharLen(c: char): nat {
    var v := c as int;
    if v < 0x80 then 1 else if v < 0x800 then 2 else if v < 0x10000 then 3 else 4
  }

  /** Length in UTF-8. */
  function ByteLen(s: string): nat {
    if s == [] then 0 else ByteLen(Front(s)) + CharLen(Last(s))
  }

  lemma {:induction false} ByteLenConcat(a: string, b: string)
    ensures ByteLen(a + b) == ByteLen(a) + ByteLen(b)
  {
    if b == [] {
      assert a + b == a;
    } else {
      ByteLenConcat(a, Front(b));
      assert Front(a + b) == a + Front(b) && Last(a + b) == Last(b);
    }
  }

  predicate Ascii(s: string) {
    forall i :: 0 <= i < |s| ==> s[i] as int < 0x80
  }

  lemma {:induction false} AsciiByteLen(s: string)
    requires Ascii(s)
    ensures ByteLen(s) == |s|
  {
    if s != [] {
      AsciiByteLen(Front(s));
    }
  }

  /** A version-4 UUID in its text form: 36 hex digits and dashes. */
  predicate IsUuid(id: string) {
    |id| == 36 && forall i :: 0 <= i < 36 ==> '0' <= id[i] <= '9' || 'a' <= id[i] <= 'f' || id[i] == '-'
  }

  function Build(id: string, name: string): string {
    id + "_" + name
  }

  /** `strings.Cut` at the first underscore; without one the whole key is the name. */
  function Split(key: string): (string, string) {
    var i := Underscore(key);
    if i == |key| then ("", key) else (key[..i], key[i + 1..])
  }

  function Underscore(key: string): (i: nat)
    ensures i <= |key|
    ensures forall j :: 0 <= j < i ==> key[j] != '_'
    ensures i < |key| ==> key[i] == '_'
  {
    if key == [] || key[0] == '_' then 0 else 1 + Underscore(key[1..])
  }

  predicate ValidKey(key: string) {
    key != "" && ByteLen(key) <= MAX_KEY && Plain(key)
  }

  /** The scan of a client-supplied key. */
  method CheckKey(key: string) returns (ok: bool)
    ensures ok <==> ValidKey(key)
  {
    if key == "" || ByteLen(key) > MAX_KEY {
      return false;
    }
    for i := 0 to |key|
      invariant forall j :: 0 <= j < i ==> !IsSlash(key[j]) && !IsControl(key[j])
    {
      var r := key[i];
      if r as int < 0x20 || r as int == 0x7f || r == '/' || r == '\\' {
        return false;
      }
    }
    return true;
  }

  /** Splitting an issued key gives back the id and the name, underscores in the name included. */
  lemma SplitInvertsBuild(id: string, name: string)
    requires IsUuid(id)
    ensures Split(Build(id, name)) == (id, name)
  {
    var key := Build(id, name);
    var i := Underscore(key);
    assert key[36] == '_' && forall j :: 0 <= j < 36 ==> key[j] == id[j];
    assert i == 36;
    assert key[..36] == id && key[37..] == name;
  }

  lemma KeyBytes(id: string, name: string)
    requires IsUuid(id)
    ensures ByteLen(Build(id, name)) == 37 + ByteLen(name)
  {
    AsciiByteLen(id);
    assert Front("_") == [] && ByteLen("_") == 1;
    ByteLenConcat(id, "_");
    ByteLenConcat(id + "_", name);
  }

  lemma KeyIsPlainIff(id: string, name: string)
    requires IsUuid(id)
    ensures Plain(Build(id, name)) <==> Plain(name)
  {
    var key := Build(id, name);
    assert forall i :: 0 <= i < |name| ==> key[37 + i] == name[i];
    if Plain(name) {
      forall i | 0 <= i < |key|
        ensures !IsSlash(key[i]) && !IsControl(key[i])
      {
        if i < 36 {
          assert key[i] == id[i];
        } else if i > 36 {
          assert key[i] == name[i - 37];
        }
      }
    }
  }

  /** Exactly which issued keys the service will accept back: the sanitiser counts characters
      and the validation counts bytes, so the name must also fit in 183 bytes, and it must not
      have been made of separators only. */
  lemma IssuedKeyIsValidIff(id: string, name: string)
    requires IsUuid(id)
    ensures ValidKey(Build(id, Sanitize(name))) <==>
            !(name != [] && OnlySlashes(name)) && ByteLen(Sanitize(name)) <= 183
  {
    SanitizedShape(name);
    KeyBytes(id, Sanitize(name));
    KeyIsPlainIff(id, Sanitize(name));
    assert IsSlash("/"[0]);
  }

  /** ASCII names are always accepted back. */
  lemma AsciiKeysAreValid(id: string, name: string)
    requires IsUuid(id) && (name == [] || !OnlySlashes(name)) && Ascii(Sanitize(name))
    ensures ValidKey(Build(id, Sanitize(name)))
  {
    SanitizedShape(name);
    AsciiByteLen(Sanitize(name));
    IssuedKeyIsValidIff(id, name);
  }

  /** A name the service accepts and issues a key for, but whose key it then refuses: 92 to 180
      Cyrillic letters of two bytes each. */
  lemma IssuedKeyMayBeRefused(id: string, n: nat)
    requires IsUuid(id) && 92 <= n <= MAX_FILENAME
    ensures !ValidKey(Build(id, Sanitize(Cyrillic(n))))
  {
    var name := Cyrillic(n);
    PlainIsOnlyTrimmed(name);
    TrimShape(name);
    CyrillicLen(n);
    IssuedKeyIsValidIff(id, name);
  }

  function Cyrillic(n: nat): (r: string)
    ensures |r| == n
    ensures forall i :: 0 <= i < n ==> r[i] == '\U{44B}'
  {
    seq(n, i => '\U{44B}')
  }

  lemma {:induction false} CyrillicLen(n: nat)
    ensures ByteLen(Cyrillic(n)) == 2 * n
  {
    if n > 0 {
      CyrillicLen(n - 1);
      assert Front(Cyrillic(n)) == Cyrillic(n - 1);
    }
  }
}
