/** Multipart uploads: the part plan, the paginated listing and the size cap at completion
    (internal/handlers/multipart.go, internal/storage/s3.go). */
module Multipart {
  import opened Codes

  const PART_SIZE := 8 * 1024 * 1024
  const MAX_PARTS := 10000

  datatype Part = Part(number: int, etag: string, size: int)

  // ---------------------------------------------------------------- planning

  function PartCount(size: int): int {
    (size + PART_SIZE - 1) / PART_SIZE
  }

  datatype InitResult = TooLarge | Planned(parts: int)

  function Init(size: int, maxUploadBytes: int): InitResult {
    if size > maxUploadBytes then TooLarge
    else if PartCount(size) > MAX_PARTS then TooLarge
    else Planned(PartCount(size))
  }

  /** The sizes of the parts a client that follows the plan uploads. */
  function PlannedSizes(size: int): seq<int>
    decreases size
  {
    if size <= 0 then []
    else if size <= PART_SIZE then [size]
    else [PART_SIZE] + PlannedSizes(size - PART_SIZE)
  }

  function Sum(sizes: seq<int>): int {
    if sizes == [] then 0 else sizes[0] + Sum(sizes[1..])
  }

  lemma CountStep(size: int)
    requires size > PART_SIZE
    ensures PartCount(size) == 1 + PartCount(size - PART_SIZE)
  {
  }

  /** The announced number of parts, all of the fixed size except the last, which is not empty,
      cover the file exactly. */
  lemma {:induction false} PlanCoversFile(size: int)
    requires size > 0
    ensures var p := PlannedSizes(size);
            && |p| == PartCount(size) >= 1 && Sum(p) == size
            && (forall i :: 0 <= i < |p| - 1 ==> p[i] == PART_SIZE)
            && 0 < p[|p| - 1] <= PART_SIZE
    decreases size
  {
    if size > PART_SIZE {
      PlanCoversFile(size - PART_SIZE);
      CountStep(size);
    } else {
      assert PlannedSizes(size)[1..] == [];
    }
  }

  /** An upload is planned exactly when it fits the configured cap and ten thousand parts. */
  lemma PlannedIff(size: int, maxUploadBytes: int)
    requires size > 0
    ensures Init(size, maxUploadBytes).Planned? <==> size <= maxUploadBytes && size <= MAX_PARTS * PART_SIZE
  {
  }

  // ---------------------------------------------------------------- listing

  predicate Ascending(parts: seq<Part>) {
    forall i, j :: 0 <= i < j < |parts| ==> parts[i].number < parts[j].number
  }

  /** How many held parts are numbered at or below the marker. */
  function Behind(held: seq<Part>, marker: Option<int>): (n: nat)
    ensures n <= |held|
  {
    if held == [] || marker.None? || held[0].number > marker.value then 0
    else 1 + Behind(held[1..], marker)
  }

  datatype Page = Page(parts: seq<Part>, truncated: bool, next: int)

  /** The bucket's answer: the next parts above the marker, at most `limit` of them, whether
      there are more, and the number to continue from. */
  function ServerPage(held: seq<Part>, marker: Option<int>, limit: nat): Page
    requires limit >= 1
  {
    PageFrom(held, Behind(held, marker), limit)
  }

  function PageFrom(held: seq<Part>, from: nat, limit: nat): Page
    requires limit >= 1 && from <= |held|
  {
    var to := if from + limit < |held| then from + limit else |held|;
    Page(held[from..to], to < |held|, if to > from then held[to - 1].number else 0)
  }

  lemma {:induction false} BehindLast(held: seq<Part>, n: nat)
    requires Ascending(held) && 1 <= n <= |held|
    ensures Behind(held, Some(held[n - 1].number)) == n
  {
    if n > 1 {
      BehindLast(held[1..], n - 1);
    } else if |held| > 1 {
      assert held[1..][0].number > held[0].number;
    }
  }

  lemma PageShape(held: seq<Part>, from: nat, limit: nat)
    requires limit >= 1 && from <= |held|
    ensures var page := PageFrom(held, from, limit);
            var n := from + |page.parts|;
            && n <= |held| && held[..from] + page.parts == held[..n]
            && (page.truncated ==> from < n < |held| && page.next == held[n - 1].number)
            && (!page.truncated ==> n == |held|)
  {
  }

  lemma PageContinues(held: seq<Part>, marker: Option<int>, limit: nat)
    requires Ascending(held) && limit >= 1
    ensures var from, page := Behind(held, marker), ServerPage(held, marker, limit);
            var n := from + |page.parts|;
            && n <= |held| && held[..from] + page.parts == held[..n]
            && (page.truncated ==> from < n < |held| && Behind(held, Some(page.next)) == n)
            && (!page.truncated ==> n == |held|)
  {
    var from := Behind(held, marker);
    PageShape(held, from, limit);
    var page := PageFrom(held, from, limit);
    if page.truncated {
      BehindLast(held, from + |page.parts|);
    }
  }

  method AppendAll(parts: seq<Part>, page: seq<Part>) returns (r: seq<Part>)
    ensures r == parts + page
  {
    r := parts;
    for i := 0 to |page|
      invariant r == parts + page[..i]
    {
      r := r + [page[i]];
    }
  }

  /** Follows the pages to the end. Page sizes may differ from call to call and every call may
      fail; a listing that succeeds is exactly the held parts, in order. */
  method ListParts(held: seq<Part>, limit: nat -> nat, fails: nat -> bool) returns (r: Option<seq<Part>>)
    requires Ascending(held) && forall i :: limit(i) >= 1
    ensures r.Some? ==> r.value == held
    ensures r.None? ==> exists i :: 0 <= i <= |held| && fails(i)
  {
    var parts := [];
    var marker := None;
    var call := 0;
    while true
      invariant Behind(held, marker) <= |held| && parts == held[..Behind(held, marker)]
      invariant call <= Behind(held, marker)
      decreases |held| - Behind(held, marker)
    {
      if fails(call) {
        return None;
      }
      var out := ServerPage(held, marker, limit(call));
      PageContinues(held, marker, limit(call));
      parts := AppendAll(parts, out.parts);
      if !out.truncated {
        break;
      }
      marker := Some(out.next);
      call := call + 1;
    }
    assert held[..|held|] == held;
    r := Some(parts);
  }

  // ---------------------------------------------------------------- completing

  function Total(parts: seq<Part>): int {
    if parts == [] then 0 else Total(parts[..|parts| - 1]) + parts[|parts| - 1].size
  }

  /** The accumulating loop of `Complete`. */
  method TotalOf(parts: seq<Part>) returns (total: int)
    ensures total == Total(parts)
  {
    total := 0;
    for i := 0 to |parts|
      invariant total == Total(parts[..i])
    {
      assert parts[..i + 1][..i] == parts[..i];
      total := total + parts[i].size;
    }
    assert parts[..|parts|] == parts;
  }

  /** `out` is some sort of `sent` by part number; equal numbers may come in any order. */
  ghost predicate SortedFrom(sent: seq<Part>, out: seq<Part>) {
    multiset(out) == multiset(sent) && InOrder(out)
  }

  predicate InOrder(parts: seq<Part>) {
    forall i, j :: 0 <= i <= j < |parts| ==> parts[i].number <= parts[j].number
  }

  function Swapped(s: seq<Part>, j: nat): seq<Part>
    requires 1 <= j < |s|
  {
    s[j - 1 := s[j]][j := s[j - 1]]
  }

  /** The part sifting down stands at `j`; without it the first i + 1 are in order, and it is
      smaller than all it has passed. */
  ghost predicate Sifting(s: seq<Part>, i: nat, j: nat) {
    && j <= i < |s|
    && (forall p, q :: 0 <= p <= q <= i && p != j && q != j ==> s[p].number <= s[q].number)
    && (forall q :: j < q <= i ==> s[j].number <= s[q].number)
  }

  lemma SiftStep(s: seq<Part>, i: nat, j: nat)
    requires Sifting(s, i, j) && j >= 1 && s[j - 1].number > s[j].number
    ensures Sifting(Swapped(s, j), i, j - 1) && multiset(Swapped(s, j)) == multiset(s)
  {
  }

  lemma SiftDone(s: seq<Part>, i: nat, j: nat)
    requires Sifting(s, i, j) && (j > 0 ==> s[j - 1].number <= s[j].number)
    ensures InOrder(s[..i + 1])
  {
    forall p, q | 0 <= p <= q <= i
      ensures s[p].number <= s[q].number
    {
      if q == j && p < j {
        assert s[p].number <= s[j - 1].number;
      }
    }
  }

  /** Moves the part at `i` down to its place among the sorted ones before it. */
  method Sift(a: array<Part>, i: nat)
    requires i < a.Length && InOrder(a[..i])
    modifies a
    ensures multiset(a[..]) == multiset(old(a[..])) && InOrder(a[..i + 1])
  {
    var j: nat := i;
    assert forall p :: 0 <= p < i ==> a[..i][p] == a[..][p];
    while j > 0 && a[j - 1].number > a[j].number
      invariant Sifting(a[..], i, j)
      invariant multiset(a[..]) == multiset(old(a[..]))
    {
      SiftStep(a[..], i, j);
      ghost var next := Swapped(a[..], j);
      a[j - 1], a[j] := a[j], a[j - 1];
      assert a[..] == next;
      j := j - 1;
    }
    SiftDone(a[..], i, j);
    assert a[..][..i + 1] == a[..i + 1];
  }

  /** Sorting the slice in place. */
  method SortParts(a: array<Part>)
    modifies a
    ensures SortedFrom(old(a[..]), a[..])
  {
    for i := 0 to a.Length
      invariant multiset(a[..]) == multiset(old(a[..])) && InOrder(a[..i])
    {
      Sift(a, i);
    }
    assert a[..a.Length] == a[..];
  }

  predicate Holds(held: seq<Part>, p: Part) {
    exists i :: 0 <= i < |held| && held[i].number == p.number && held[i].etag == p.etag
  }

  /** The bucket assembles a nonempty, strictly ascending list of parts it holds. */
  predicate Accepts(held: seq<Part>, out: seq<Part>) {
    out != [] && Ascending(out) && forall i :: 0 <= i < |out| ==> Holds(held, out[i])
  }

  /** The bytes the bucket holds under a part number. */
  function HeldSize(held: seq<Part>, number: int): int {
    if held == [] then 0
    else if held[|held| - 1].number == number then held[|held| - 1].size
    else HeldSize(held[..|held| - 1], number)
  }

  /** The size of the assembled object: what is held, whatever sizes the client claims. */
  function Assembled(held: seq<Part>, out: seq<Part>): int {
    if out == [] then 0 else Assembled(held, out[..|out| - 1]) + HeldSize(held, out[|out| - 1].number)
  }

  lemma {:induction false} AssembledIgnoresLast(held: seq<Part>, out: seq<Part>)
    requires held != [] && forall i :: 0 <= i < |out| ==> out[i].number != held[|held| - 1].number
    ensures Assembled(held, out) == Assembled(held[..|held| - 1], out)
  {
    if out != [] {
      AssembledIgnoresLast(held, out[..|out| - 1]);
    }
  }

  lemma NothingHeld(p: Part)
    ensures !Holds([], p)
  {
  }

  lemma {:induction false} AssembledAtMostHeld(held: seq<Part>, out: seq<Part>)
    requires Ascending(held) && Ascending(out)
    requires forall i :: 0 <= i < |held| ==> held[i].size >= 0
    requires forall i :: 0 <= i < |out| ==> Holds(held, out[i])
    ensures 0 <= Assembled(held, out) <= Total(held)
    decreases |held|
  {
    if held == [] {
      if |out| > 0 {
        NothingHeld(out[0]);
      }
    } else {
      var front, last := held[..|held| - 1], held[|held| - 1];
      var rest := if out != [] && out[|out| - 1].number == last.number then out[..|out| - 1] else out;
      forall i | 0 <= i < |rest|
        ensures Holds(front, rest[i]) && rest[i].number != last.number
      {
        assert Holds(held, out[i]);
        var k :| 0 <= k < |held| && held[k].number == out[i].number && held[k].etag == out[i].etag;
        NotLast(held, out, i);
        assert front[k] == held[k];
      }
      AssembledAtMostHeld(front, rest);
      AssembledIgnoresLast(held, rest);
    }
  }

  lemma NotLast(held: seq<Part>, out: seq<Part>, i: nat)
    requires Ascending(held) && Ascending(out) && held != []
    requires forall j :: 0 <= j < |out| ==> Holds(held, out[j])
    requires i < |out| && (i < |out| - 1 || out[|out| - 1].number != held[|held| - 1].number)
    ensures out[i].number != held[|held| - 1].number
  {
    if i < |out| - 1 {
      assert Holds(held, out[|out| - 1]);
      var k :| 0 <= k < |held| && held[k].number == out[|out| - 1].number && held[k].etag == out[|out| - 1].etag;
      assert held[k].number <= held[|held| - 1].number;
    }
  }

  datatype CompleteResult = TooBig | Refused | Object(size: int)

  /** `Complete`, for a client list that some sort turned into `out`. */
  function Complete(held: seq<Part>, out: seq<Part>, maxUploadBytes: int): CompleteResult {
    if Total(held) > maxUploadBytes then TooBig
    else if !Accepts(held, out) then Refused
    else Object(Assembled(held, out))
  }

  lemma SortKeepsParts(sent: seq<Part>, out: seq<Part>, i: nat)
    requires SortedFrom(sent, out) && i < |sent|
    ensures exists j :: 0 <= j < |out| && out[j] == sent[i]
  {
    assert sent[i] in multiset(sent);
    assert sent[i] in multiset(out);
  }

  /** With no part written between listing and completing, whatever list the client sends, in
      whatever order, an object that comes out of it is no larger than the cap, and every part
      the client named was held. */
  lemma CompletedObjectFitsCap(held: seq<Part>, sent: seq<Part>, out: seq<Part>, maxUploadBytes: int)
    requires Ascending(held) && SortedFrom(sent, out)
    requires forall i :: 0 <= i < |held| ==> held[i].size >= 0
    requires Complete(held, out, maxUploadBytes).Object?
    ensures 0 <= Complete(held, out, maxUploadBytes).size <= Total(held) <= maxUploadBytes
    ensures forall i :: 0 <= i < |sent| ==> Holds(held, sent[i])
  {
    AssembledAtMostHeld(held, out);
    forall i | 0 <= i < |sent|
      ensures Holds(held, sent[i])
    {
      SortKeepsParts(sent, out, i);
    }
  }

  lemma WithoutLast(s: seq<Part>)
    requires s != []
    ensures multiset(s[..|s| - 1]) == multiset(s) - multiset{s[|s| - 1]}
  {
    assert s == s[..|s| - 1] + [s[|s| - 1]];
  }

  lemma LastIsSame(a: seq<Part>, b: seq<Part>)
    requires multiset(a) == multiset(b) && Ascending(a) && InOrder(b) && a != [] && b != []
    ensures a[|a| - 1] == b[|b| - 1]
  {
    var x, y := a[|a| - 1], b[|b| - 1];
    assert x in multiset(b) && y in multiset(a);
    var i :| 0 <= i < |b| && b[i] == x;
    var j :| 0 <= j < |a| && a[j] == y;
    assert x.number <= y.number;
  }

  lemma SameLength(a: seq<Part>, b: seq<Part>)
    requires multiset(a) == multiset(b)
    ensures |a| == |b|
  {
    assert |multiset(a)| == |a| && |multiset(b)| == |b|;
  }

  lemma FrontsAgree(a: seq<Part>, b: seq<Part>)
    requires multiset(a) == multiset(b) && Ascending(a) && InOrder(b) && |a| == |b| > 0
    ensures a[|a| - 1] == b[|b| - 1]
    ensures multiset(a[..|a| - 1]) == multiset(b[..|b| - 1]) && Ascending(a[..|a| - 1]) && InOrder(b[..|b| - 1])
  {
    LastIsSame(a, b);
    WithoutLast(a);
    WithoutLast(b);
  }

  lemma SameByLast(a: seq<Part>, b: seq<Part>)
    requires |a| == |b| > 0 && a[..|a| - 1] == b[..|b| - 1] && a[|a| - 1] == b[|b| - 1]
    ensures a == b
  {
    assert a == a[..|a| - 1] + [a[|a| - 1]];
    assert b == b[..|b| - 1] + [b[|b| - 1]];
  }

  /** The client's order does not matter, nor how the sort breaks ties: all sorts of all
      shufflings of an acceptable list are one and the same list. */
  lemma {:induction false} AcceptableSortIsUnique(a: seq<Part>, b: seq<Part>)
    requires multiset(a) == multiset(b) && Ascending(a) && InOrder(b)
    ensures a == b
    decreases |a|
  {
    SameLength(a, b);
    if a != [] {
      FrontsAgree(a, b);
      AcceptableSortIsUnique(a[..|a| - 1], b[..|b| - 1]);
      SameByLast(a, b);
    }
  }

  /** So two shufflings of one list are completed alike, as soon as one of them is accepted. */
  lemma OrderDoesNotMatter(held: seq<Part>, sent: seq<Part>, out: seq<Part>, sent': seq<Part>, out': seq<Part>, max: int)
    requires multiset(sent) == multiset(sent') && SortedFrom(sent, out) && SortedFrom(sent', out')
    ensures Complete(held, out, max).Object? || Complete(held, out', max).Object? ==>
              out == out' && Complete(held, out, max) == Complete(held, out', max)
  {
    if Complete(held, out, max).Object? {
      AcceptableSortIsUnique(out, out');
    } else if Complete(held, out', max).Object? {
      AcceptableSortIsUnique(out', out);
    }
  }
}
