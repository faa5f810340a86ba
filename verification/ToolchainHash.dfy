/**
 * The canonical pre-image of the toolchain hash (packages/transpiler/src/toolchainHash.ts). A file is
 * its UTF-8 path and its bytes; `sha` stands for SHA-256, of which only the length of a digest is used.
 */
module ToolchainHash {
  type byte = x: int | 0 <= x < 256
  type Bytes = seq<byte>
  type Digest = d: Bytes | |d| == 32 witness seq(32, _ => 0)

  /** A path and the file's bytes. */
  type Entry = (Bytes, Bytes)

  /** What an entry contributes: its path and its file's digest. */
  type Record = (Bytes, Digest)

  // ---- byte order ------------------------------------------------------------------

  /** The sign of `compareBytes`. */
  function Compare(a: Bytes, b: Bytes): int {
    if |a| == 0 || |b| == 0 then |a| - |b|
    else if a[0] != b[0] then a[0] - b[0]
    else Compare(a[1..], b[1..])
  }

  method CompareBytes(a: Bytes, b: Bytes) returns (order: int)
    ensures order == Compare(a, b)
  {
    var len := if |a| < |b| then |a| else |b|;
    var i := 0;
    while i < len
      invariant 0 <= i <= len && Compare(a[i..], b[i..]) == Compare(a, b)
    {
      if a[i] != b[i] {
        var x: int, y: int := a[i], b[i];
        return x - y;
      }
      i := i + 1;
    }
    order := |a| - |b|;
  }

  /** A total order: antisymmetric, and equal only on equal paths. */
  lemma {:induction false} CompareTotal(a: Bytes, b: Bytes)
    ensures Compare(a, b) == -Compare(b, a)
    ensures Compare(a, b) == 0 <==> a == b
  {
    if |a| > 0 && |b| > 0 && a[0] == b[0] {
      CompareTotal(a[1..], b[1..]);
      assert a == [a[0]] + a[1..] && b == [b[0]] + b[1..];
    }
  }

  lemma {:induction false} CompareTransitive(a: Bytes, b: Bytes, c: Bytes)
    requires Compare(a, b) <= 0 && Compare(b, c) <= 0
    ensures Compare(a, c) <= 0
    ensures Compare(a, b) < 0 ==> Compare(a, c) < 0
  {
    if |a| > 0 && |b| > 0 && |c| > 0 && a[0] == b[0] && b[0] == c[0] {
      CompareTransitive(a[1..], b[1..], c[1..]);
    }
  }

  // ---- concatenation and records -------------------------------------------------------

  function Flatten(parts: seq<Bytes>): Bytes {
    if |parts| == 0 then [] else parts[0] + Flatten(parts[1..])
  }

  /** `concat`: a buffer of the total length, filled at a moving offset. */
  method Concat(parts: seq<Bytes>) returns (out: array<byte>)
    ensures fresh(out) && out[..] == Flatten(parts)
  {
    var total := 0;
    var i := 0;
    while i < |parts|
      invariant 0 <= i <= |parts| && total + |Flatten(parts[i..])| == |Flatten(parts)|
    {
      assert parts[i..][1..] == parts[i + 1..];
      total := total + |parts[i]|;
      i := i + 1;
    }
    out := new byte[total];
    var offset: nat := 0;
    i := 0;
    while i < |parts|
      invariant 0 <= i <= |parts| && fresh(out) && out.Length == total
      invariant offset + |Flatten(parts[i..])| == total
      invariant out[..offset] + Flatten(parts[i..]) == Flatten(parts)
    {
      assert parts[i..][1..] == parts[i + 1..];
      ghost var done := out[..offset];
      SetBytes(out, parts[i], offset);
      assert out[..offset + |parts[i]|] == done + parts[i];
      offset := offset + |parts[i]|;
      i := i + 1;
    }
    assert out[..offset] == out[..];
  }

  /** `out.set(part, offset)`. */
  method SetBytes(out: array<byte>, part: Bytes, offset: nat)
    requires offset + |part| <= out.Length
    modifies out
    ensures out[..] == old(out[..offset]) + part + old(out[offset + |part|..])
    ensures out[..offset + |part|] == old(out[..offset]) + part
  {
    var k := 0;
    while k < |part|
      invariant 0 <= k <= |part|
      invariant out[..offset] == old(out[..offset]) && out[offset..offset + k] == part[..k]
      invariant out[offset + |part|..] == old(out[offset + |part|..])
    {
      out[offset + k] := part[k];
      k := k + 1;
    }
  }

  function Parts(entries: seq<Entry>, sha: Bytes -> Digest): seq<Bytes> {
    if |entries| == 0 then [] else [entries[0].0, [0], sha(entries[0].1)] + Parts(entries[1..], sha)
  }

  function PreImage(entries: seq<Entry>, sha: Bytes -> Digest): Bytes {
    Flatten(Parts(entries, sha))
  }

  /** The hashed buffer: the parts of the entries in path order, concatenated. */
  method BuildPreImage(entries: seq<Entry>, sha: Bytes -> Digest) returns (out: array<byte>)
    ensures fresh(out) && out[..] == PreImage(Sort(entries), sha)
  {
    var sorted := Sort(entries);
    var parts: seq<Bytes> := [];
    var i := 0;
    while i < |sorted|
      invariant 0 <= i <= |sorted| && parts + Parts(sorted[i..], sha) == Parts(sorted, sha)
    {
      assert sorted[i..][1..] == sorted[i + 1..];
      var record := [sorted[i].0, [0], sha(sorted[i].1)];
      assert parts + (record + Parts(sorted[i + 1..], sha)) == parts + record + Parts(sorted[i + 1..], sha);
      parts := parts + record;
      i := i + 1;
    }
    assert parts == Parts(sorted, sha);
    out := Concat(parts);
  }

  // ---- sorting by path ---------------------------------------------------------------------

  function Insert(e: Entry, sorted: seq<Entry>): seq<Entry> {
    if |sorted| == 0 || Compare(e.0, sorted[0].0) <= 0 then [e] + sorted
    else [sorted[0]] + Insert(e, sorted[1..])
  }

  /** `entries.sort(compareBytes)`; paths are distinct, so every sort gives this list. */
  function Sort(entries: seq<Entry>): seq<Entry> {
    if |entries| == 0 then [] else Insert(entries[0], Sort(entries[1..]))
  }

  function Elements<T>(s: seq<T>): set<T> {
    set e | e in s
  }

  ghost predicate Distinct(entries: seq<Entry>) {
    forall i, j :: 0 <= i < j < |entries| ==> entries[i].0 != entries[j].0
  }

  ghost predicate Ascending<T>(pairs: seq<(Bytes, T)>) {
    forall i, j :: 0 <= i < j < |pairs| ==> Compare(pairs[i].0, pairs[j].0) < 0
  }

  lemma {:induction false} ElementsUncons<T>(s: seq<T>)
    requires |s| > 0
    ensures Elements(s) == {s[0]} + Elements(s[1..])
  {
  }

  lemma {:induction false} NoElements<T>(s: seq<T>)
    ensures Elements(s) == {} <==> s == []
  {
    if s != [] { assert s[0] in Elements(s); }
  }

  lemma {:induction false} AscendingUncons<T>(pairs: seq<(Bytes, T)>)
    requires |pairs| > 0
    ensures Ascending(pairs) <==>
            Ascending(pairs[1..]) && forall p :: p in pairs[1..] ==> Compare(pairs[0].0, p.0) < 0
  {
  }

  lemma {:induction false} AscendingCons(e: Entry, rest: seq<Entry>)
    requires Ascending(rest) && forall p :: p in rest ==> Compare(e.0, p.0) < 0
    ensures Ascending([e] + rest) && Elements([e] + rest) == {e} + Elements(rest)
  {
  }

  lemma {:induction false} InsertIs(e: Entry, sorted: seq<Entry>)
    requires Ascending(sorted) && forall p :: p in sorted ==> p.0 != e.0
    ensures Ascending(Insert(e, sorted)) && Elements(Insert(e, sorted)) == {e} + Elements(sorted)
  {
    if |sorted| == 0 {
      AscendingCons(e, sorted);
    } else if Compare(e.0, sorted[0].0) <= 0 {
      CompareTotal(e.0, sorted[0].0);
      assert sorted[0] in sorted;
      forall p | p in sorted ensures Compare(e.0, p.0) < 0 {
        BelowHead(e, sorted, p);
      }
      AscendingCons(e, sorted);
    } else {
      AscendingUncons(sorted);
      assert forall p :: p in sorted[1..] ==> p in sorted;
      InsertIs(e, sorted[1..]);
      InsertBehind(e, sorted, Insert(e, sorted[1..]));
    }
  }

  lemma {:induction false} InsertBehind(e: Entry, sorted: seq<Entry>, rest: seq<Entry>)
    requires |sorted| > 0 && Ascending(sorted) && Compare(e.0, sorted[0].0) > 0
    requires Ascending(rest) && Elements(rest) == {e} + Elements(sorted[1..])
    ensures Ascending([sorted[0]] + rest) && Elements([sorted[0]] + rest) == {e} + Elements(sorted)
  {
    AscendingUncons(sorted);
    ElementsUncons(sorted);
    CompareTotal(e.0, sorted[0].0);
    forall p | p in rest ensures Compare(sorted[0].0, p.0) < 0 {
      assert p in Elements(rest);
    }
    AscendingCons(sorted[0], rest);
  }

  lemma {:induction false} BelowHead(e: Entry, sorted: seq<Entry>, p: Entry)
    requires |sorted| > 0 && Ascending(sorted) && p in sorted && Compare(e.0, sorted[0].0) < 0
    ensures Compare(e.0, p.0) < 0
  {
    if p != sorted[0] {
      ElementsUncons(sorted);
      assert p in Elements(sorted);
      AscendingUncons(sorted);
      CompareTransitive(e.0, sorted[0].0, p.0);
    }
  }

  lemma {:induction false} SortIs(entries: seq<Entry>)
    requires Distinct(entries)
    ensures Ascending(Sort(entries)) && Elements(Sort(entries)) == Elements(entries)
  {
    if |entries| > 0 {
      ElementsUncons(entries);
      SortIs(entries[1..]);
      forall p | p in Sort(entries[1..]) ensures p.0 != entries[0].0 {
        assert p in Elements(Sort(entries[1..]));
        var k :| 0 <= k < |entries[1..]| && entries[1..][k] == p;
        assert p == entries[k + 1];
      }
      InsertIs(entries[0], Sort(entries[1..]));
    }
  }

  /** A list in path order is determined by its elements. */
  lemma {:induction false} AscendingIsUnique<T>(a: seq<(Bytes, T)>, b: seq<(Bytes, T)>)
    requires Ascending(a) && Ascending(b) && Elements(a) == Elements(b)
    ensures a == b
  {
    if |a| == 0 || |b| == 0 {
      NoElements(a);
      NoElements(b);
    } else {
      AscendingUncons(a);
      AscendingUncons(b);
      ElementsUncons(a);
      ElementsUncons(b);
      SameHead(a, b);
      assert Elements(a[1..]) == Elements(b[1..]) by {
        TailElements(a, b);
      }
      AscendingIsUnique(a[1..], b[1..]);
    }
  }

  lemma {:induction false} SameHead<T>(a: seq<(Bytes, T)>, b: seq<(Bytes, T)>)
    requires |a| > 0 && |b| > 0 && Ascending(a) && Ascending(b) && Elements(a) == Elements(b)
    ensures a[0] == b[0]
  {
    AscendingUncons(a);
    AscendingUncons(b);
    ElementsUncons(a);
    ElementsUncons(b);
    if a[0] != b[0] {
      assert a[0] in Elements(b) && b[0] in Elements(a);
      assert a[0] in b[1..] && b[0] in a[1..];
      CompareTotal(a[0].0, b[0].0);
    }
  }

  lemma {:induction false} TailElements<T>(a: seq<(Bytes, T)>, b: seq<(Bytes, T)>)
    requires |a| > 0 && |b| > 0 && Ascending(a) && Ascending(b) && Elements(a) == Elements(b) && a[0] == b[0]
    ensures Elements(a[1..]) == Elements(b[1..])
  {
    AscendingUncons(a);
    AscendingUncons(b);
    ElementsUncons(a);
    ElementsUncons(b);
    CompareTotal(a[0].0, a[0].0);
    assert a[0] !in a[1..] && b[0] !in b[1..];
  }

  // ---- the pre-image determines the digests, and nothing else ---------------------------------------

  function Records(entries: seq<Entry>, sha: Bytes -> Digest): seq<Record> {
    seq(|entries|, i requires 0 <= i < |entries| => (entries[i].0, sha(entries[i].1)))
  }

  /** Which path has which digest. */
  function Digests(entries: seq<Entry>, sha: Bytes -> Digest): set<Record> {
    Elements(Records(entries, sha))
  }

  ghost predicate ZeroFree(path: Bytes) {
    0 !in path
  }

  /** The path up to the first zero byte. */
  function PathLength(b: Bytes): (n: nat)
    ensures n <= |b|
  {
    if |b| == 0 || b[0] == 0 then 0 else 1 + PathLength(b[1..])
  }

  /** Reading a pre-image back. */
  function Decode(b: Bytes): seq<Record>
    decreases |b|
  {
    var n := PathLength(b);
    if n + 33 > |b| then [] else [(b[..n], b[n + 1..n + 33])] + Decode(b[n + 33..])
  }

  lemma {:induction false} PathRead(path: Bytes, rest: Bytes)
    requires ZeroFree(path)
    ensures PathLength(path + [0] + rest) == |path|
  {
    if |path| > 0 {
      assert (path + [0] + rest)[1..] == path[1..] + [0] + rest;
      PathRead(path[1..], rest);
    }
  }

  lemma {:induction false} RecordRead(path: Bytes, digest: Digest, rest: Bytes)
    requires ZeroFree(path)
    ensures Decode(path + ([0] + (digest + rest))) == [(path, digest)] + Decode(rest)
  {
    var b := path + ([0] + (digest + rest));
    assert b == path + [0] + (digest + rest);
    PathRead(path, digest + rest);
    assert b[..|path|] == path && b[|path| + 1..|path| + 33] == digest && b[|path| + 33..] == rest;
  }

  lemma {:induction false} PreImageCons(e: Entry, rest: seq<Entry>, sha: Bytes -> Digest)
    ensures PreImage([e] + rest, sha) == e.0 + ([0] + (sha(e.1) + PreImage(rest, sha)))
  {
    assert ([e] + rest)[1..] == rest;
    var tail: seq<Bytes>, zero: Bytes, digest: Bytes := Parts(rest, sha), [0], sha(e.1);
    assert [e.0, zero, digest] + tail == [e.0] + ([zero] + ([digest] + tail));
    FlattenCons(e.0, [zero] + ([digest] + tail));
    FlattenCons(zero, [digest] + tail);
    FlattenCons(digest, tail);
  }

  lemma {:induction false} FlattenCons(part: Bytes, rest: seq<Bytes>)
    ensures Flatten([part] + rest) == part + Flatten(rest)
  {
  }

  /** Decoding a pre-image gives back its paths and digests, in order. */
  lemma {:induction false} DecodePreImage(entries: seq<Entry>, sha: Bytes -> Digest)
    requires forall e :: e in entries ==> ZeroFree(e.0)
    ensures Decode(PreImage(entries, sha)) == Records(entries, sha)
  {
    if |entries| > 0 {
      var e, rest := entries[0], entries[1..];
      assert entries == [e] + rest;
      PreImageCons(e, rest, sha);
      RecordRead(e.0, sha(e.1), PreImage(rest, sha));
      DecodePreImage(rest, sha);
      assert Records(entries, sha) == [(e.0, sha(e.1))] + Records(rest, sha);
    }
  }

  lemma {:induction false} RecordsAscend(entries: seq<Entry>, sha: Bytes -> Digest)
    requires Ascending(entries)
    ensures Ascending(Records(entries, sha))
  {
  }

  lemma {:induction false} SameDigests(a: seq<Entry>, b: seq<Entry>, sha: Bytes -> Digest)
    requires Elements(a) == Elements(b)
    ensures Digests(a, sha) == Digests(b, sha)
  {
    DigestsWithin(a, b, sha);
    DigestsWithin(b, a, sha);
  }

  lemma {:induction false} DigestsWithin(a: seq<Entry>, b: seq<Entry>, sha: Bytes -> Digest)
    requires Elements(a) == Elements(b)
    ensures Digests(a, sha) <= Digests(b, sha)
  {
    forall r | r in Digests(a, sha) ensures r in Digests(b, sha) {
      var i :| 0 <= i < |a| && Records(a, sha)[i] == r;
      assert a[i] in Elements(a);
      var j :| 0 <= j < |b| && b[j] == a[i];
      assert Records(b, sha)[j] == r;
    }
  }

  /** Records and pre-image determine each other's tail, so equal records give equal pre-images. */
  lemma {:induction false} PreImageOfRecords(a: seq<Entry>, b: seq<Entry>, sha: Bytes -> Digest)
    requires Records(a, sha) == Records(b, sha)
    ensures PreImage(a, sha) == PreImage(b, sha)
  {
    assert |a| == |Records(a, sha)| && |b| == |Records(b, sha)|;
    if |a| > 0 {
      assert Records(a, sha)[0] == Records(b, sha)[0];
      assert Records(a[1..], sha) == Records(a, sha)[1..] && Records(b[1..], sha) == Records(b, sha)[1..];
      PreImageOfRecords(a[1..], b[1..], sha);
      assert a == [a[0]] + a[1..] && b == [b[0]] + b[1..];
      PreImageCons(a[0], a[1..], sha);
      PreImageCons(b[0], b[1..], sha);
    }
  }

  /**
   * Two file sets with distinct, zero-free paths have the same pre-image exactly when each path has
   * the same digest in both: the order in which files are enumerated does not matter, and nothing is lost.
   */
  lemma {:induction false} PreImageIsCanonical(a: seq<Entry>, b: seq<Entry>, sha: Bytes -> Digest)
    requires Distinct(a) && Distinct(b)
    requires forall e :: e in a || e in b ==> ZeroFree(e.0)
    ensures PreImage(Sort(a), sha) == PreImage(Sort(b), sha) <==> Digests(a, sha) == Digests(b, sha)
  {
    SortIs(a);
    SortIs(b);
    SameDigests(a, Sort(a), sha);
    SameDigests(b, Sort(b), sha);
    RecordsAscend(Sort(a), sha);
    RecordsAscend(Sort(b), sha);
    forall e | e in Sort(a) || e in Sort(b) ensures ZeroFree(e.0) {
      assert e in Elements(Sort(a)) || e in Elements(Sort(b));
    }
    DecodePreImage(Sort(a), sha);
    DecodePreImage(Sort(b), sha);
    if Digests(a, sha) == Digests(b, sha) {
      AscendingIsUnique(Records(Sort(a), sha), Records(Sort(b), sha));
      PreImageOfRecords(Sort(a), Sort(b), sha);
    }
  }

  // ---- the order is the lexicographic one ---------------------------------------------------------

  /** `a` is a proper prefix of `b`, or has the smaller byte where they first differ, at `k`. */
  ghost predicate Before(a: Bytes, b: Bytes, k: nat) {
    k <= |a| && k <= |b| && a[..k] == b[..k] && k < |b| && (k < |a| ==> a[k] < b[k])
  }

  lemma {:induction false} CompareIsLexicographic(a: Bytes, b: Bytes)
    ensures Compare(a, b) < 0 <==> exists k: nat :: Before(a, b, k)
    decreases |a|
  {
    if |a| == 0 || |b| == 0 || a[0] != b[0] {
      assert Compare(a, b) < 0 ==> Before(a, b, 0);
      assert forall k: nat :: Before(a, b, k) && k > 0 ==> a[..k][0] == b[..k][0];
    } else {
      CompareIsLexicographic(a[1..], b[1..]);
      if k: nat :| Before(a[1..], b[1..], k) {
        assert a[..k + 1] == [a[0]] + a[1..][..k] && b[..k + 1] == [b[0]] + b[1..][..k];
        assert Before(a, b, k + 1);
      }
      if k: nat :| Before(a, b, k) {
        assert k > 0;
        assert a[1..][..k - 1] == a[..k][1..] && b[1..][..k - 1] == b[..k][1..];
        assert Before(a[1..], b[1..], k - 1);
      }
    }
  }
}
