/** Ordering of file records by `seqPos`, as the package and render routes
    sort a playlist before they use it (`files.sort((a, b) => a.seqPos - b.seqPos)`
    in api/fileRoutes.js, `sorted(..., key=lambda f: f['seqPos'])` in
    api/app.py). */
module SeqPosOrder {
  import opened JsValues
  import opened Store

  /** The sort key. A record whose `seqPos` is not a number is keyed as 0. */
  function Key(f: FileRecord): int
  {
    NumOr0(f.seqPos)
  }

  /** Ascending keys, neighbour by neighbour. */
  predicate Sorted(s: seq<FileRecord>)
    decreases |s|
  {
    |s| <= 1 || (Key(s[0]) <= Key(s[1]) && Sorted(s[1..]))
  }

  /** Ascending neighbour by neighbour is ascending for every pair. */
  lemma {:induction false} SortedPairs(s: seq<FileRecord>)
    requires Sorted(s)
    ensures forall i, j :: 0 <= i < j < |s| ==> Key(s[i]) <= Key(s[j])
    decreases |s|
  {
    if |s| > 1 {
      SortedPairs(s[1..]);
      forall i, j | 0 <= i < j < |s| ensures Key(s[i]) <= Key(s[j]) {
        assert s[j] == s[1..][j - 1];
        if i > 0 {
          assert s[i] == s[1..][i - 1];
        } else if j > 1 {
          assert s[1] == s[1..][0];
        }
      }
    }
  }

  /** `x` placed before the first element with a key not smaller than its own. */
  function Insert(x: FileRecord, s: seq<FileRecord>): (r: seq<FileRecord>)
    requires Sorted(s)
    ensures Sorted(r)
    ensures multiset(r) == multiset(s) + multiset{x}
    ensures r[0] == x || (s != [] && r[0] == s[0])
  {
    if s == [] then [x]
    else if Key(x) <= Key(s[0]) then [x] + s
    else
      var rest := Insert(x, s[1..]);
      assert s == [s[0]] + s[1..];
      assert Key(s[0]) <= Key(rest[0]) by {
        if rest[0] != x { assert rest[0] == s[1]; }
      }
      assert ([s[0]] + rest)[1..] == rest;
      [s[0]] + rest
  }

  /** The records whose key is `v`, in order. */
  function WithKey(s: seq<FileRecord>, v: int): seq<FileRecord>
  {
    if s == [] then [] else (if Key(s[0]) == v then [s[0]] else []) + WithKey(s[1..], v)
  }

  /** A record with a larger key goes past the head. */
  lemma InsertPastHead(x: FileRecord, s: seq<FileRecord>)
    requires Sorted(s) && s != [] && Key(s[0]) < Key(x)
    ensures Insert(x, s) == [s[0]] + Insert(x, s[1..])
  {
  }

  /** Filtering a sequence with a known head. */
  lemma WithKeyCons(y: FileRecord, t: seq<FileRecord>, v: int)
    ensures WithKey([y] + t, v) == (if Key(y) == v then [y] else []) + WithKey(t, v)
  {
    assert ([y] + t)[0] == y && ([y] + t)[1..] == t;
  }

  /** The records of `x`'s key that `x` contributes. */
  function Own(x: FileRecord, v: int): seq<FileRecord>
  {
    if Key(x) == v then [x] else []
  }

  /** A head with a smaller key than `x` commutes with `x`'s contribution. */
  lemma StableStep(h: FileRecord, t: seq<FileRecord>, a: seq<FileRecord>, x: FileRecord, v: int)
    requires Key(h) < Key(x)
    requires WithKey(a, v) == Own(x, v) + WithKey(t, v)
    ensures WithKey([h] + a, v) == Own(x, v) + WithKey([h] + t, v)
  {
    WithKeyCons(h, a, v);
    WithKeyCons(h, t, v);
    if Key(x) == v {
      assert Key(h) != v;
    }
  }

  /** Inserting puts `x` ahead of every record with the same key. */
  lemma {:induction false} InsertStable(x: FileRecord, s: seq<FileRecord>, v: int)
    requires Sorted(s)
    ensures WithKey(Insert(x, s), v) == Own(x, v) + WithKey(s, v)
    decreases |s|
  {
    if s == [] {
    } else if Key(x) <= Key(s[0]) {
      WithKeyCons(x, s, v);
    } else {
      InsertStable(x, s[1..], v);
      InsertPastHead(x, s);
      StableStep(s[0], s[1..], Insert(x, s[1..]), x, v);
      assert [s[0]] + s[1..] == s;
    }
  }

  /** Inserting the head into a stable sort of the tail is a stable sort of
      the whole. */
  lemma InsertKeepsOrder(x: FileRecord, t: seq<FileRecord>, rest: seq<FileRecord>)
    requires Sorted(rest)
    requires forall v :: WithKey(rest, v) == WithKey(t, v)
    ensures forall v :: WithKey(Insert(x, rest), v) == WithKey([x] + t, v)
  {
    forall v ensures WithKey(Insert(x, rest), v) == WithKey([x] + t, v) {
      InsertStable(x, rest, v);
      WithKeyCons(x, t, v);
    }
  }

  /** The playlist in ascending `seqPos` order: same records, same count,
      and records with equal keys keep their relative order, as
      `Array.prototype.sort` does. */
  function SortBySeqPos(s: seq<FileRecord>): (r: seq<FileRecord>)
    ensures Sorted(r)
    ensures multiset(r) == multiset(s)
    ensures |r| == |s|
    ensures forall v :: WithKey(r, v) == WithKey(s, v)
  {
    if s == [] then []
    else
      var rest := SortBySeqPos(s[1..]);
      InsertKeepsOrder(s[0], s[1..], rest);
      assert [s[0]] + s[1..] == s;
      Insert(s[0], rest)
  }

  /** An already ordered playlist comes back as it was, so sorting twice is
      sorting once. */
  lemma {:induction false} SortSorted(s: seq<FileRecord>)
    requires Sorted(s)
    ensures SortBySeqPos(s) == s
  {
    if s != [] {
      SortSorted(s[1..]);
      if |s| > 1 {
        assert Key(s[0]) <= Key(s[1..][0]);
      }
    }
  }
}
