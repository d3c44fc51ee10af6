/** The order of the program details list,
    client/src/components/ProgrammingDisplay.js:276-278: a copy of the
    folder sorted with `(a.slotPosition || '').localeCompare(b.slotPosition || '')`.
    On `''` and single lower-case letters, the values the forms store, the
    locale order is the code-point order used here. */
module SlotOrder {
  import opened JsValues
  import opened Store

  /** Lexicographic order on code points. */
  predicate StrLe(a: string, b: string)
    decreases |a|
  {
    a == [] || (b != [] && (a[0] < b[0] || (a[0] == b[0] && StrLe(a[1..], b[1..]))))
  }

  /** Any two strings are ordered one way or the other. */
  lemma {:induction false} StrLeTotal(a: string, b: string)
    ensures StrLe(a, b) || StrLe(b, a)
    decreases |a|
  {
    if a != [] && b != [] && a[0] == b[0] {
      StrLeTotal(a[1..], b[1..]);
    }
  }

  lemma {:induction false} StrLeTrans(a: string, b: string, c: string)
    requires StrLe(a, b) && StrLe(b, c)
    ensures StrLe(a, c)
    decreases |a|
  {
    if a != [] && a[0] == b[0] && b[0] == c[0] {
      StrLeTrans(a[1..], b[1..], c[1..]);
    }
  }

  /** `file.slotPosition || ''`, for the string values the records hold. */
  function SlotKey(f: FileRecord): string
  {
    if f.slotPosition.Str? then f.slotPosition.s else ""
  }

  predicate SortedBySlot(s: seq<FileRecord>)
    decreases |s|
  {
    |s| <= 1 || (StrLe(SlotKey(s[0]), SlotKey(s[1])) && SortedBySlot(s[1..]))
  }

  /** Every earlier record has a key not above every later one. */
  lemma {:induction false} SortedBySlotPairs(s: seq<FileRecord>)
    requires SortedBySlot(s)
    ensures forall i, j :: 0 <= i < j < |s| ==> StrLe(SlotKey(s[i]), SlotKey(s[j]))
    decreases |s|
  {
    if |s| > 1 {
      SortedBySlotPairs(s[1..]);
      forall i, j | 0 <= i < j < |s| ensures StrLe(SlotKey(s[i]), SlotKey(s[j])) {
        assert s[j] == s[1..][j - 1];
        if i > 0 {
          assert s[i] == s[1..][i - 1];
        } else if j > 1 {
          assert s[1] == s[1..][0];
          StrLeTrans(SlotKey(s[0]), SlotKey(s[1]), SlotKey(s[j]));
        }
      }
    }
  }

  function InsertBySlot(x: FileRecord, s: seq<FileRecord>): (r: seq<FileRecord>)
    requires SortedBySlot(s)
    ensures SortedBySlot(r)
    ensures multiset(r) == multiset(s) + multiset{x}
    ensures r[0] == x || (s != [] && r[0] == s[0])
  {
    if s == [] then [x]
    else if StrLe(SlotKey(x), SlotKey(s[0])) then [x] + s
    else
      var rest := InsertBySlot(x, s[1..]);
      assert s == [s[0]] + s[1..];
      StrLeTotal(SlotKey(x), SlotKey(s[0]));
      assert StrLe(SlotKey(s[0]), SlotKey(rest[0])) by {
        if rest[0] != x { assert rest[0] == s[1]; }
      }
      assert ([s[0]] + rest)[1..] == rest;
      [s[0]] + rest
  }

  /** The sorted copy: ordered by slot, the same records. */
  function SortBySlot(s: seq<FileRecord>): (r: seq<FileRecord>)
    ensures SortedBySlot(r)
    ensures multiset(r) == multiset(s)
    ensures |r| == |s|
  {
    if s == [] then []
    else
      assert s == [s[0]] + s[1..];
      InsertBySlot(s[0], SortBySlot(s[1..]))
  }
}
