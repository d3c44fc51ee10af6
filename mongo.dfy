/** The array-update primitives of MongoDB that the routes use, and the
    JavaScript array methods they use on fetched documents, as functions on
    sequences:
      - `$push` / `$push` with `$each`: append at the end;
      - `$pull` with a condition, and `filter`: keep the elements that do not
        match (resp. that match);
      - `findIndex` / `find`, and the positional operator `$`: the first
        element that matches;
      - `$[]` and `arrayFilters`: every element that matches. */
module Mongo {
  import opened JsValues

  /** The first index whose element satisfies `p`. */
  function FindFirst<T>(s: seq<T>, p: T -> bool): (r: Option<nat>)
    ensures r.Some? ==> r.value < |s| && p(s[r.value])
    ensures r.Some? ==> forall j :: 0 <= j < r.value ==> !p(s[j])
    ensures r.None? <==> forall j :: 0 <= j < |s| ==> !p(s[j])
  {
    if s == [] then None
    else if p(s[0]) then Some(0)
    else match FindFirst(s[1..], p)
      case None => None
      case Some(k) => Some(k + 1)
  }

  /** The elements of `s` that satisfy `p`, in order. */
  function Keep<T>(s: seq<T>, p: T -> bool): (r: seq<T>)
    ensures |r| <= |s|
    ensures forall i :: 0 <= i < |r| ==> p(r[i])
  {
    if s == [] then []
    else
      assert s == [s[0]] + s[1..];
      if p(s[0]) then [s[0]] + Keep(s[1..], p)
      else Keep(s[1..], p)
  }

  /** `$pull: { field: cond }` removes every element matching the condition. */
  function Pull<T>(s: seq<T>, cond: T -> bool): (r: seq<T>)
  {
    Keep(s, Not(cond))
  }

  /** The negated condition. */
  function Not<T>(cond: T -> bool): T -> bool
  {
    x => !cond(x)
  }

  /** Whatever satisfies `p` is kept, so keeping is idempotent and changes
      nothing on a sequence whose elements all satisfy `p`. */
  lemma {:induction false} KeepAll<T>(s: seq<T>, p: T -> bool)
    requires forall i :: 0 <= i < |s| ==> p(s[i])
    ensures Keep(s, p) == s
  {
    if s != [] {
      KeepAll(s[1..], p);
    }
  }

  /** Keeping distributes over concatenation. */
  lemma {:induction false} KeepAppend<T>(a: seq<T>, b: seq<T>, p: T -> bool)
    ensures Keep(a + b, p) == Keep(a, p) + Keep(b, p)
  {
    if a == [] {
      assert a + b == b;
    } else {
      assert (a + b)[1..] == a[1..] + b;
      KeepAppend(a[1..], b, p);
    }
  }

  /** What `$pull` removes is exactly what keeping the matches retains: the
      two parts together are the whole sequence. */
  lemma {:induction false} PullPartition<T>(s: seq<T>, cond: T -> bool)
    ensures multiset(Keep(s, cond)) + multiset(Pull(s, cond)) == multiset(s)
    ensures |Keep(s, cond)| + |Pull(s, cond)| == |s|
  {
    if s != [] {
      var t := s[1..];
      PullPartition(t, cond);
      assert s == [s[0]] + t;
    }
  }

  /** After `$pull` nothing matching the condition is left. */
  lemma PullRemovesAll<T>(s: seq<T>, cond: T -> bool)
    ensures forall i :: 0 <= i < |Pull(s, cond)| ==> !cond(Pull(s, cond)[i])
  {
  }

  /** The first element kept is the first match. */
  lemma {:induction false} KeepHead<T>(s: seq<T>, p: T -> bool)
    requires FindFirst(s, p).Some?
    ensures Keep(s, p) != [] && Keep(s, p)[0] == s[FindFirst(s, p).value]
  {
    if !p(s[0]) {
      KeepHead(s[1..], p);
    }
  }

  /** An element that satisfies `p` and occurs in `s` survives. */
  lemma {:induction false} KeepKeeps<T>(s: seq<T>, p: T -> bool, x: T)
    requires x in s && p(x)
    ensures x in Keep(s, p)
  {
    if s[0] != x {
      KeepKeeps(s[1..], p, x);
    }
  }

  /** An element that does not match the condition survives `$pull`. */
  lemma PullKeeps<T>(s: seq<T>, cond: T -> bool, x: T)
    requires x in s && !cond(x)
    ensures x in Pull(s, cond)
  {
    KeepKeeps(s, Not(cond), x);
  }

  /** Nothing is kept when nothing satisfies `p`. */
  lemma {:induction false} KeepNoneEmpty<T>(s: seq<T>, p: T -> bool)
    requires forall i :: 0 <= i < |s| ==> !p(s[i])
    ensures Keep(s, p) == []
  {
    if s != [] {
      KeepNoneEmpty(s[1..], p);
    }
  }

  /** Every kept element comes from `s`. */
  lemma {:induction false} KeepFrom<T>(s: seq<T>, p: T -> bool, k: nat)
    requires k < |Keep(s, p)|
    ensures exists i :: 0 <= i < |s| && s[i] == Keep(s, p)[k]
    decreases |s|
  {
    if p(s[0]) && k == 0 {
      assert s[0] == Keep(s, p)[k];
    } else {
      var k' := if p(s[0]) then k - 1 else k;
      KeepFrom(s[1..], p, k');
      var i :| 0 <= i < |s[1..]| && s[1..][i] == Keep(s[1..], p)[k'];
      assert s[i + 1] == Keep(s, p)[k];
    }
  }

  /** Replaces the first element satisfying `p` by its image under `f`
      (the positional operator `$`). */
  function UpdateFirst<T>(s: seq<T>, p: T -> bool, f: T -> T): (r: seq<T>)
    ensures |r| == |s|
    ensures forall i :: 0 <= i < |s| ==> r[i] == if FindFirst(s, p) == Some(i) then f(s[i]) else s[i]
  {
    if s == [] then []
    else if p(s[0]) then [f(s[0])] + s[1..]
    else
      var rest := UpdateFirst(s[1..], p, f);
      assert forall i :: 0 < i < |s| ==> ([s[0]] + rest)[i] == rest[i - 1] && s[1..][i - 1] == s[i];
      assert forall i :: 0 < i < |s| ==> (FindFirst(s, p) == Some(i) <==> FindFirst(s[1..], p) == Some(i - 1));
      [s[0]] + rest
  }

  /** Replaces every element satisfying `p` by its image under `f`
      (`$[]` when `p` holds everywhere, `arrayFilters` otherwise). */
  function UpdateWhere<T>(s: seq<T>, p: T -> bool, f: T -> T): (r: seq<T>)
    ensures |r| == |s|
    ensures forall i :: 0 <= i < |s| ==> r[i] == if p(s[i]) then f(s[i]) else s[i]
  {
    if s == [] then []
    else [if p(s[0]) then f(s[0]) else s[0]] + UpdateWhere(s[1..], p, f)
  }

  /** Rewriting the first match by another matching value keeps it first. */
  lemma FindFirstAfterUpdate<T>(s: seq<T>, p: T -> bool, x: T)
    requires FindFirst(s, p).Some? && p(x)
    ensures FindFirst(s[FindFirst(s, p).value := x], p) == FindFirst(s, p)
  {
    var i := FindFirst(s, p).value;
    var s' := s[i := x];
    assert p(s'[i]);
    assert forall j :: 0 <= j < i ==> s'[j] == s[j];
  }

  /** What is kept is exactly what occurs and satisfies `p`. */
  lemma {:induction false} KeepMembers<T>(s: seq<T>, p: T -> bool)
    ensures forall x :: x in Keep(s, p) <==> x in s && p(x)
  {
    if s != [] {
      KeepMembers(s[1..], p);
      assert s == [s[0]] + s[1..];
    }
  }

  /** No element occurs twice. */
  ghost predicate Distinct<T>(s: seq<T>)
  {
    forall i, j :: 0 <= i < j < |s| ==> s[i] != s[j]
  }

  /** Keeping a duplicate-free sequence gives a duplicate-free sequence. */
  lemma {:induction false} KeepDistinct<T>(s: seq<T>, p: T -> bool)
    requires Distinct(s)
    ensures Distinct(Keep(s, p))
  {
    if s != [] {
      var t := s[1..];
      assert Distinct(t) by {
        forall i, j | 0 <= i < j < |t| ensures t[i] != t[j] {
          assert t[i] == s[i + 1] && t[j] == s[j + 1];
        }
      }
      KeepDistinct(t, p);
      KeepMembers(t, p);
      if p(s[0]) {
        var k := Keep(t, p);
        assert s[0] !in t by {
          forall j | 0 <= j < |t| ensures t[j] != s[0] {
            assert t[j] == s[j + 1];
          }
        }
        assert Keep(s, p) == [s[0]] + k;
        forall i, j | 0 <= i < j < |[s[0]] + k| ensures ([s[0]] + k)[i] != ([s[0]] + k)[j] {
          if i == 0 {
            assert ([s[0]] + k)[j] == k[j - 1];
          } else {
            assert ([s[0]] + k)[i] == k[i - 1] && ([s[0]] + k)[j] == k[j - 1];
          }
        }
      }
    }
  }

  /** A sequence headed by `x` repeats nothing when its tail repeats
      nothing and does not hold `x`. */
  lemma DistinctCons<T>(x: T, r: seq<T>)
    ensures Distinct([x] + r) <==> x !in r && Distinct(r)
  {
    var s := [x] + r;
    if x !in r && Distinct(r) {
      forall i, j | 0 <= i < j < |s| ensures s[i] != s[j] {
        assert s[j] == r[j - 1];
        if i > 0 {
          assert s[i] == r[i - 1];
        }
      }
    }
    if Distinct(s) {
      forall i, j | 0 <= i < j < |r| ensures r[i] != r[j] {
        assert r[i] == s[i + 1] && r[j] == s[j + 1];
      }
      forall j | 0 <= j < |r| ensures r[j] != x {
        assert r[j] == s[j + 1] && s[0] == x;
      }
    }
  }

  /** A sequence repeats nothing exactly when it has as many distinct values
      as elements. */
  lemma {:induction false} DistinctCard<T>(s: seq<T>)
    ensures |set x | x in s| <= |s|
    ensures Distinct(s) <==> |set x | x in s| == |s|
  {
    if s != [] {
      var t := s[1..];
      DistinctCard(t);
      assert s == [s[0]] + t;
      DistinctCons(s[0], t);
      assert (set x | x in s) == {s[0]} + (set x | x in t);
      if s[0] in t {
        assert (set x | x in s) == (set x | x in t);
      } else {
        assert |set x | x in s| == |set x | x in t| + 1;
      }
    }
  }
}
