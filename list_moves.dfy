/** The drag-and-drop move of client/src/components/PlaylistDisplay.js and
    client/src/components/ProgrammingDisplay.js: the dragged element is cut
    out with `splice(from, 1)` and put back with `splice(to, 0, x)`. */
module ListMoves {
  import opened JsValues

  /** `a.splice(i, 1)`. */
  function RemoveAt<T>(s: seq<T>, i: nat): (r: seq<T>)
    requires i < |s|
    ensures |r| == |s| - 1
  {
    s[..i] + s[i + 1..]
  }

  /** `a.splice(i, 0, x)`. */
  function InsertAt<T>(s: seq<T>, i: nat, x: T): (r: seq<T>)
    requires i <= |s|
    ensures |r| == |s| + 1
  {
    s[..i] + [x] + s[i..]
  }

  /** The list after moving the element at `from` to `to`. */
  function Move<T>(s: seq<T>, from: nat, to: nat): (r: seq<T>)
    requires from < |s| && to < |s|
  {
    InsertAt(RemoveAt(s, from), to, s[from])
  }

  /** A move is a permutation: same length, same elements. */
  lemma MovePermutes<T>(s: seq<T>, from: nat, to: nat)
    requires from < |s| && to < |s|
    ensures |Move(s, from, to)| == |s|
    ensures multiset(Move(s, from, to)) == multiset(s)
  {
    var rest := RemoveAt(s, from);
    assert s == s[..from] + [s[from]] + s[from + 1..];
    assert multiset(rest) + multiset{s[from]} == multiset(s);
    assert rest[..to] + rest[to..] == rest;
    calc {
      multiset(Move(s, from, to));
      multiset(rest[..to]) + multiset{s[from]} + multiset(rest[to..]);
      multiset(rest) + multiset{s[from]};
    }
  }

  /** The moved element ends up at `to`. */
  lemma MoveLands<T>(s: seq<T>, from: nat, to: nat)
    requires from < |s| && to < |s|
    ensures Move(s, from, to)[to] == s[from]
  {
  }

  /** The other elements keep their relative order. */
  lemma MoveKeepsOthers<T>(s: seq<T>, from: nat, to: nat)
    requires from < |s| && to < |s|
    ensures RemoveAt(Move(s, from, to), to) == RemoveAt(s, from)
  {
    var rest := RemoveAt(s, from);
    var m := Move(s, from, to);
    assert m[..to] == rest[..to];
    assert m[to + 1..] == rest[to..];
  }

  /** Taking an element out and putting it back where it was changes nothing. */
  lemma InsertRemoved<T>(s: seq<T>, i: nat)
    requires i < |s|
    ensures InsertAt(RemoveAt(s, i), i, s[i]) == s
  {
    var rest := RemoveAt(s, i);
    assert rest[..i] == s[..i];
    assert rest[i..] == s[i + 1..];
  }

  /** Moving back undoes a move; moving to the same index changes nothing. */
  lemma MoveBack<T>(s: seq<T>, from: nat, to: nat)
    requires from < |s| && to < |s|
    ensures |Move(s, from, to)| == |s|
    ensures Move(Move(s, from, to), to, from) == s
    ensures Move(s, from, from) == s
  {
    MoveKeepsOthers(s, from, to);
    InsertRemoved(s, from);
  }

  /** `splice(i, 1)` takes out one copy of the element at `i`. */
  lemma RemoveAtMultiset<T>(s: seq<T>, i: nat)
    requires i < |s|
    ensures multiset(RemoveAt(s, i)) == multiset(s) - multiset{s[i]}
  {
    assert s == s[..i] + [s[i]] + s[i + 1..];
  }

  /** `splice(i, 0, x)` adds one copy of `x`. */
  lemma InsertAtMultiset<T>(s: seq<T>, i: nat, x: T)
    requires i <= |s|
    ensures multiset(InsertAt(s, i, x)) == multiset(s) + multiset{x}
  {
    assert s == s[..i] + s[i..];
  }

  /** The list as JavaScript holds it once `undefined` may be spliced in:
      `None` is a hole. */
  function Lift<T>(s: seq<T>): (r: seq<Option<T>>)
    ensures |r| == |s| && forall i :: 0 <= i < |s| ==> r[i] == Some(s[i])
  {
    seq(|s|, i requires 0 <= i < |s| => Some(s[i]))
  }

  /** Moving the present elements is moving the elements. */
  lemma LiftMove<T>(s: seq<T>, from: nat, to: nat)
    requires from < |s| && to < |s|
    ensures Lift(Move(s, from, to)) == Move(Lift(s), from, to)
  {
    var a, b := Lift(Move(s, from, to)), Move(Lift(s), from, to);
    MovePermutes(s, from, to);
    MovePermutes(Lift(s), from, to);
    forall i | 0 <= i < |s| ensures a[i] == b[i] {
    }
  }

  /** Where `splice(start, ...)` begins on a list of length `len`, for the
      integer `start` is read as: a negative start counts back from the end,
      and both ends are clamped. */
  function SpliceStart(start: int, len: nat): (r: nat)
    ensures r <= len
    ensures 0 <= start <= len ==> r == start
    ensures start < 0 ==> r < len || len == 0
  {
    if start < 0 then (if len + start < 0 then 0 else len + start)
    else if start > len then len else start
  }
}
