/** The two ways the handlers change a table (a JavaScript array of records):
    `push` and `splice(start, 1)`; and what they do to the convention that a
    record's `id` equals its position. */
module Tables {
  import opened Js

  /** A record, or JavaScript's `undefined` when an index finds nothing. */
  datatype Option<+T> = None | Some(value: T)

  /** `arr[v]` for a value `v` taken from a request: an element exactly when `v`
      is a whole number naming a position. */
  function Element<T>(s: seq<T>, v: Value): (r: Option<T>)
    ensures r.Some? <==> exists k: nat {:trigger s[k]} :: k < |s| && v == Num(k as real)
    ensures forall k: nat :: k < |s| && v == Num(k as real) ==> r == Some(s[k])
  {
    if IsIndex(v, |s|) then Some(s[Index(v, |s|)]) else None
  }

  /** The array with the element at position `i` taken out; later elements move down one. */
  function RemoveAt<T>(s: seq<T>, i: nat): (r: seq<T>)
    requires i < |s|
    ensures |r| == |s| - 1
    ensures forall k :: 0 <= k < i ==> r[k] == s[k]
    ensures forall k :: i <= k < |r| ==> r[k] == s[k + 1]
  {
    s[..i] + s[i + 1..]
  }

  /** Removing an element keeps every other one: the removed one plus the rest is the whole. */
  lemma RemoveAtMultiset<T>(s: seq<T>, i: nat)
    requires i < |s|
    ensures multiset(RemoveAt(s, i)) + multiset{s[i]} == multiset(s)
  {
    assert s == s[..i] + [s[i]] + s[i + 1..];
  }

  /** ToIntegerOrInfinity on a finite number: truncation toward zero, so the result
      is the whole number nearest the input on the input's side of zero. */
  function Trunc(x: real): (t: int)
    ensures 0.0 <= x ==> t as real <= x < t as real + 1.0
    ensures x < 0.0 ==> t as real - 1.0 < x <= t as real
  {
    if x >= 0.0 then x.Floor else -((-x).Floor)
  }

  /** The actual start of `splice(start, …)` on an array of length `n`:
      a negative start counts back from the end, and the result is clamped to 0..n. */
  function SpliceStart(start: real, n: nat): (k: nat)
    ensures k <= n
    ensures 0 <= Trunc(start) < n ==> k == Trunc(start)
    ensures n <= Trunc(start) ==> k == n
    ensures 0 <= n + Trunc(start) && Trunc(start) < 0 ==> k == n + Trunc(start)
    ensures n + Trunc(start) < 0 ==> k == 0
  {
    var t := Trunc(start);
    if t < 0 then (if n + t < 0 then 0 else n + t) else (if t > n then n else t)
  }

  /** `arr.splice(start, 1)`: when the actual start is a position, that element is
      taken out and the later ones move down one; otherwise the array is unchanged. */
  function SpliceOne<T>(s: seq<T>, start: real): (r: seq<T>)
    ensures var k := SpliceStart(start, |s|);
            k < |s| ==> |r| == |s| - 1 && r[..k] == s[..k] && r[k..] == s[k + 1..]
    ensures |s| <= SpliceStart(start, |s|) ==> r == s
  {
    var k := SpliceStart(start, |s|);
    if k < |s| then RemoveAt(s, k) else s
  }

  /** With a whole-number start inside the array, splice removes exactly that position. */
  lemma SpliceOneAtIndex<T>(s: seq<T>, i: nat)
    requires i < |s|
    ensures SpliceOne(s, i as real) == RemoveAt(s, i)
  {
    assert (i as real).Floor == i;
  }

  /** A start at or past the end removes nothing. */
  lemma SplicePastEnd<T>(s: seq<T>, start: real)
    requires start >= |s| as real
    ensures SpliceOne(s, start) == s
  {
  }

  /** `splice(-1, 1)` on a non-empty array removes its last element. */
  lemma SpliceMinusOne<T>(s: seq<T>)
    requires s != []
    ensures SpliceOne(s, -1.0) == s[..|s| - 1]
  {
    assert (1.0).Floor == 1;
  }

  /** The convention the tables start out with: each record's id is its position. */
  ghost predicate IdsArePositions<T>(s: seq<T>, id: T -> nat) {
    forall k :: 0 <= k < |s| ==> id(s[k]) == k
  }

  /** `push` keeps the convention exactly when the new record's id is the old length. */
  lemma PushKeepsIdsIff<T>(s: seq<T>, x: T, id: T -> nat)
    ensures IdsArePositions(s + [x], id) <==> IdsArePositions(s, id) && id(x) == |s|
  {
    if IdsArePositions(s + [x], id) {
      forall k | 0 <= k < |s| ensures id(s[k]) == k {
        assert (s + [x])[k] == s[k];
      }
      assert (s + [x])[|s|] == x;
    }
  }

  /** Removing any record but the last breaks the convention: the record after it now
      sits one place below its id. */
  lemma RemoveBreaksIds<T>(s: seq<T>, i: nat, id: T -> nat)
    requires IdsArePositions(s, id) && i + 1 < |s|
    ensures id(RemoveAt(s, i)[i]) == i + 1
    ensures !IdsArePositions(RemoveAt(s, i), id)
  {
  }

  /** Removing a record and then pushing one whose id is the new length hands out an id
      that the last surviving record already has. */
  lemma RemoveThenPushRepeatsId<T>(s: seq<T>, i: nat, x: T, id: T -> nat)
    requires IdsArePositions(s, id) && i + 1 < |s|
    requires id(x) == |RemoveAt(s, i)|
    ensures var t := RemoveAt(s, i) + [x];
            |t| == |s| && id(t[|s| - 2]) == id(t[|s| - 1])
  {
    var t := RemoveAt(s, i) + [x];
    assert t[|s| - 2] == s[|s| - 1];
  }
}
