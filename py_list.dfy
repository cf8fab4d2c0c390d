/** The Python list operations the plugin uses: `xs[i]`, `xs.insert(i, x)` and `xs.remove(x)`. */
module PyList {
  import opened Wrappers

  /** `xs[i]`, negative indices counting from the end, `IndexError` outside. */
  function Index<T>(xs: seq<T>, i: int): (r: Result<T>)
    ensures r.Ok? <==> -|xs| <= i < |xs|
    ensures 0 <= i < |xs| ==> r == Ok(xs[i])
    ensures -|xs| <= i < 0 ==> r == Ok(xs[|xs| + i])
  {
    if 0 <= i < |xs| then Ok(xs[i])
    else if -|xs| <= i < 0 then Ok(xs[|xs| + i])
    else Err(IndexError)
  }

  /** The position `xs.insert(i, x)` puts `x` at: `i` counted from the end when negative, then clamped to the list. */
  function InsertPosition(n: nat, i: int): (k: nat)
    ensures k <= n
    ensures 0 <= i <= n ==> k == i
    ensures i > n ==> k == n
    ensures i < 0 && 0 <= n + i ==> k == n + i
    ensures n + i < 0 ==> k == 0
  {
    if i < 0 then (if i + n < 0 then 0 else i + n)
    else if i > n then n
    else i
  }

  /** `xs.insert(i, x)`: `x` lands at the insert position, with everything else kept in order around it. */
  function Insert<T>(xs: seq<T>, i: int, x: T): (r: seq<T>)
    ensures var k := InsertPosition(|xs|, i);
            |r| == |xs| + 1 && r[k] == x && r[..k] == xs[..k] && r[k + 1..] == xs[k..]
  {
    var k := InsertPosition(|xs|, i);
    xs[..k] + [x] + xs[k..]
  }

  /** `xs.insert(0, x)` puts `x` first and keeps the whole old list after it. */
  lemma InsertAtFront<T>(xs: seq<T>, x: T)
    ensures Insert(xs, 0, x) == [x] + xs
  {
    var r := Insert(xs, 0, x);
    assert r == [r[0]] + r[1..];
  }

  /** `xs` without its first element equal to `x` (the list `xs.remove(x)` leaves). */
  function RemoveFirst<T(==)>(xs: seq<T>, x: T): seq<T> {
    if xs == [] then []
    else if xs[0] == x then xs[1..]
    else [xs[0]] + RemoveFirst(xs[1..], x)
  }

  /** `k` is the index of the first element of `xs` equal to `x`. */
  predicate IsFirstIndex<T(==)>(xs: seq<T>, x: T, k: int) {
    0 <= k < |xs| && xs[k] == x && x !in xs[..k]
  }

  /** Removing the first `x` cuts out exactly the element at its first index. */
  lemma {:induction false} RemoveFirstAt<T>(xs: seq<T>, x: T, k: int)
    requires IsFirstIndex(xs, x, k)
    ensures RemoveFirst(xs, x) == xs[..k] + xs[k + 1..]
  {
    if k > 0 {
      assert xs[0] in xs[..k];
      assert xs[1..][..k - 1] == xs[1..k];
      RemoveFirstAt(xs[1..], x, k - 1);
      assert xs[..k] == [xs[0]] + xs[1..][..k - 1];
      assert xs[k + 1..] == xs[1..][k - 1 + 1..];
    }
  }

  /** Every `x` that is in `xs` has a first index. */
  lemma FirstIndexExists<T>(xs: seq<T>, x: T) returns (k: int)
    requires x in xs
    ensures IsFirstIndex(xs, x, k)
  {
    k := 0;
    while xs[k] != x
      invariant 0 <= k < |xs|
      invariant x !in xs[..k]
      invariant x in xs[k..]
      decreases |xs| - k
    {
      assert xs[k..] == [xs[k]] + xs[k + 1..];
      assert xs[..k + 1] == xs[..k] + [xs[k]];
      k := k + 1;
    }
  }

  /**
   * When `x` is present, the removal shortens the list by one and takes away
   * one copy of `x` and nothing else.
   */
  lemma RemoveFirstPresent<T>(xs: seq<T>, x: T)
    requires x in xs
    ensures |RemoveFirst(xs, x)| == |xs| - 1
    ensures multiset(RemoveFirst(xs, x)) == multiset(xs) - multiset{x}
  {
    var k := FirstIndexExists(xs, x);
    RemoveFirstAt(xs, x, k);
    assert xs == xs[..k] + [xs[k]] + xs[k + 1..];
  }

  /** `xs.remove(x)`: a linear search for the first `x`, `ValueError` if there is none. */
  method Remove<T(==)>(xs: seq<T>, x: T) returns (r: Result<seq<T>>)
    ensures x !in xs ==> r == Err(ValueError)
    ensures x in xs ==> r == Ok(RemoveFirst(xs, x))
  {
    var i := 0;
    while i < |xs| && xs[i] != x
      invariant 0 <= i <= |xs|
      invariant x !in xs[..i]
    {
      assert xs[..i + 1] == xs[..i] + [xs[i]];
      i := i + 1;
    }
    if i == |xs| {
      assert xs[..i] == xs;
      r := Err(ValueError);
    } else {
      RemoveFirstAt(xs, x, i);
      r := Ok(xs[..i] + xs[i + 1..]);
    }
  }
}
