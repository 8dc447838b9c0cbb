/**
 * Cutting a stream of keys into pages of a fixed size: the full pages, front to
 * back, and the partial page left after the last full one.
 */
module Batching {

  function Batches<T>(s: seq<T>, n: nat): seq<seq<T>>
    requires n > 0
    decreases |s|
  {
    if |s| < n then [] else [s[..n]] + Batches(s[n..], n)
  }

  function Leftover<T>(s: seq<T>, n: nat): seq<T>
    requires n > 0
    decreases |s|
  {
    if |s| < n then s else Leftover(s[n..], n)
  }

  function Flatten<T>(b: seq<seq<T>>): seq<T>
    decreases |b|
  {
    if b == [] then [] else b[0] + Flatten(b[1..])
  }

  lemma {:induction false} FlattenSnoc<T>(b: seq<seq<T>>, x: seq<T>)
    ensures Flatten(b + [x]) == Flatten(b) + x
    decreases |b|
  {
    if b == [] {
      assert b + [x] == [x];
      assert [x][1..] == [];
      assert x + [] == x;
    } else {
      assert (b + [x])[0] == b[0];
      assert (b + [x])[1..] == b[1..] + [x];
      FlattenSnoc(b[1..], x);
    }
  }

  /** Every page holds exactly n elements. */
  lemma {:induction false} BatchesAreFull<T>(s: seq<T>, n: nat)
    requires n > 0
    ensures forall i :: 0 <= i < |Batches(s, n)| ==> |Batches(s, n)[i]| == n
    decreases |s|
  {
    if |s| >= n {
      BatchesAreFull(s[n..], n);
      var b := Batches(s, n);
      assert b == [s[..n]] + Batches(s[n..], n);
      forall i | 0 <= i < |b| ensures |b[i]| == n {
        if i > 0 {
          assert b[i] == Batches(s[n..], n)[i - 1];
        }
      }
    }
  }

  /** The pages followed by the leftover are the stream; the leftover is shorter than a page. */
  lemma {:induction false} BatchesPartition<T>(s: seq<T>, n: nat)
    requires n > 0
    ensures Flatten(Batches(s, n)) + Leftover(s, n) == s
    ensures |Leftover(s, n)| < n
    decreases |s|
  {
    if |s| >= n {
      BatchesPartition(s[n..], n);
      var rest := Batches(s[n..], n);
      var b := [s[..n]] + rest;
      assert b[0] == s[..n] && b[1..] == rest;
      assert Flatten(b) == s[..n] + Flatten(rest);
      assert s == s[..n] + s[n..];
    }
  }

  /** The leftover has |s| mod n elements. */
  lemma {:induction false} LeftoverIsRemainder<T>(s: seq<T>, n: nat)
    requires n > 0
    ensures |Leftover(s, n)| == |s| % n
    decreases |s|
  {
    if |s| >= n {
      LeftoverIsRemainder(s[n..], n);
      ModShift(|s| - n, n);
    }
  }

  lemma ModShift(a: nat, n: nat)
    requires n > 0
    ensures (a + n) % n == a % n
  {
    var q, r := a / n, a % n;
    assert a + n == n * (q + 1) + r;
    ModUnique(a + n, n, q + 1, r);
  }

  /** Euclidean division is unique: a quotient and a remainder in range are the ones. */
  lemma ModUnique(x: int, n: int, q: int, r: int)
    requires n > 0 && 0 <= r < n && x == n * q + r
    ensures x % n == r
  {
    var q', r' := x / n, x % n;
    assert n * q + r == n * q' + r';
    assert n * (q - q') == r' - r;
    if q - q' >= 1 {
      assert false;
    } else if q - q' <= -1 {
      assert false;
    }
  }

  /**
   * Appending one element either completes the leftover into a new page (and
   * empties it) or just extends the leftover.
   */
  lemma {:induction false} BatchesSnoc<T>(s: seq<T>, x: T, n: nat)
    requires n > 0
    ensures |Leftover(s, n)| + 1 == n ==>
      Batches(s + [x], n) == Batches(s, n) + [Leftover(s, n) + [x]] && Leftover(s + [x], n) == []
    ensures |Leftover(s, n)| + 1 < n ==>
      Batches(s + [x], n) == Batches(s, n) && Leftover(s + [x], n) == Leftover(s, n) + [x]
    decreases |s|
  {
    if |s| < n {
      if |s| + 1 == n {
        assert (s + [x])[..n] == s + [x];
        assert (s + [x])[n..] == [];
      }
    } else {
      assert (s + [x])[..n] == s[..n];
      assert (s + [x])[n..] == s[n..] + [x];
      BatchesSnoc(s[n..], x, n);
      if |Leftover(s, n)| + 1 == n {
        assert [s[..n]] + (Batches(s[n..], n) + [Leftover(s, n) + [x]])
            == ([s[..n]] + Batches(s[n..], n)) + [Leftover(s, n) + [x]];
      }
    }
  }
}
