/** How the scrapers group rows: `_pairwise` over neighbouring rows, the
    odd-label filter of the football, basketball and hockey pipelines, and
    the (0,1), (2,3), ... grouping of the baseball pipeline. */
module Pairing {

  /** `_pairwise`: `tee` the iterator, advance the second copy once, `zip`. */
  function Pairwise<T>(xs: seq<T>): (r: seq<(T, T)>)
    ensures |r| == if |xs| == 0 then 0 else |xs| - 1
    ensures forall k :: 0 <= k < |r| ==> r[k] == (xs[k], xs[k + 1])
  {
    if |xs| < 2 then [] else [(xs[0], xs[1])] + Pairwise(xs[1..])
  }

  /** The pairs kept by `if i1 % 2 == 0: continue`, where `i1` is the first
      row's index label. Python's `%` and Dafny's agree on parity. */
  function OddLabelled<T>(ps: seq<(T, T)>, labelOf: T -> int): (r: seq<(T, T)>)
    ensures |r| <= |ps|
    ensures forall p :: p in r ==> p in ps && labelOf(p.0) % 2 == 1
    ensures forall p :: p in ps && labelOf(p.0) % 2 == 1 ==> p in r
    ensures |ps| == 1 ==> r == (if labelOf(ps[0].0) % 2 == 1 then ps else [])
  {
    if ps == [] then []
    else (if labelOf(ps[0].0) % 2 == 0 then [] else [ps[0]]) + OddLabelled(ps[1..], labelOf)
  }

  /** The filter keeps order and multiplicity: filtering two stretches one
      after the other is filtering their concatenation. */
  lemma {:induction false} OddLabelledConcat<T>(ps: seq<(T, T)>, qs: seq<(T, T)>, labelOf: T -> int)
    ensures OddLabelled(ps + qs, labelOf) == OddLabelled(ps, labelOf) + OddLabelled(qs, labelOf)
  {
    if ps != [] {
      assert (ps + qs)[0] == ps[0];
      assert (ps + qs)[1..] == ps[1..] + qs;
      OddLabelledConcat(ps[1..], qs, labelOf);
    } else {
      assert ps + qs == qs;
    }
  }

  /** Rows (0,1), (2,3), ...; a trailing odd row is left unpaired. */
  function EvenPairs<T>(xs: seq<T>): (r: seq<(T, T)>)
    ensures |r| == |xs| / 2
    ensures forall j :: 0 <= j < |r| ==> r[j] == (xs[2 * j], xs[2 * j + 1])
  {
    if |xs| < 2 then [] else [(xs[0], xs[1])] + EvenPairs(xs[2..])
  }

  /** Rows labelled consecutively from an odd label: the odd-label filter over
      neighbouring pairs is exactly the grouping into (0,1), (2,3), ... */
  lemma {:induction false} OddLabelledFromOdd<T>(xs: seq<T>, first: int, labelOf: T -> int)
    requires first % 2 == 1
    requires forall k :: 0 <= k < |xs| ==> labelOf(xs[k]) == first + k
    ensures OddLabelled(Pairwise(xs), labelOf) == EvenPairs(xs)
  {
    if |xs| == 2 {
      assert Pairwise(xs) == [(xs[0], xs[1])];
      assert OddLabelled(Pairwise(xs)[1..], labelOf) == [];
    } else if |xs| > 2 {
      var rest := xs[2..];
      assert xs[1..][1..] == rest;
      assert Pairwise(xs) == [(xs[0], xs[1])] + ([(xs[1], xs[2])] + Pairwise(rest));
      assert Pairwise(xs)[1..] == [(xs[1], xs[2])] + Pairwise(rest);
      assert labelOf(xs[1]) % 2 == 0;
      assert ([(xs[1], xs[2])] + Pairwise(rest))[1..] == Pairwise(rest);
      OddLabelledFromOdd(rest, first + 2, labelOf);
    }
  }

  /** The football/basketball/hockey selection when a frame's rows carry the
      labels 0, 1, 2, ...: drop row 0, then the kept pairs are rows
      (1,2), (3,4), ..., (|rows| - 1) / 2 of them, and home/away come from
      the second/first row of each. */
  lemma SelectionOfPositionalLabels<T>(rows: seq<T>, labelOf: T -> int)
    requires |rows| >= 1
    requires forall k :: 0 <= k < |rows| ==> labelOf(rows[k]) == k
    ensures var sel := OddLabelled(Pairwise(rows[1..]), labelOf);
            && |sel| == (|rows| - 1) / 2
            && forall j :: 0 <= j < |sel| ==> sel[j] == (rows[2 * j + 1], rows[2 * j + 2])
  {
    OddLabelledFromOdd(rows[1..], 1, labelOf);
  }

  /** A frame of `len` rows makes one loop step per neighbouring pair after
      row 0, and keeps (len - 1) / 2 of them: every other step, starting
      with the first. */
  lemma PositionalCounts(len: nat)
    requires len >= 1
    ensures var steps := if len == 1 then 0 else len - 2;
            steps == 2 * ((len - 1) / 2) || steps + 1 == 2 * ((len - 1) / 2)
  {
  }

  /** Kept pair `j` is rows `2j + 1` and `2j + 2`, both inside the frame. */
  lemma PositionalPairInside(len: nat, j: nat)
    requires j < (len - 1) / 2
    ensures 2 * j + 2 < len
  {
  }
}
