/**
 Roulette-wheel selection as a plain left-to-right scan over a list of weights.

 Both samplers of the repository (the sum tree and the list-based weighted order) are
 proved to pick exactly what this scan picks.
 */
module Roulette {
  import opened Arith

  function Sum(ws: seq<real>): (total: real)
    ensures NonNegative(ws) ==> total >= 0.0
  {
    if ws == [] then 0.0 else ws[0] + Sum(ws[1..])
  }

  /** Position of the first weight whose running total reaches v; the last position if none does. */
  function Scan(ws: seq<real>, v: real): (p: nat)
    requires ws != []
    ensures p < |ws|
  {
    if |ws| == 1 || v <= ws[0] then 0 else 1 + Scan(ws[1..], v - ws[0])
  }

  lemma {:induction false} SumAppend(a: seq<real>, b: seq<real>)
    ensures Sum(a + b) == Sum(a) + Sum(b)
  {
    if a == [] {
      assert a + b == b;
    } else {
      assert (a + b)[1..] == a[1..] + b;
      SumAppend(a[1..], b);
    }
  }

  lemma SumSnoc(ws: seq<real>, k: nat)
    requires k < |ws|
    ensures Sum(ws[..k + 1]) == Sum(ws[..k]) + ws[k]
  {
    assert ws[..k + 1] == ws[..k] + [ws[k]];
    SumAppend(ws[..k], [ws[k]]);
  }

  /** The bracket a roulette wheel promises: v falls into the selected weight's own stretch. */
  lemma {:induction false} ScanBrackets(ws: seq<real>, v: real)
    requires ws != [] && 0.0 < v <= Sum(ws)
    ensures var p := Scan(ws, v);
            Sum(ws[..p]) < v <= Sum(ws[..p + 1])
    ensures ws[Scan(ws, v)] > 0.0
  {
    var p := Scan(ws, v);
    if p == 0 {
      assert ws[..1] == [ws[0]];
    } else {
      ScanBrackets(ws[1..], v - ws[0]);
      assert ws[..p] == [ws[0]] + ws[1..][..p - 1];
      assert ws[..p + 1] == [ws[0]] + ws[1..][..p];
      SumAppend([ws[0]], ws[1..][..p - 1]);
      SumAppend([ws[0]], ws[1..][..p]);
    }
    SumSnoc(ws, p);
  }

  /** The bracket determines the position, so nothing but Scan can satisfy it. */
  lemma {:induction false} BracketIsScan(ws: seq<real>, v: real, p: nat)
    requires NonNegative(ws) && p < |ws|
    requires Sum(ws[..p]) < v <= Sum(ws[..p + 1])
    ensures p == Scan(ws, v)
  {
    if p == 0 {
      assert ws[..1] == [ws[0]];
    } else {
      assert ws[..p] == [ws[0]] + ws[1..][..p - 1];
      assert ws[..p + 1] == [ws[0]] + ws[1..][..p];
      SumAppend([ws[0]], ws[1..][..p - 1]);
      SumAppend([ws[0]], ws[1..][..p]);
      assert NonNegative(ws[1..][..p - 1]);
      BracketIsScan(ws[1..], v - ws[0], p - 1);
    }
  }

  /** Larger draws never select an earlier position. */
  lemma {:induction false} ScanMonotone(ws: seq<real>, v: real, w: real)
    requires ws != [] && v <= w
    ensures Scan(ws, v) <= Scan(ws, w)
  {
    if |ws| > 1 && v > ws[0] {
      ScanMonotone(ws[1..], v - ws[0], w - ws[0]);
    }
  }

  /** Scanning a concatenation: decide by the left part's total which part to scan. */
  lemma {:induction false} ScanAppend(a: seq<real>, b: seq<real>, v: real)
    requires a != [] && b != [] && NonNegative(a)
    ensures Scan(a + b, v) == if v <= Sum(a) then Scan(a, v) else |a| + Scan(b, v - Sum(a))
  {
    if |a| == 1 {
      assert (a + b)[1..] == b;
      assert a == [a[0]];
    } else {
      assert (a + b)[1..] == a[1..] + b;
      ScanAppend(a[1..], b, v - a[0]);
      assert Sum(a[1..]) >= 0.0;
    }
  }
}
