/**
 Ring storage against history: what the slots of a ring of fixed capacity hold after a
 sequence of writes.  Used by the replay buffer and by the entropy window.
 */
module Rings {
  import opened Arith

  /** The most recent `capacity` elements, oldest first (all of them if there are fewer). */
  function Recent<T>(history: seq<T>, capacity: nat): (r: seq<T>)
    ensures |r| == if |history| <= capacity then |history| else capacity
  {
    if |history| <= capacity then history else history[|history| - capacity..]
  }

  /** The cursor of a ring moves one slot on and wraps around. */
  function Next(p: nat, capacity: nat): (q: nat)
    requires p < capacity
    ensures q < capacity
  {
    if p + 1 == capacity then 0 else p + 1
  }

  /** Where the cursor stands after n writes. */
  function Cursor(n: nat, capacity: nat): (p: nat)
    requires capacity >= 1
    ensures p < capacity
  {
    if n == 0 then 0 else Next(Cursor(n - 1, capacity), capacity)
  }

  lemma {:induction false} CursorIsRemainder(n: nat, capacity: nat)
    requires capacity >= 1
    ensures Cursor(n, capacity) == n % capacity
  {
    if n == 0 {
      RemainderIs(0, capacity, 0, 0);
    } else {
      CursorIsRemainder(n - 1, capacity);
      NextCursor(n - 1, capacity);
    }
  }

  lemma {:induction false} CursorBeforeWrap(n: nat, capacity: nat)
    requires 1 <= capacity && n <= capacity
    ensures Cursor(n, capacity) == if n == capacity then 0 else n
  {
    if n > 0 {
      CursorBeforeWrap(n - 1, capacity);
    }
  }

  function Rotate<T>(xs: seq<T>, k: nat): (r: seq<T>)
    requires k <= |xs|
    ensures |r| == |xs|
  {
    xs[k..] + xs[..k]
  }

  /** The slots in index order: the recent elements, rotated so that the next write hits the oldest. */
  function Slots<T>(history: seq<T>, capacity: nat): (r: seq<T>)
    requires capacity >= 1
    ensures |r| == |Recent(history, capacity)|
  {
    if |history| < capacity then history
    else Rotate(Recent(history, capacity), capacity - Cursor(|history|, capacity))
  }

  /** Whatever the rotation, the slots hold exactly the recent elements, each as often as it occurs. */
  lemma SlotsHoldRecent<T>(history: seq<T>, capacity: nat)
    requires capacity >= 1
    ensures multiset(Slots(history, capacity)) == multiset(Recent(history, capacity))
  {
    if |history| >= capacity {
      var recent, k := Recent(history, capacity), capacity - Cursor(|history|, capacity);
      assert recent == recent[..k] + recent[k..];
    }
  }

  /** Writing at the cursor and moving it is the same as extending the history. */
  lemma WriteExtendsHistory<T>(history: seq<T>, capacity: nat, x: T)
    requires capacity >= 1
    ensures Slots(history + [x], capacity)
            == if |history| < capacity then Slots(history, capacity) + [x]
               else Slots(history, capacity)[Cursor(|history|, capacity) := x]
  {
    if |history| + 1 == capacity {
      CursorBeforeWrap(capacity, capacity);
      assert Rotate(history + [x], capacity) == history + [x];
    } else if |history| >= capacity {
      WriteToFullRing(history, capacity, x);
    }
  }

  lemma WriteToFullRing<T>(history: seq<T>, capacity: nat, x: T)
    requires 1 <= capacity <= |history|
    ensures Slots(history + [x], capacity) == Slots(history, capacity)[Cursor(|history|, capacity) := x]
  {
    var recent, p := Recent(history, capacity), Cursor(|history|, capacity);
    RecentAfterWrite(history, capacity, x);
    assert |history + [x]| == |history| + 1;
    hide Rotate;
    RotationAfterWrite(recent, x, p);
  }

  lemma RecentAfterWrite<T>(history: seq<T>, capacity: nat, x: T)
    requires 1 <= capacity <= |history|
    ensures Recent(history + [x], capacity) == Recent(history, capacity)[1..] + [x]
  {
  }

  /** Dropping the oldest and appending x, seen through the rotation, is one slot overwritten. */
  lemma RotationAfterWrite<T>(recent: seq<T>, x: T, p: nat)
    requires p < |recent|
    ensures Rotate(recent[1..] + [x], |recent| - Next(p, |recent|)) == Rotate(recent, |recent| - p)[p := x]
  {
  }
}
