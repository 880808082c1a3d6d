/**
 The binary heap under the timer engine (transport/hptimer/timer_heap.go) with the
 operations of Go's `container/heap` that the engine calls on it.
 */
module TimerHeaps {
  import opened Options
  import opened TimerTasks

  function Parent(k: nat): (p: nat)
    requires 0 < k
    ensures p < k
  {
    (k - 1) / 2
  }

  /** No child precedes its parent among the first `n` entries. */
  ghost predicate Ordered(s: seq<TimerTask>, n: nat)
    requires n <= |s|
  {
    forall k {:trigger Parent(k)} | 0 < k < n :: !Less(s[k], s[Parent(k)])
  }

  /** Ordered except that entry `i` may precede its parent. */
  ghost predicate OrderedAbove(s: seq<TimerTask>, n: nat, i: nat)
    requires n <= |s|
  {
    && (forall k {:trigger Parent(k)} | 0 < k < n && k != i :: !Less(s[k], s[Parent(k)]))
    && (forall k {:trigger Parent(k)} | 0 < i && 0 < k < n && Parent(k) == i :: !Less(s[k], s[Parent(i)]))
  }

  /** Ordered except that entry `i` may precede its parent or follow its children. */
  ghost predicate OrderedAround(s: seq<TimerTask>, n: nat, i: nat)
    requires n <= |s|
  {
    && (forall k {:trigger Parent(k)} | 0 < k < n && k != i && Parent(k) != i :: !Less(s[k], s[Parent(k)]))
    && (forall k {:trigger Parent(k)} | 0 < i && 0 < k < n && Parent(k) == i :: !Less(s[k], s[Parent(i)]))
  }

  lemma {:induction false} RootIsMinimal(s: seq<TimerTask>, n: nat, k: nat)
    requires k < n <= |s| && Ordered(s, n)
    ensures !Less(s[k], s[0])
  {
    if k != 0 {
      RootIsMinimal(s, n, Parent(k));
    }
  }

  /** The root has the earliest time and, among those of that time, the smallest priority number. */
  lemma RootPrecedesAll(s: seq<TimerTask>)
    requires s != [] && Ordered(s, |s|)
    ensures forall t | t in s :: !Less(t, s[0])
    ensures forall t | t in s :: s[0].at < t.at || (s[0].at == t.at && s[0].priority <= t.priority)
  {
    forall t | t in s ensures !Less(t, s[0]) {
      var k :| 0 <= k < |s| && s[k] == t;
      RootIsMinimal(s, |s|, k);
    }
  }

  function Swapped(s: seq<TimerTask>, i: nat, j: nat): (r: seq<TimerTask>)
    requires i < |s| && j < |s|
    ensures |r| == |s|
  {
    s[i := s[j]][j := s[i]]
  }

  lemma SwapKeeps(s: seq<TimerTask>, i: nat, j: nat)
    requires i < |s| && j < |s|
    ensures multiset(Swapped(s, i, j)) == multiset(s)
  {
  }

  /** One step of sifting up: swap entry `j` with the parent it precedes. */
  lemma SiftUpStep(s: seq<TimerTask>, n: nat, j: nat)
    requires 0 < j < n <= |s| && OrderedAbove(s, n, j) && Less(s[j], s[Parent(j)])
    ensures OrderedAbove(Swapped(s, Parent(j), j), n, Parent(j))
  {
    var p := Parent(j);
    var r := Swapped(s, p, j);
    forall k | 0 < k < n && k != p ensures !Less(r[k], r[Parent(k)]) {
      assert Parent(k) != k;
      assert k != j && Parent(k) != j && Parent(k) != p ==> r[k] == s[k] && r[Parent(k)] == s[Parent(k)];
      assert k != j && Parent(k) == p ==> !Less(s[k], s[p]);
    }
    forall k | 0 < p && 0 < k < n && Parent(k) == p ensures !Less(r[k], r[Parent(p)]) {
      assert !Less(s[p], s[Parent(p)]);
      assert k != j ==> !Less(s[k], s[p]);
    }
  }

  /** `heap.up`: the entry at `j` swaps with its parent for as long as it precedes it. */
  function SiftUp(s: seq<TimerTask>, j: nat): (r: seq<TimerTask>)
    requires j < |s|
    ensures |r| == |s|
    decreases j
  {
    if j == 0 || !Less(s[j], s[Parent(j)]) then s else SiftUp(Swapped(s, Parent(j), j), Parent(j))
  }

  lemma {:induction false} SiftUpCorrect(s: seq<TimerTask>, n: nat, j: nat)
    requires j < n <= |s| && OrderedAbove(s, n, j)
    ensures var r := SiftUp(s, j);
            && multiset(r) == multiset(s) && Ordered(r, n)
            && (forall k | n <= k < |s| :: r[k] == s[k])
            && r[0] == (if Less(s[j], s[0]) then s[j] else s[0])
    decreases j
  {
    if j == 0 {
    } else if Less(s[j], s[Parent(j)]) {
      SiftUpStep(s, n, j);
      var next := Swapped(s, Parent(j), j);
      SwapKeeps(s, Parent(j), j);
      SiftUpCorrect(next, n, Parent(j));
      assert next[Parent(j)] == s[j];
      assert Parent(j) != 0 ==> next[0] == s[0];
    } else {
      assert Ordered(s, n);
      RootIsMinimal(s, n, j);
    }
  }

  /** The child that `down` compares with entry `i`. */
  predicate SmallerChild(s: seq<TimerTask>, n: nat, i: nat, c: nat)
    requires n <= |s|
  {
    && (c == 2 * i + 1 || c == 2 * i + 2)
    && c < n
    && (2 * i + 1 < n ==> !Less(s[2 * i + 1], s[c]))
    && (2 * i + 2 < n ==> !Less(s[2 * i + 2], s[c]))
  }

  /** One step of sifting down: swap entry `i` with its smaller child. */
  lemma SiftDownStep(s: seq<TimerTask>, n: nat, i: nat, c: nat)
    requires n <= |s| && OrderedAround(s, n, i) && SmallerChild(s, n, i, c) && Less(s[c], s[i])
    requires 0 < i ==> Parent(c) == i
    ensures OrderedAround(Swapped(s, i, c), n, c)
    ensures 0 < i ==> !Less(Swapped(s, i, c)[i], Swapped(s, i, c)[Parent(i)])
  {
    var r := Swapped(s, i, c);
    assert Parent(c) == i;
    forall k | 0 < k < n && k != c && Parent(k) != c ensures !Less(r[k], r[Parent(k)]) {
      if Parent(k) == i {
        assert k == 2 * i + 1 || k == 2 * i + 2;
      }
    }
    forall k | 0 < k < n && Parent(k) == c ensures !Less(r[k], r[Parent(c)]) {
      assert !Less(s[k], s[c]);
    }
  }

  /** When no child precedes entry `i`, only the edge to its parent can be wrong. */
  lemma SiftDownEnd(s: seq<TimerTask>, n: nat, i: nat)
    requires n <= |s| && OrderedAround(s, n, i)
    requires 2 * i + 1 < n ==> !Less(s[2 * i + 1], s[i])
    requires 2 * i + 2 < n ==> !Less(s[2 * i + 2], s[i])
    ensures OrderedAbove(s, n, i)
  {
    forall k | 0 < k < n && k != i ensures !Less(s[k], s[Parent(k)]) {
      if Parent(k) == i {
        assert k == 2 * i + 1 || k == 2 * i + 2;
      }
    }
  }

  /** The child that `heap.down` picks at `i`, when it swaps at all. */
  function Descent(s: seq<TimerTask>, n: nat, i: nat): (c: Option<nat>)
    requires n <= |s|
    ensures c.Some? ==> i < c.value < n
  {
    var left := 2 * i + 1;
    if left >= n then None
    else
      var child := if left + 1 < n && Less(s[left + 1], s[left]) then left + 1 else left;
      if Less(s[child], s[i]) then Some(child) else None
  }

  /** `heap.down`: the entry at `i` swaps with its smaller child for as long as that child precedes it. */
  function SiftDown(s: seq<TimerTask>, n: nat, i: nat): (r: seq<TimerTask>)
    requires n <= |s|
    ensures |r| == |s|
    decreases n - i
  {
    match Descent(s, n, i)
    case None => s
    case Some(c) => SiftDown(Swapped(s, i, c), n, c)
  }

  /** Sifting down only moves entries around, within the first `n` and from `i` on. */
  lemma {:induction false} SiftDownKeeps(s: seq<TimerTask>, n: nat, i: nat)
    requires n <= |s|
    ensures multiset(SiftDown(s, n, i)) == multiset(s)
    ensures forall k | 0 <= k < |s| && (k < i || n <= k) :: SiftDown(s, n, i)[k] == s[k]
    decreases n - i
  {
    match Descent(s, n, i)
    case None =>
    case Some(c) =>
      SwapKeeps(s, i, c);
      SiftDownKeeps(Swapped(s, i, c), n, c);
  }

  lemma {:induction false} SiftDownOrders(s: seq<TimerTask>, n: nat, i: nat)
    requires n <= |s| && OrderedAround(s, n, i)
    ensures OrderedAbove(SiftDown(s, n, i), n, i)
    ensures Descent(s, n, i).Some? && 0 < i ==> !Less(SiftDown(s, n, i)[i], SiftDown(s, n, i)[Parent(i)])
    decreases n - i
  {
    match Descent(s, n, i)
    case None => SiftDownEnd(s, n, i);
    case Some(c) =>
      SiftDownStep(s, n, i, c);
      var next := Swapped(s, i, c);
      SiftDownOrders(next, n, c);
      SiftDownKeeps(next, n, c);
      OrderedBelow(SiftDown(s, n, i), n, i, c);
  }

  /** With the edge above child `c` of `i` in order, only the edge above `i` can be wrong. */
  lemma OrderedBelow(r: seq<TimerTask>, n: nat, i: nat, c: nat)
    requires n <= |r| && 0 < c < n && Parent(c) == i && OrderedAbove(r, n, c)
    requires !Less(r[c], r[i])
    requires 0 < i ==> !Less(r[i], r[Parent(i)])
    ensures OrderedAbove(r, n, i)
  {
  }

  /** Moving the last entry into place `i` disturbs the order only around `i`. */
  lemma ReplaceByLast(s: seq<TimerTask>, i: nat)
    requires i < |s| && Ordered(s, |s|)
    ensures OrderedAround(Swapped(s, i, |s| - 1), |s| - 1, i)
  {
    var r := Swapped(s, i, |s| - 1);
    forall k | 0 < i && 0 < k < |s| - 1 && Parent(k) == i ensures !Less(r[k], r[Parent(i)]) {
      assert !Less(s[k], s[i]) && !Less(s[i], s[Parent(i)]);
    }
  }

  /** The prefix of an array that `heap.Interface.Pop` keeps. */
  lemma PrefixKeeps(s: seq<TimerTask>, n: nat)
    requires |s| == n + 1
    ensures multiset(s[..n]) == multiset(s) - multiset{s[n]}
    ensures Ordered(s, n) ==> Ordered(s[..n], n)
  {
    assert s == s[..n] + [s[n]];
  }

  // ---------- The operations of container/heap ----------

  /** `heap.Push` */
  function Pushed(s: seq<TimerTask>, x: TimerTask): seq<TimerTask> {
    SiftUp(s + [x], |s|)
  }

  /** `heap.Pop` before it drops the last entry. */
  function RootLast(s: seq<TimerTask>): (r: seq<TimerTask>)
    requires s != []
    ensures |r| == |s|
  {
    var n := |s| - 1;
    SiftDown(Swapped(s, 0, n), n, 0)
  }

  /** `heap.Remove` before it drops the last entry. */
  function EntryLast(s: seq<TimerTask>, i: nat): (r: seq<TimerTask>)
    requires i < |s|
    ensures |r| == |s|
  {
    var n := |s| - 1;
    if i == n then s
    else
      var swapped := Swapped(s, i, n);
      if Descent(swapped, n, i).Some? then SiftDown(swapped, n, i) else SiftUp(swapped, i)
  }

  lemma PushedCorrect(s: seq<TimerTask>, x: TimerTask)
    requires Ordered(s, |s|)
    ensures var r := Pushed(s, x);
            && r != [] && Ordered(r, |r|) && multiset(r) == multiset(s) + multiset{x}
            && r[0] == (if s == [] || Less(x, s[0]) then x else s[0])
  {
    SiftUpCorrect(s + [x], |s| + 1, |s|);
  }

  lemma RootLastCorrect(s: seq<TimerTask>)
    requires s != [] && Ordered(s, |s|)
    ensures var r := RootLast(s);
            Ordered(r, |s| - 1) && multiset(r) == multiset(s) && r[|s| - 1] == s[0]
  {
    var n := |s| - 1;
    ReplaceByLast(s, 0);
    SwapKeeps(s, 0, n);
    SiftDownKeeps(Swapped(s, 0, n), n, 0);
    SiftDownOrders(Swapped(s, 0, n), n, 0);
  }

  lemma EntryLastCorrect(s: seq<TimerTask>, i: nat)
    requires i < |s| && Ordered(s, |s|)
    ensures var r := EntryLast(s, i);
            Ordered(r, |s| - 1) && multiset(r) == multiset(s) && r[|s| - 1] == s[i]
  {
    var n := |s| - 1;
    if i != n {
      var swapped := Swapped(s, i, n);
      ReplaceByLast(s, i);
      SwapKeeps(s, i, n);
      SiftDownKeeps(swapped, n, i);
      SiftDownOrders(swapped, n, i);
      if Descent(swapped, n, i).None? {
        SiftUpCorrect(swapped, n, i);
      }
    }
  }

  class TimerHeap {
    var items: seq<TimerTask>

    constructor ()
      ensures items == []
    {
      items := [];
    }

    method Swap(i: nat, j: nat)
      requires i < |items| && j < |items|
      modifies this
      ensures items == Swapped(old(items), i, j)
    {
      items := items[i := items[j]][j := items[i]];
    }

    method Up(start: nat)
      requires start < |items|
      modifies this
      ensures items == SiftUp(old(items), start)
    {
      var j := start;
      while j != 0 && Less(items[j], items[Parent(j)])
        invariant 0 <= j < |items|
        invariant SiftUp(items, j) == SiftUp(old(items), start)
      {
        Swap(Parent(j), j);
        j := Parent(j);
      }
    }

    method Down(start: nat, n: nat) returns (moved: bool)
      requires n <= |items|
      modifies this
      ensures items == SiftDown(old(items), n, start)
      ensures moved == Descent(old(items), n, start).Some?
    {
      var i := start;
      while true
        invariant start <= i && n <= |items|
        invariant SiftDown(items, n, i) == SiftDown(old(items), n, start)
        invariant i == start ==> items == old(items)
        invariant i != start ==> Descent(old(items), n, start).Some?
        decreases n - i
      {
        var left := 2 * i + 1;
        if left >= n {
          assert Descent(items, n, i) == None;
          break;
        }
        var child := left;
        if left + 1 < n && Less(items[left + 1], items[left]) {
          child := left + 1;
        }
        if !Less(items[child], items[i]) {
          assert Descent(items, n, i) == None;
          break;
        }
        assert Descent(items, n, i) == Some(child);
        Swap(i, child);
        i := child;
      }
      moved := i > start;
    }

    method Push(x: TimerTask)
      modifies this
      ensures items == Pushed(old(items), x)
    {
      items := items + [x];
      Up(|items| - 1);
    }

    /** Drops the last entry, as `heap.Interface` asks of `Pop`. */
    method DropLast() returns (x: TimerTask)
      requires items != []
      modifies this
      ensures var n := |old(items)| - 1; x == old(items)[n] && items == old(items)[..n]
    {
      var n := |items| - 1;
      x := items[n];
      items := items[..n];
    }

    method Pop() returns (x: TimerTask)
      requires items != []
      modifies this
      ensures var r, n := RootLast(old(items)), |old(items)| - 1; x == r[n] && items == r[..n]
    {
      var n := |items| - 1;
      Swap(0, n);
      var moved := Down(0, n);
      x := DropLast();
    }

    method RemoveAt(i: nat) returns (x: TimerTask)
      requires i < |items|
      modifies this
      ensures var r, n := EntryLast(old(items), i), |old(items)| - 1; x == r[n] && items == r[..n]
    {
      var n := |items| - 1;
      if n != i {
        Swap(i, n);
        var moved := Down(i, n);
        if !moved {
          Up(i);
        }
      }
      x := DropLast();
    }
  }
}
