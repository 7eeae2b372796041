/** The circular doubly linked list of list.c: a sentinel and the nodes linked through it. */
module List {
  import opened Queues

  /** ENetListNode. */
  class Node {
    var next: Node
    var previous: Node

    /** A node alone, which as a sentinel is an empty list. */
    constructor ()
      ensures Linked(this, []) && fresh(this)
    {
      next, previous := this, this;
    }
  }

  predicate AllDifferent(sentinel: Node, items: seq<Node>) {
    && (forall i | 0 <= i < |items| :: items[i] != sentinel)
    && (forall i, j | 0 <= i < j < |items| :: items[i] != items[j])
  }

  /** The node in place i; the sentinel comes after the last. */
  function At(sentinel: Node, items: seq<Node>, i: nat): Node
    requires i <= |items|
  {
    if i == |items| then sentinel else items[i]
  }

  function Before(sentinel: Node, items: seq<Node>, i: nat): Node
    requires i <= |items|
  {
    if i == 0 then sentinel else items[i - 1]
  }

  ghost predicate Joined(a: Node, b: Node)
    reads a, b
  {
    a.next == b && b.previous == a
  }

  /** The list is exactly these nodes in this order: next and previous are inverse all around. */
  ghost predicate Linked(sentinel: Node, items: seq<Node>)
    reads sentinel, items
  {
    && AllDifferent(sentinel, items)
    && forall i | 0 <= i <= |items| :: Joined(Before(sentinel, items, i), At(sentinel, items, i))
  }

  /** Different places have different nodes on either side. */
  lemma PlacesDiffer(sentinel: Node, items: seq<Node>, i: nat, j: nat)
    requires AllDifferent(sentinel, items) && i <= |items| && j <= |items| && i != j
    ensures At(sentinel, items, i) != At(sentinel, items, j) && Before(sentinel, items, i) != Before(sentinel, items, j)
  {
  }

  /** enet_list_clear */
  method Clear(sentinel: Node)
    modifies sentinel
    ensures Linked(sentinel, [])
  {
    sentinel.next := sentinel;
    sentinel.previous := sentinel;
  }

  /** enet_list_insert: before position, the node in place k. */
  method InsertNode(position: Node, result: Node, ghost sentinel: Node, ghost items: seq<Node>, ghost k: nat)
    requires Linked(sentinel, items) && k <= |items| && position == At(sentinel, items, k)
    requires result != sentinel && result !in items
    modifies position`previous, position.previous`next, result
    ensures Linked(sentinel, Insert(items, k, result))
  {
    assert Joined(Before(sentinel, items, k), At(sentinel, items, k));
    result.previous := position.previous;
    result.next := position;
    result.previous.next := result;
    position.previous := result;
    ghost var all := Insert(items, k, result);
    forall i | 0 <= i <= |all| ensures Joined(Before(sentinel, all, i), At(sentinel, all, i)) {
      if i < k {
        PlacesDiffer(sentinel, items, i, k);
        assert old(Joined(Before(sentinel, items, i), At(sentinel, items, i)));
      } else if i > k + 1 {
        PlacesDiffer(sentinel, items, i - 1, k);
        assert old(Joined(Before(sentinel, items, i - 1), At(sentinel, items, i - 1)));
      }
    }
  }

  /** enet_list_remove */
  method RemoveNode(position: Node, ghost sentinel: Node, ghost items: seq<Node>, ghost k: nat)
    requires Linked(sentinel, items) && k < |items| && position == items[k]
    modifies position.previous`next, position.next`previous
    ensures Linked(sentinel, Without(items, k))
  {
    assert Joined(Before(sentinel, items, k), At(sentinel, items, k));
    assert Joined(Before(sentinel, items, k + 1), At(sentinel, items, k + 1));
    position.previous.next := position.next;
    position.next.previous := position.previous;
    ghost var all := Without(items, k);
    forall i | 0 <= i <= |all| ensures Joined(Before(sentinel, all, i), At(sentinel, all, i)) {
      if i < k {
        PlacesDiffer(sentinel, items, i, k);
        PlacesDiffer(sentinel, items, i, k + 1);
        assert old(Joined(Before(sentinel, items, i), At(sentinel, items, i)));
      } else if i > k {
        PlacesDiffer(sentinel, items, i + 1, k);
        PlacesDiffer(sentinel, items, i + 1, k + 1);
        assert old(Joined(Before(sentinel, items, i + 1), At(sentinel, items, i + 1)));
      }
    }
  }

  // ----- moving a range -----

  function CutOut<T>(items: seq<T>, lo: nat, hi: nat): seq<T>
    requires lo <= hi <= |items|
  {
    items[..lo] + items[hi..]
  }

  function Spliced<T>(items: seq<T>, k: nat, part: seq<T>): seq<T>
    requires k <= |items|
  {
    items[..k] + part + items[k..]
  }

  /** Where place k is once the range from lo to hi has been cut out. */
  function Shifted(k: nat, lo: nat, hi: nat): (r: nat)
    requires lo <= hi && (k < lo || hi <= k)
  {
    if k < lo then k else k - (hi - lo)
  }

  ghost predicate Apart(sentinel0: Node, items0: seq<Node>, sentinel1: Node, items1: seq<Node>) {
    && sentinel0 != sentinel1 && sentinel0 !in items1 && sentinel1 !in items0
    && forall i, j | 0 <= i < |items0| && 0 <= j < |items1| :: items0[i] != items1[j]
  }

  /** enet_list_move from one list into another: the range is cut out of the one and spliced into the
      other before place k. */
  method MoveBetween(position: Node, first: Node, last: Node, ghost sentinel0: Node, ghost items0: seq<Node>,
                     ghost lo: nat,
                     ghost hi: nat, ghost sentinel1: Node, ghost items1: seq<Node>, ghost k: nat)
    requires Linked(sentinel0, items0) && lo < hi <= |items0| && first == items0[lo] && last == items0[hi - 1]
    requires Linked(sentinel1, items1) && k <= |items1| && position == At(sentinel1, items1, k)
    requires Apart(sentinel0, items0, sentinel1, items1)
    modifies first.previous`next, last.next`previous, first`previous, last`next, position.previous`next,
        position`previous
    ensures Linked(sentinel0, CutOut(items0, lo, hi))
    ensures Linked(sentinel1, Spliced(items1, k, items0[lo..hi]))
  {
    assert Joined(Before(sentinel0, items0, lo), At(sentinel0, items0, lo));
    assert Joined(Before(sentinel0, items0, hi), At(sentinel0, items0, hi));
    assert Joined(Before(sentinel1, items1, k), At(sentinel1, items1, k));
    MoveNodes(position, first, last);
    ghost var n, rest, all := hi - lo, CutOut(items0, lo, hi), Spliced(items1, k, items0[lo..hi]);
    BetweenDiffer(sentinel0, items0, lo, hi, sentinel1, items1, k);
    forall i | 0 <= i <= |rest| ensures Joined(Before(sentinel0, rest, i), At(sentinel0, rest, i)) {
      if i != lo {
        ghost var was := if i < lo then i else i + n;
        PlacesDiffer(sentinel0, items0, was, lo);
        PlacesDiffer(sentinel0, items0, was, hi);
        assert old(Joined(Before(sentinel0, items0, was), At(sentinel0, items0, was)));
      }
    }
    forall i | 0 <= i <= |all| ensures Joined(Before(sentinel1, all, i), At(sentinel1, all, i)) {
      if k < i < k + n {
        ghost var was := i - k + lo;
        PlacesDiffer(sentinel0, items0, was, lo);
        PlacesDiffer(sentinel0, items0, was, hi);
        assert old(Joined(Before(sentinel0, items0, was), At(sentinel0, items0, was)));
      } else if i < k || i > k + n {
        ghost var was := if i < k then i else i - n;
        PlacesDiffer(sentinel1, items1, was, k);
        assert old(Joined(Before(sentinel1, items1, was), At(sentinel1, items1, was)));
      }
    }
  }

  lemma BetweenDiffer(sentinel0: Node, items0: seq<Node>, lo: nat, hi: nat, sentinel1: Node, items1: seq<Node>, k: nat)
    requires AllDifferent(sentinel0, items0) && AllDifferent(sentinel1, items1)
             && Apart(sentinel0, items0, sentinel1, items1)
    requires lo < hi <= |items0| && k <= |items1|
    ensures AllDifferent(sentinel0, CutOut(items0, lo, hi)) && |CutOut(items0, lo, hi)| == |items0| - (hi - lo)
    ensures AllDifferent(sentinel1, Spliced(items1, k, items0[lo..hi]))
    ensures |Spliced(items1, k, items0[lo..hi])| == |items1| + hi - lo
  {
  }

  /** enet_list_move within a list, to a place outside the range. */
  method MoveWithin(position: Node, first: Node, last: Node, ghost sentinel: Node, ghost items: seq<Node>,
                    ghost lo: nat,
                    ghost hi: nat, ghost k: nat)
    requires Linked(sentinel, items) && lo < hi <= |items| && first == items[lo] && last == items[hi - 1]
    requires k <= |items| && (k < lo || hi <= k) && position == At(sentinel, items, k)
    modifies first.previous`next, last.next`previous, first`previous, last`next, position.previous`next,
        position`previous
    ensures Linked(sentinel, Spliced(CutOut(items, lo, hi), Shifted(k, lo, hi), items[lo..hi]))
  {
    assert Joined(Before(sentinel, items, lo), At(sentinel, items, lo));
    assert Joined(Before(sentinel, items, hi), At(sentinel, items, hi));
    assert Joined(Before(sentinel, items, k), At(sentinel, items, k));
    PlacesDiffer(sentinel, items, lo, hi);
    PlacesDiffer(sentinel, items, lo, k);
    MoveNodes(position, first, last);
    ghost var n, at := hi - lo, Shifted(k, lo, hi);
    ghost var all := Spliced(CutOut(items, lo, hi), at, items[lo..hi]);
    PlacesChanged(sentinel, items, lo, hi, k);
    hide Spliced, CutOut, Origin, AllDifferent;
    forall i | 0 <= i <= |all| ensures Joined(Before(sentinel, all, i), At(sentinel, all, i)) {
      if i != Shifted(k, lo, hi) && i != Shifted(k, lo, hi) + n && i != (if k < lo then hi else lo) {
        ghost var was := Origin(lo, hi, k, i);
        PlaceKept(sentinel, items, lo, hi, k, i);
        PlacesDiffer(sentinel, items, was, lo);
        PlacesDiffer(sentinel, items, was, hi);
        PlacesDiffer(sentinel, items, was, k);
        assert old(Joined(Before(sentinel, items, was), At(sentinel, items, was)));
      }
    }
  }

  /** Where place i of a list was before a range was moved within it. */
  function Origin(lo: nat, hi: nat, k: nat, i: nat): int
    requires lo <= hi && (k < lo || hi <= k)
  {
    var n := hi - lo;
    if k < lo then if i < k || i > hi then i else if i < k + n then lo + i - k else i - n
    else if i < lo || i > k then i else if i < k - n then i + n else lo + i - (k - n)
  }

  lemma MovedDiffer(sentinel: Node, items: seq<Node>, lo: nat, hi: nat, k: nat)
    requires lo < hi <= |items| && k <= |items| && (k < lo || hi <= k) && AllDifferent(sentinel, items)
    ensures var all := Spliced(CutOut(items, lo, hi), Shifted(k, lo, hi), items[lo..hi]);
            |all| == |items| && AllDifferent(sentinel, all)
  {
    var all := Spliced(CutOut(items, lo, hi), Shifted(k, lo, hi), items[lo..hi]);
    SourceOf(items, lo, hi, k);
    hide Spliced, CutOut, Source;
    forall i, j | 0 <= i < j < |all| ensures all[i] != all[j] { SourcesDiffer(lo, hi, k, i, j); }
  }

  lemma SourceOf(items: seq<Node>, lo: nat, hi: nat, k: nat)
    requires lo < hi <= |items| && k <= |items| && (k < lo || hi <= k)
    ensures var all := Spliced(CutOut(items, lo, hi), Shifted(k, lo, hi), items[lo..hi]);
            && |all| == |items|
            && forall i | 0 <= i < |all| :: 0 <= Source(lo, hi, k, i) < |items| && all[i] == items[Source(lo, hi, k, i)]
  {
  }

  lemma SourcesDiffer(lo: nat, hi: nat, k: nat, i: nat, j: nat)
    requires lo <= hi && (k < lo || hi <= k) && i != j
    ensures Source(lo, hi, k, i) != Source(lo, hi, k, j)
  {
  }

  /** Which item of the list comes to stand at place i. */
  function Source(lo: nat, hi: nat, k: nat, i: nat): int
    requires lo <= hi && (k < lo || hi <= k)
  {
    var n, at := hi - lo, Shifted(k, lo, hi);
    if at <= i < at + n then i - at + lo
    else
      var rest := if i < at then i else i - n;
      if rest < lo then rest else rest + n
  }

  /** The three places where a moved range leaves and arrives. */
  lemma PlacesChanged(sentinel: Node, items: seq<Node>, lo: nat, hi: nat, k: nat)
    requires lo < hi <= |items| && k <= |items| && (k < lo || hi <= k) && AllDifferent(sentinel, items)
    ensures var all, at := Spliced(CutOut(items, lo, hi), Shifted(k, lo, hi), items[lo..hi]), Shifted(k, lo, hi);
            && |all| == |items| && AllDifferent(sentinel, all)
            && Before(sentinel, all, at) == (if k == hi then Before(sentinel, items, lo)
                                             else Before(sentinel, items, k))
            && At(sentinel, all, at) == items[lo]
            && Before(sentinel, all, at + hi - lo) == items[hi - 1]
                && At(sentinel, all, at + hi - lo) == At(sentinel, items, k)
            && var other := if k < lo then hi else lo;
               k != hi ==>
                 && Before(sentinel, all, other) == Before(sentinel, items, lo)
                 && At(sentinel, all, other) == At(sentinel, items, hi)
  {
    MovedDiffer(sentinel, items, lo, hi, k);
    hide AllDifferent;
  }

  lemma PlaceKept(sentinel: Node, items: seq<Node>, lo: nat, hi: nat, k: nat, i: nat)
    requires lo < hi <= |items| && k <= |items| && (k < lo || hi <= k) && i <= |items|
    requires i != Shifted(k, lo, hi) && i != Shifted(k, lo, hi) + hi - lo && i != (if k < lo then hi else lo)
    ensures var all := Spliced(CutOut(items, lo, hi), Shifted(k, lo, hi), items[lo..hi]);
            var was := Origin(lo, hi, k, i);
            && |all| == |items| && 0 <= was <= |items| && was != lo && was != hi && was != k
            && Before(sentinel, all, i) == Before(sentinel, items, was)
                && At(sentinel, all, i) == At(sentinel, items, was)
  {
  }

  /** The six assignments of enet_list_move. */
  method MoveNodes(position: Node, first: Node, last: Node)
    requires first.previous != last && last.next != first && position != first && position.previous != first.previous
    requires position.previous == last ==> position == last.next
    requires position == last.next ==> position.previous == last
    modifies first.previous`next, last.next`previous, first`previous, last`next, position.previous`next,
        position`previous
    ensures first.previous == if position == old(last.next) then old(first.previous) else old(position.previous)
    ensures first.previous.next == first && last.next == position && position.previous == last
    ensures position != old(last.next) ==>
              old(first.previous).next == old(last.next) && old(last.next).previous == old(first.previous)
  {
    first.previous.next := last.next;
    last.next.previous := first.previous;
    first.previous := position.previous;
    last.next := position;
    first.previous.next := first;
    position.previous := last;
  }

  /** enet_list_size */
  method Size(sentinel: Node, ghost items: seq<Node>) returns (size: nat)
    requires Linked(sentinel, items)
    ensures size == |items|
  {
    size := 0;
    assert Joined(Before(sentinel, items, 0), At(sentinel, items, 0));
    var position := sentinel.next;
    while position != sentinel
      invariant size <= |items| && position == At(sentinel, items, size)
      decreases |items| - size
    {
      assert Joined(Before(sentinel, items, size + 1), At(sentinel, items, size + 1));
      size := size + 1;
      position := position.next;
    }
  }
}
