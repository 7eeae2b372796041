/** The binary search trees that compress.c threads through its array of symbols.

    `Tree` is the shape of one context's tree, with the array slot of every node; `Placed` says
    that an array holds it.  `Walk` is what one descent of ENET_CONTEXT_ENCODE writes.
 */
module SymbolTree {
  import opened Bytes
  import opened RangeCoding
  import opened ContextModel

  datatype Symbol = Symbol(
    value: nat, count: nat, under: nat, left: nat, right: nat,
    symbols: nat, escapes: nat, total: nat, parent: nat)

  /** ENET_SYMBOL_CREATE. */
  function NewSymbol(value: nat, count: nat): Symbol {
    Symbol(value, count, count, 0, 0, 0, 0, 0, 0)
  }

  datatype Tree = Leaf | Node(slot: nat, value: byte, count: nat, left: Tree, right: Tree)

  function Sum(t: Tree): nat {
    match t
    case Leaf => 0
    case Node(_, _, c, l, r) => c + Sum(l) + Sum(r)
  }

  /** Search: the count of v, 0 when v has no node. */
  function CountOf(t: Tree, v: byte): nat {
    match t
    case Leaf => 0
    case Node(_, w, c, l, r) => if v < w then CountOf(l, v) else if v > w then CountOf(r, v) else c
  }

  /** Search: the slot of v's node, or the slot a new node will get. */
  function SlotOf(t: Tree, v: byte, free: nat): nat {
    match t
    case Leaf => free
    case Node(i, w, _, l, r) => if v < w then SlotOf(l, v, free) else if v > w then SlotOf(r, v, free) else i
  }

  /** Search: the sum of the counts of all values below v, from counts left of the path. */
  function SumBelow(t: Tree, v: byte): nat {
    match t
    case Leaf => 0
    case Node(_, w, c, l, r) =>
      if v < w then SumBelow(l, v) else if v > w then c + Sum(l) + SumBelow(r, v) else Sum(l)
  }

  /** The tree after value v has been counted up by delta, in a new node if it had none. */
  function Plus(t: Tree, v: byte, delta: nat, free: nat): Tree {
    match t
    case Leaf => Node(free, v, delta, Leaf, Leaf)
    case Node(i, w, c, l, r) =>
      if v < w then Node(i, w, c, Plus(l, v, delta, free), r)
      else if v > w then Node(i, w, c, l, Plus(r, v, delta, free))
      else Node(i, w, c + delta, l, r)
  }

  function Halved(t: Tree): Tree {
    match t
    case Leaf => Leaf
    case Node(i, v, c, l, r) => Node(i, v, c - c / 2, Halved(l), Halved(r))
  }

  // ----- trees as frequency tables -----

  ghost predicate Ordered(t: Tree, lo: nat, hi: nat) {
    match t
    case Leaf => true
    case Node(_, v, c, l, r) => lo <= v < hi && 0 < c && Ordered(l, lo, v) && Ordered(r, v + 1, hi)
  }

  ghost predicate Tabulates(t: Tree, f: Table) {
    forall v: byte :: CountOf(t, v) == f[v]
  }

  lemma {:induction false} BelowFlat(f: Table, lo: nat, v: nat)
    requires lo <= v <= 256 && forall w | lo <= w < v :: f[w] == 0
    ensures Below(f, v) == Below(f, lo)
    decreases v
  {
    if lo < v { BelowFlat(f, lo, v - 1); }
  }

  ghost predicate TabulatesIn(t: Tree, f: Table, lo: nat, hi: nat) {
    forall v: byte | lo <= v < hi :: f[v] == CountOf(t, v)
  }

  /** The tree is a cumulative-frequency index: what a search adds up is the prefix sum. */
  lemma {:induction false} PrefixSums(t: Tree, f: Table, lo: nat, hi: nat)
    requires lo <= hi <= 256 && Ordered(t, lo, hi) && TabulatesIn(t, f, lo, hi)
    ensures Below(f, hi) == Below(f, lo) + Sum(t)
    ensures forall v: byte | lo <= v < hi :: Below(f, v) == Below(f, lo) + SumBelow(t, v)
    decreases t
  {
    match t
    case Leaf =>
      forall v: nat | lo <= v <= hi ensures Below(f, v) == Below(f, lo) { BelowFlat(f, lo, v); }
    case Node(_, w, c, l, r) =>
      PrefixSums(l, f, lo, w);
      PrefixSums(r, f, w + 1, hi);
      assert Below(f, w + 1) == Below(f, w) + f[w];
  }

  lemma {:induction false} PlusCounts(t: Tree, v: byte, delta: nat, free: nat, lo: nat, hi: nat)
    requires Ordered(t, lo, hi) && lo <= v < hi && 0 < delta
    ensures Ordered(Plus(t, v, delta, free), lo, hi)
    ensures forall w: byte :: CountOf(Plus(t, v, delta, free), w) == CountOf(t, w) + if w == v then delta else 0
    decreases t
  {
    if t.Node? {
      if v < t.value { PlusCounts(t.left, v, delta, free, lo, t.value); }
      else if v > t.value { PlusCounts(t.right, v, delta, free, t.value + 1, hi); }
    }
  }

  lemma {:induction false} PlusSum(t: Tree, v: byte, delta: nat, free: nat)
    ensures Sum(Plus(t, v, delta, free)) == Sum(t) + delta
    decreases t
  {
    if t.Node? {
      PlusSum(t.left, v, delta, free);
      PlusSum(t.right, v, delta, free);
    }
  }

  lemma {:induction false} HalvedCounts(t: Tree, lo: nat, hi: nat)
    requires Ordered(t, lo, hi)
    ensures Ordered(Halved(t), lo, hi)
    ensures forall w: byte :: CountOf(Halved(t), w) == CountOf(t, w) - CountOf(t, w) / 2
    ensures Halved(t).Leaf? <==> t.Leaf?
    decreases t
  {
    if t.Node? {
      HalvedCounts(t.left, lo, t.value);
      HalvedCounts(t.right, t.value + 1, hi);
    }
  }

  // ----- trees in the array -----

  /** A forward offset: 0 for no tree, else how far ahead of slot i the tree's root lies. */
  ghost predicate Links(i: nat, offset: nat, t: Tree) {
    match t
    case Leaf => offset == 0
    case Node(j, _, _, _, _) => i < j && offset == j - i
  }

  ghost predicate Placed(s: seq<Symbol>, names: seq<Path>, p: Path, t: Tree, lo: nat, hi: nat) {
    match t
    case Leaf => true
    case Node(i, v, c, l, r) =>
      && i < |names| <= |s| && names[i] == p + [v]
      && lo <= v < hi && 0 < c
      && s[i].value == v && s[i].count == c && s[i].under == c + Sum(l)
      && Links(i, s[i].left, l) && Links(i, s[i].right, r)
      && Placed(s, names, p, l, lo, v) && Placed(s, names, p, r, v + 1, hi)
  }

  /** Whether a name is that of a symbol of context p with a value in [lo, hi). */
  ghost predicate Owned(name: Path, p: Path, lo: nat, hi: nat) {
    |name| == |p| + 1 && name[..|p|] == p && lo <= name[|p|] < hi
  }

  ghost predicate SameNode(a: Symbol, b: Symbol) {
    a.value == b.value && a.count == b.count && a.under == b.under && a.left == b.left && a.right == b.right
  }

  ghost predicate SameContext(a: Symbol, b: Symbol) {
    a.symbols == b.symbols && a.escapes == b.escapes && a.total == b.total && a.parent == b.parent
  }

  lemma {:induction false} PlacedOrdered(s: seq<Symbol>, names: seq<Path>, p: Path, t: Tree, lo: nat, hi: nat)
    requires Placed(s, names, p, t, lo, hi)
    ensures Ordered(t, lo, hi)
    decreases t
  {
    if t.Node? {
      PlacedOrdered(s, names, p, t.left, lo, t.value);
      PlacedOrdered(s, names, p, t.right, t.value + 1, hi);
    }
  }

  /** A tree stays placed while the array changes only outside it. */
  lemma {:induction false} PlacedFrame(
      s: seq<Symbol>, names: seq<Path>, s': seq<Symbol>, names': seq<Path>, p: Path, t: Tree, lo: nat, hi: nat)
    requires Placed(s, names, p, t, lo, hi)
    requires |names| <= |names'| <= |s'| && |names| <= |s|
    requires forall j | 0 <= j < |names| :: names'[j] == names[j]
    requires forall j | 0 <= j < |names| && Owned(names[j], p, lo, hi) :: SameNode(s[j], s'[j])
    ensures Placed(s', names', p, t, lo, hi)
    decreases t
  {
    if t.Node? {
      assert Owned(names[t.slot], p, lo, hi);
      PlacedFrame(s, names, s', names', p, t.left, lo, t.value);
      PlacedFrame(s, names, s', names', p, t.right, t.value + 1, hi);
    }
  }

  lemma {:induction false} SlotNamed(s: seq<Symbol>, names: seq<Path>, p: Path, t: Tree, lo: nat, hi: nat, v: byte)
    requires Placed(s, names, p, t, lo, hi) && CountOf(t, v) > 0
    ensures SlotOf(t, v, |names|) < |names| && names[SlotOf(t, v, |names|)] == p + [v]
    decreases t
  {
    if v < t.value { SlotNamed(s, names, p, t.left, lo, t.value, v); }
    else if v > t.value { SlotNamed(s, names, p, t.right, t.value + 1, hi, v); }
  }

  lemma {:induction false} SlotFresh(t: Tree, lo: nat, hi: nat, v: byte, free: nat)
    requires Ordered(t, lo, hi) && CountOf(t, v) == 0
    ensures SlotOf(t, v, free) == free
    decreases t
  {
    if t.Node? {
      if v < t.value { SlotFresh(t.left, lo, t.value, v, free); }
      else if v > t.value { SlotFresh(t.right, t.value + 1, hi, v, free); }
    }
  }

  // ----- one descent -----

  /** What the loop of ENET_CONTEXT_ENCODE writes from the node at the root of t onwards. */
  ghost function Walk(s: seq<Symbol>, t: Tree, v: byte, delta: nat, free: nat): (r: seq<Symbol>)
    requires free < |s|
    ensures |r| == |s|
    decreases t
  {
    if t.Leaf? || t.slot >= free then s
    else
      var i := t.slot;
      if v < t.value then
        var s1 := s[i := s[i].(under := s[i].under + delta)];
        if t.left.Leaf? then s1[free := NewSymbol(v, delta)][i := s1[i].(left := free - i)]
        else Walk(s1, t.left, v, delta, free)
      else if v > t.value then
        if t.right.Leaf? then s[free := NewSymbol(v, delta)][i := s[i].(right := free - i)]
        else Walk(s, t.right, v, delta, free)
      else s[i := s[i].(under := s[i].under + delta, count := s[i].count + delta)]
  }

  /** The names after value v of context p has been looked up. */
  function Named(names: seq<Path>, p: Path, known: bool, v: byte): seq<Path> {
    if known then names else names + [p + [v]]
  }

  /** What one update may change: nodes of context p in [lo, hi), never their context fields. */
  ghost predicate OnlyTouches(s: seq<Symbol>, s': seq<Symbol>, names: seq<Path>, p: Path, lo: nat, hi: nat)
  {
    && |s| == |s'| && |names| <= |s|
    && forall j | 0 <= j < |names| ::
         SameContext(s[j], s'[j]) && (!Owned(names[j], p, lo, hi) ==> s[j] == s'[j])
  }

  /** s' holds the tree t' where s held one for [lo, hi), with v's node new if v was unknown. */
  ghost predicate Walked(
      s: seq<Symbol>, s': seq<Symbol>, names: seq<Path>, p: Path, t': Tree, lo: nat, hi: nat,
      v: byte, delta: nat, known: bool)
  {
    && |names| < |s|
    && OnlyTouches(s, s', names, p, lo, hi)
    && Placed(s', Named(names, p, known, v), p, t', lo, hi)
    && (!known ==> s'[|names|] == NewSymbol(v, delta))
  }

  lemma NarrowTouches(
      s: seq<Symbol>, s1: seq<Symbol>, s': seq<Symbol>, names: seq<Path>, p: Path, i: nat, v: byte,
      lo: nat, hi: nat, lo': nat, hi': nat)
    requires |s| == |s1| && i < |names| <= |s| && names[i] == p + [v] && lo <= v < hi && lo <= lo' && hi' <= hi
    requires forall j | 0 <= j < |names| && j != i :: s1[j] == s[j]
    requires SameContext(s[i], s1[i]) && OnlyTouches(s1, s', names, p, lo', hi')
    ensures OnlyTouches(s, s', names, p, lo, hi)
  {
    assert Owned(names[i], p, lo, hi);
    forall j | 0 <= j < |names|
      ensures SameContext(s[j], s'[j]) && (!Owned(names[j], p, lo, hi) ==> s[j] == s'[j])
    {
      if !Owned(names[j], p, lo, hi) { assert !Owned(names[j], p, lo', hi'); }
    }
  }

  lemma WalkedLeft(
      s: seq<Symbol>, s': seq<Symbol>, names: seq<Path>, p: Path, t: Tree, lo: nat, hi: nat,
      v: byte, delta: nat, known: bool)
    requires Placed(s, names, p, t, lo, hi) && t.Node? && lo <= v < t.value && |names| < |s|
    requires var s1 := s[t.slot := s[t.slot].(under := s[t.slot].under + delta)];
             Walked(s1, s', names, p, Plus(t.left, v, delta, |names|), lo, t.value, v, delta, known)
    requires t.left.Node?
    ensures Walked(s, s', names, p, Plus(t, v, delta, |names|), lo, hi, v, delta, known)
  {
    var i: nat, w: nat := t.slot, t.value;
    var s1 := s[i := s[i].(under := s[i].under + delta)];
    assert !Owned(names[i], p, lo, w);
    PlusSum(t.left, v, delta, |names|);
    NarrowTouches(s, s1, s', names, p, i, t.value, lo, hi, lo, w);
    PlacedFrame(s, names, s', Named(names, p, known, v), p, t.right, w + 1, hi);
  }

  lemma WalkedRight(
      s: seq<Symbol>, s': seq<Symbol>, names: seq<Path>, p: Path, t: Tree, lo: nat, hi: nat,
      v: byte, delta: nat, known: bool)
    requires Placed(s, names, p, t, lo, hi) && t.Node? && t.value < v < hi && |names| < |s|
    requires Walked(s, s', names, p, Plus(t.right, v, delta, |names|), t.value + 1, hi, v, delta, known)
    requires t.right.Node?
    ensures Walked(s, s', names, p, Plus(t, v, delta, |names|), lo, hi, v, delta, known)
  {
    var i: nat, w: nat := t.slot, t.value;
    assert !Owned(names[i], p, w + 1, hi);
    NarrowTouches(s, s, s', names, p, i, t.value, lo, hi, w + 1, hi);
    PlacedFrame(s, names, s', Named(names, p, known, v), p, t.left, lo, w);
  }

  /** The end of a descent: v's node is created to the left of the node reached. */
  lemma CreatedLeft(s: seq<Symbol>, names: seq<Path>, p: Path, t: Tree, lo: nat, hi: nat, v: byte, delta: nat)
    requires Placed(s, names, p, t, lo, hi) && t.Node? && lo <= v < hi && 0 < delta && |names| < |s|
    requires v < t.value && t.left.Leaf?
    ensures Walked(s, Walk(s, t, v, delta, |names|), names, p, Plus(t, v, delta, |names|), lo, hi, v, delta, false)
  {
    var i: nat, w: nat := t.slot, t.value;
    var s', names' := Walk(s, t, v, delta, |names|), Named(names, p, false, v);
    assert forall j | 0 <= j < |names| && j != i :: s'[j] == s[j];
    assert Owned(names[i], p, lo, hi) && !Owned(names[i], p, lo, w) && !Owned(names[i], p, w + 1, hi);
    PlacedFrame(s, names, s', names', p, t.left, lo, w);
    PlacedFrame(s, names, s', names', p, t.right, w + 1, hi);
  }

  lemma CreatedRight(s: seq<Symbol>, names: seq<Path>, p: Path, t: Tree, lo: nat, hi: nat, v: byte, delta: nat)
    requires Placed(s, names, p, t, lo, hi) && t.Node? && lo <= v < hi && 0 < delta && |names| < |s|
    requires v > t.value && t.right.Leaf?
    ensures Walked(s, Walk(s, t, v, delta, |names|), names, p, Plus(t, v, delta, |names|), lo, hi, v, delta, false)
  {
    var i: nat, w: nat := t.slot, t.value;
    var s', names' := Walk(s, t, v, delta, |names|), Named(names, p, false, v);
    assert forall j | 0 <= j < |names| && j != i :: s'[j] == s[j];
    assert Owned(names[i], p, lo, hi) && !Owned(names[i], p, lo, w) && !Owned(names[i], p, w + 1, hi);
    PlacedFrame(s, names, s', names', p, t.left, lo, w);
    PlacedFrame(s, names, s', names', p, t.right, w + 1, hi);
  }

  lemma FoundHere(s: seq<Symbol>, names: seq<Path>, p: Path, t: Tree, lo: nat, hi: nat, v: byte, delta: nat)
    requires Placed(s, names, p, t, lo, hi) && t.Node? && lo <= v < hi && 0 < delta && |names| < |s|
    requires v == t.value
    ensures Walked(s, Walk(s, t, v, delta, |names|), names, p, Plus(t, v, delta, |names|), lo, hi, v, delta, true)
  {
    var i: nat, w: nat := t.slot, t.value;
    var s', names' := Walk(s, t, v, delta, |names|), Named(names, p, true, v);
    assert forall j | 0 <= j < |names| && j != i :: s'[j] == s[j];
    assert Owned(names[i], p, lo, hi) && !Owned(names[i], p, lo, w) && !Owned(names[i], p, w + 1, hi);
    PlacedFrame(s, names, s', names', p, t.left, lo, w);
    PlacedFrame(s, names, s', names', p, t.right, w + 1, hi);
  }

  /** The end of a descent: v's node is created or found here. */
  lemma WalkedHere(s: seq<Symbol>, names: seq<Path>, p: Path, t: Tree, lo: nat, hi: nat, v: byte, delta: nat)
    requires Placed(s, names, p, t, lo, hi) && t.Node? && lo <= v < hi && 0 < delta && |names| < |s|
    requires (v < t.value ==> t.left.Leaf?) && (v > t.value ==> t.right.Leaf?)
    ensures Walked(s, Walk(s, t, v, delta, |names|), names, p, Plus(t, v, delta, |names|), lo, hi, v, delta,
                   v == t.value)
  {
    hide Walked, Walk, Plus, Placed;
    if v < t.value {
      CreatedLeft(s, names, p, t, lo, hi, v, delta);
    } else if v > t.value {
      CreatedRight(s, names, p, t, lo, hi, v, delta);
    } else {
      FoundHere(s, names, p, t, lo, hi, v, delta);
    }
  }

  /** A descent turns the tree t into Plus(t, v), creating v's node in the fresh slot if v has
      none, and touches nothing else. */
  lemma {:induction false} WalkPlaces(
      s: seq<Symbol>, names: seq<Path>, p: Path, t: Tree, lo: nat, hi: nat, v: byte, delta: nat)
    requires Placed(s, names, p, t, lo, hi) && t.Node? && lo <= v < hi && 0 < delta && |names| < |s|
    ensures Walked(s, Walk(s, t, v, delta, |names|), names, p, Plus(t, v, delta, |names|), lo, hi, v, delta,
                   CountOf(t, v) > 0)
    decreases t
  {
    var n: nat, i: nat, w: nat := |names|, t.slot, t.value;
    var s', known := Walk(s, t, v, delta, n), CountOf(t, v) > 0;
    if v < w && t.left.Node? {
      var s1 := s[i := s[i].(under := s[i].under + delta)];
      assert !Owned(names[i], p, lo, w);
      PlacedFrame(s, names, s1, names, p, t.left, lo, w);
      WalkPlaces(s1, names, p, t.left, lo, w, v, delta);
      WalkedLeft(s, s', names, p, t, lo, hi, v, delta, known);
    } else if v > w && t.right.Node? {
      WalkPlaces(s, names, p, t.right, w + 1, hi, v, delta);
      WalkedRight(s, s', names, p, t, lo, hi, v, delta, known);
    } else {
      WalkedHere(s, names, p, t, lo, hi, v, delta);
    }
  }

  /** What the array holds at the root of a placed tree. */
  lemma NodeAt(s: seq<Symbol>, names: seq<Path>, p: Path, t: Tree, lo: nat, hi: nat)
    requires Placed(s, names, p, t, lo, hi) && t.Node?
    ensures t.slot < |names| <= |s| && lo <= t.value < hi && 0 < t.count
    ensures var a := s[t.slot];
            && a.value == t.value && a.count == t.count && a.under == t.count + Sum(t.left)
            && Links(t.slot, a.left, t.left) && Links(t.slot, a.right, t.right)
    ensures Placed(s, names, p, t.left, lo, t.value) && Placed(s, names, p, t.right, t.value + 1, hi)
  {
  }

  /** One turn of the descent. */
  lemma WalkTurn(s: seq<Symbol>, names: seq<Path>, p: Path, t: Tree, lo: nat, hi: nat, v: byte, delta: nat)
    requires Placed(s, names, p, t, lo, hi) && t.Node? && |names| < |s|
    ensures var i, n, w := t.slot, |names|, Walk(s, t, v, delta, |names|);
            && i < n
            && (v < t.value ==>
                  var s1 := s[i := s[i].(under := s[i].under + delta)];
                  && CountOf(t, v) == CountOf(t.left, v) && SlotOf(t, v, n) == SlotOf(t.left, v, n)
                  && SumBelow(t, v) == SumBelow(t.left, v)
                  && Placed(s1, names, p, t.left, lo, t.value)
                  && (t.left.Node? ==> w == Walk(s1, t.left, v, delta, n))
                  && (t.left.Leaf? ==>
                        CountOf(t, v) == 0 && SlotOf(t, v, n) == n && SumBelow(t, v) == 0
                        && w == s1[n := NewSymbol(v, delta)][i := s1[i].(left := n - i)]))
            && (v > t.value ==>
                  && CountOf(t, v) == CountOf(t.right, v) && SlotOf(t, v, n) == SlotOf(t.right, v, n)
                  && SumBelow(t, v) == s[i].under + SumBelow(t.right, v)
                  && (t.right.Node? ==> w == Walk(s, t.right, v, delta, n))
                  && (t.right.Leaf? ==>
                        CountOf(t, v) == 0 && SlotOf(t, v, n) == n && SumBelow(t, v) == s[i].under
                        && w == s[n := NewSymbol(v, delta)][i := s[i].(right := n - i)]))
            && (v == t.value ==>
                  && CountOf(t, v) == s[i].count && SlotOf(t, v, n) == i
                  && SumBelow(t, v) == s[i].under - s[i].count
                  && w == s[i := s[i].(under := s[i].under + delta, count := s[i].count + delta)])
  {
    if v < t.value {
      assert !Owned(names[t.slot], p, lo, t.value);
      PlacedFrame(s, names, s[t.slot := s[t.slot].(under := s[t.slot].under + delta)], names, p, t.left, lo, t.value);
    }
  }

  // ----- rescaling -----

  /** A node with its own count halved; its left sum still has to be added. */
  function HalvedNode(a: Symbol): Symbol {
    var c := a.count - a.count / 2;
    a.(count := c, under := c)
  }

  /** What enet_symbol_rescale writes, started at the root of t. */
  ghost function Rescaled(s: seq<Symbol>, t: Tree): (r: seq<Symbol>)
    ensures |r| == |s|
    decreases t
  {
    if t.Leaf? || t.slot >= |s| then s
    else Rescaled(RescaledLeft(s, t), t.right)
  }

  /** The same up to where the loop moves on to the right child. */
  ghost function RescaledLeft(s: seq<Symbol>, t: Tree): (r: seq<Symbol>)
    requires t.Node? && t.slot < |s|
    ensures |r| == |s|
    decreases t, 0
  {
    var i := t.slot;
    var s1 := Rescaled(s[i := HalvedNode(s[i])], t.left);
    s1[i := s1[i].(under := s1[i].under + Sum(Halved(t.left)))]
  }

  lemma {:induction false} RescaledPlaces(s: seq<Symbol>, names: seq<Path>, p: Path, t: Tree, lo: nat, hi: nat)
    requires Placed(s, names, p, t, lo, hi) && |names| <= |s|
    ensures Placed(Rescaled(s, t), names, p, Halved(t), lo, hi)
    ensures OnlyTouches(s, Rescaled(s, t), names, p, lo, hi)
    decreases t
  {
    if t.Node? {
      var i: nat, w: nat := t.slot, t.value;
      var s0 := s[i := HalvedNode(s[i])];
      assert !Owned(names[i], p, lo, w);
      PlacedFrame(s, names, s0, names, p, t.left, lo, w);
      RescaledPlaces(s0, names, p, t.left, lo, w);
      var s2 := RescaledLeft(s, t);
      RescaledLeftPlaces(s, names, p, t, lo, hi);
      RescaledPlaces(s2, names, p, t.right, w + 1, hi);
      RescaledNode(s, s2, Rescaled(s, t), names, p, t, lo, hi);
    }
  }

  lemma RescaledLeftPlaces(s: seq<Symbol>, names: seq<Path>, p: Path, t: Tree, lo: nat, hi: nat)
    requires Placed(s, names, p, t, lo, hi) && t.Node? && |names| <= |s|
    requires var s0 := s[t.slot := HalvedNode(s[t.slot])];
             && Placed(Rescaled(s0, t.left), names, p, Halved(t.left), lo, t.value)
             && OnlyTouches(s0, Rescaled(s0, t.left), names, p, lo, t.value)
    ensures var s2 := RescaledLeft(s, t);
            && Placed(s2, names, p, Halved(t.left), lo, t.value) && Placed(s2, names, p, t.right, t.value + 1, hi)
            && OnlyTouches(s, s2, names, p, lo, hi)
            && s2[t.slot] == HalvedNode(s[t.slot]).(under := Sum(Halved(t.left)) + t.count - t.count / 2)
  {
    var i: nat, w: nat := t.slot, t.value;
    var s0, s2 := s[i := HalvedNode(s[i])], RescaledLeft(s, t);
    var s1 := Rescaled(s0, t.left);
    assert Owned(names[i], p, lo, hi) && !Owned(names[i], p, lo, w) && !Owned(names[i], p, w + 1, hi);
    assert s1[i] == s0[i];
    PlacedFrame(s1, names, s2, names, p, Halved(t.left), lo, w);
    NarrowTouches(s, s0, s1, names, p, i, t.value, lo, hi, lo, w);
    PlacedFrame(s, names, s2, names, p, t.right, w + 1, hi);
  }

  lemma RescaledNode(
      s: seq<Symbol>, s2: seq<Symbol>, s': seq<Symbol>, names: seq<Path>, p: Path, t: Tree, lo: nat, hi: nat)
    requires Placed(s, names, p, t, lo, hi) && t.Node? && |names| <= |s|
    requires OnlyTouches(s, s2, names, p, lo, hi) && Placed(s2, names, p, Halved(t.left), lo, t.value)
    requires s2[t.slot] == HalvedNode(s[t.slot]).(under := Sum(Halved(t.left)) + t.count - t.count / 2)
    requires OnlyTouches(s2, s', names, p, t.value + 1, hi) && Placed(s', names, p, Halved(t.right), t.value + 1, hi)
    ensures Placed(s', names, p, Halved(t), lo, hi) && OnlyTouches(s, s', names, p, lo, hi)
  {
    var i: nat, w: nat := t.slot, t.value;
    assert !Owned(names[i], p, w + 1, hi);
    PlacedFrame(s2, names, s', names, p, Halved(t.left), lo, w);
    NarrowTouches(s2, s2, s', names, p, i, t.value, lo, hi, w + 1, hi);
  }

  /** One turn of the rescaling loop: both subtrees are in place when it comes to them. */
  lemma RescaleTurn(s: seq<Symbol>, names: seq<Path>, p: Path, t: Tree, lo: nat, hi: nat)
    requires Placed(s, names, p, t, lo, hi) && t.Node? && |names| <= |s|
    ensures Placed(s[t.slot := HalvedNode(s[t.slot])], names, p, t.left, lo, t.value)
    ensures Placed(RescaledLeft(s, t), names, p, t.right, t.value + 1, hi)
    ensures RescaledLeft(s, t)[t.slot] == HalvedNode(s[t.slot]).(under := Sum(Halved(t.left)) + t.count - t.count / 2)
  {
    var s1 := s[t.slot := HalvedNode(s[t.slot])];
    assert !Owned(names[t.slot], p, lo, t.value);
    PlacedFrame(s, names, s1, names, p, t.left, lo, t.value);
    RescaledPlaces(s1, names, p, t.left, lo, t.value);
    RescaledLeftPlaces(s, names, p, t, lo, hi);
  }

  /** And what the turn does to the symbols and adds to the total. */
  lemma RescaleTurnIs(s: seq<Symbol>, names: seq<Path>, p: Path, t: Tree, lo: nat, hi: nat)
    requires Placed(s, names, p, t, lo, hi) && t.Node? && |names| <= |s|
    ensures |RescaledLeft(s, t)| == |s|
    ensures Rescaled(s, t) == Rescaled(RescaledLeft(s, t), t.right)
    ensures Sum(Halved(t)) == t.count - t.count / 2 + Sum(Halved(t.left)) + Sum(Halved(t.right))
    ensures t.left.Leaf? ==> RescaledLeft(s, t) == s[t.slot := HalvedNode(s[t.slot])]
    ensures t.left.Node? ==>
              var a := Rescaled(s[t.slot := HalvedNode(s[t.slot])], t.left);
              && |a| == |s|
              && RescaledLeft(s, t) == a[t.slot := a[t.slot].(under := a[t.slot].under + Sum(Halved(t.left)))]
    ensures t.right.Leaf? ==> Rescaled(s, t) == RescaledLeft(s, t) && Sum(Halved(t.right)) == 0
  {
  }

  // ----- decoding -----

  lemma EmptyRange(f: Table, minimum: nat, lo: nat, v: nat)
    requires lo <= v <= 256 && forall w | lo <= w < v :: f[w] == 0
    ensures Start(f, minimum, v) == Start(f, minimum, lo) + minimum * (v - lo)
  {
    BelowFlat(f, lo, v);
    assert minimum * v == minimum * lo + minimum * (v - lo);
  }

  /** A node's numbers bound the code range of its value: `after` is where it ends. */
  lemma NodeRange(t: Tree, f: Table, minimum: nat, lo: nat, hi: nat)
    requires t.Node? && Ordered(t, lo, hi) && hi <= 256 && TabulatesIn(t, f, lo, hi)
    ensures TabulatesIn(t.left, f, lo, t.value) && TabulatesIn(t.right, f, t.value + 1, hi)
    ensures f[t.value] == t.count
    ensures Below(f, t.value + 1) == Below(f, lo) + t.count + Sum(t.left)
    ensures Start(f, minimum, t.value + 1) == Below(f, lo) + (t.count + Sum(t.left)) + (t.value + 1) * minimum
    ensures Start(f, minimum, t.value) == Start(f, minimum, t.value + 1) - (t.count + minimum)
  {
    PrefixSums(t.left, f, lo, t.value);
    StartNext(f, minimum, t.value);
  }

  /** Comparing a code with a node's range is comparing its value with the node's value; where a
      subtree is missing, the codes on that side belong to values that were never counted. */
  lemma NodeSide(t: Tree, f: Table, minimum: nat, lo: nat, hi: nat, code: nat, v: byte)
    requires t.Node? && Ordered(t, lo, hi) && hi <= 256 && TabulatesIn(t, f, lo, hi)
    requires lo <= v < hi && Start(f, minimum, v) <= code < Start(f, minimum, v + 1)
    ensures code >= Start(f, minimum, t.value + 1) <==> v > t.value
    ensures code < Start(f, minimum, t.value) <==> v < t.value
    ensures v > t.value && t.right.Leaf? ==>
              f[v] == 0 && Start(f, minimum, v) == Start(f, minimum, t.value + 1) + minimum * (v - t.value - 1)
    ensures v < t.value && t.left.Leaf? ==>
              f[v] == 0 && Start(f, minimum, t.value) == Start(f, minimum, v) + minimum * (t.value - v)
    ensures f[v] == 0 ==> minimum > 0 && Start(f, minimum, v + 1) == Start(f, minimum, v) + minimum
  {
    SideOf(f, minimum, t.value, code, v);
    StartNext(f, minimum, v);
    if v > t.value && t.right.Leaf? { NothingAbove(t, f, lo, hi); }
    if v < t.value && t.left.Leaf? { NothingBelow(t, f, lo, hi); }
    hide Start, Ordered, TabulatesIn;
    if v > t.value && t.right.Leaf? { EmptyRange(f, minimum, t.value + 1, v); }
    if v < t.value && t.left.Leaf? { EmptyRange(f, minimum, v, t.value); }
  }

  /** Which side of value w the code lies on. */
  lemma SideOf(f: Table, minimum: nat, w: byte, code: nat, v: byte)
    requires Start(f, minimum, v) <= code < Start(f, minimum, v + 1)
    ensures code >= Start(f, minimum, w + 1) <==> v > w
    ensures code < Start(f, minimum, w) <==> v < w
  {
    hide Start;
    if v > w {
      StartMonotone(f, minimum, w + 1, v);
      StartMonotone(f, minimum, w, v);
    } else if v < w {
      StartMonotone(f, minimum, v + 1, w);
      StartMonotone(f, minimum, v + 1, w + 1);
    } else {
      StartMonotone(f, minimum, v, v + 1);
    }
  }

  lemma NothingAbove(t: Tree, f: Table, lo: nat, hi: nat)
    requires t.Node? && Ordered(t, lo, hi) && hi <= 256 && TabulatesIn(t, f, lo, hi) && t.right.Leaf?
    ensures forall w: byte | t.value < w < hi :: f[w] == 0
  {
    forall w: byte | t.value < w < hi ensures f[w] == 0 { assert f[w] == CountOf(t, w); }
  }

  lemma NothingBelow(t: Tree, f: Table, lo: nat, hi: nat)
    requires t.Node? && Ordered(t, lo, hi) && hi <= 256 && TabulatesIn(t, f, lo, hi) && t.left.Leaf?
    ensures forall w: byte | lo <= w < t.value :: f[w] == 0
  {
    forall w: byte | lo <= w < t.value ensures f[w] == 0 { assert f[w] == CountOf(t, w); }
  }

  /** One turn of ENET_CONTEXT_DECODE for a code that stands for v: which way it goes, and, where it
      creates v's node, that its arithmetic gives v and the start of v's range. */
  lemma CodeTurn(t: Tree, f: Table, minimum: nat, lo: nat, hi: nat, code: nat, v: byte)
    requires t.Node? && Ordered(t, lo, hi) && hi <= 256 && TabulatesIn(t, f, lo, hi) && minimum <= 1
    requires lo <= v < hi && Start(f, minimum, v) <= code < Start(f, minimum, v + 1)
    ensures var after, before := Below(f, lo) + (t.count + Sum(t.left)) + (t.value + 1) * minimum, t.count + minimum;
            && before <= after
            && (code >= after <==> v > t.value) && (code < after - before <==> v < t.value)
            && (v == t.value ==> after - before == Start(f, minimum, v))
            && (v > t.value && t.right.Leaf? ==>
                  && minimum == 1
                  && t.value + 1 + (code - after) / minimum == v
                  && code - (code - after) % minimum == Start(f, minimum, v))
            && (v < t.value && t.left.Leaf? ==>
                  && minimum == 1
                  && t.value - 1 - (after - before - code - 1) / minimum == v
                  && code - (after - before - code - 1) % minimum == Start(f, minimum, v))
  {
    NodeRange(t, f, minimum, lo, hi);
    NodeSide(t, f, minimum, lo, hi, code, v);
    var after, low := Start(f, minimum, t.value + 1), Start(f, minimum, t.value);
    if v > t.value && t.right.Leaf? {
    } else if v < t.value && t.left.Leaf? {
    }
  }

  /** A code beyond all ranges always goes right. */
  lemma CodeBeyond(t: Tree, f: Table, minimum: nat, lo: nat, code: nat)
    requires t.Node? && Ordered(t, lo, 256) && TabulatesIn(t, f, lo, 256)
    requires Start(f, minimum, 256) <= code
    ensures code >= Below(f, lo) + (t.count + Sum(t.left)) + (t.value + 1) * minimum
  {
    NodeRange(t, f, minimum, lo, 256);
    StartMonotone(f, minimum, t.value + 1, 256);
  }

  lemma NodeBelow(t: Tree, f: Table, lo: nat, hi: nat)
    requires t.Node? && Ordered(t, lo, hi) && hi <= 256 && TabulatesIn(t, f, lo, hi)
    ensures TabulatesIn(t.left, f, lo, t.value) && TabulatesIn(t.right, f, t.value + 1, hi)
    ensures Below(f, t.value + 1) == Below(f, lo) + (t.count + Sum(t.left))
  {
    NodeRange(t, f, 0, lo, hi);
  }

  /** The search for a code has come down to t: nothing outside it can hold the code, and what is
      left to write is what remains of the descent for v. */
  ghost predicate Searching(
      s: seq<Symbol>, names: seq<Path>, p: Path, t: Tree, lo: nat, hi: nat, f: Table, minimum: nat, code: nat, v: byte)
  {
    && t.Node? && lo <= hi <= 256 && minimum <= 1 && |names| < |s|
    && Placed(s, names, p, t, lo, hi) && TabulatesIn(t, f, lo, hi)
    && (if code < Start(f, minimum, 256)
        then lo <= v < hi && Start(f, minimum, v) <= code < Start(f, minimum, v + 1)
        else hi == 256)
  }

  function After(f: Table, minimum: nat, lo: nat, a: Symbol): nat
    requires lo <= 256
  {
    Below(f, lo) + a.under + (a.value + 1) * minimum
  }

  lemma SearchRight(
      s: seq<Symbol>, names: seq<Path>, p: Path, t: Tree, lo: nat, hi: nat, f: Table, minimum: nat, code: nat,
      v: byte, delta: nat)
    requires Searching(s, names, p, t, lo, hi, f, minimum, code, v)
    requires t.slot < |s| && code >= After(f, minimum, lo, s[t.slot]) && s[t.slot].right != 0
    ensures Searching(s, names, p, t.right, t.value + 1, hi, f, minimum, code, v)
    ensures t.right.slot == t.slot + s[t.slot].right
    ensures Below(f, t.value + 1) == Below(f, lo) + s[t.slot].under
    ensures code < Start(f, minimum, 256) ==>
              && Walk(s, t, v, delta, |names|) == Walk(s, t.right, v, delta, |names|)
              && CountOf(t, v) == CountOf(t.right, v) && SlotOf(t, v, |names|) == SlotOf(t.right, v, |names|)
  {
    hide Walk, CountOf, SlotOf, Start;
    NodeAt(s, names, p, t, lo, hi);
    PlacedOrdered(s, names, p, t, lo, hi);
    NodeBelow(t, f, lo, hi);
    if code < Start(f, minimum, 256) {
      WalkTurn(s, names, p, t, lo, hi, v, delta);
      CodeTurn(t, f, minimum, lo, hi, code, v);
    }
  }

  lemma SearchLeft(
      s: seq<Symbol>, names: seq<Path>, p: Path, t: Tree, lo: nat, hi: nat, f: Table, minimum: nat, code: nat,
      v: byte, delta: nat)
    requires Searching(s, names, p, t, lo, hi, f, minimum, code, v)
    requires t.slot < |s| && code < After(f, minimum, lo, s[t.slot]) - (s[t.slot].count + minimum)
    requires s[t.slot].left != 0
    ensures var s1 := s[t.slot := s[t.slot].(under := s[t.slot].under + delta)];
            && Searching(s1, names, p, t.left, lo, t.value, f, minimum, code, v)
            && t.left.slot == t.slot + s1[t.slot].left
            && code < Start(f, minimum, 256)
            && Walk(s, t, v, delta, |names|) == Walk(s1, t.left, v, delta, |names|)
            && CountOf(t, v) == CountOf(t.left, v) && SlotOf(t, v, |names|) == SlotOf(t.left, v, |names|)
  {
    hide Walk, CountOf, SlotOf, Start;
    NodeAt(s, names, p, t, lo, hi);
    PlacedOrdered(s, names, p, t, lo, hi);
    NodeBelow(t, f, lo, hi);
    if code < Start(f, minimum, 256) {
      WalkTurn(s, names, p, t, lo, hi, v, delta);
      CodeTurn(t, f, minimum, lo, hi, code, v);
    } else {
      CodeBeyond(t, f, minimum, lo, code);
    }
  }

  lemma HalvedLinks(a: Symbol)
    ensures HalvedNode(a).left == a.left && HalvedNode(a).right == a.right
  {
  }
}
