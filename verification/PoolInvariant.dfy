/** When an array of symbols holds the model: every slot is a named context with its own tree. */
module PoolInvariant {
  import opened Bytes
  import opened RangeCoding
  import opened ContextModel
  import opened SymbolTree

  /** The slots in use have distinct names and each one's children form a search tree. */
  ghost predicate Shaped(s: seq<Symbol>, names: seq<Path>, trees: seq<Tree>) {
    && 0 < |names| == |trees| <= |s|
    && names[0] == []
    && (forall j | 0 <= j < |names| :: |names[j]| <= ORDER + 1)
    && Distinct(names)
    && (forall k | 0 <= k < |names| :: Planted(s, names, trees, k))
  }

  ghost predicate Distinct(names: seq<Path>) {
    forall j, k | 0 <= j < k < |names| :: Different(names, j, k)
  }

  ghost predicate Different(names: seq<Path>, j: nat, k: nat)
    requires j < |names| && k < |names|
  {
    names[j] != names[k]
  }

  lemma Same(names: seq<Path>, j: nat, k: nat)
    requires Distinct(names) && j < |names| && k < |names| && names[j] == names[k]
    ensures j == k
  {
    assert j < k ==> Different(names, j, k);
    assert k < j ==> Different(names, k, j);
  }

  ghost predicate Planted(s: seq<Symbol>, names: seq<Path>, trees: seq<Tree>, k: nat)
    requires k < |names| <= |s| && |names| == |trees|
  {
    Placed(s, names, names[k], trees[k], 0, 256) && Links(k, s[k].symbols, trees[k])
  }

  /** A symbol is in the tree of the context its name says, and that context is there. */
  ghost predicate Complete(names: seq<Path>, trees: seq<Tree>) {
    && |names| == |trees|
    && (forall j | 0 <= j < |names| :: HasPrefix(names, j))
    && forall j, k | 0 <= j < |names| && 0 <= k < |names| :: Listed(names, trees, j, k)
  }

  ghost predicate HasPrefix(names: seq<Path>, j: nat)
    requires j < |names|
  {
    names[j] != [] ==> names[j][..|names[j]| - 1] in names
  }

  ghost predicate Listed(names: seq<Path>, trees: seq<Tree>, j: nat, k: nat)
    requires j < |names| == |trees| && k < |names|
  {
    Owned(names[j], names[k], 0, 256) ==> CountOf(trees[k], names[j][|names[k]|]) > 0
  }

  /** Parent pointers drop the oldest byte; `pending` are slots whose pointer is still to be set. */
  ghost predicate Linked(s: seq<Symbol>, names: seq<Path>, pending: set<nat>) {
    && |names| <= |s|
    && forall j | 0 <= j < |names| && j !in pending :: HasParent(s, names, j)
  }

  ghost predicate HasParent(s: seq<Symbol>, names: seq<Path>, j: nat)
    requires j < |names| <= |s|
  {
    names[j] != [] ==> s[j].parent < |names| && names[s[j].parent] == names[j][1..]
  }

  /** Slot k carries this table, escape count and total. */
  ghost predicate Carries(s: seq<Symbol>, trees: seq<Tree>, k: nat, f: Table, escapes: nat, total: nat)
    requires k < |trees| <= |s|
  {
    s[k].escapes == escapes && s[k].total == total && Tabulates(trees[k], f)
  }

  ghost predicate CarriesCtx(s: seq<Symbol>, names: seq<Path>, trees: seq<Tree>, ctxs: map<Path, Ctx>, k: nat)
    requires k < |names| == |trees| <= |s|
  {
    var c := Get(ctxs, names[k]);
    Carries(s, trees, k, c.freq, c.escapes, Total(names[k], c))
  }

  /** Every slot but `skip` carries its context of the model. */
  ghost predicate Faithful(s: seq<Symbol>, names: seq<Path>, trees: seq<Tree>, ctxs: map<Path, Ctx>, skip: int) {
    && |names| == |trees| <= |s|
    && (forall k | 0 <= k < |names| && k != skip :: CarriesCtx(s, names, trees, ctxs, k))
    && (forall q | q in ctxs :: q in names)
  }

  // ----- looking a value up and counting it -----

  /** What ENET_CONTEXT_ENCODE writes for value v of the context in slot k. */
  ghost function EncodeEffect(s: seq<Symbol>, t: Tree, k: nat, v: byte, delta: nat, free: nat): (r: seq<Symbol>)
    requires k < free < |s|
    ensures |r| == |s|
  {
    if t.Leaf? then s[free := NewSymbol(v, delta)][k := s[k].(symbols := free - k)]
    else Walk(s, t, v, delta, free)
  }

  ghost function Grown(trees: seq<Tree>, k: nat, v: byte, delta: nat): seq<Tree>
    requires k < |trees|
  {
    var known := CountOf(trees[k], v) > 0;
    trees[k := Plus(trees[k], v, delta, |trees|)] + if known then [] else [Leaf]
  }

  /** What an update of context k leaves alone. */
  ghost predicate Elsewhere(s: seq<Symbol>, s': seq<Symbol>, names: seq<Path>, p: Path, k: nat) {
    && |s| == |s'| && |names| <= |s| && k < |names|
    && forall j | 0 <= j < |names| ::
         && s[j].escapes == s'[j].escapes && s[j].total == s'[j].total && s[j].parent == s'[j].parent
         && (j != k ==> s[j].symbols == s'[j].symbols)
         && (!Owned(names[j], p, 0, 256) ==> SameNode(s[j], s'[j]))
  }

  lemma EncodePlaces(s: seq<Symbol>, names: seq<Path>, t: Tree, k: nat, v: byte, delta: nat)
    requires k < |names| < |s| && 0 < delta
    requires Placed(s, names, names[k], t, 0, 256) && Links(k, s[k].symbols, t)
    ensures var s' := EncodeEffect(s, t, k, v, delta, |names|);
            var known, t' := CountOf(t, v) > 0, Plus(t, v, delta, |names|);
            && Placed(s', Named(names, names[k], known, v), names[k], t', 0, 256)
            && Links(k, s'[k].symbols, t')
            && Elsewhere(s, s', names, names[k], k)
            && (!known ==> s'[|names|] == NewSymbol(v, delta))
  {
    if t.Node? {
      WalkPlaces(s, names, names[k], t, 0, 256, v, delta);
      assert OnlyTouches(s, EncodeEffect(s, t, k, v, delta, |names|), names, names[k], 0, 256);
    }
  }

  lemma OneOwner(name: Path, p: Path, q: Path)
    requires Owned(name, p, 0, 256) && Owned(name, q, 0, 256)
    ensures p == q
  {
  }

  lemma PlantedElsewhere(
      s: seq<Symbol>, s': seq<Symbol>, names: seq<Path>, names': seq<Path>, trees: seq<Tree>, trees': seq<Tree>,
          k: nat, j: nat)
    requires Shaped(s, names, trees) && k < |names| && j < |names| && j != k
    requires Elsewhere(s, s', names, names[k], k)
    requires |names| <= |names'| == |trees'| <= |s'| && trees'[j] == trees[j]
    requires forall i | 0 <= i < |names| :: names'[i] == names[i]
    ensures Planted(s', names', trees', j)
  {
    assert Planted(s, names, trees, j);
    if names[j] == names[k] { Same(names, j, k); }
    forall i | 0 <= i < |names| && Owned(names[i], names[j], 0, 256) ensures SameNode(s[i], s'[i]) {
      if Owned(names[i], names[k], 0, 256) { OneOwner(names[i], names[j], names[k]); }
    }
    PlacedFrame(s, names, s', names', names[j], trees[j], 0, 256);
  }

  lemma PlantedHere(s: seq<Symbol>, names: seq<Path>, trees: seq<Tree>, k: nat, v: byte, delta: nat)
    requires k < |names| == |trees| < |s| && 0 < delta && Planted(s, names, trees, k)
    ensures var s' := EncodeEffect(s, trees[k], k, v, delta, |names|);
            var known := CountOf(trees[k], v) > 0;
            var names', trees' := Named(names, names[k], known, v), Grown(trees, k, v, delta);
            && |names'| == |trees'| <= |s'| && Planted(s', names', trees', k)
            && (!known ==> Planted(s', names', trees', |names|))
            && Elsewhere(s, s', names, names[k], k)
  {
    EncodePlaces(s, names, trees[k], k, v, delta);
  }

  lemma EncodeShaped(s: seq<Symbol>, names: seq<Path>, trees: seq<Tree>, k: nat, v: byte, delta: nat)
    requires Shaped(s, names, trees) && Complete(names, trees)
    requires k < |names| < |s| && |names[k]| <= ORDER && 0 < delta
    ensures var s' := EncodeEffect(s, trees[k], k, v, delta, |names|);
            var names' := Named(names, names[k], CountOf(trees[k], v) > 0, v);
            && Shaped(s', names', Grown(trees, k, v, delta))
            && Elsewhere(s, s', names, names[k], k)
  {
    assert Planted(s, names, trees, k);
    PlantedHere(s, names, trees, k, v, delta);
    var p, n, known := names[k], |names|, CountOf(trees[k], v) > 0;
    var s' := EncodeEffect(s, trees[k], k, v, delta, n);
    var names', trees' := Named(names, p, known, v), Grown(trees, k, v, delta);
    forall j | 0 <= j < |names'| ensures Planted(s', names', trees', j) {
      if j < n && j != k { PlantedElsewhere(s, s', names, names', trees, trees', k, j); }
    }
    if !known { Unnamed(names, trees, k, v); }
    forall i, j | 0 <= i < j < |names'| ensures Different(names', i, j) {
      if j < n { assert Different(names, i, j); }
    }
  }

  /** A name that is not there has no children there either. */
  lemma NoOrphans(names: seq<Path>, trees: seq<Tree>, q: Path, j: nat)
    requires Complete(names, trees) && j < |names| && Owned(names[j], q, 0, 256)
    ensures q in names
  {
    assert HasPrefix(names, j) && names[j][..|names[j]| - 1] == q;
  }

  lemma Unnamed(names: seq<Path>, trees: seq<Tree>, k: nat, v: byte)
    requires Complete(names, trees) && k < |names| && CountOf(trees[k], v) == 0
    ensures names[k] + [v] !in names
  {
    if names[k] + [v] in names {
      var m :| 0 <= m < |names| && names[m] == names[k] + [v];
      assert Listed(names, trees, m, k) && Owned(names[m], names[k], 0, 256);
    }
  }

  lemma EncodeComplete(names: seq<Path>, trees: seq<Tree>, k: nat, v: byte, delta: nat)
    requires Complete(names, trees) && Distinct(names) && k < |names| && 0 < delta && Ordered(trees[k], 0, 256)
    ensures Complete(Named(names, names[k], CountOf(trees[k], v) > 0, v), Grown(trees, k, v, delta))
  {
    var p, n, known := names[k], |names|, CountOf(trees[k], v) > 0;
    var names', trees' := Named(names, p, known, v), Grown(trees, k, v, delta);
    PlusCounts(trees[k], v, delta, n, 0, 256);
    if !known { Unnamed(names, trees, k, v); }
    forall j | 0 <= j < |names'| ensures HasPrefix(names', j) {
      if j == n { assert names'[j][..|names'[j]| - 1] == names'[k]; } else { assert HasPrefix(names, j); }
    }
    forall j, i | 0 <= j < |names'| && 0 <= i < |names'| ensures Listed(names', trees', j, i) {
      if Owned(names'[j], names'[i], 0, 256) {
        if j == n {
          assert Owned(names'[j], p, 0, 256);
          OneOwner(names'[j], names'[i], p);
          assert i < n;
          Same(names, i, k);
        } else if i == n {
          NoOrphans(names, trees, p + [v], j);
        } else {
          assert Listed(names, trees, j, i);
        }
      }
    }
  }

  lemma NewCarries(s: seq<Symbol>, names: seq<Path>, trees: seq<Tree>, ctxs: map<Path, Ctx>, n: nat, v: byte,
                   delta: nat)
    requires n < |names| == |trees| <= |s| && s[n] == NewSymbol(v, delta) && trees[n] == Leaf
    requires names[n] !in ctxs && names[n] != []
    ensures CarriesCtx(s, names, trees, ctxs, n)
  {
    UnvisitedSound(names[n]);
  }

  lemma OthersCarry(
      s: seq<Symbol>, s': seq<Symbol>, names: seq<Path>, names': seq<Path>, trees: seq<Tree>, trees': seq<Tree>,
      ctxs: map<Path, Ctx>, k: nat)
    requires Faithful(s, names, trees, ctxs, -1) && k < |names| && Elsewhere(s, s', names, names[k], k)
    requires |names| <= |names'| == |trees'| <= |s'| && |names'| <= |names| + 1
    requires forall j | 0 <= j < |names| :: names'[j] == names[j] && (j != k ==> trees'[j] == trees[j])
    requires |names'| > |names| ==> CarriesCtx(s', names', trees', ctxs, |names|)
    ensures Faithful(s', names', trees', ctxs, k)
  {
    forall j | 0 <= j < |names'| && j != k ensures CarriesCtx(s', names', trees', ctxs, j) {
      if j < |names| { assert CarriesCtx(s, names, trees, ctxs, j); }
    }
  }

  lemma EncodeFaithful(s: seq<Symbol>, names: seq<Path>, trees: seq<Tree>, ctxs: map<Path, Ctx>, k: nat, v: byte,
                       delta: nat)
    requires Complete(names, trees) && Faithful(s, names, trees, ctxs, -1)
    requires k < |names| < |s| && 0 < delta && Planted(s, names, trees, k)
    ensures var s' := EncodeEffect(s, trees[k], k, v, delta, |names|);
            var names', trees' := Named(names, names[k], CountOf(trees[k], v) > 0, v), Grown(trees, k, v, delta);
            Faithful(s', names', trees', ctxs, k)
  {
    var p, n, known := names[k], |names|, CountOf(trees[k], v) > 0;
    EncodePlaces(s, names, trees[k], k, v, delta);
    var s', names', trees' := EncodeEffect(s, trees[k], k, v, delta, n), Named(names, p, known, v),
        Grown(trees, k, v, delta);
    if !known {
      Unnamed(names, trees, k, v);
      NewCarries(s', names', trees', ctxs, n, v, delta);
    }
    OthersCarry(s, s', names, names', trees, trees', ctxs, k);
  }

  lemma EncodeCarries(s: seq<Symbol>, names: seq<Path>, trees: seq<Tree>, ctxs: map<Path, Ctx>, k: nat, v: byte,
                      delta: nat)
    requires k < |names| == |trees| < |s| && 0 < delta && Planted(s, names, trees, k)
    requires CarriesCtx(s, names, trees, ctxs, k)
    ensures var s', c := EncodeEffect(s, trees[k], k, v, delta, |names|), Get(ctxs, names[k]);
            Carries(s', Grown(trees, k, v, delta), k, Add(c.freq, v, delta), c.escapes, Total(names[k], c))
  {
    EncodePlaces(s, names, trees[k], k, v, delta);
    PlacedOrdered(s, names, names[k], trees[k], 0, 256);
    PlusCounts(trees[k], v, delta, |names|, 0, 256);
  }

  /** A symbol just created waits for its parent pointer, unless its parent is the root, slot 0. */
  function Waiting(pending: set<nat>, p: Path, known: bool, symbol: nat): set<nat> {
    if known || p == [] then pending else pending + {symbol}
  }

  lemma EncodeLinked(s: seq<Symbol>, names: seq<Path>, trees: seq<Tree>, k: nat, v: byte, delta: nat, pending: set<nat>)
    requires Shaped(s, names, trees) && Linked(s, names, pending) && k < |names| < |s| && 0 < delta
    ensures var s', known := EncodeEffect(s, trees[k], k, v, delta, |names|), CountOf(trees[k], v) > 0;
            Linked(s', Named(names, names[k], known, v), Waiting(pending, names[k], known, |names|))
  {
    assert Planted(s, names, trees, k);
    EncodePlaces(s, names, trees[k], k, v, delta);
    var s', known := EncodeEffect(s, trees[k], k, v, delta, |names|), CountOf(trees[k], v) > 0;
    var names' := Named(names, names[k], known, v);
    var pending' := Waiting(pending, names[k], known, |names|);
    forall j | 0 <= j < |names'| && j !in pending' ensures HasParent(s', names', j) {
      if j < |names| { assert HasParent(s, names, j); }
    }
  }

  // ----- settling a context after a lookup -----

  lemma ShapedFrame(s: seq<Symbol>, s': seq<Symbol>, names: seq<Path>, trees: seq<Tree>)
    requires Shaped(s, names, trees) && |s'| == |s|
    requires forall j | 0 <= j < |names| :: SameNode(s[j], s'[j]) && s[j].symbols == s'[j].symbols
    ensures Shaped(s', names, trees)
  {
    forall k | 0 <= k < |names| ensures Planted(s', names, trees, k) {
      assert Planted(s, names, trees, k);
      PlacedFrame(s, names, s', names, names[k], trees[k], 0, 256);
    }
  }

  lemma RescaleShaped(s: seq<Symbol>, names: seq<Path>, trees: seq<Tree>, k: nat)
    requires Shaped(s, names, trees) && k < |names|
    ensures var s' := Rescaled(s, trees[k]);
            Shaped(s', names, trees[k := Halved(trees[k])]) && OnlyTouches(s, s', names, names[k], 0, 256)
  {
    assert Planted(s, names, trees, k);
    RescaledPlaces(s, names, names[k], trees[k], 0, 256);
    PlacedOrdered(s, names, names[k], trees[k], 0, 256);
    HalvedCounts(trees[k], 0, 256);
    var s', trees' := Rescaled(s, trees[k]), trees[k := Halved(trees[k])];
    forall j | 0 <= j < |names| ensures Planted(s', names, trees', j) {
      if j != k { PlantedElsewhere(s, s', names, names, trees, trees', k, j); }
    }
  }

  lemma HalvedComplete(names: seq<Path>, trees: seq<Tree>, k: nat)
    requires Complete(names, trees) && k < |names| && Ordered(trees[k], 0, 256)
    ensures Complete(names, trees[k := Halved(trees[k])])
  {
    HalvedCounts(trees[k], 0, 256);
    var trees' := trees[k := Halved(trees[k])];
    forall j, i | 0 <= j < |names| && 0 <= i < |names| ensures Listed(names, trees', j, i) {
      assert Listed(names, trees, j, i);
    }
  }

  /** Once slot k carries its new context c, the whole array holds the model with c in it. */
  lemma SettleFaithful(
      s: seq<Symbol>, s': seq<Symbol>, names: seq<Path>, trees: seq<Tree>, trees': seq<Tree>,
      ctxs: map<Path, Ctx>, k: nat, c: Ctx)
    requires Distinct(names) && k < |names| && Faithful(s, names, trees, ctxs, k)
    requires |trees'| == |trees| && |s'| == |s|
    requires forall j | 0 <= j < |names| && j != k ::
               trees'[j] == trees[j] && s'[j].escapes == s[j].escapes && s'[j].total == s[j].total
    requires Carries(s', trees', k, c.freq, c.escapes, Total(names[k], c))
    ensures Faithful(s', names, trees', ctxs[names[k] := c], -1)
  {
    var ctxs' := ctxs[names[k] := c];
    forall j | 0 <= j < |names| ensures CarriesCtx(s', names, trees', ctxs', j) {
      if j != k {
        assert CarriesCtx(s, names, trees, ctxs, j);
        if names[j] == names[k] { Same(names, j, k); }
      }
    }
  }

  // ----- the whole invariant -----

  /** Slots are named, trees are in place, parents are set but for `pending`, and every slot but
      `skip` carries its context of the model. */
  ghost predicate Pool(
      s: seq<Symbol>, names: seq<Path>, trees: seq<Tree>, ctxs: map<Path, Ctx>, pending: set<nat>, skip: int)
  {
    && Shaped(s, names, trees) && Complete(names, trees)
    && Linked(s, names, pending) && Faithful(s, names, trees, ctxs, skip)
  }

  lemma FreshPool(s: seq<Symbol>)
    requires |s| == POOL && s[0] == NewSymbol(0, 0).(escapes := 1, total := 257)
    ensures Pool(s, [[]], [Leaf], Fresh().ctxs, {}, -1)
  {
    var names: seq<Path>, trees := [[]], [Leaf];
    FreshShape(s, names, trees);
    FreshRootCarries(s, names, trees, Fresh().ctxs);
    hide Planted, CarriesCtx, Fresh, Listed, HasPrefix, HasParent;
  }

  lemma FreshShape(s: seq<Symbol>, names: seq<Path>, trees: seq<Tree>)
    requires |s| == POOL && s[0].symbols == 0 && names == [[]] && trees == [Leaf]
    ensures Planted(s, names, trees, 0) && HasPrefix(names, 0) && Listed(names, trees, 0, 0) && HasParent(s, names, 0)
  {
  }

  lemma FreshRootCarries(s: seq<Symbol>, names: seq<Path>, trees: seq<Tree>, ctxs: map<Path, Ctx>)
    requires 0 < |s| && s[0] == NewSymbol(0, 0).(escapes := 1, total := 257)
    requires names == [[]] && trees == [Leaf] && ctxs == Fresh().ctxs
    ensures CarriesCtx(s, names, trees, ctxs, 0) && forall q | q in ctxs :: q in names
  {
    FreshGood();
    FreshTable();
    assert Get(ctxs, names[0]) == FreshRoot();
    assert names[0] == [];
    hide FreshRoot, NoSymbols, Total, Fresh, Tabulates, AllSound;
  }

  lemma FreshTable()
    ensures Tabulates(Leaf, FreshRoot().freq) && FreshRoot().escapes == 1
    ensures Fresh().ctxs == map[[] := FreshRoot()]
  {
  }

  /** A lookup keeps the pool, all but the escapes and total of the context asked. */
  lemma EncodePool(
      s: seq<Symbol>, names: seq<Path>, trees: seq<Tree>, ctxs: map<Path, Ctx>, pending: set<nat>,
      k: nat, v: byte, delta: nat)
    requires Pool(s, names, trees, ctxs, pending, -1) && k < |names| < |s| && |names[k]| <= ORDER && 0 < delta
    ensures var s', known := EncodeEffect(s, trees[k], k, v, delta, |names|), CountOf(trees[k], v) > 0;
            var names', trees' := Named(names, names[k], known, v), Grown(trees, k, v, delta);
            var c := Get(ctxs, names[k]);
            && Pool(s', names', trees', ctxs, Waiting(pending, names[k], known, |names|), k)
            && Carries(s', trees', k, Add(c.freq, v, delta), c.escapes, Total(names[k], c))
  {
    assert Planted(s, names, trees, k) && CarriesCtx(s, names, trees, ctxs, k);
    PlacedOrdered(s, names, names[k], trees[k], 0, 256);
    EncodeShaped(s, names, trees, k, v, delta);
    EncodeComplete(names, trees, k, v, delta);
    EncodeLinked(s, names, trees, k, v, delta, pending);
    EncodeFaithful(s, names, trees, ctxs, k, v, delta);
    EncodeCarries(s, names, trees, ctxs, k, v, delta);
  }

  /** What a search in slot k's tree finds, in terms of the context's table. */
  lemma SearchMeaning(s: seq<Symbol>, names: seq<Path>, trees: seq<Tree>, ctxs: map<Path, Ctx>, k: nat, v: byte)
    requires k < |names| == |trees| <= |s| && Planted(s, names, trees, k) && CarriesCtx(s, names, trees, ctxs, k)
    ensures var f, t := Get(ctxs, names[k]).freq, trees[k];
            var symbol := SlotOf(t, v, |names|);
            && CountOf(t, v) == f[v] && SumBelow(t, v) == Below(f, v)
            && Named(names, names[k], f[v] > 0, v)[..|names|] == names
            && symbol < |Named(names, names[k], f[v] > 0, v)|
            && Named(names, names[k], f[v] > 0, v)[symbol] == names[k] + [v]
            && (f[v] == 0 ==> symbol == |names|)
  {
    var f, t := Get(ctxs, names[k]).freq, trees[k];
    PlacedOrdered(s, names, names[k], t, 0, 256);
    PrefixSums(t, f, 0, 256);
    if CountOf(t, v) > 0 { SlotNamed(s, names, names[k], t, 0, 256, v); } else { SlotFresh(t, 0, 256, v, |names|); }
  }

  /** Writing the new numbers of the context that was asked completes the pool. */
  lemma SettlePool(
      s: seq<Symbol>, names: seq<Path>, trees: seq<Tree>, ctxs: map<Path, Ctx>, pending: set<nat>, k: nat, c: Ctx)
    requires Pool(s, names, trees, ctxs, pending, k) && k < |names| && Tabulates(trees[k], c.freq)
    ensures var s' := s[k := s[k].(escapes := c.escapes, total := Total(names[k], c))];
            Pool(s', names, trees, ctxs[names[k] := c], pending, -1)
  {
    var s' := s[k := s[k].(escapes := c.escapes, total := Total(names[k], c))];
    ShapedFrame(s, s', names, trees);
    SettleFaithful(s, s', names, trees, trees, ctxs, k, c);
  }

  /** Rescaling the tree of slot k keeps the pool but for the total of slot k. */
  lemma RescalePool(
      s: seq<Symbol>, names: seq<Path>, trees: seq<Tree>, ctxs: map<Path, Ctx>, pending: set<nat>, k: nat, f: Table)
    requires Pool(s, names, trees, ctxs, pending, k) && k < |names| && Tabulates(trees[k], f)
    ensures var s', t' := Rescaled(s, trees[k]), Halved(trees[k]);
            && Pool(s', names, trees[k := t'], ctxs, pending, k)
            && Tabulates(t', Halve(f)) && Sum(t') == Below(Halve(f), 256)
            && s'[k].escapes == s[k].escapes && s'[k].symbols == s[k].symbols
  {
    assert Planted(s, names, trees, k);
    PlacedOrdered(s, names, names[k], trees[k], 0, 256);
    HalvedCounts(trees[k], 0, 256);
    PrefixSums(Halved(trees[k]), Halve(f), 0, 256);
    RescaleShaped(s, names, trees, k);
    HalvedComplete(names, trees, k);
    var s', trees' := Rescaled(s, trees[k]), trees[k := Halved(trees[k])];
    forall j | 0 <= j < |names| && j != k ensures CarriesCtx(s', names, trees', ctxs, j) {
      assert CarriesCtx(s, names, trees, ctxs, j);
    }
  }

  /** Setting a pending parent pointer to the slot of the shorter context. */
  lemma ParentPool(
      s: seq<Symbol>, names: seq<Path>, trees: seq<Tree>, ctxs: map<Path, Ctx>, pending: set<nat>, skip: int,
      j: nat, parent: nat)
    requires Pool(s, names, trees, ctxs, pending, skip) && j < |names| && parent < |names|
    requires names[j] != [] && names[parent] == names[j][1..]
    ensures Pool(s[j := s[j].(parent := parent)], names, trees, ctxs, pending - {j}, skip)
  {
    var s' := s[j := s[j].(parent := parent)];
    ShapedFrame(s, s', names, trees);
    forall i | 0 <= i < |names| && i !in pending - {j} ensures HasParent(s', names, i) {
      if i != j { assert HasParent(s, names, i); }
    }
    forall i | 0 <= i < |names| && i != skip ensures CarriesCtx(s', names, trees, ctxs, i) {
      assert CarriesCtx(s, names, trees, ctxs, i);
    }
  }

  /** The numbers of the skipped slot do not matter to the pool. */
  lemma SkippedPool(
      s: seq<Symbol>, names: seq<Path>, trees: seq<Tree>, ctxs: map<Path, Ctx>, pending: set<nat>, k: nat,
      escapes: nat, total: nat)
    requires Pool(s, names, trees, ctxs, pending, k) && k < |names|
    ensures Pool(s[k := s[k].(escapes := escapes, total := total)], names, trees, ctxs, pending, k)
  {
    var s' := s[k := s[k].(escapes := escapes, total := total)];
    ShapedFrame(s, s', names, trees);
    forall j | 0 <= j < |names| && j != k ensures CarriesCtx(s', names, trees, ctxs, j) {
      assert CarriesCtx(s, names, trees, ctxs, j);
    }
  }

  lemma PoolParent(
      s: seq<Symbol>, names: seq<Path>, trees: seq<Tree>, ctxs: map<Path, Ctx>, pending: set<nat>, skip: int, k: nat)
    requires Pool(s, names, trees, ctxs, pending, skip) && k < |names| && k !in pending && names[k] != []
    ensures k < |s| && s[k].parent < |names| && names[s[k].parent] == names[k][1..]
  {
    assert HasParent(s, names, k);
  }

  /** Slot 0 is the root and no other slot is. */
  lemma PoolRoot(
      s: seq<Symbol>, names: seq<Path>, trees: seq<Tree>, ctxs: map<Path, Ctx>, pending: set<nat>, skip: int, k: nat)
    requires Pool(s, names, trees, ctxs, pending, skip) && k < |names|
    ensures names[k] == [] <==> k == 0
  {
    if names[k] == [] { Same(names, k, 0); }
  }
}
