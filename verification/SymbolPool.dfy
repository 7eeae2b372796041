/** The array of symbols both directions of the codec work in, and the macros that update it. */
module SymbolPool {
  import opened Bytes
  import opened RangeCoding
  import opened ContextModel
  import opened SymbolTree
  import opened PoolInvariant

  /** ENetRangeCoder, with the locals of compress and decompress that the macros share. */
  class RangeCoder {
    const symbols: array<Symbol>
    var nextSymbol: nat
    var predicted: nat
    var order: nat

    ghost var names: seq<Path>           // the path of every slot in use
    ghost var trees: seq<Tree>           // the tree of every slot in use
    ghost var ctxs: map<Path, Ctx>       // the model the array holds

    /** The array holds the model; see PoolInvariant.Pool. */
    ghost predicate Holds(pending: set<nat>, skip: int)
      reads this, symbols
    {
      symbols.Length == POOL && nextSymbol == |names| && Pool(symbols[..], names, trees, ctxs, pending, skip)
    }

    constructor ()
      ensures symbols.Length == POOL && fresh(symbols)
    {
      symbols := new Symbol[POOL](_ => NewSymbol(0, 0));
    }

    /** ENET_CONTEXT_CREATE of the root in slot 0, as at the start and in FREE_SYMBOLS. */
    method Reset()
      requires symbols.Length == POOL
      modifies this, symbols
      ensures Idle() && ModelHeld() == Fresh()
    {
      FreshGood();
      FreshStart();
      hide Pool, AllSound, Fresh, NewSymbol, FreshRoot, Total;
      symbols[0] := NewSymbol(0, 0).(escapes := 1, total := 1 + 256 * 1);
      nextSymbol, predicted, order := 1, 0, 0;
      names, trees, ctxs := [[]], [Leaf], Fresh().ctxs;
      FreshPool(symbols[..]);
    }

    /** ENET_CONTEXT_ENCODE: looks v up in the tree of slot k, adding up the range of v on the way
        down, and counts v up, in a new symbol if the context did not know v. */
    method ContextEncode(k: nat, v: byte, delta: nat, minimum: nat, ghost pending: set<nat>)
      returns (symbol: nat, under: nat, count: nat)
      requires Holds(pending, -1) && k < nextSymbol < POOL && |names[k]| <= ORDER && 0 < delta
      modifies this`nextSymbol, this`names, this`trees, symbols
      ensures symbols[..] == EncodeEffect(old(symbols[..]), old(trees)[k], k, v, delta, |old(names)|)
      ensures var c := Get(ctxs, old(names)[k]);
              var known := c.freq[v] > 0;
              && names == Named(old(names), old(names)[k], known, v)
              && trees == Grown(old(trees), k, v, delta)
              && under == Start(c.freq, minimum, v) && count == c.freq[v] + minimum
              && Holds(Waiting(pending, old(names)[k], known, symbol), k)
              && Carries(symbols[..], trees, k, Add(c.freq, v, delta), c.escapes, Total(old(names)[k], c))
      ensures symbol < nextSymbol && names[symbol] == old(names)[k] + [v]
    {
      ghost var s0, p, tree := symbols[..], names[k], trees[k];
      ghost var names', trees' := Named(names, p, CountOf(tree, v) > 0, v), Grown(trees, k, v, delta);
      assert Planted(s0, names, trees, k) && CarriesCtx(s0, names, trees, ctxs, k);
      SearchMeaning(s0, names, trees, ctxs, k, v);
      EncodePool(s0, names, trees, ctxs, pending, k, v, delta);
      symbol, under, count := Find(k, v, delta, minimum, p, tree);
      names, trees := names', trees';
    }

    /** The writes of ENET_CONTEXT_ENCODE. */
    method Find(k: nat, v: byte, delta: nat, minimum: nat, ghost p: Path, ghost tree: Tree)
      returns (symbol: nat, under: nat, count: nat)
      requires k < nextSymbol == |names| < symbols.Length && 0 < delta
      requires Placed(symbols[..], names, p, tree, 0, 256) && Links(k, symbols[k].symbols, tree)
      modifies this`nextSymbol, symbols
      ensures symbols[..] == EncodeEffect(old(symbols[..]), tree, k, v, delta, |names|)
      ensures symbol == SlotOf(tree, v, |names|)
      ensures under == v * minimum + SumBelow(tree, v) && count == minimum + CountOf(tree, v)
      ensures nextSymbol == |names| + if CountOf(tree, v) > 0 then 0 else 1
    {
      under, count := v * minimum, minimum;
      if symbols[k].symbols == 0 {
        symbol := Create(v, delta);
        symbols[k] := symbols[k].(symbols := symbol - k);
      } else {
        symbol, under, count := Descend(k + symbols[k].symbols, v, delta, under, count, p, tree);
      }
    }

    /** ENET_SYMBOL_CREATE. */
    method Create(v: byte, count: nat) returns (symbol: nat)
      requires nextSymbol < symbols.Length
      modifies this`nextSymbol, symbols
      ensures symbol == old(nextSymbol) && nextSymbol == old(nextSymbol) + 1
      ensures symbols[..] == old(symbols[..])[symbol := NewSymbol(v, count)]
    {
      symbol := nextSymbol;
      symbols[symbol] := NewSymbol(v, count);
      nextSymbol := nextSymbol + 1;
    }

    /** The loop of ENET_CONTEXT_ENCODE from the root of a tree downwards. */
    method Descend(root: nat, v: byte, delta: nat, under0: nat, count0: nat, ghost p: Path, ghost tree: Tree)
      returns (symbol: nat, under: nat, count: nat)
      requires nextSymbol == |names| < symbols.Length && 0 < delta
      requires Placed(symbols[..], names, p, tree, 0, 256) && tree.Node? && tree.slot == root
      modifies this`nextSymbol, symbols
      ensures symbols[..] == Walk(old(symbols[..]), tree, v, delta, |names|)
      ensures symbol == SlotOf(tree, v, |names|)
      ensures under == under0 + SumBelow(tree, v) && count == count0 + CountOf(tree, v)
      ensures nextSymbol == |names| + if CountOf(tree, v) > 0 then 0 else 1
    {
      hide Placed, Walk, CountOf, SlotOf, SumBelow;
      ghost var s0, n := symbols[..], |names|;
      NodeAt(s0, names, p, tree, 0, 256);
      var node := root;
      under, count := under0, count0;
      ghost var t, lo: nat, hi: nat := tree, 0, 256;
      while true
        invariant nextSymbol == n && count == count0
        invariant t.Node? && t.slot == node < n && lo <= v < hi
        invariant Placed(symbols[..], names, p, t, lo, hi)
        invariant Walk(symbols[..], t, v, delta, n) == Walk(s0, tree, v, delta, n)
        invariant under + SumBelow(t, v) == under0 + SumBelow(tree, v)
        invariant CountOf(t, v) == CountOf(tree, v) && SlotOf(t, v, n) == SlotOf(tree, v, n)
        decreases t
      {
        ghost var s := symbols[..];
        NodeAt(s, names, p, t, lo, hi);
        WalkTurn(s, names, p, t, lo, hi, v, delta);
        if v < symbols[node].value {
          symbols[node] := symbols[node].(under := symbols[node].under + delta);
          assert symbols[..] == s[node := s[node].(under := s[node].under + delta)];
          if symbols[node].left != 0 {
            node := node + symbols[node].left;
            t, hi := t.left, t.value;
            continue;
          }
          symbol := Create(v, delta);
          symbols[node] := symbols[node].(left := symbol - node);
        } else if v > symbols[node].value {
          under := under + symbols[node].under;
          if symbols[node].right != 0 {
            node := node + symbols[node].right;
            t, lo := t.right, t.value + 1;
            continue;
          }
          symbol := Create(v, delta);
          symbols[node] := symbols[node].(right := symbol - node);
        } else {
          count := count + symbols[node].count;
          under := under + (symbols[node].under - symbols[node].count);
          symbols[node] := symbols[node].(under := symbols[node].under + delta, count := symbols[node].count + delta);
          symbol := node;
        }
        assert symbols[..] == Walk(s, t, v, delta, n);
        break;
      }
    }

    /** enet_symbol_rescale: halves every count of the tree at a node, rounding up, mends the left
        sums and returns the new sum of the tree. */
    method RescaleSymbol(root: nat, ghost p: Path, ghost tree: Tree, ghost lo: nat, ghost hi: nat)
      returns (total: nat)
      requires |names| <= symbols.Length
      requires Placed(symbols[..], names, p, tree, lo, hi) && tree.Node? && tree.slot == root
      modifies symbols
      ensures symbols[..] == Rescaled(old(symbols[..]), tree)
      ensures total == Sum(Halved(tree))
      decreases tree, 1
    {
      hide Placed, Rescaled, RescaledLeft, Halved, Sum;
      ghost var s0 := symbols[..];
      NodeAt(s0, names, p, tree, lo, hi);
      var node := root;
      total := 0;
      ghost var t, low: nat := tree, lo;
      while true
        invariant t.Node? && t.slot == node < |names|
        invariant t == tree || t < tree
        invariant Placed(symbols[..], names, p, t, low, hi)
        invariant Rescaled(symbols[..], t) == Rescaled(s0, tree)
        invariant total + Sum(Halved(t)) == Sum(Halved(tree))
        decreases t
      {
        ghost var s := symbols[..];
        NodeAt(s, names, p, t, low, hi);
        RescaleTurn(s, names, p, t, low, hi);
        RescaleTurnIs(s, names, p, t, low, hi);
        RescaleNode(node, p, t, low, hi);
        total := total + symbols[node].under;
        if symbols[node].right == 0 { break; }
        node := node + symbols[node].right;
        t, low := t.right, t.value + 1;
      }
    }

    /** One turn of that loop: the node's own count, then its left subtree by recursion. */
    method RescaleNode(node: nat, ghost p: Path, ghost t: Tree, ghost lo: nat, ghost hi: nat)
      requires |names| <= symbols.Length
      requires Placed(symbols[..], names, p, t, lo, hi) && t.Node? && t.slot == node
      modifies symbols
      ensures symbols[..] == RescaledLeft(old(symbols[..]), t)
      decreases t, 0
    {
      hide Placed, Rescaled, RescaledLeft, Halved, Sum, HalvedNode;
      ghost var s := symbols[..];
      NodeAt(s, names, p, t, lo, hi);
      RescaleTurn(s, names, p, t, lo, hi);
      RescaleTurnIs(s, names, p, t, lo, hi);
      HalvedLinks(symbols[node]);
      symbols[node] := HalvedNode(symbols[node]);
      assert symbols[..] == s[node := HalvedNode(s[node])];
      if symbols[node].left != 0 {
        var left := RescaleSymbol(node + symbols[node].left, p, t.left, lo, t.value);
        symbols[node] := symbols[node].(under := symbols[node].under + left);
      }
      assert symbols[..] == RescaledLeft(s, t);
    }

    /** What compress and decompress do to a context once value v has been looked up in it: a miss
        makes escapes likelier, the total grows, and ENET_CONTEXT_RESCALE may follow. */
    method Settle(k: nat, v: byte, count: nat, delta: nat, minimum: nat, ghost pending: set<nat>)
      requires k < nextSymbol && Holds(pending, k)
      requires var p := names[k]; var c := Get(ctxs, p);
               && delta == Delta(p) && minimum == Minimum(p) && count == c.freq[v] + minimum
               && Carries(symbols[..], trees, k, Add(c.freq, v, delta), c.escapes, Total(p, c))
      modifies this`trees, this`ctxs, symbols
      ensures Holds(pending, -1)
      ensures ctxs == old(ctxs)[names[k] := Bump(names[k], Get(old(ctxs), names[k]), v)]
    {
      ghost var p, c := names[k], Get(ctxs, names[k]);
      ghost var d, s := Raised(p, c, v), symbols[..];
      RaisedTotal(p, c, v);
      if count == 0 {
        symbols[k] := symbols[k].(escapes := symbols[k].escapes + ESCAPE_DELTA,
                                  total := symbols[k].total + ESCAPE_DELTA);
      }
      symbols[k] := symbols[k].(total := symbols[k].total + delta);
      assert symbols[..] == s[k := s[k].(escapes := d.escapes, total := Total(p, d))];
      SkippedPool(s, names, trees, ctxs, pending, k, d.escapes, Total(p, d));
      if count > 0xFF - 2 * delta + minimum || symbols[k].total > BOTTOM - 0x100 {
        Rescale(k, minimum, d, pending);
      } else {
        SettlePool(s, names, trees, ctxs, pending, k, d);
        ctxs := ctxs[p := d];
      }
    }

    /** ENET_CONTEXT_RESCALE. */
    method Rescale(k: nat, minimum: nat, ghost d: Ctx, ghost pending: set<nat>)
      requires k < nextSymbol && Holds(pending, k) && minimum == Minimum(names[k])
      requires Tabulates(trees[k], d.freq) && symbols[k].escapes == d.escapes
      modifies this`trees, this`ctxs, symbols
      ensures Holds(pending, -1) && ctxs == old(ctxs)[names[k] := ContextModel.Rescale(d)]
    {
      ghost var s := symbols[..];
      assert Planted(s, names, trees, k);
      RescalePool(s, names, trees, ctxs, pending, k, d.freq);
      var total := 0;
      if symbols[k].symbols != 0 {
        total := RescaleSymbol(k + symbols[k].symbols, names[k], trees[k], 0, 256);
      }
      ghost var s1 := symbols[..];
      trees := trees[k := Halved(trees[k])];
      var escapes := symbols[k].escapes - symbols[k].escapes / 2;
      symbols[k] := symbols[k].(escapes := escapes, total := total + (escapes + 256 * minimum));
      SettlePool(s1, names, trees, ctxs, pending, k, ContextModel.Rescale(d));
      ctxs := ctxs[names[k] := ContextModel.Rescale(d)];
    }

    /** `* parent = symbol`, where parent points to `predicted` or to the parent field of a symbol. */
    method Link(parent: Pointer, symbol: nat, ghost pending: set<nat>, ghost skip: int)
      requires symbol < nextSymbol && Holds(pending, skip)
      requires parent.ParentOf? ==> parent.slot < nextSymbol && names[parent.slot] != []
      requires parent.ParentOf? ==> names[symbol] == names[parent.slot][1..]
      modifies this`predicted, symbols
      ensures parent.ToPredicted? ==> predicted == symbol && symbols[..] == old(symbols[..]) && Holds(pending, skip)
      ensures parent.ParentOf? ==> predicted == old(predicted) && Holds(pending - {parent.slot}, skip)
      ensures forall j | 0 <= j < symbols.Length ::
                symbols[j].escapes == old(symbols[j].escapes) && symbols[j].total == old(symbols[j].total)
    {
      match parent
      case ToPredicted => predicted := symbol;
      case ParentOf(j) =>
        ghost var s := symbols[..];
        ParentPool(s, names, trees, ctxs, pending, skip, j, symbol);
        symbols[j] := symbols[j].(parent := symbol);
        assert symbols[..] == s[j := s[j].(parent := symbol)];
    }

    /** Whether `parent` is where the slot of p + [v] has to be stored, and nothing else waits. */
    ghost predicate Awaits(parent: Pointer, p: Path, v: byte, pending: set<nat>)
      reads this
    {
      match parent
      case ToPredicted => pending == {}
      case ParentOf(j) => j < |names| && names[j] != [] && names[j][1..] == p + [v] && pending <= {j}
    }

    /** The head of a round of the context loops: look v up in slot k's context, counting it, and
        hand its slot to whatever waits for it. */
    method Visit(k: nat, v: byte, delta: nat, minimum: nat, parent: Pointer, ghost pending: set<nat>)
      returns (symbol: nat, under: nat, count: nat)
      requires Holds(pending, -1) && k < nextSymbol < POOL && |names[k]| <= ORDER
      requires delta == Delta(names[k]) && minimum == Minimum(names[k]) && Awaits(parent, names[k], v, pending)
      modifies this`nextSymbol, this`names, this`trees, this`predicted, symbols
      ensures var p := old(names)[k];
              var c := Get(ctxs, p);
              var known := c.freq[v] > 0;
              && names == Named(old(names), p, known, v)
              && under == Start(c.freq, minimum, v) && count == c.freq[v] + minimum
              && Holds(Waiting({}, p, known, symbol), k)
              && Carries(symbols[..], trees, k, Add(c.freq, v, delta), c.escapes, Total(p, c))
              && symbol < nextSymbol && names[symbol] == p + [v]
      ensures predicted == if parent.ToPredicted? then symbol else old(predicted)
    {
      symbol, under, count := ContextEncode(k, v, delta, minimum, pending);
      ghost var p, c := names[k], Get(ctxs, names[k]);
      ghost var waiting := Waiting(pending, p, c.freq[v] > 0, symbol);
      Link(parent, symbol, waiting, k);
      if parent.ParentOf? {
        assert waiting - {parent.slot} == Waiting({}, p, c.freq[v] > 0, symbol) by {
          if symbol == parent.slot { assert names[symbol] == p + [v] && names[symbol][1..] == p + [v]; }
        }
      }
    }

    // ----- decoding -----

    /** ENET_CONTEXT_DECODE: finds the value whose range holds code, going down the tree of slot k,
        and counts it up.  `create` is the root's form, which makes a node for a value that has
        none; the other form gives up when no node holds the code. */
    method ContextDecode(k: nat, code: nat, delta: nat, minimum: nat, create: bool)
      returns (hit: bool, symbol: nat, value: byte, under: nat, count: nat)
      requires Holds({}, -1) && k < nextSymbol < POOL && |names[k]| <= ORDER && 0 < delta
      requires minimum == Minimum(names[k]) && (create <==> names[k] == [])
      requires create ==> code < Start(Get(ctxs, names[k]).freq, minimum, 256)
      modifies this`nextSymbol, this`names, this`trees, symbols
      ensures var c := Get(ctxs, old(names)[k]);
              && (hit <==> code < Start(c.freq, minimum, 256))
              && (!hit ==> Holds({}, -1) && names == old(names))
              && (hit ==>
                    var known := c.freq[value] > 0;
                    && value == Lookup(c.freq, minimum, code, 0)
                    && (known || create)
                    && names == Named(old(names), old(names)[k], known, value)
                    && under == Start(c.freq, minimum, value) && count == c.freq[value] + minimum
                    && Holds({}, k)
                    && Carries(symbols[..], trees, k, Add(c.freq, value, delta), c.escapes, Total(old(names)[k], c))
                    && symbol < nextSymbol && names[symbol] == old(names)[k] + [value])
    {
      ghost var s0, p, tree, f := symbols[..], names[k], trees[k], Get(ctxs, names[k]).freq;
      assert Planted(s0, names, trees, k) && CarriesCtx(s0, names, trees, ctxs, k);
      PlacedOrdered(s0, names, p, tree, 0, 256);
      ghost var v: byte := if code < Start(f, minimum, 256) then Lookup(f, minimum, code, 0) else 0;
      ghost var names', trees' := Named(names, p, CountOf(tree, v) > 0, v), Grown(trees, k, v, delta);
      SearchMeaning(s0, names, trees, ctxs, k, v);
      EncodePool(s0, names, trees, ctxs, {}, k, v, delta);
      hit, symbol, value, under, count := FindCode(k, code, delta, minimum, create, p, tree, f, v);
      if hit {
        names, trees := names', trees';
      }
    }

    /** The writes of ENET_CONTEXT_DECODE; v is the value the code stands for, if it does. */
    method FindCode(
        k: nat, code: nat, delta: nat, minimum: nat, create: bool, ghost p: Path, ghost tree: Tree, ghost f: Table,
        ghost v: byte)
      returns (hit: bool, symbol: nat, value: byte, under: nat, count: nat)
      requires k < nextSymbol == |names| < symbols.Length && 0 < delta
      requires Placed(symbols[..], names, p, tree, 0, 256) && Links(k, symbols[k].symbols, tree) && Tabulates(tree, f)
      requires minimum == if create then 1 else 0
      requires code < Start(f, minimum, 256) ==> Start(f, minimum, v) <= code < Start(f, minimum, v + 1)
      requires create ==> code < Start(f, minimum, 256)
      modifies this`nextSymbol, symbols
      ensures hit <==> code < Start(f, minimum, 256)
      ensures !hit ==> symbols[..] == old(symbols[..]) && nextSymbol == old(nextSymbol)
      ensures hit ==>
                && value == v && symbol == SlotOf(tree, v, |names|)
                && symbols[..] == EncodeEffect(old(symbols[..]), tree, k, v, delta, |names|)
                && under == Start(f, minimum, v) && count == minimum + CountOf(tree, v)
                && nextSymbol == |names| + if CountOf(tree, v) > 0 then 0 else 1
    {
      hit, symbol, value, under, count := true, 0, 0, 0, minimum;
      if symbols[k].symbols == 0 {
        EmptyRange(f, minimum, 0, 256);
        if !create { return false, 0, 0, 0, 0; }
        EmptyRange(f, minimum, 0, v);
        value := code / minimum;
        under := code - code % minimum;
        symbol := Create(value, delta);
        symbols[k] := symbols[k].(symbols := symbol - k);
      } else {
        hit, symbol, value, under, count :=
          DescendCode(k + symbols[k].symbols, code, delta, minimum, create, p, tree, f, v);
      }
    }

    /** createRight of ENET_CONTEXT_ROOT_DECODE: a value above every value on the path. */
    method CreateRight(node: nat, code: nat, after: nat, delta: nat, minimum: nat)
      returns (symbol: nat, value: byte, under: nat)
      requires node < nextSymbol < symbols.Length && 0 < minimum && after <= code
      requires symbols[node].value + 1 + (code - after) / minimum < 256 && (code - after) % minimum <= code
      modifies this`nextSymbol, symbols
      ensures value == old(symbols[node]).value + 1 + (code - after) / minimum
      ensures under == code - (code - after) % minimum
      ensures symbol == old(nextSymbol) && nextSymbol == symbol + 1
      ensures var s := old(symbols[..]);
              symbols[..] == s[symbol := NewSymbol(value, delta)][node := s[node].(right := symbol - node)]
    {
      value := symbols[node].value + 1 + (code - after) / minimum;
      under := code - (code - after) % minimum;
      symbol := Create(value, delta);
      symbols[node] := symbols[node].(right := symbol - node);
    }

    /** createLeft: a value below every value on the path; start is where the node's range starts. */
    method CreateLeft(node: nat, code: nat, start: nat, delta: nat, minimum: nat)
      returns (symbol: nat, value: byte, under: nat)
      requires node < nextSymbol < symbols.Length && 0 < minimum && code < start
      requires 0 <= symbols[node].value - 1 - (start - code - 1) / minimum < 256 && (start - code - 1) % minimum <= code
      modifies this`nextSymbol, symbols
      ensures value == old(symbols[node]).value - 1 - (start - code - 1) / minimum
      ensures under == code - (start - code - 1) % minimum
      ensures symbol == old(nextSymbol) && nextSymbol == symbol + 1
      ensures var s := old(symbols[..]);
              symbols[..] == s[symbol := NewSymbol(value, delta)][node := s[node].(left := symbol - node)]
    {
      value := symbols[node].value - 1 - (start - code - 1) / minimum;
      under := code - (start - code - 1) % minimum;
      symbol := Create(value, delta);
      symbols[node] := symbols[node].(left := symbol - node);
    }

    /** The loop of ENET_CONTEXT_DECODE. */
    method DescendCode(
        root: nat, code: nat, delta: nat, minimum: nat, create: bool, ghost p: Path, ghost tree: Tree, ghost f: Table,
        ghost v: byte)
      returns (hit: bool, symbol: nat, value: byte, under: nat, count: nat)
      requires nextSymbol == |names| < symbols.Length && 0 < delta
      requires Placed(symbols[..], names, p, tree, 0, 256) && tree.Node? && tree.slot == root && Tabulates(tree, f)
      requires minimum == if create then 1 else 0
      requires code < Start(f, minimum, 256) ==> Start(f, minimum, v) <= code < Start(f, minimum, v + 1)
      requires create ==> code < Start(f, minimum, 256)
      modifies this`nextSymbol, symbols
      ensures hit <==> code < Start(f, minimum, 256)
      ensures !hit ==> symbols[..] == old(symbols[..]) && nextSymbol == old(nextSymbol)
      ensures hit ==>
                && value == v && symbol == SlotOf(tree, v, |names|)
                && symbols[..] == Walk(old(symbols[..]), tree, v, delta, |names|)
                && under == Start(f, minimum, v) && count == minimum + CountOf(tree, v)
                && nextSymbol == |names| + if CountOf(tree, v) > 0 then 0 else 1
    {
      ghost var s0, n := symbols[..], |names|;
      NodeAt(s0, names, p, tree, 0, 256);
      ghost var inRange := code < Start(f, minimum, 256);
      var node := root;
      assert Below(f, 0) == 0 && TabulatesIn(tree, f, 0, 256);
      hide Searching, Placed, Walk, CountOf, SlotOf, Start, Ordered, Below, TabulatesIn;
      hit, symbol, value, under, count := true, 0, 0, 0, minimum;
      ghost var t, lo: nat, hi: nat := tree, 0, 256;
      while true
        invariant hit && nextSymbol == n && count == minimum && lo <= 256
        invariant Searching(symbols[..], names, p, t, lo, hi, f, minimum, code, v)
        invariant t.Node? && t.slot == node < n && under == Below(f, lo)
        invariant if inRange
                  then && Walk(symbols[..], t, v, delta, n) == Walk(s0, tree, v, delta, n)
                       && CountOf(t, v) == CountOf(tree, v) && SlotOf(t, v, n) == SlotOf(tree, v, n)
                  else symbols[..] == s0
        decreases t
      {
        ghost var s := symbols[..];
        var after := under + symbols[node].under + (symbols[node].value + 1) * minimum;
        var before := symbols[node].count + minimum;
        if code >= after && symbols[node].right != 0 {
          SearchRight(s, names, p, t, lo, hi, f, minimum, code, v, delta);
          under := under + symbols[node].under;
          node := node + symbols[node].right;
          t, lo := t.right, t.value + 1;
        } else if code < after - before && symbols[node].left != 0 {
          SearchLeft(s, names, p, t, lo, hi, f, minimum, code, v, delta);
          symbols[node] := symbols[node].(under := symbols[node].under + delta);
          assert symbols[..] == s[node := s[node].(under := s[node].under + delta)];
          node := node + symbols[node].left;
          t, hi := t.left, t.value;
        } else {
          hit, symbol, value, under, count :=
            EndDescent(node, code, after, before, delta, minimum, create, p, t, lo, hi, f, v);
          break;
        }
      }
    }

    /** The bodies that leave the loop: createRight, createLeft or the node itself. */
    method EndDescent(
        node: nat, code: nat, after: nat, before: nat, delta: nat, minimum: nat, create: bool,
        ghost p: Path, ghost t: Tree, ghost lo: nat, ghost hi: nat, ghost f: Table, ghost v: byte)
      returns (hit: bool, symbol: nat, value: byte, under: nat, count: nat)
      requires nextSymbol == |names| < symbols.Length && minimum == if create then 1 else 0
      requires Searching(symbols[..], names, p, t, lo, hi, f, minimum, code, v) && t.slot == node < symbols.Length
      requires after == After(f, minimum, lo, symbols[node]) && before == symbols[node].count + minimum
      requires (code >= after ==> symbols[node].right == 0) && (code < after - before ==> symbols[node].left == 0)
      requires create ==> code < Start(f, minimum, 256)
      modifies this`nextSymbol, symbols
      ensures hit <==> code < Start(f, minimum, 256)
      ensures !hit ==> symbols[..] == old(symbols[..]) && nextSymbol == old(nextSymbol)
      ensures hit ==>
                && value == v && symbol == SlotOf(t, v, |names|)
                && symbols[..] == Walk(old(symbols[..]), t, v, delta, |names|)
                && under == Start(f, minimum, v) && count == minimum + CountOf(t, v)
                && nextSymbol == |names| + if CountOf(t, v) > 0 then 0 else 1
    {
      hide Placed, Walk, CountOf, SlotOf, SumBelow, Start, Ordered, Sum;
      ghost var s := symbols[..];
      NodeAt(s, names, p, t, lo, hi);
      PlacedOrdered(s, names, p, t, lo, hi);
      WalkTurn(s, names, p, t, lo, hi, v, delta);
      if code < Start(f, minimum, 256) {
        CodeTurn(t, f, minimum, lo, hi, code, v);
      } else {
        CodeBeyond(t, f, minimum, lo, code);
      }
      hit, symbol, value, under, count := true, 0, 0, 0, minimum;
      if code >= after {
        if !create { return false, 0, 0, 0, 0; }
        symbol, value, under := CreateRight(node, code, after, delta, minimum);
      } else if code < after - before {
        // The form without `create` would give up here, but its codes never lead left of a leaf.
        assert create;
        symbols[node] := symbols[node].(under := symbols[node].under + delta);
        symbol, value, under := CreateLeft(node, code, after - before, delta, minimum);
      } else {
        value := symbols[node].value;
        count := count + symbols[node].count;
        under := after - before;
        symbols[node] := symbols[node].(under := symbols[node].under + delta, count := symbols[node].count + delta);
        symbol := node;
      }
    }

    // ----- between bytes -----

    /** The model held, read off the array. */
    ghost function ModelHeld(): Model
      reads this
      requires predicted < |names|
    {
      Model(ctxs, nextSymbol, names[predicted])
    }

    /** What holds between two bytes. */
    ghost predicate Idle()
      reads this, symbols
    {
      && Holds({}, -1) && AllSound(ctxs)
      && predicted < |names| == nextSymbol < POOL - ORDER
      && order == |names[predicted]| <= ORDER
    }

    /** From `nextInput` on: the next byte is predicted from the last two, or from nothing if the
        pool has run out (ENET_RANGE_CODER_FREE_SYMBOLS). */
    method NextInput(ghost hist: Path, ghost v: byte)
      requires Holds({}, -1) && AllSound(ctxs)
      requires predicted < nextSymbol && names[predicted] == hist + [v] && order == |hist| <= ORDER
      modifies this, symbols
      ensures Idle()
      ensures ModelHeld() ==
              if old(nextSymbol) >= POOL - ORDER then Fresh()
              else Model(old(ctxs), old(nextSymbol), Extend(hist, v))
    {
      if order >= ORDER {
        PoolParent(symbols[..], names, trees, ctxs, {}, -1, predicted);
        predicted := symbols[predicted].parent;
      } else {
        order := order + 1;
      }
      if nextSymbol >= POOL - ORDER {
        Reset();
      }
    }
  }

  /** Where the source's `parent` points: at the local `predicted` or at a symbol's field. */
  datatype Pointer = ToPredicted | ParentOf(slot: nat)
}
