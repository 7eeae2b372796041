/** 16-bit sequence numbers and the windows peer.c and protocol.c divide them into.

    The code compares 16-bit numbers; what they stand for are unbounded numbers that it never
    stores.  These lemmas say exactly when the code's comparisons get the unbounded order right.
 */
module Windows {
  import opened Constants

  /** ENET_PEER_RELIABLE_WINDOWS, ENET_PEER_RELIABLE_WINDOW_SIZE, ENET_PEER_FREE_RELIABLE_WINDOWS. */
  datatype Layout = Layout(windows: nat, size: nat, free: nat)

  /** The library's own numbers. */
  const LIBRARY := Layout(WINDOWS, WINDOW_SIZE, FREE_WINDOWS)

  /** The relations the code relies on: the windows cover the 16-bit numbers, some but not all of
      them are free, and a window number plus the number of windows still fits 16 bits. */
  predicate Proper(q: Layout) {
    && q.windows * q.size == SPAN
    && 1 < q.free < q.windows <= SPAN / 2
  }

  function Cut(n: nat): (s: nat)
    ensures s < SPAN
  {
    n % SPAN
  }

  function Window(q: Layout, n: nat): nat
    requires Proper(q)
  {
    SizePositive(q);
    n / q.size
  }

  lemma SizePositive(q: Layout)
    requires Proper(q)
    ensures 0 < q.size
  {
  }

  /** `reliableWindow`, moved up by all windows if the number is below the one expected. */
  function ShiftedWindow(q: Layout, s: nat, current: nat): nat
    requires Proper(q)
  {
    Window(q, s) + if s < current then q.windows else 0
  }

  /** The window test of enet_peer_queue_incoming_command and enet_protocol_handle_send_fragment. */
  predicate InWindow(q: Layout, s: nat, current: nat)
    requires Proper(q)
  {
    && Window(q, current) <= ShiftedWindow(q, s, current)
    && ShiftedWindow(q, s, current) < Window(q, current) + q.free - 1
  }

  /** The test of enet_peer_queue_acknowledgement. */
  predicate Acknowledges(q: Layout, s: nat, current: nat)
    requires Proper(q)
  {
    !(ShiftedWindow(q, s, current) >= Window(q, current) + q.free - 1
      && ShiftedWindow(q, s, current) <= Window(q, current) + q.free)
  }

  /** The window test as the source spells it out. */
  lemma WindowTestIs(q: Layout, s: nat, current: nat)
    requires Proper(q)
    ensures 0 < q.size
    ensures var reliableWindow := s / q.size + if s < current then q.windows else 0;
            InWindow(q, s, current) <==>
            !(reliableWindow < current / q.size || reliableWindow >= current / q.size + q.free - 1)
  {
    SizePositive(q);
  }

  lemma Product(a: nat, b: nat, c: nat)
    requires a <= b
    ensures a * c <= b * c
  {
  }

  lemma Divided(a: nat, b: nat, k: nat)
    requires b < k
    ensures (a * k + b) / k == a && (a * k + b) % k == b
  {
    var q, r := (a * k + b) / k, (a * k + b) % k;
    assert q * k + r == a * k + b;
    if a < q { Product(a + 1, q, k); } else if q < a { Product(q + 1, a, k); }
  }

  /** The window of the 16 bits is the window of the number, cut to the windows there are. */
  lemma WindowOfCut(q: Layout, n: nat)
    requires Proper(q)
    ensures Window(q, n) == n / SPAN * q.windows + Window(q, Cut(n))
    ensures Window(q, Cut(n)) < q.windows
  {
    SizePositive(q);
    var lap, s := n / SPAN, n % SPAN;
    var w, r := s / q.size, s % q.size;
    assert s == w * q.size + r;
    assert n == lap * (q.windows * q.size) + w * q.size + r == (lap * q.windows + w) * q.size + r;
    Divided(lap * q.windows + w, r, q.size);
    if w >= q.windows { Product(q.windows, w, q.size); }
  }

  lemma WindowMonotone(q: Layout, m: nat, n: nat)
    requires Proper(q) && m <= n
    ensures Window(q, m) <= Window(q, n)
  {
    SizePositive(q);
    var a, b := m / q.size, n / q.size;
    if b < a { Product(b + 1, a, q.size); }
  }

  lemma LapCases(a: nat, b: nat, count: nat, v: nat, w: nat)
    requires a <= b && v < count && w < count && b * count + w < a * count + v + count
    ensures b <= a + 1
    ensures b == a + 1 ==> w < v && b * count == a * count + count
  {
    if a + 2 <= b { Product(a + 2, b, count); }
    if b == a + 1 { assert b * count == a * count + count; }
  }

  /** The windows from n up to m, less than all of them apart: they are what the code computes. */
  lemma ShiftedAhead(q: Layout, n: nat, m: nat)
    requires Proper(q) && n <= m && Window(q, m) < Window(q, n) + q.windows
    ensures ShiftedWindow(q, Cut(m), Cut(n)) == Window(q, Cut(n)) + (Window(q, m) - Window(q, n))
  {
    hide Window, Proper;
    WindowOfCut(q, n);
    WindowOfCut(q, m);
    var a, b := n / SPAN, m / SPAN;
    LapCases(a, b, q.windows, Window(q, Cut(n)), Window(q, Cut(m)));
    if a < b && Cut(m) >= Cut(n) { WindowMonotone(q, Cut(n), Cut(m)); }
  }

  lemma ShiftedBehind(q: Layout, n: nat, m: nat)
    requires Proper(q) && m < n && Window(q, n) < Window(q, m) + q.windows
    ensures ShiftedWindow(q, Cut(m), Cut(n)) == Window(q, Cut(n)) + q.windows - (Window(q, n) - Window(q, m))
  {
    hide Window, Proper;
    WindowOfCut(q, n);
    WindowOfCut(q, m);
    var a, b := m / SPAN, n / SPAN;
    LapCases(a, b, q.windows, Window(q, Cut(m)), Window(q, Cut(n)));
    if a < b && Cut(m) < Cut(n) { WindowMonotone(q, Cut(m), Cut(n)); }
  }

  /** Exactly which numbers pass the window test: those from the current one on that are less than
      free - 1 windows ahead, and, wrongly, those more than windows - free + 1 windows behind. */
  lemma AcceptedNumbers(q: Layout, n: nat, m: nat)
    requires Proper(q)
    requires Window(q, m) < Window(q, n) + q.windows && Window(q, n) < Window(q, m) + q.windows
    ensures InWindow(q, Cut(m), Cut(n)) <==>
            if n <= m then Window(q, m) - Window(q, n) < q.free - 1
            else Window(q, n) - Window(q, m) > q.windows - q.free + 1
  {
    if n <= m {
      WindowMonotone(q, n, m);
      ShiftedAhead(q, n, m);
    } else {
      WindowMonotone(q, m, n);
      ShiftedBehind(q, n, m);
    }
  }

  /** Numbers less than all windows apart that look the same are the same. */
  lemma SameCut(q: Layout, m: nat, n: nat)
    requires Proper(q) && Window(q, m) < Window(q, n) + q.windows && Window(q, n) < Window(q, m) + q.windows
    ensures Cut(m) == Cut(n) ==> m == n
  {
    WindowOfCut(q, m);
    WindowOfCut(q, n);
    var a, b, k := m / SPAN, n / SPAN, q.windows;
    assert (a + 1) * k == a * k + k && (b + 1) * k == b * k + k;
    if a < b { Product(a + 1, b, k); }
    if b < a { Product(b + 1, a, k); }
  }

  /** The packet with the first number there is, ten windows later: a copy is taken for a new packet. */
  lemma StaleCopyAccepted()
    ensures var q := LIBRARY;
            && Proper(q) && Window(q, 0xA001) - Window(q, 1) == q.windows - q.free + 2
            && InWindow(q, Cut(1), Cut(0xA001))
  {
    var q := LIBRARY;
    AcceptedNumbers(q, 0xA001, 1);
  }

  /** Exactly which numbers are acknowledged. */
  lemma AcknowledgedNumbers(q: Layout, n: nat, m: nat)
    requires Proper(q)
    requires Window(q, m) < Window(q, n) + q.windows && Window(q, n) < Window(q, m) + q.windows
    ensures Acknowledges(q, Cut(m), Cut(n)) <==>
            if n <= m then Window(q, m) - Window(q, n) < q.free - 1 || Window(q, m) - Window(q, n) > q.free
            else
              Window(q, n) - Window(q, m) != q.windows - q.free + 1 && Window(q, n) - Window(q, m) != q.windows - q.free
  {
    if n <= m {
      WindowMonotone(q, n, m);
      ShiftedAhead(q, n, m);
    } else {
      WindowMonotone(q, m, n);
      ShiftedBehind(q, n, m);
    }
  }

  /** An accepted number is less than one lap ahead. */
  lemma AcceptedWithinLap(q: Layout, n: nat, m: nat)
    requires Proper(q) && n <= m && Window(q, m) < Window(q, n) + q.free - 1
    ensures m < n + SPAN
  {
    SizePositive(q);
    var a, b := n / q.size, m / q.size;
    assert m < (b + 1) * q.size;
    Product(b + 1, a + q.windows, q.size);
    assert (a + q.windows) * q.size == a * q.size + SPAN;
    assert a * q.size <= n;
  }

  // ----- order within one lap ahead -----

  /** The order the search loops go by: 16-bit numbers from `current` on, wrapped ones last. */
  predicate Later(x: nat, s: nat, current: nat) {
    if s >= current then x < current || x > s else x < current && x > s
  }

  /** For numbers less than a lap ahead of n it is the order of the unbounded numbers. */
  lemma LaterIsGreater(n: nat, x: nat, y: nat)
    requires n <= x < n + SPAN && n <= y < n + SPAN
    ensures Later(Cut(x), Cut(y), Cut(n)) <==> x > y
    ensures Cut(x) == Cut(y) <==> x == y
  {
    var lap := n / SPAN;
    assert n == lap * SPAN + Cut(n);
    assert x / SPAN == lap || x / SPAN == lap + 1;
    assert y / SPAN == lap || y / SPAN == lap + 1;
  }

  lemma CutPlus(n: nat, k: nat)
    ensures Cut(Cut(n) + k) == Cut(n + k)
  {
    var lap, l2 := n / SPAN, (Cut(n) + k) / SPAN;
    assert n + k == (lap + l2) * SPAN + Cut(Cut(n) + k);
    Divided(lap + l2, Cut(Cut(n) + k), SPAN);
  }
}
