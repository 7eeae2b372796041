/** enet_uint32 times and the comparisons of time.h. */
module Clock {
  import opened Constants

  type time = t: nat | t < WORD

  /** ENET_TIME_OVERFLOW: a day in milliseconds. */
  const DAY: nat := 86400000

  function Minus(a: time, b: time): time {
    (a + WORD - b) % WORD
  }

  function Plus(a: time, b: nat): time {
    (a + b) % WORD
  }

  /** ENET_TIME_LESS */
  predicate Less(a: time, b: time) {
    Minus(a, b) >= DAY
  }

  /** ENET_TIME_DIFFERENCE */
  function Difference(a: time, b: time): time {
    if Minus(a, b) >= DAY then Minus(b, a) else Minus(a, b)
  }

  /** Times less than a day apart are compared as the moments they stand for, across the wrap. */
  lemma LessIsEarlier(a: nat, b: nat)
    requires a < b + DAY && b < a + DAY
    ensures Less(a % WORD, b % WORD) <==> a < b
    ensures Difference(a % WORD, b % WORD) == if a < b then b - a else a - b
  {
    var lap := if a < b then a / WORD else b / WORD;
    assert a / WORD == lap || a / WORD == lap + 1;
    assert b / WORD == lap || b / WORD == lap + 1;
  }
}
