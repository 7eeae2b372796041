/** What one end of a channel sends: whole packets, and packets cut into fragments. */
module Messages {
  import opened Bytes
  import opened Bitmap
  import opened Windows

  /** A packet and the fragment length it is cut by; unit 0 means it goes out whole. */
  datatype Message = Message(data: seq<byte>, unit: nat)

  /** ENET_PROTOCOL_MAXIMUM_PACKET_SIZE and ENET_PROTOCOL_MAXIMUM_FRAGMENT_COUNT. */
  datatype Limits = Limits(packetSize: nat, fragments: nat)

  /** Messages as enet_peer_send makes them. */
  predicate Sendable(lim: Limits, m: Message) {
    && |m.data| <= lim.packetSize
    && (m.unit > 0 ==> |m.data| > m.unit && Pieces(m) <= lim.fragments)
  }

  predicate AllSendable(lim: Limits, sent: seq<Message>) {
    forall k | 0 <= k < |sent| :: Sendable(lim, sent[k])
  }

  /** The fragments of a message, 1 for a packet sent whole. */
  function Pieces(m: Message): nat {
    if m.unit == 0 then 1 else (|m.data| + m.unit - 1) / m.unit
  }

  function Offset(m: Message, j: nat): nat { j * m.unit }

  function PieceEnd(m: Message, j: nat): nat {
    if m.unit == 0 || Offset(m, j + 1) > |m.data| then |m.data| else Offset(m, j + 1)
  }

  lemma PieceBounds(m: Message, j: nat)
    requires j < Pieces(m) && (m.unit > 0 ==> |m.data| > m.unit)
    ensures Offset(m, j) <= PieceEnd(m, j) <= |m.data|
    ensures m.unit > 0 ==> Offset(m, j) < PieceEnd(m, j)
    ensures m.unit > 0 ==> 1 < Pieces(m)
  {
    if m.unit > 0 {
      var n := Pieces(m);
      assert n * m.unit <= |m.data| + m.unit - 1;
      Product(j + 1, n, m.unit);
      assert (j + 1) * m.unit == j * m.unit + m.unit;
      if n <= 1 { Product(n, 1, m.unit); }
    }
  }

  function Piece(m: Message, j: nat): seq<byte>
    requires j < Pieces(m) && (m.unit > 0 ==> |m.data| > m.unit)
  {
    PieceBounds(m, j);
    m.data[Offset(m, j)..PieceEnd(m, j)]
  }

  /** The pieces tile the packet: every byte lies in exactly one of them. */
  lemma PiecesTile(m: Message, b: nat) returns (j: nat)
    requires b < |m.data| && (m.unit > 0 ==> |m.data| > m.unit)
    ensures j < Pieces(m) && Offset(m, j) <= b < PieceEnd(m, j)
    ensures forall i: nat | i < Pieces(m) && Offset(m, i) <= b < PieceEnd(m, i) :: i == j
  {
    if m.unit == 0 { j := 0; return; }
    j := b / m.unit;
    assert j * m.unit <= b < (j + 1) * m.unit by { assert b == j * m.unit + b % m.unit; }
    var n := Pieces(m);
    assert |m.data| + m.unit - 1 < (n + 1) * m.unit;
    assert (n + 1) * m.unit == n * m.unit + m.unit;
    if n <= j { Product(n, j, m.unit); }
    forall i: nat | i < Pieces(m) && Offset(m, i) <= b < PieceEnd(m, i) ensures i == j {
      if i < j { Product(i + 1, j, m.unit); } else if j < i { Product(j + 1, i, m.unit); }
    }
  }

  // ----- sequence numbers -----

  /** The unbounded sequence number of the first piece of message i. */
  function First(sent: seq<Message>, i: nat): (n: nat)
    requires i <= |sent|
    ensures 0 < n
    decreases i
  {
    if i == 0 then 1 else First(sent, i - 1) + Pieces(sent[i - 1])
  }

  lemma {:induction false} FirstIncreases(lim: Limits, sent: seq<Message>, i: nat, j: nat)
    requires i < j <= |sent| && AllSendable(lim, sent)
    ensures First(sent, i) + Pieces(sent[i]) <= First(sent, j)
    ensures 0 < Pieces(sent[i])
    decreases j
  {
    assert Sendable(lim, sent[i]) && Sendable(lim, sent[j - 1]);
    PiecesPositive(sent[i]);
    if i < j - 1 {
      PiecesPositive(sent[j - 1]);
      FirstIncreases(lim, sent, i, j - 1);
    }
  }

  lemma PiecesPositive(m: Message)
    requires m.unit > 0 ==> |m.data| > m.unit
    ensures 0 < Pieces(m)
  {
    if m.unit > 0 { AtLeastOne(|m.data| + m.unit - 1, m.unit); }
  }

  lemma AtLeastOne(a: nat, b: nat)
    requires 0 < b <= a
    ensures 1 <= a / b
  {
  }

  // ----- commands on the wire -----

  datatype Command =
    | SendReliable(number: nat, data: seq<byte>)
    | SendFragment(number: nat, start: nat, index: nat, count: nat, offset: nat, total: nat, data: seq<byte>)

  /** Piece j of a message whose first piece has the unbounded number first. */
  function CommandOf(m: Message, first: nat, j: nat): Command
    requires j < Pieces(m) && (m.unit > 0 ==> |m.data| > m.unit)
  {
    if m.unit == 0 then SendReliable(Cut(first), m.data)
    else SendFragment(Cut(first + j), Cut(first), j, Pieces(m), Offset(m, j), |m.data|, Piece(m, j))
  }

  /** Commands that are sent once.  number is the reliable number of the header. */
  datatype LooseCommand =
    | SendUnreliable(number: nat, unreliable: nat, data: seq<byte>)
    | SendUnsequenced(group: nat, data: seq<byte>)
    | SendUnreliableFragment(number: nat, start: nat, index: nat, count: nat, offset: nat, total: nat, data: seq<byte>)

  /** What was asked to be sent unreliably: base is the unbounded number of the last reliable command
      before it on the channel. */
  datatype LoosePacket =
    | Sequenced(base: nat, unreliable: nat, message: Message)
    | Unsequenced(group: nat, data: seq<byte>)

  predicate Cuttable(m: Message) {
    m.unit > 0 ==> |m.data| > m.unit
  }

  predicate Packetable(p: LoosePacket) {
    p.Sequenced? ==> Cuttable(p.message)
  }

  function LooseCommandOf(p: LoosePacket, j: nat): LooseCommand
    requires Packetable(p) && (p.Sequenced? ==> j < Pieces(p.message))
  {
    match p
    case Unsequenced(group, data) => SendUnsequenced(group, data)
    case Sequenced(base, unreliable, m) =>
      if m.unit == 0 then SendUnreliable(Cut(base), unreliable, m.data)
      else SendUnreliableFragment(Cut(base), unreliable, j, Pieces(m), Offset(m, j), |m.data|, Piece(m, j))
  }
}
