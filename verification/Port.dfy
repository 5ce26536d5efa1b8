/** A unicast message port of kernel/port.c, as values, and what every run of its operations keeps. */
module Port {
  import opened Lists

  type Packet = string

  /** buffer: the packets waiting; reader: a read port is open; sent and got: accepted and read so far. */
  datatype State = State(capacity: nat, buffer: seq<Packet>, reader: bool, sent: seq<Packet>, got: seq<Packet>)

  datatype Op = Open | Close | Write(packets: seq<Packet>) | Read

  /** A second open is refused, a write that does not fit is refused whole, a read of nothing reads nothing. */
  function Next(s: State, op: Op): State
  {
    match op
    case Open => s.(reader := true)
    case Close => s.(reader := false)
    case Write(ps) =>
      if |s.buffer| + |ps| <= s.capacity then s.(buffer := s.buffer + ps, sent := s.sent + ps) else s
    case Read =>
      if s.reader && s.buffer != [] then s.(buffer := s.buffer[1..], got := s.got + [s.buffer[0]]) else s
  }

  /** Nothing lost, nothing invented, nothing out of order. */
  predicate Ok(s: State)
  {
    s.sent == s.got + s.buffer && |s.buffer| <= s.capacity
  }

  /** The packets a step accepts. */
  function Accepts(s: State, op: Op): seq<Packet>
  {
    if op.Write? && |s.buffer| + |op.packets| <= s.capacity then op.packets else []
  }

  /** The packets a step hands to the reader. */
  function Hands(s: State, op: Op): seq<Packet>
  {
    if op.Read? && s.reader && s.buffer != [] then [s.buffer[0]] else []
  }

  lemma NextKeeps(s: State, op: Op)
    requires Ok(s)
    ensures Ok(Next(s, op)) && Next(s, op).capacity == s.capacity
    ensures Next(s, op).sent == s.sent + Accepts(s, op) && Next(s, op).got == s.got + Hands(s, op)
  {
    match op
    case Open =>
    case Close =>
    case Write(ps) =>
      Assoc(s.got, s.buffer, ps);
    case Read =>
      if s.reader && s.buffer != [] {
        assert s.buffer == [s.buffer[0]] + s.buffer[1..];
        Assoc(s.got, [s.buffer[0]], s.buffer[1..]);
      }
  }

  function Run(s: State, ops: seq<Op>): State
    decreases |ops|
  {
    if ops == [] then s else Next(Run(s, ops[..|ops| - 1]), ops[|ops| - 1])
  }

  /** The packets accepted over a run, in order. */
  function Accepted(s: State, ops: seq<Op>): seq<Packet>
    decreases |ops|
  {
    if ops == [] then []
    else Accepted(s, ops[..|ops| - 1]) + Accepts(Run(s, ops[..|ops| - 1]), ops[|ops| - 1])
  }

  /** The packets read over a run, in order. */
  function Received(s: State, ops: seq<Op>): seq<Packet>
    decreases |ops|
  {
    if ops == [] then []
    else Received(s, ops[..|ops| - 1]) + Hands(Run(s, ops[..|ops| - 1]), ops[|ops| - 1])
  }

  function Fresh(capacity: nat): State
  {
    State(capacity, [], false, [], [])
  }

  lemma {:induction false} RunKeeps(s: State, ops: seq<Op>)
    requires Ok(s)
    ensures Ok(Run(s, ops)) && Run(s, ops).capacity == s.capacity
    ensures Run(s, ops).sent == s.sent + Accepted(s, ops) && Run(s, ops).got == s.got + Received(s, ops)
    decreases |ops|
  {
    if ops == [] {
      assert s.sent + [] == s.sent && s.got + [] == s.got;
    } else {
      var early, op := ops[..|ops| - 1], ops[|ops| - 1];
      RunKeeps(s, early);
      var t := Run(s, early);
      NextKeeps(t, op);
      Assoc(s.sent, Accepted(s, early), Accepts(t, op));
      Assoc(s.got, Received(s, early), Hands(t, op));
    }
  }

  /** Over any run the packets read are a prefix of the packets accepted, and the rest is still waiting. */
  lemma InOrder(capacity: nat, ops: seq<Op>)
    ensures Accepted(Fresh(capacity), ops) == Received(Fresh(capacity), ops) + Run(Fresh(capacity), ops).buffer
    ensures Received(Fresh(capacity), ops) <= Accepted(Fresh(capacity), ops)
  {
    var s := Fresh(capacity);
    RunKeeps(s, ops);
    assert [] + Accepted(s, ops) == Accepted(s, ops);
    assert [] + Received(s, ops) == Received(s, ops);
  }
}
