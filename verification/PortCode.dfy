/** The ring buffer and the unicast port of kernel/port.c. */
module PortCode {
  import opened Arith
  import opened Port

  const BUFF_SIZE: nat := 8
  const BUFF_SIZE_BIG: nat := 64

  /** Slot i after head, going round. */
  function Slot(head: nat, i: nat, size: nat): nat
  {
    if head + i < size then head + i else head + i - size
  }

  lemma Step(t: nat, size: nat)
    requires t < size
    ensures (t + 1) % size == Slot(t, 1, size)
  {
    if t + 1 < size {
      SlotOf(t + 1, 0, t + 1, size);
    } else {
      SlotOf(t + 1, 1, 0, size);
    }
  }

  class RingBuf {
    const packet: array<Packet>
    var avail: nat
    var head: nat
    var tail: nat

    ghost predicate Valid()
      reads this, packet
    {
      && 0 < packet.Length && head < packet.Length && avail <= packet.Length
      && tail == Slot(head, packet.Length - avail, packet.Length) && tail < packet.Length
    }

    ghost function Contents(): (s: seq<Packet>)
      requires Valid()
      reads this, packet
      ensures |s| == packet.Length - avail
    {
      seq(packet.Length - avail, i requires 0 <= i < packet.Length - avail reads this, packet requires Valid() =>
        packet[Slot(head, i, packet.Length)])
    }

    constructor (big: bool)
      ensures Valid() && Contents() == [] && packet.Length == (if big then BUFF_SIZE_BIG else BUFF_SIZE)
      ensures fresh(packet)
    {
      var n := if big then BUFF_SIZE_BIG else BUFF_SIZE;
      packet := new Packet[n](_ => "");
      avail, head, tail := n, 0, 0;
    }

    method Put(p: Packet)
      requires Valid() && avail > 0
      modifies this, packet
      ensures Valid() && avail == old(avail) - 1 && Contents() == old(Contents()) + [p]
    {
      Step(tail, packet.Length);
      ghost var was := Contents();
      packet[tail] := p;
      tail := (tail + 1) % packet.Length;
      avail := avail - 1;
      assert forall i :: 0 <= i < |was| ==> Contents()[i] == was[i];
    }

    /** buf_write: all of the packets or none. */
    method Write(ps: seq<Packet>) returns (ok: bool)
      requires Valid()
      modifies this, packet
      ensures Valid() && ok == (|old(Contents())| + |ps| <= packet.Length)
      ensures Contents() == if ok then old(Contents()) + ps else old(Contents())
    {
      if avail < |ps| {
        return false;
      }
      var i: nat := 0;
      assert old(Contents()) + ps[..0] == old(Contents());
      while i < |ps|
        invariant i <= |ps| && Valid() && avail == old(avail) - i
        invariant Contents() == old(Contents()) + ps[..i]
      {
        Put(ps[i]);
        assert ps[..i + 1] == ps[..i] + [ps[i]];
        i := i + 1;
      }
      assert ps[..i] == ps;
      return true;
    }

    method Read() returns (ok: bool, p: Packet)
      requires Valid()
      modifies this
      ensures Valid() && ok == (old(Contents()) != [])
      ensures ok ==> p == old(Contents())[0] && Contents() == old(Contents())[1..]
      ensures !ok ==> Contents() == old(Contents())
    {
      if avail == packet.Length {
        return false, "";
      }
      ghost var was := Contents();
      Step(head, packet.Length);
      p := packet[head];
      head := (head + 1) % packet.Length;
      avail := avail + 1;
      assert Contents() == was[1..];
      return true, p;
    }
  }

  class ReadPort {
    /** READPORT_MAGIC: cleared when the port is closed. */
    var live: bool
    var buf: RingBuf?

    constructor (b: RingBuf)
      ensures live && buf == b
    {
      live, buf := true, b;
    }
  }

  datatype Status = Success | NotAllowed | NotEnoughBuffer | PartialWrite | TimedOut | BadHandle

  /** A unicast write port; sent and got are the packets accepted and read so far. */
  class WritePort {
    var buf: RingBuf?
    var readers: seq<ReadPort>
    ghost var sent: seq<Packet>
    ghost var got: seq<Packet>

    /** The one ring buffer, whoever holds it. */
    ghost function Ring(): RingBuf?
      reads this, if readers == [] then {} else {readers[0]}
    {
      if readers == [] then buf else readers[0].buf
    }

    /** The objects a port is made of. */
    ghost function Parts(): set<object>
      reads this, if readers == [] then {} else {readers[0]}
    {
      {this} + (if readers == [] then {} else {readers[0]})
      + (if Ring() == null then {} else {Ring(), Ring().packet})
    }

    /** The write port holds the buffer exactly when it has no reader. */
    ghost predicate Valid()
      reads this, Parts()
    {
      && |readers| <= 1 && (buf != null <==> readers == [])
      && (readers != [] ==> readers[0].live && readers[0].buf != null)
      && Ring() != null && Ring().Valid() && Ok(Snap())
    }

    ghost function Snap(): State
      reads this, Parts()
    {
      if Ring() != null && Ring().Valid() then
        State(Ring().packet.Length, Ring().Contents(), readers != [], sent, got)
      else State(0, [], readers != [], sent, got)
    }

    constructor (big: bool)
      ensures Valid() && Snap() == Fresh(if big then BUFF_SIZE_BIG else BUFF_SIZE)
    {
      var b := new RingBuf(big);
      buf, readers, sent, got := b, [], [], [];
    }

    /** port_open on this port: the first reader takes the buffer, a second is refused. */
    method OpenReader() returns (st: Status, rp: ReadPort?)
      requires Valid()
      modifies this
      ensures Valid() && Snap() == Next(old(Snap()), Open)
      ensures st == Success <==> !old(Snap()).reader
      ensures st == Success ==> rp != null && fresh(rp) && readers == [rp]
      ensures st != Success ==> rp == null && readers == old(readers)
    {
      if buf != null {
        rp := new ReadPort(buf);
        readers := readers + [rp];
        buf := null;
        return Success, rp;
      }
      return NotAllowed, null;
    }

    /** port_close of the reader: the buffer goes back with what is in it. */
    method CloseReader(rp: ReadPort) returns (st: Status)
      requires Valid() && (rp.live ==> readers == [rp])
      modifies this, rp
      ensures Valid() && !rp.live
      ensures if old(rp.live) then st == Success && Snap() == Next(old(Snap()), Close)
              else st == BadHandle && Snap() == old(Snap())
    {
      if !rp.live {
        return BadHandle;
      }
      readers := readers[..|readers| - 1];
      if readers == [] {
        buf := rp.buf;
        rp.buf := null;
      }
      rp.live := false;
      return Success;
    }

    /** port_write: to the port's own buffer, or to its reader's. */
    method WritePackets(ps: seq<Packet>) returns (st: Status)
      requires Valid()
      modifies Parts()
      ensures Valid() && Snap() == Next(old(Snap()), Write(ps)) && Parts() == old(Parts())
      ensures st == Success <==> |old(Snap()).buffer| + |ps| <= old(Snap()).capacity
      ensures st != Success ==> st == if old(Snap()).reader then PartialWrite else NotEnoughBuffer
    {
      NextKeeps(Snap(), Write(ps));
      var ok: bool;
      if buf != null {
        ok := buf.Write(ps);
        st := if ok then Success else NotEnoughBuffer;
      } else {
        ok := readers[0].buf.Write(ps);
        st := if ok then Success else PartialWrite;
      }
      if ok {
        sent := sent + ps;
      }
    }

    /** port_read with no timeout. */
    method ReadPacket(rp: ReadPort) returns (st: Status, p: Packet)
      requires Valid() && (rp.live ==> readers == [rp])
      modifies Parts()
      ensures Valid() && Parts() == old(Parts())
      ensures st == BadHandle <==> !old(rp.live)
      ensures st == BadHandle ==> Snap() == old(Snap())
      ensures st != BadHandle ==> Snap() == Next(old(Snap()), Read)
      ensures st == Success <==> old(rp.live) && old(Snap()).buffer != []
      ensures st == Success ==> p == old(Snap()).buffer[0]
    {
      if !rp.live {
        return BadHandle, "";
      }
      NextKeeps(Snap(), Read);
      var ok;
      ok, p := rp.buf.Read();
      if !ok {
        return TimedOut, "";
      }
      got := got + [p];
      return Success, p;
    }
  }
}
