// The TCP transport: sending frames on a connection and the loop that reads them, over a socket that
// takes and gives bytes in pieces of its own choosing.
module Transport {
  import opened Common
  import opened Framing

  // One end of a connection. incoming are the bytes the peer has sent or will send before it closes,
  // outgoing those taken from this end, and broken says that the connection has failed.
  class Socket {
    var incoming: Bytes
    var outgoing: Bytes
    var broken: bool

    constructor (incoming: Bytes)
      ensures this.incoming == incoming && outgoing == [] && !broken
    {
      this.incoming, outgoing, broken := incoming, [], false;
    }

    // Takes some bytes of the stream into buffer[at..at + size], at least one; nothing at the end of the
    // stream and after a failure.
    method Recv(buffer: array<Byte>, at: nat, size: nat) returns (count: nat)
      requires size > 0 && at + size <= buffer.Length
      modifies this`incoming, this`broken, buffer
      ensures count <= size && count <= |old(incoming)| && incoming == old(incoming)[count..]
      ensures buffer[..at] == old(buffer[..at]) && buffer[at..at + count] == old(incoming)[..count]
      ensures count == 0 <==> old(incoming) == [] || broken
      ensures old(broken) ==> broken
    {
      if * {
        broken := true;
      }
      count := 0;
      if !broken && incoming != [] {
        count :| 0 < count <= size && count <= |incoming|;
      }
      ghost var before, failed := buffer[..at], broken;
      for i := 0 to count
        invariant incoming == old(incoming) && broken == failed && buffer[..at] == before
        invariant buffer[at..at + i] == incoming[..i]
      {
        buffer[at + i] := incoming[i];
      }
      incoming := incoming[count..];
    }

    // Takes some of the bytes data[at..at + size], at least one; none after a failure.
    method Send(data: array<Byte>, at: nat, size: nat) returns (count: nat)
      requires size > 0 && at + size <= data.Length
      modifies this`outgoing, this`broken
      ensures count <= size && outgoing == old(outgoing) + data[at..at + count]
      ensures count == 0 <==> broken
      ensures old(broken) ==> broken
    {
      if * {
        broken := true;
      }
      count := 0;
      if !broken {
        count :| 0 < count <= size;
      }
      outgoing := outgoing + data[at..at + count];
    }
  }

  // Fills the first size bytes of the buffer, or fails because the stream ends or breaks before.
  method ReadExact(socket: Socket, buffer: array<Byte>, size: nat) returns (ok: bool)
    requires size <= buffer.Length
    modifies socket`incoming, socket`broken, buffer
    ensures ok ==> size <= |old(socket.incoming)| &&
                   buffer[..size] == old(socket.incoming)[..size] && socket.incoming == old(socket.incoming)[size..]
    ensures !ok ==> socket.broken || |old(socket.incoming)| < size
    ensures |socket.incoming| <= |old(socket.incoming)|
    ensures socket.broken && size > 0 ==> !ok
    ensures old(socket.broken) ==> socket.broken
  {
    var total := 0;
    ghost var stream := socket.incoming;
    while total < size
      invariant total <= size && total <= |stream|
      invariant socket.incoming == stream[total..] && buffer[..total] == stream[..total]
      invariant socket.broken && size > 0 ==> total == 0
      invariant old(socket.broken) ==> socket.broken
    {
      var count := socket.Recv(buffer, total, size - total);
      if count == 0 {
        return false;
      }
      assert buffer[..total + count] == buffer[..total] + buffer[total..total + count];
      total := total + count;
    }
    ok := true;
  }

  // Sends the first size bytes, or fails after some of them because the connection breaks.
  method WriteExact(socket: Socket, data: array<Byte>, size: nat) returns (ok: bool)
    requires size <= data.Length
    modifies socket`outgoing, socket`broken
    ensures ok ==> socket.outgoing == old(socket.outgoing) + data[..size]
    ensures !ok ==> socket.broken && exists k :: 0 <= k < size && socket.outgoing == old(socket.outgoing) + data[..k]
    ensures size > 0 ==> ok == !socket.broken
    ensures old(socket.broken) ==> socket.broken
  {
    var total := 0;
    while total < size
      invariant total <= size
      invariant socket.outgoing == old(socket.outgoing) + data[..total]
      invariant socket.broken && size > 0 ==> total == 0
      invariant old(socket.broken) ==> socket.broken
    {
      var count := socket.Send(data, total, size - total);
      if count == 0 {
        assert socket.outgoing == old(socket.outgoing) + data[..total];
        return false;
      }
      assert data[..total + count] == data[..total] + data[total..total + count];
      total := total + count;
    }
    ok := true;
  }

  type ConnectionId = nat

  // What the upper layers are told.
  datatype Event = Disconnected(id: ConnectionId)

  const NOT_FOUND := Failure("connection not found")
  const SEND_FAILED := Failure("send failed")

  class TcpTransport {
    var connections: map<ConnectionId, Socket>
    var nextConnectionId: ConnectionId
    var events: seq<Event>
    var received: seq<(ConnectionId, Frame)>  // what the frame handler was given

    constructor ()
      ensures connections == map[] && nextConnectionId == 1 && events == [] && received == []
    {
      connections, nextConnectionId, events, received := map[], 1, [], [];
    }

    // Ids that were given out are below the next one, so no id is used twice.
    ghost predicate Valid()
      reads this
    {
      nextConnectionId > 0 && forall id :: id in connections ==> 0 < id < nextConnectionId
    }

    method AddConnection(socket: Socket) returns (id: ConnectionId)
      requires Valid()
      modifies this`connections, this`nextConnectionId
      ensures Valid() && id !in old(connections) && id == old(nextConnectionId) && nextConnectionId == id + 1
      ensures connections == old(connections)[id := socket]
    {
      id := nextConnectionId;
      nextConnectionId := nextConnectionId + 1;
      connections := connections[id := socket];
    }

    // Drops a connection, and tells the upper layers unless the drop is a silent one.
    method HandleDisconnect(id: ConnectionId, notify: bool)
      modifies this`connections, this`events
      ensures connections == old(connections) - {id}
      ensures events == if notify && id in old(connections) then old(events) + [Disconnected(id)] else old(events)
    {
      if id !in connections {
        return;
      }
      connections := connections - {id};
      if notify {
        events := events + [Disconnected(id)];
      }
    }

    // A frame goes out whole, or the connection is gone and the peer is left with a part of it.
    method Send(id: ConnectionId, frame: Frame) returns (result: Result)
      modifies this`connections, this`events, if id in connections then {connections[id]} else {}
      ensures id !in old(connections) ==>
        result == NOT_FOUND && connections == old(connections) && events == old(events)
      ensures id in old(connections) && result.Success? ==>
        && connections == old(connections) && events == old(events)
        && old(connections)[id].outgoing == old(connections[id].outgoing) + Wire(frame)
        && old(connections)[id].incoming == old(connections[id].incoming)
      ensures id in old(connections) && !result.Success? ==>
        && connections == old(connections) - {id} && events == old(events) + [Disconnected(id)]
        && exists k :: 0 <= k < |Wire(frame)| &&
             old(connections)[id].outgoing == old(connections[id].outgoing) + Wire(frame)[..k]
    {
      if id !in connections {
        return NOT_FOUND;
      }
      var ok := WriteFrame(connections[id], frame);
      if !ok {
        HandleDisconnect(id, true);
        return SEND_FAILED;
      }
      result := Success;
    }

    // Header first, then the payload if there is one.
    method WriteFrame(socket: Socket, frame: Frame) returns (ok: bool)
      modifies socket`outgoing, socket`broken
      ensures ok ==> socket.outgoing == old(socket.outgoing) + Wire(frame)
      ensures !ok ==> exists k :: 0 <= k < |Wire(frame)| && socket.outgoing == old(socket.outgoing) + Wire(frame)[..k]
    {
      var header := SerializeFrameHeader(frame.header);
      ok := WriteExact(socket, header, header.Length);
      if !ok {
        ghost var k :| 0 <= k < HEADER_SIZE && socket.outgoing == old(socket.outgoing) + header[..k];
        assert header[..k] == Wire(frame)[..k];
        return;
      }
      assert socket.outgoing == old(socket.outgoing) + HeaderBytes(frame.header);
      if frame.payload == [] {
        assert Wire(frame) == HeaderBytes(frame.header);
        return;
      }
      var payload := new Byte[|frame.payload|](i requires 0 <= i < |frame.payload| => frame.payload[i]);
      assert payload[..] == frame.payload;
      ok := WriteExact(socket, payload, payload.Length);
      Regroup(old(socket.outgoing), HeaderBytes(frame.header), frame.payload);
      if !ok {
        ghost var k :| 0 <= k < |frame.payload| &&
          socket.outgoing == old(socket.outgoing) + HeaderBytes(frame.header) + payload[..k];
        assert payload[..k] == frame.payload[..k];
        CutInPayload(frame, old(socket.outgoing), k);
      }
    }

    static lemma CutInPayload(frame: Frame, before: Bytes, k: nat)
      requires k <= |frame.payload|
      ensures before + HeaderBytes(frame.header) + frame.payload[..k] == before + Wire(frame)[..HEADER_SIZE + k]
    {
      assert Wire(frame)[..HEADER_SIZE + k] == HeaderBytes(frame.header) + frame.payload[..k];
      Regroup(before, HeaderBytes(frame.header), frame.payload[..k]);
    }

    // One round of the reader: a whole frame with the protocol's magic, or the end of the reading.
    method ReadFrame(socket: Socket) returns (frame: Option<Frame>)
      modifies socket`incoming, socket`broken
      ensures frame.Some? ==> FramesIn(old(socket.incoming)) == [frame.value] + FramesIn(socket.incoming) &&
                              |socket.incoming| < |old(socket.incoming)|
      ensures frame.None? ==> socket.broken || FramesIn(old(socket.incoming)) == []
      ensures old(socket.broken) ==> frame.None? && socket.broken
    {
      ghost var stream := socket.incoming;
      var bytes := new Byte[HEADER_SIZE](_ => 0);
      var ok := ReadExact(socket, bytes, bytes.Length);
      if !ok {
        return None;
      }
      var header;
      ok, header := DeserializeFrameHeader(bytes, bytes.Length, FrameHeader(MAGIC, VERSION, 1, 0));
      if !ok {
        return None;
      }
      var payload := new Byte[header.length](_ => 0);
      if header.length > 0 {
        ok := ReadExact(socket, payload, payload.Length);
        if !ok {
          return None;
        }
      }
      assert bytes[..] == bytes[..HEADER_SIZE] && payload[..] == payload[..header.length];
      frame := Some(Frame(header, payload[..]));
    }

    // Reads until the stream ends, breaks or stops making sense, and then drops the connection. The
    // handler is given exactly the frames of the stream, or its first ones if the connection breaks.
    method ReaderLoop(id: ConnectionId)
      modifies this`connections, this`events, this`received, if id in connections then {connections[id]} else {}
      ensures connections == old(connections) - {id}
      ensures id !in old(connections) ==> received == old(received) && events == old(events)
      ensures id in old(connections) ==>
        && events == old(events) + [Disconnected(id)]
        && exists frames :: received == old(received) + Tagged(id, frames) &&
             (if old(connections)[id].broken then frames <= FramesIn(old(connections[id].incoming))
              else frames == FramesIn(old(connections[id].incoming)))
    {
      if id !in connections {
        return;
      }
      var socket := connections[id];
      ghost var all, frames := FramesIn(socket.incoming), [];
      while true
        invariant id in connections && connections[id] == socket
        invariant connections == old(connections) && events == old(events)
        invariant all == frames + FramesIn(socket.incoming)
        invariant received == old(received) + Tagged(id, frames)
        decreases |socket.incoming|
      {
        var frame := ReadFrame(socket);
        if frame.None? {
          break;
        }
        received := received + [(id, frame.value)];
        frames := frames + [frame.value];
      }
      HandleDisconnect(id, true);
    }
  }

  function Tagged(id: ConnectionId, frames: seq<Frame>): seq<(ConnectionId, Frame)> {
    seq(|frames|, i requires 0 <= i < |frames| => (id, frames[i]))
  }
}
