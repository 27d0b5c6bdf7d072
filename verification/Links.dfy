// The link manager of one process: which connections lead to which process, and the control frames it
// answers with.
module Links {
  import opened Common

  type ConnectionId = nat

  datatype LinkState = Idle | Handshaking | Active | Closed
  datatype Link = Link(connection: ConnectionId, remote: ProcessRef, state: LinkState)

  const UNKNOWN_PROCESS := ProcessRef(ProcessId(0, 0), 0)

  // Control messages as they are exchanged. A hello may come without the identity of its sender.
  datatype AckResult = AckUnspecified | AckOk | AckIncompatible
  datatype Message =
    | Hello(sender: Option<ProcessRef>, version: U32, minVersion: U32)
    | HelloAck(result: AckResult)
    | Ping | Pong | Close

  const CONTROL: U16 := 1

  // A frame for the link manager; a payload that does not parse carries no message.
  datatype ControlFrame = ControlFrame(connection: ConnectionId, kind: U16, message: Option<Message>)

  const NO_LINK := Failure("link not found")
  const REJECTED := Failure("hello_ack rejected")
  const INCOMPATIBLE := Failure("incompatible protocol version")
  const NO_IDENTITY := Failure("hello message missing process identity")

  // ----- one link -----

  predicate IsProtocolCompatible(mine: U32, hello: Message)
    requires hello.Hello?
  {
    hello.version != 0 && hello.version >= mine && hello.minVersion <= mine
  }

  function HelloFrom(self: ProcessRef, version: U32): Message {
    Hello(Some(self), version, version)
  }

  // A process accepts exactly the hello of its own version, and version 0 from nobody.
  lemma OnlyTheSameVersionIsCompatible(mine: U32, peer: ProcessRef, theirs: U32)
    ensures IsProtocolCompatible(mine, HelloFrom(peer, theirs)) <==> mine == theirs && theirs != 0
  {
  }

  // The connection is up. A link that already exists keeps what it knows of its peer.
  function Opened(link: Option<Link>, id: ConnectionId): Link {
    Link(id, if link.Some? then link.value.remote else UNKNOWN_PROCESS, Handshaking)
  }

  // A control message on a connection: the link afterwards, the answers and the result.
  function Received(version: U32, id: ConnectionId, link: Option<Link>, m: Message)
    : (Option<Link>, seq<Message>, Result)
  {
    match m
    case Hello(None, _, _) => (link, [], NO_IDENTITY)
    case Hello(Some(peer), _, _) =>
      if IsProtocolCompatible(version, m) then (Some(Link(id, peer, Active)), [HelloAck(AckOk)], Success)
      else (Some(Link(id, peer, Closed)), [HelloAck(AckIncompatible)], INCOMPATIBLE)
    case HelloAck(result) =>
      if link.None? then (link, [], NO_LINK)
      else if result.AckOk? then (Some(link.value.(state := Active)), [], Success)
      else (Some(link.value.(state := Closed)), [], REJECTED)
    case Ping => (link, [Pong], Success)
    case Pong => (link, [], Success)
    case Close => (link, [], Success)
  }

  // A ping is answered with one pong, on every connection and in every state; neither it nor a pong or a
  // close changes a link, and nothing answers those. An acknowledgement is never answered.
  lemma AnswersOfControl(version: U32, id: ConnectionId, link: Option<Link>, m: Message)
    ensures var (link', answers, result) := Received(version, id, link, m);
            && (m.Ping? ==> answers == [Pong])
            && (m.Ping? || m.Pong? || m.Close? ==> link' == link && result.Success?)
            && (m.Pong? || m.Close? || m.HelloAck? ==> answers == [])
            && (m.Hello? ==> |answers| <= 1 && (answers == [] <==> m.sender.None?))
            && (result.Success? && link'.Some? && (link.None? || link.value.state != link'.value.state) ==>
                  link'.value.state.Active?)
  {
  }

  // ----- the manager -----

  function Tagged(id: ConnectionId, messages: seq<Message>): seq<ControlFrame> {
    seq(|messages|, i requires 0 <= i < |messages| => ControlFrame(id, CONTROL, Some(messages[i])))
  }

  class LinkManager {
    const self: ProcessRef
    const version: U32
    var links: map<ConnectionId, Link>
    var outbound: seq<ControlFrame>

    constructor (self: ProcessRef, version: U32)
      ensures this.self == self && this.version == version && links == map[] && outbound == []
    {
      this.self, this.version, links, outbound := self, version, map[], [];
    }

    function LinkOf(id: ConnectionId): Option<Link>
      reads this
    {
      if id in links then Some(links[id]) else None
    }

    method QueueFrame(id: ConnectionId, message: Message)
      modifies this`outbound
      ensures outbound == old(outbound) + Tagged(id, [message])
    {
      outbound := outbound + [ControlFrame(id, CONTROL, Some(message))];
    }

    method OnConnected(id: ConnectionId)
      modifies this`links, this`outbound
      ensures links == old(links)[id := Opened(old(LinkOf(id)), id)]
      ensures outbound == old(outbound) + Tagged(id, [HelloFrom(self, version)])
    {
      if id !in links {
        links := links[id := Link(0, UNKNOWN_PROCESS, Idle)];
      }
      links := links[id := links[id].(connection := id)];
      links := links[id := links[id].(state := Handshaking)];
      QueueFrame(id, HelloFrom(self, version));
    }

    method OnDisconnected(id: ConnectionId)
      modifies this`links
      ensures links == old(links) - {id}
    {
      links := links - {id};
    }

    method OnFrame(frame: ControlFrame) returns (result: Result)
      modifies this`links, this`outbound
      ensures frame.kind != CONTROL || frame.message.None? ==>
        !result.Success? && links == old(links) && outbound == old(outbound)
      ensures frame.kind == CONTROL && frame.message.Some? ==>
        var (link, answers, expected) := Received(version, frame.connection, old(LinkOf(frame.connection)),
                                                  frame.message.value);
        && LinkOf(frame.connection) == link && result == expected
        && outbound == old(outbound) + Tagged(frame.connection, answers)
        && links - {frame.connection} == old(links) - {frame.connection}
    {
      if frame.kind != CONTROL {
        return Failure("unsupported frame kind");
      }
      if frame.message.None? {
        return Failure("invalid control message");
      }
      var id := frame.connection;
      match frame.message.value {
        case Hello(_, _, _) =>
          result := HandleHello(id, frame.message.value);
        case HelloAck(answer) =>
          if id !in links {
            return NO_LINK;
          }
          if answer != AckOk {
            links := links[id := links[id].(state := Closed)];
            return REJECTED;
          }
          links := links[id := links[id].(state := Active)];
          result := Success;
        case Ping =>
          QueueFrame(id, Pong);
          result := Success;
        case Pong => result := Success;
        case Close => result := Success;
      }
    }

    method HandleHello(id: ConnectionId, hello: Message) returns (result: Result)
      requires hello.Hello?
      modifies this`links, this`outbound
      ensures var (link, answers, expected) := Received(version, id, old(LinkOf(id)), hello);
              && LinkOf(id) == link && result == expected
              && outbound == old(outbound) + Tagged(id, answers)
              && links - {id} == old(links) - {id}
    {
      if hello.sender.None? {
        return NO_IDENTITY;
      }
      if !IsProtocolCompatible(version, hello) {
        links := links[id := Link(id, hello.sender.value, Closed)];
        QueueFrame(id, HelloAck(AckIncompatible));
        return INCOMPATIBLE;
      }
      links := links[id := Link(id, hello.sender.value, Active)];
      QueueFrame(id, HelloAck(AckOk));
      result := Success;
    }

    method DrainOutboundFrames() returns (frames: seq<ControlFrame>)
      modifies this`outbound
      ensures frames == old(outbound) && outbound == []
    {
      frames := outbound;
      outbound := [];
    }

    predicate Leads(id: ConnectionId, target: ProcessRef)
      reads this
    {
      id in links && links[id].state.Active? && links[id].remote == target
    }

    method FindConnection(target: ProcessRef) returns (found: Option<ConnectionId>)
      ensures found.Some? ==> Leads(found.value, target)
      ensures found.None? ==> forall id :: !Leads(id, target)
    {
      var rest := links.Keys;
      while rest != {}
        invariant forall id :: Leads(id, target) ==> id in rest
        decreases rest
      {
        var id :| id in rest;
        if id in links && links[id].state.Active? && links[id].remote == target {
          return Some(id);
        }
        rest := rest - {id};
      }
      found := None;
    }

    method HasHealthyDirectLink(target: ProcessRef) returns (healthy: bool)
      ensures healthy <==> exists id :: Leads(id, target)
    {
      var found := FindConnection(target);
      healthy := found.Some?;
    }
  }
}
