/** A running chat node: its user name and the two process-wide tables the
    receive loop updates in place, the set of message ids seen recently and the
    presence table of last beacon times. Every operation here is one locked
    region of the node, taken as atomic. */
module ChatNode {
  import opened Codec
  import Engine
  import Presence

  class Node {
    /** The name this node sends under and filters its own packets by. */
    const userName: string
    /** Ids accepted and not yet removed by their scheduled expiry. */
    var seen: set<string>
    /** Last beacon time, in milliseconds, of every peer heard from. */
    var online: map<string, int>

    /** The node's tables as a value of the receive-step model. */
    function State(): Engine.State
      reads this
    {
      Engine.State(seen, online)
    }

    constructor (userName: string)
      ensures this.userName == userName
      ensures seen == {} && online == map[]
      ensures State() == Engine.Initial
    {
      this.userName := userName;
      seen := {};
      online := map[];
    }

    /** The datagram for a packet of type `kind` with content `content`, under the
        fresh id `id`. When the type, the id and the name hold no '|', any peer
        decodes it to them, with the part of the content before its first '|' as
        text (all of it when the content holds none). */
    method Send(kind: string, id: string, content: string) returns (datagram: string)
      ensures datagram == Encode(kind, id, userName, content)
      ensures Delim !in kind && Delim !in id && Delim !in userName ==>
        && Decode(datagram).Some?
        && Decode(datagram).value.kind == kind
        && Decode(datagram).value.id == id
        && Decode(datagram).value.user == userName
        && IsPartBeforeFirst(Decode(datagram).value.text, content, Delim)
      ensures Delim !in kind && Delim !in id && Delim !in userName && Delim !in content ==>
        Decode(datagram) == Some(Packet(kind, id, userName, content))
    {
      datagram := Encode(kind, id, userName, content);
      if Delim !in kind && Delim !in id && Delim !in userName {
        Truncation(kind, id, userName, content);
        if Delim !in content {
          DecodeEncode(kind, id, userName, content);
        }
      }
    }

    /** The beacon sent every five seconds: an ALIVE packet with empty content. */
    method Heartbeat(id: string) returns (datagram: string)
      ensures datagram == Encode(AliveType, id, userName, "")
      ensures Delim !in id && Delim !in userName ==>
        Decode(datagram) == Some(Packet(AliveType, id, userName, ""))
    {
      datagram := Send(AliveType, id, "");
    }

    /** One pass of the receive loop over `datagram`, received at `now`. Malformed
        datagrams, the node's own packets and ids already seen are dropped with no
        effect; any other packet has its id recorded (and its removal scheduled,
        the `id` of the verdict), then a MSG shows its line and an ALIVE stamps
        its sender with `now`. */
    method Receive(datagram: string, now: int) returns (verdict: Engine.Verdict)
      modifies this
      ensures (State(), verdict) == Engine.Step(old(State()), userName, datagram, now)
      ensures !verdict.Accepted? ==> seen == old(seen) && online == old(online)
      ensures verdict.Accepted? ==> seen == old(seen) + {verdict.id} && verdict.id !in old(seen)
    {
      var p := Split(datagram, Delim);
      if |p| < 4 {
        return Engine.Malformed;
      }
      var kind, id, user, text := p[0], p[1], p[2], p[3];
      if user == userName {
        return Engine.OwnPacket;
      }
      if id in seen {
        return Engine.Duplicate;
      }
      seen := seen + {id};
      if kind == MsgType {
        verdict := Engine.Accepted(id, Some(Engine.Line(user, text)));
      } else {
        if kind == AliveType {
          online := online[user := now];
        }
        verdict := Engine.Accepted(id, None);
      }
    }

    /** The delayed removal of `id` from the seen set; an id already gone is left
        gone, so a second removal changes nothing. */
    method Expire(id: string)
      modifies this
      ensures State() == Engine.Forget(old(State()), id)
      ensures seen == old(seen) - {id} && online == old(online)
      ensures id !in old(seen) ==> seen == old(seen)
    {
      seen := seen - {id};
    }

    /** The users listed by /list at `now`: exactly those whose last beacon is
        strictly later than fifteen seconds before `now`. */
    method ShowOnline(now: int) returns (users: set<string>)
      ensures forall u :: u in users <==> u in online && online[u] > now - Presence.LivenessWindow
      ensures users == Presence.Online(online, now)
    {
      users := Presence.Online(online, now);
    }
  }
}
