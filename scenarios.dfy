/** End-to-end properties that join the wire format to the receive step: what a
    node does with the datagrams its peers (and it itself) put on the wire. */
module Scenarios {
  import opened Codec
  import opened Engine
  import Presence

  /** A node never takes its own packets back, whatever its seen set holds and
      whatever the content, provided its name, the type and the id hold no '|'. */
  lemma OwnPacketDropped(s: State, self: string, kind: string, id: string, content: string, now: int)
    requires Delim !in self && Delim !in kind && Delim !in id
    ensures Step(s, self, Encode(kind, id, self, content), now) == (s, OwnPacket)
  {
    Truncation(kind, id, self, content);
  }

  /** The self filter compares the decoded sender with the node's name, so a name
      holding '|' does not survive the trip: the node named "a|b" reads its own
      chat line "hi" back, as the line "b" from a user "a". */
  lemma OwnPacketEchoedWhenNameHasDelim()
    ensures Step(Initial, "a|b", Encode(MsgType, "id", "a|b", "hi"), 0).1
         == Accepted("id", Some(Line("a", "b")))
  {
    var datagram := Encode(MsgType, "id", "a|b", "hi");
    assert datagram == Encode(MsgType, "id", "a", "b|hi");
    SplitEncode(MsgType, "id", "a", "b|hi");
    SplitField("b", Delim, "hi");
    SplitNoDelim("hi", Delim);
    assert Decode(datagram) == Some(Packet(MsgType, "id", "a", "b"));
  }

  /** A chat line delivered twice before its id expires is shown exactly once. */
  lemma ChatShownOnce(s: State, self: string, peer: string, id: string, text: string, t1: int, t2: int)
    requires Delim !in peer && Delim !in id && Delim !in text
    requires peer != self && id !in s.seen
    ensures var datagram := Encode(MsgType, id, peer, text);
      Run(s, self, [Arrival(datagram, t1), Arrival(datagram, t2)]).1
        == [Accepted(id, Some(Line(peer, text))), Duplicate]
  {
    DecodeEncode(MsgType, id, peer, text);
    var datagram := Encode(MsgType, id, peer, text);
    var arrivals := [Arrival(datagram, t1), Arrival(datagram, t2)];
    assert arrivals[1..] == [Arrival(datagram, t2)];
    assert arrivals[1..][1..] == [];
  }

  /** A beacon from another peer with a fresh id makes that peer online for
      exactly the fifteen seconds that follow it. */
  lemma BeaconMarksOnline(s: State, self: string, peer: string, id: string, now: int, query: int)
    requires Delim !in peer && Delim !in id
    requires peer != self && id !in s.seen
    ensures var after := Step(s, self, Encode(AliveType, id, peer, ""), now).0;
      peer in Presence.Online(after.online, query) <==> query < now + Presence.LivenessWindow
  {
    DecodeEncode(AliveType, id, peer, "");
  }

  /** Beacons from X at 0 s and at 5 s, then silence: X is listed at 14 s, still
      at 16 s and at 19.999 s, and no longer from 20 s on. */
  lemma BeaconsThenSilence()
    ensures var s1 := Step(Initial, "Y", Encode(AliveType, "b0", "X", ""), 0).0;
      var s2 := Step(s1, "Y", Encode(AliveType, "b5", "X", ""), 5000).0;
      && "X" in Presence.Online(s2.online, 14000)
      && "X" in Presence.Online(s2.online, 16000)
      && "X" in Presence.Online(s2.online, 19999)
      && "X" !in Presence.Online(s2.online, 20000)
  {
    DecodeEncode(AliveType, "b0", "X", "");
    DecodeEncode(AliveType, "b5", "X", "");
  }

  /** A datagram with only three fields is dropped without any effect. */
  lemma ThreeFieldsDropped(s: State, self: string, now: int)
    ensures Step(s, self, "MSG|id1|X", now) == (s, Malformed)
  {
  }
}
