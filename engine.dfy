/** The receive step of a chat node as a pure transition over its two tables:
    the set of message ids seen recently and the presence table. One step reads
    one datagram; it drops malformed datagrams, the node's own packets and ids
    already seen, and otherwise records the id, then shows a chat line (MSG) or
    refreshes the sender's presence (ALIVE). The delayed removal of an id from the
    seen set is the separate transition Forget. */
module Engine {
  import opened Codec
  import Presence

  /** The shared state of a node: ids seen and not yet expired, and last beacon times. */
  datatype State = State(seen: set<string>, online: map<string, int>)

  /** A chat line as shown to the user. */
  datatype Line = Line(user: string, text: string)

  /** What became of one datagram. An accepted packet has its id recorded and its
      removal scheduled; `shown` is the chat line it displays, if any. */
  datatype Verdict =
    | Malformed
    | OwnPacket
    | Duplicate
    | Accepted(id: string, shown: Option<Line>)

  /** The state a node starts in. */
  const Initial: State := State({}, map[])

  /** Does the step accept the datagram? It must decode, come from another user
      and carry an id not seen. */
  predicate Accepts(s: State, self: string, datagram: string)
  {
    var d := Decode(datagram);
    d.Some? && d.value.user != self && d.value.id !in s.seen
  }

  /** One pass of the receive loop over `datagram`, received at time `now` by the node named `self`. */
  function Step(s: State, self: string, datagram: string, now: int): (r: (State, Verdict))
    // a datagram that does not decode changes nothing and shows nothing
    ensures Decode(datagram).None? ==> r == (s, Malformed)
    // the node's own packets are dropped whatever the seen set holds
    ensures Decode(datagram).Some? && Decode(datagram).value.user == self ==> r == (s, OwnPacket)
    // an id already seen is dropped, leaving the seen set as it was
    ensures Decode(datagram).Some? && Decode(datagram).value.user != self && Decode(datagram).value.id in s.seen
      ==> r == (s, Duplicate)
    // any other packet, of whatever type, is accepted and its id recorded
    ensures r.1.Accepted? <==> Accepts(s, self, datagram)
    ensures r.1.Accepted? ==> r.1.id == Decode(datagram).value.id && r.1.id !in s.seen
    ensures r.1.Accepted? ==> r.0.seen == s.seen + {r.1.id}
    // only an accepted MSG shows a line, and it shows the sender and the text
    ensures r.1.Accepted? && r.1.shown.Some? <==> Accepts(s, self, datagram) && Decode(datagram).value.kind == MsgType
    ensures r.1.Accepted? && r.1.shown.Some? ==>
      r.1.shown.value == Line(Decode(datagram).value.user, Decode(datagram).value.text)
    // only an accepted ALIVE touches the presence table
    ensures r.0.online == if Accepts(s, self, datagram) && Decode(datagram).value.kind == AliveType
                          then Presence.Touch(s.online, Decode(datagram).value.user, now)
                          else s.online
  {
    match Decode(datagram)
    case None => (s, Malformed)
    case Some(p) =>
      if p.user == self then (s, OwnPacket)
      else if p.id in s.seen then (s, Duplicate)
      else
        var seen := s.seen + {p.id};
        if p.kind == MsgType then (State(seen, s.online), Accepted(p.id, Some(Line(p.user, p.text))))
        else if p.kind == AliveType then (State(seen, Presence.Touch(s.online, p.user, now)), Accepted(p.id, None))
        else (State(seen, s.online), Accepted(p.id, None))
  }

  /** The scheduled removal of `id` from the seen set, five seconds after it was recorded.
      Removing an id that is no longer there changes nothing. */
  function Forget(s: State, id: string): (r: State)
    ensures id !in r.seen && r.online == s.online
    ensures forall x :: x != id ==> (x in r.seen <==> x in s.seen)
    ensures id !in s.seen ==> r == s
  {
    State(s.seen - {id}, s.online)
  }

  /** A datagram and the time it arrived. */
  datatype Arrival = Arrival(datagram: string, now: int)

  /** The receive loop over a sequence of arrivals with no expiry in between:
      the final state and one verdict per arrival. */
  function Run(s: State, self: string, arrivals: seq<Arrival>): (r: (State, seq<Verdict>))
    ensures |r.1| == |arrivals|
    decreases |arrivals|
  {
    if arrivals == [] then (s, [])
    else
      var s1 := Step(s, self, arrivals[0].datagram, arrivals[0].now).0;
      var v := Step(s, self, arrivals[0].datagram, arrivals[0].now).1;
      var (s2, vs) := Run(s1, self, arrivals[1..]);
      (s2, [v] + vs)
  }

  /** Without expiry the seen set only grows, and it ends up holding every id the run accepted. */
  lemma {:induction false} RunSeenGrows(s: State, self: string, arrivals: seq<Arrival>)
    ensures s.seen <= Run(s, self, arrivals).0.seen
    ensures forall i :: 0 <= i < |arrivals| && Run(s, self, arrivals).1[i].Accepted? ==>
      Run(s, self, arrivals).1[i].id in Run(s, self, arrivals).0.seen
    decreases |arrivals|
  {
    if arrivals != [] {
      var s1 := Step(s, self, arrivals[0].datagram, arrivals[0].now).0;
      RunSeenGrows(s1, self, arrivals[1..]);
      var vs := Run(s, self, arrivals).1;
      assert forall i :: 1 <= i < |arrivals| ==> vs[i] == Run(s1, self, arrivals[1..]).1[i - 1];
    }
  }

  /** No accepted verdict carries an id of `seen`. */
  predicate AllFresh(vs: seq<Verdict>, seen: set<string>)
  {
    forall i :: 0 <= i < |vs| && vs[i].Accepted? ==> vs[i].id !in seen
  }

  /** No two accepted verdicts carry the same id. */
  predicate NoRepeatedId(vs: seq<Verdict>)
  {
    forall i, j :: 0 <= i < j < |vs| && vs[i].Accepted? && vs[j].Accepted? ==> vs[i].id != vs[j].id
  }

  /** Deduplication: until its removal, an id is accepted at most once, and never
      when it was already in the seen set. So a chat line re-delivered any number
      of times is shown once. */
  lemma {:induction false} AcceptedAtMostOnce(s: State, self: string, arrivals: seq<Arrival>)
    ensures AllFresh(Run(s, self, arrivals).1, s.seen)
    ensures NoRepeatedId(Run(s, self, arrivals).1)
    decreases |arrivals|
  {
    if arrivals != [] {
      var step := Step(s, self, arrivals[0].datagram, arrivals[0].now);
      var rest := Run(step.0, self, arrivals[1..]).1;
      AcceptedAtMostOnce(step.0, self, arrivals[1..]);
      assert Run(s, self, arrivals).1 == [step.1] + rest;
      StepRecordsId(s, self, arrivals[0].datagram, arrivals[0].now);
      FreshPrepend(step.1, rest, s.seen, step.0.seen);
    }
  }

  /** One step keeps every id already seen, and an id it accepts was not seen before and is seen after. */
  lemma StepRecordsId(s: State, self: string, datagram: string, now: int)
    ensures var r := Step(s, self, datagram, now);
      s.seen <= r.0.seen && (r.1.Accepted? ==> r.1.id !in s.seen && r.1.id in r.0.seen)
  {
  }

  /** Putting in front a verdict whose id is new before and recorded after keeps the ids fresh and distinct. */
  lemma FreshPrepend(v: Verdict, rest: seq<Verdict>, before: set<string>, after: set<string>)
    requires AllFresh(rest, after) && NoRepeatedId(rest)
    requires before <= after
    requires v.Accepted? ==> v.id !in before && v.id in after
    ensures AllFresh([v] + rest, before) && NoRepeatedId([v] + rest)
  {
    var vs := [v] + rest;
    forall i | 1 <= i < |vs| && vs[i].Accepted?
      ensures vs[i].id !in before && (v.Accepted? ==> vs[i].id != v.id)
    {
      assert vs[i] == rest[i - 1];
    }
    forall i, j | 1 <= i < j < |vs| && vs[i].Accepted? && vs[j].Accepted?
      ensures vs[i].id != vs[j].id
    {
      assert vs[i] == rest[i - 1] && vs[j] == rest[j - 1];
    }
  }

  /** No shown line carries the node's own name as its sender, and a run never
      touches the node's own presence entry. A name holding '|' defeats this
      filter (see Scenarios.OwnPacketEchoedWhenNameHasDelim). */
  lemma {:induction false} NoOwnLines(s: State, self: string, arrivals: seq<Arrival>)
    ensures var vs := Run(s, self, arrivals).1;
      forall i :: 0 <= i < |vs| && vs[i].Accepted? && vs[i].shown.Some? ==> vs[i].shown.value.user != self
    ensures self in Run(s, self, arrivals).0.online <==> self in s.online
    ensures self in s.online ==> Run(s, self, arrivals).0.online[self] == s.online[self]
    decreases |arrivals|
  {
    if arrivals != [] {
      var s1 := Step(s, self, arrivals[0].datagram, arrivals[0].now).0;
      var v := Step(s, self, arrivals[0].datagram, arrivals[0].now).1;
      NoOwnLines(s1, self, arrivals[1..]);
      var vs := Run(s, self, arrivals).1;
      assert vs == [v] + Run(s1, self, arrivals[1..]).1;
    }
  }

  /** After the scheduled removal of an accepted id, the same datagram is accepted
      again as a new message, with the same effect. */
  lemma AcceptedAgainAfterForget(s: State, self: string, datagram: string, now: int, later: int)
    requires Accepts(s, self, datagram)
    ensures var (s1, v) := Step(s, self, datagram, now);
      Step(Forget(s1, v.id), self, datagram, later).1 == v
  {
  }
}
