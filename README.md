# MulticastChat node, modelled in Dafny

MulticastChat is a console chat in which every node joins one IP multicast
group and sends two kinds of packet there: chat lines (`MSG`) and a liveness
beacon (`ALIVE`, empty content) every five seconds. A packet is the text
`TYPE|ID|SENDER|CONTENT`. A receiving node splits each datagram on `|` and
drops it when fewer than four fields come out. It also drops packets carrying
its own user name and packets whose id it has seen in the last five seconds.
Every other packet has its id recorded; then a chat line is shown, or the
sender's last-beacon time is set. `/list` shows the users whose last beacon is
less than fifteen seconds old.

The model is one sequential state machine with time and message ids passed in
as plain values:

- `Codec` (codec.dfy): the wire format. `Split` follows .NET's
  `String.Split(char)` and is specified against its inverse `Join`. `Encode`
  builds the packet text and `Decode` gives the first four fields, or nothing.
  Proved: the round trip when no field holds `|`, and the truncation of the
  content at its first `|` when it does.
- `Presence` (presence.dfy): the presence table as a map from user to
  last-beacon time in milliseconds, with `Touch` (one beacon) and `Online`
  (the `/list` filter, window 15000 ms).
- `Engine` (engine.dfy): one pass of the receive loop as the pure transition
  `Step` over the seen-id set and the presence table, plus `Forget`, the
  delayed removal of an id. `Run` is the loop over a sequence of arrivals.
  Proved: the filter cases, that without expiry an id is accepted at most once,
  and that no shown line carries the node's own name as its sender; a name
  holding `|` defeats this filter (see
  `Scenarios.OwnPacketEchoedWhenNameHasDelim`).
- `Scenarios` (scenarios.dfy): end-to-end facts joining the codec to the
  receive step.
- `ChatNode` (node.dfy): the node as a class. It holds `seen` and `online` as
  fields that `Receive` and `Expire` update in place; each method's
  postcondition ties the new fields to `Engine.Step` / `Engine.Forget`.
  `Send`, `Heartbeat` and `ShowOnline` only read the node.

The filter `last-seen > now - 15 s` (Program.cs:94) keeps a peer that
beaconed at 0 s and 5 s listed until just before 20 s;
`Scenarios.BeaconsThenSilence` states this.

## Model

| member | source | states |
|---|---|---|
| Codec.Split | Program.cs:67 | splitting gives one more field than there are separators, no field holds the separator, and joining the fields back gives the datagram |
| Codec.SplitJoin | Program.cs:67 | splitting undoes joining when no field contains the separator |
| Codec.SplitHead | Program.cs:67-70 | the first field of a split is the part of the text before its first separator |
| Codec.Encode | Program.cs:57 | the packet text is three characters longer than its four fields, one separator between each pair; `Codec.EncodeIsJoin`, `Codec.SplitEncode`, `Codec.DecodeEncode` and `Codec.Truncation` state what it is and what a receiver reads back from it |
| Codec.EncodeIsJoin | Program.cs:57 | the packet text is exactly the four fields joined by the separator, with nothing escaped |
| Codec.Decode | Program.cs:67-70 | the datagram is dropped exactly when it holds fewer than three separators, so fewer than four fields; a decoded field never holds the separator |
| Codec.SplitEncode | Program.cs:57-67 | an encoded packet splits into its type, id and sender, followed by the split of its content |
| Codec.DecodeEncode | Program.cs:57-70 | round trip: a packet whose four fields hold no separator decodes to exactly those fields |
| Codec.Truncation | Program.cs:57-70 | when the content holds the separator, type, id and sender still decode intact and the text is only the content before its first separator; later fields are ignored |
| Codec.DecodeFields | Program.cs:67-70 | any datagram that decodes is its three decoded header fields joined by the separator and followed by a rest, and the decoded text is the part of that rest before its first separator |
| Presence.Touch | Program.cs:81 | a beacon sets the sender's last-seen time to now, adds the sender if new, and leaves every other entry unchanged |
| Presence.Online | Program.cs:94 | the online list holds exactly the users of the table whose last beacon is less than 15000 ms before now |
| Presence.OnlineAfterTouch | Program.cs:81-94 | a peer stamped at t is listed exactly for queries before t + 15000 ms; the listing of other peers is unaffected |
| Presence.OnlineShrinks | Program.cs:94 | without new beacons the online list only shrinks as time passes |
| Presence.TouchTwice | Program.cs:81 | a later beacon overwrites an earlier one (last writer wins) |
| Engine.Step | Program.cs:67-81 | malformed datagrams, own packets (whatever the seen set) and already seen ids leave both tables unchanged and show nothing; any other packet, whatever its type, is accepted and adds its id to the seen set; only an accepted MSG shows a line (its sender and text); only an accepted ALIVE stamps its sender with now |
| Engine.Forget | Program.cs:77 | the delayed removal takes the id out of the seen set, leaves the rest alone, and is a no-op for an absent id |
| Engine.Run | Program.cs:64-82 | the receive loop gives one verdict per datagram |
| Engine.RunSeenGrows | Program.cs:74-75 | without expiry the seen set only grows and holds every id accepted |
| Engine.AcceptedAtMostOnce | Program.cs:74-75 | until its removal an id is accepted at most once, and never when it was already seen |
| Engine.NoOwnLines | Program.cs:74-81 | a run never shows a line from the node's own name and never changes its own presence entry |
| Engine.AcceptedAgainAfterForget | Program.cs:74-77 | once the accepted id has been removed, the same datagram is accepted again with the same verdict |
| Scenarios.OwnPacketDropped | Program.cs:57-74 | a node's own packet is dropped with no effect, whatever the seen set and the content, when its name, type and id hold no separator |
| Scenarios.OwnPacketEchoedWhenNameHasDelim | Program.cs:57-80 | a node whose name holds the separator (`a`, separator, `b`) reads its own line `hi` back as the line `b` from user `a` |
| Scenarios.ChatShownOnce | Program.cs:57-80 | a chat line delivered twice before expiry is shown once; the second copy is a duplicate |
| Scenarios.BeaconMarksOnline | Program.cs:57-94 | a beacon from another peer with a fresh id makes that peer listed for exactly the next 15000 ms |
| Scenarios.BeaconsThenSilence | Program.cs:81-94 | beacons at 0 s and 5 s: listed at 14 s, 16 s and 19.999 s, not at 20 s |
| Scenarios.ThreeFieldsDropped | Program.cs:67-68 | a datagram with only the three fields `MSG`, `id1`, `X` is dropped with no effect |
| ChatNode.Node.constructor | Program.cs:18-19 | a node starts with an empty seen set and an empty presence table |
| ChatNode.Node.Send | Program.cs:54-58 | the packet text decodes at any peer to the sent type, id, sender and content when none holds the separator; when the type, id and name hold no separator, it decodes to them, with the part of the content before its first separator as text (all of it when the content holds none) |
| ChatNode.Node.Heartbeat | Program.cs:87 | the beacon is the ALIVE packet with the node's name and empty content, and decodes as such when neither the id nor the name holds the separator |
| ChatNode.Node.Receive | Program.cs:64-81 | one pass of the receive loop updates the fields exactly as `Engine.Step` does; dropped datagrams change nothing; an accepted one adds its id, which was not in the set before |
| ChatNode.Node.Expire | Program.cs:77 | the delayed removal takes the id out of the seen set; removing an absent id changes nothing |
| ChatNode.Node.ShowOnline | Program.cs:94 | `/list` gives exactly the users whose last beacon is strictly later than now minus 15000 ms |

## Left out

- Console input and output: reading the name, the prompt, the `/list` dispatch, cursor repositioning and printing (Program.cs:24-25, 35-51). A shown chat line is the `shown` part of the verdict. `/list` is the set `ShowOnline` returns.
- Socket set-up, bind, multicast join, sending and receiving (Program.cs:27-30, 59, 66): datagrams are strings, and `Send` returns the text it would transmit.
- UTF-8 encoding and decoding (Program.cs:58, 67) are the identity on strings. Invalid byte sequences are not modelled.
- `Guid.NewGuid()` for message and session ids (Program.cs:15, 56) is randomness. The id is a parameter. The session id is unused by the protocol.
- Tasks, timers and the lock (Program.cs:32-33, 72, 77, 81, 87, 92). Each locked region is taken as atomic. The source releases the lock between the dedup check and the ALIVE update, and the model runs both in one step. The five-second delayed removal is the explicit `Expire` / `Forget`, called by the environment. The model does not enforce that it comes five seconds later. The heartbeat loop is one `Heartbeat` call per beat.
- `DateTime.Now` (Program.cs:81, 94) is an integer count of milliseconds passed in. Sub-millisecond clock precision is not modelled.
- The display order of `/list`, which is the dictionary's enumeration order. The model gives a set.
