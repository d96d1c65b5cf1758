/** The presence table: for every peer ever heard from by a beacon, the time
    (in milliseconds) of its latest beacon. Being online is derived, not stored:
    a peer is online while its last beacon is less than fifteen seconds old. */
module Presence {

  /** The liveness window, fifteen seconds, in milliseconds. */
  const LivenessWindow: int := 15000

  /** Recording a beacon from `user` at `now`: its entry becomes `now`, whether or
      not it had one, and every other entry stays as it was. */
  function Touch(table: map<string, int>, user: string, now: int): (r: map<string, int>)
    ensures r.Keys == table.Keys + {user}
    ensures r[user] == now
    ensures forall u :: u in table && u != user ==> r[u] == table[u]
  {
    table[user := now]
  }

  /** The users listed as online at `now`: those whose last beacon is strictly
      later than fifteen seconds before `now`. */
  function Online(table: map<string, int>, now: int): (r: set<string>)
    ensures r <= table.Keys
    ensures forall u :: u in table ==> (u in r <==> now - table[u] < LivenessWindow)
  {
    set u | u in table && table[u] > now - LivenessWindow
  }

  /** A peer touched at `t` is online exactly for the queries made before
      `t + LivenessWindow`; whether any other peer is online does not change. */
  lemma OnlineAfterTouch(table: map<string, int>, user: string, t: int, now: int)
    ensures user in Online(Touch(table, user, t), now) <==> now < t + LivenessWindow
    ensures forall u :: u != user ==> (u in Online(Touch(table, user, t), now) <==> u in Online(table, now))
  {
  }

  /** Without new beacons the online list can only shrink as time passes. */
  lemma OnlineShrinks(table: map<string, int>, earlier: int, later: int)
    requires earlier <= later
    ensures Online(table, later) <= Online(table, earlier)
  {
  }

  /** A later beacon overwrites an earlier one: the peer's last-seen time is the later one. */
  lemma TouchTwice(table: map<string, int>, user: string, t1: int, t2: int)
    ensures Touch(Touch(table, user, t1), user, t2)[user] == t2
    ensures Touch(Touch(table, user, t1), user, t2) == Touch(table, user, t2)
  {
  }
}
