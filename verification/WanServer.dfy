/** `wan_server`: the session table, and what it does to the players. */
module WanServer {
  import opened Players

  /** The session table (a uid for each connected id, 0 until it enters) together with the players. */
  datatype Hall = Hall(sessions: map<nat, U32>, players: Table)

  /** `add_session`: `insert` keeps an entry that is already there. */
  function AfterJoin(h: Hall, id: nat): Hall {
    if id in h.sessions then h else h.(sessions := h.sessions[id := 0])
  }

  /** `handle_enter` once the message is parsed; the lookup must find a session. */
  function AfterUid(h: Hall, id: nat, uid: I32): Hall
    requires id in h.sessions
  {
    Hall(h.sessions[id := ToU32(uid)], AfterEnter(h.players, uid))
  }

  /** `del_session`; the lookup must find a session. */
  function AfterDrop(h: Hall, id: nat): Hall
    requires id in h.sessions
  {
    Hall(h.sessions - {id},
         if h.sessions[id] > 0 then AfterLeave(h.players, ToI32(h.sessions[id])) else h.players)
  }

  // ------------------------------------------------------------------ presence

  predicate Carries(sessions: map<nat, U32>, id: nat, uid: I32) {
    id in sessions && sessions[id] > 0 && ToI32(sessions[id]) == uid
  }

  ghost predicate Carried(sessions: map<nat, U32>, uid: I32) {
    exists id :: Carries(sessions, id, uid)
  }

  ghost predicate CarriedElsewhere(sessions: map<nat, U32>, id: nat, uid: I32) {
    exists other :: other != id && Carries(sessions, other, uid)
  }

  predicate IsOnline(players: Table, uid: I32) { uid in players && players[uid] == Online }

  /** A player is online exactly when some live session carries its uid. */
  ghost predicate PresenceAgrees(h: Hall) {
    forall uid :: IsOnline(h.players, uid) <==> Carried(h.sessions, uid)
  }

  /** Every uid a session carries is a known player. */
  ghost predicate UidsAreKnown(h: Hall) {
    forall id :: id in h.sessions && h.sessions[id] > 0 ==> ToI32(h.sessions[id]) in h.players
  }

  /** No uid is carried by two sessions. */
  ghost predicate UidsAreDistinct(h: Hall) {
    forall i, j :: i in h.sessions && j in h.sessions && h.sessions[i] > 0 && h.sessions[i] == h.sessions[j] ==> i == j
  }

  lemma CarriedAfterChange(before: map<nat, U32>, after: map<nat, U32>, id: nat, uid: I32)
    requires forall other :: other != id ==>
      (other in before <==> other in after) && (other in before ==> before[other] == after[other])
    ensures Carried(after, uid) <==> Carries(after, id, uid) || CarriedElsewhere(before, id, uid)
    ensures CarriedElsewhere(before, id, uid) <==> CarriedElsewhere(after, id, uid)
  {
    if CarriedElsewhere(before, id, uid) {
      var other :| other != id && Carries(before, other, uid);
      assert Carries(after, other, uid);
    }
    if CarriedElsewhere(after, id, uid) {
      var other :| other != id && Carries(after, other, uid);
      assert Carries(before, other, uid);
    }
    if Carried(after, uid) {
      var other :| Carries(after, other, uid);
      if other != id { assert Carries(before, other, uid); }
    }
  }

  /** An Enter keeps presence in agreement exactly if its uid is not 0 and the uid the session carried before, if
      any, is the same or is carried by another session as well: the old player is never sent offline. */
  lemma EnterKeepsPresenceExactly(h: Hall, id: nat, uid: I32)
    requires PresenceAgrees(h) && id in h.sessions
    ensures PresenceAgrees(AfterUid(h, id, uid)) <==>
      uid != 0 && (h.sessions[id] == 0 || ToI32(h.sessions[id]) == uid
                   || CarriedElsewhere(h.sessions, id, ToI32(h.sessions[id])))
  {
    var h' := AfterUid(h, id, uid);
    UidSurvives(uid);
    forall u
      ensures IsOnline(h'.players, u) <==> u == uid || Carried(h.sessions, u)
      ensures Carried(h'.sessions, u) <==> (u == uid && uid != 0) || CarriedElsewhere(h.sessions, id, u)
      ensures Carried(h.sessions, u) <==> Carries(h.sessions, id, u) || CarriedElsewhere(h.sessions, id, u)
    {
      assert IsOnline(h.players, u) <==> Carried(h.sessions, u);
      CarriedAfterChange(h.sessions, h'.sessions, id, u);
      CarriedAfterChange(h.sessions, h.sessions, id, u);
    }
    if uid == 0 {
      assert IsOnline(h'.players, 0) && !Carried(h'.sessions, 0);
    } else if h.sessions[id] > 0 {
      var was := ToI32(h.sessions[id]);
      assert Carries(h.sessions, id, was);
      assert IsOnline(h'.players, was);
    }
  }

  /** A disconnect keeps presence in agreement exactly if no other session carries the uid. */
  lemma LeaveKeepsPresenceExactly(h: Hall, id: nat)
    requires PresenceAgrees(h) && id in h.sessions
    ensures PresenceAgrees(AfterDrop(h, id)) <==>
      h.sessions[id] == 0 || !CarriedElsewhere(h.sessions, id, ToI32(h.sessions[id]))
  {
    var h' := AfterDrop(h, id);
    forall u
      ensures Carried(h'.sessions, u) <==> CarriedElsewhere(h.sessions, id, u)
      ensures Carried(h.sessions, u) <==> Carries(h.sessions, id, u) || CarriedElsewhere(h.sessions, id, u)
      ensures IsOnline(h'.players, u) <==> Carried(h.sessions, u) && !Carries(h.sessions, id, u)
    {
      assert IsOnline(h.players, u) <==> Carried(h.sessions, u);
      CarriedAfterChange(h.sessions, h'.sessions, id, u);
      CarriedAfterChange(h.sessions, h.sessions, id, u);
    }
    if h.sessions[id] > 0 {
      var was := ToI32(h.sessions[id]);
      assert Carries(h.sessions, id, was);
      assert !IsOnline(h'.players, was);
    }
  }

  lemma JoinKeepsPresence(h: Hall, id: nat)
    requires PresenceAgrees(h)
    ensures PresenceAgrees(AfterJoin(h, id))
  {
    var h' := AfterJoin(h, id);
    forall u ensures IsOnline(h'.players, u) <==> Carried(h'.sessions, u) {
      assert IsOnline(h.players, u) <==> Carried(h.sessions, u);
      CarriedAfterChange(h.sessions, h'.sessions, id, u);
      CarriedAfterChange(h.sessions, h.sessions, id, u);
    }
  }

  /** Two sessions that enter with one uid: when the first disconnects, the player is offline although the second
      is still there. */
  lemma SharedUidGoesOffline()
    ensures var h := AfterUid(AfterUid(AfterJoin(AfterJoin(Hall(map[], map[]), 1), 2), 1, 7), 2, 7);
      PresenceAgrees(h) && !PresenceAgrees(AfterDrop(h, 1))
  {
    var h0 := AfterJoin(AfterJoin(Hall(map[], map[]), 1), 2);
    assert PresenceAgrees(h0);
    var h1 := AfterUid(h0, 1, 7);
    EnterKeepsPresenceExactly(h0, 1, 7);
    var h2 := AfterUid(h1, 2, 7);
    EnterKeepsPresenceExactly(h1, 2, 7);
    assert Carries(h2.sessions, 2, 7);
    LeaveKeepsPresenceExactly(h2, 1);
  }

  /** A session that enters twice with different uids leaves the first player online for good. */
  lemma ReenteringLeavesAPlayerBehind()
    ensures var h := AfterUid(AfterJoin(Hall(map[], map[]), 1), 1, 7);
      PresenceAgrees(h) && !PresenceAgrees(AfterUid(h, 1, 8))
  {
    var h0 := AfterJoin(Hall(map[], map[]), 1);
    assert PresenceAgrees(h0);
    EnterKeepsPresenceExactly(h0, 1, 7);
    EnterKeepsPresenceExactly(AfterUid(h0, 1, 7), 1, 8);
  }

  // ------------------------------------------------------- presence over handler calls

  /** A call of one of the three handlers. */
  datatype Call = Join(id: nat) | Enter(id: nat, uid: I32) | Drop(id: nat)

  /** The session it looks up is there. */
  predicate Finds(h: Hall, c: Call) { c.Join? || c.id in h.sessions }

  function AfterCall(h: Hall, c: Call): Hall
    requires Finds(h, c)
  {
    match c
    case Join(id) => AfterJoin(h, id)
    case Enter(id, uid) => AfterUid(h, id, uid)
    case Drop(id) => AfterDrop(h, id)
  }

  predicate AllFind(h: Hall, calls: seq<Call>)
    decreases |calls|
  {
    calls == [] || (Finds(h, calls[0]) && AllFind(AfterCall(h, calls[0]), calls[1..]))
  }

  function AfterCalls(h: Hall, calls: seq<Call>): Hall
    requires AllFind(h, calls)
    decreases |calls|
  {
    if calls == [] then h else AfterCalls(AfterCall(h, calls[0]), calls[1..])
  }

  /** What a client has to do for presence to stay in agreement: enter with a uid that is not 0, keep it unless another
      session carries it too, and share none when leaving. */
  ghost predicate Considerate(h: Hall, c: Call)
    requires Finds(h, c)
  {
    match c
    case Join(_) => true
    case Enter(id, uid) =>
      uid != 0 && (h.sessions[id] == 0 || ToI32(h.sessions[id]) == uid
                   || CarriedElsewhere(h.sessions, id, ToI32(h.sessions[id])))
    case Drop(id) => h.sessions[id] == 0 || !CarriedElsewhere(h.sessions, id, ToI32(h.sessions[id]))
  }

  ghost predicate AllConsiderate(h: Hall, calls: seq<Call>)
    requires AllFind(h, calls)
    decreases |calls|
  {
    calls == [] || (Considerate(h, calls[0]) && AllConsiderate(AfterCall(h, calls[0]), calls[1..]))
  }

  /** Presence agrees before and after every call. */
  ghost predicate AgreesThroughout(h: Hall, calls: seq<Call>)
    requires AllFind(h, calls)
    decreases |calls|
  {
    PresenceAgrees(h) && (calls == [] || AgreesThroughout(AfterCall(h, calls[0]), calls[1..]))
  }

  /** Presence agrees all along exactly if every call is considerate. */
  lemma {:induction false} PresenceExactly(h: Hall, calls: seq<Call>)
    requires PresenceAgrees(h) && AllFind(h, calls)
    ensures AgreesThroughout(h, calls) <==> AllConsiderate(h, calls)
    decreases |calls|
  {
    if calls != [] {
      var c := calls[0];
      match c {
        case Join(id) => JoinKeepsPresence(h, id);
        case Enter(id, uid) => EnterKeepsPresenceExactly(h, id, uid);
        case Drop(id) => LeaveKeepsPresenceExactly(h, id);
      }
      if PresenceAgrees(AfterCall(h, c)) { PresenceExactly(AfterCall(h, c), calls[1..]); }
    }
  }

  lemma {:induction false} CallsConcat(h: Hall, a: seq<Call>, b: seq<Call>)
    requires AllFind(h, a) && AllFind(AfterCalls(h, a), b)
    ensures AllFind(h, a + b) && AfterCalls(h, a + b) == AfterCalls(AfterCalls(h, a), b)
    decreases |a|
  {
    if a == [] {
      assert a + b == b;
    } else {
      assert (a + b)[0] == a[0] && (a + b)[1..] == a[1..] + b;
      CallsConcat(AfterCall(h, a[0]), a[1..], b);
    }
  }

  class WanServer {
    var sessions: map<nat, U32>
    const playerMgr: PlayerMgr

    ghost predicate Valid()
      reads this, playerMgr
    {
      playerMgr.Valid() && UidsAreKnown(View())
    }

    ghost function View(): Hall
      reads this, playerMgr
    {
      Hall(sessions, playerMgr.players)
    }

    constructor (playerMgr: PlayerMgr)
      requires playerMgr.Valid()
      ensures Valid() && sessions == map[] && this.playerMgr == playerMgr
    {
      this.playerMgr := playerMgr;
      sessions := map[];
    }

    /** The on_connect callback. */
    method AddSession(id: nat)
      requires Valid()
      modifies this
      ensures Valid() && View() == AfterJoin(old(View()), id)
    {
      if id !in sessions {
        sessions := sessions[id := 0];
      }
    }

    /** `handle_enter` on a message that parses; the result says that the handler accepts. */
    method HandleEnter(id: nat, uid: I32) returns (accepted: bool)
      requires Valid() && id in sessions
      modifies this, playerMgr
      ensures Valid() && accepted && View() == AfterUid(old(View()), id, uid)
    {
      UidSurvives(uid);
      sessions := sessions[id := ToU32(uid)];
      playerMgr.Enter(uid);
      accepted := true;
    }

    /** The on_disconnect callback. */
    method DelSession(id: nat)
      requires Valid() && id in sessions
      modifies this, playerMgr
      ensures Valid() && View() == AfterDrop(old(View()), id)
    {
      var uid := sessions[id];
      if uid > 0 {
        playerMgr.Leave(ToI32(uid));
      }
      sessions := sessions - {id};
    }
  }
}
