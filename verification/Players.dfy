/** `player_mgr`: which players are online, as decided by who enters and leaves. */
module Players {

  type I32 = n: int | -0x8000_0000 <= n < 0x8000_0000
  type U32 = n: int | 0 <= n < 0x1_0000_0000

  /** The conversions between a message's signed uid and a session's unsigned one. */
  function ToU32(n: I32): U32 { n % 0x1_0000_0000 }
  function ToI32(n: U32): I32 { if n < 0x8000_0000 then n else n - 0x1_0000_0000 }

  lemma UidSurvives(uid: I32)
    ensures ToI32(ToU32(uid)) == uid && (ToU32(uid) == 0 <==> uid == 0)
  {
  }

  datatype Presence = Online | Offline
  type Table = map<I32, Presence>

  function AfterEnter(players: Table, uid: I32): Table { players[uid := Online] }

  function AfterLeave(players: Table, uid: I32): Table {
    if uid in players then players[uid := Offline] else players
  }

  datatype Visit = Entered(uid: I32) | Left(uid: I32)

  function Replay(visits: seq<Visit>): Table {
    if visits == [] then map[]
    else
      var before := Replay(visits[..|visits| - 1]);
      match visits[|visits| - 1]
      case Entered(uid) => AfterEnter(before, uid)
      case Left(uid) => AfterLeave(before, uid)
  }

  /** The index of the last visit of this uid, if it ever entered: visits before the first Enter leave no trace. */
  ghost predicate LastVisit(visits: seq<Visit>, uid: I32, i: nat) {
    && i < |visits| && visits[i].uid == uid
    && forall j :: i < j < |visits| ==> visits[j].uid != uid
  }

  /** A player is known exactly if its uid ever entered, and its last visit decides its state. */
  lemma {:induction false} LastVisitDecides(visits: seq<Visit>, uid: I32)
    ensures uid in Replay(visits) <==> Entered(uid) in visits
    ensures uid in Replay(visits) ==>
      exists i: nat ::
        LastVisit(visits, uid, i) && Replay(visits)[uid] == if visits[i].Entered? then Online else Offline
  {
    if visits != [] {
      var n := |visits| - 1;
      var front := visits[..n];
      LastVisitDecides(front, uid);
      assert visits == front + [visits[n]];
      if visits[n].uid == uid {
        assert LastVisit(visits, uid, n);
      } else if uid in Replay(front) {
        var i: nat :| LastVisit(front, uid, i) && Replay(front)[uid] == if front[i].Entered? then Online else Offline;
        assert LastVisit(visits, uid, i) && visits[i] == front[i];
      }
    }
  }

  class PlayerMgr {
    var players: Table
    ghost var visits: seq<Visit>

    ghost predicate Valid()
      reads this
    {
      players == Replay(visits)
    }

    constructor ()
      ensures Valid() && players == map[] && visits == []
    {
      players := map[];
      visits := [];
    }

    /** `enter`: a new player is created online, a known one goes online. */
    method Enter(uid: I32)
      requires Valid()
      modifies this
      ensures Valid() && visits == old(visits) + [Entered(uid)] && players == AfterEnter(old(players), uid)
      ensures uid in players && players[uid] == Online && players.Keys == old(players.Keys) + {uid}
      ensures forall u :: u in old(players) && u != uid ==> players[u] == old(players)[u]
    {
      players := players[uid := Online];
      visits := visits + [Entered(uid)];
      assert visits[..|visits| - 1] == old(visits);
    }

    /** `leave`: a known player goes offline, an unknown one is ignored. */
    method Leave(uid: I32)
      requires Valid()
      modifies this
      ensures Valid() && visits == old(visits) + [Left(uid)] && players == AfterLeave(old(players), uid)
      ensures players.Keys == old(players.Keys) && (uid in players ==> players[uid] == Offline)
      ensures forall u :: u in old(players) && u != uid ==> players[u] == old(players)[u]
    {
      if uid in players {
        players := players[uid := Offline];
      }
      visits := visits + [Left(uid)];
      assert visits[..|visits| - 1] == old(visits);
    }
  }
}
