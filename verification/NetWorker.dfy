/** `net_worker` as it runs: the methods that change the slots in place and the completion handlers, proved to take
    the steps of the slot machine. */
module NetWorker {
  import opened WorkerSlot
  import opened Players
  import WanServer
  import opened SlotMachine

  lemma OneMoreConnect(ids: set<nat>, id: nat)
    requires id !in ids
    ensures Connects(ids + {id}) == Connects(ids) + multiset{Connect(id)}
  {
    forall op: Op ensures Connects(ids + {id})[op] == (Connects(ids) + multiset{Connect(id)})[op] {
      ConnectsCount(ids, op.id);
      ConnectsCount(ids + {id}, op.id);
    }
  }

  /** The parse of a read is over: the Enter messages have taken effect. */
  function AfterParse(w: Worker, id: nat, uids: seq<I32>): Worker
    requires uids != [] ==> id in w.hall.sessions
  {
    Completed(w, Read(id)).(hall := AfterUids(w.hall, id, uids))
  }

  /** What is left to do then makes it a step of the machine. */
  lemma ParsedRead(w: Worker, id: nat, uids: seq<I32>, closes: bool)
    requires Inv(w) && Read(id) in w.pending && (uids != [] ==> id !in w.outward)
    ensures uids != [] ==> id in w.hall.sessions
    ensures var e, w' := if closes then ReadClose(id, uids) else ReadOn(id, uids), AfterParse(w, id, uids);
      && LookupsFind(w, e) && (closes ==> CloseFinds(w', id)) && Inv(Apply(w, e))
      && Apply(w, e) == if closes then Closed(w', id) else w'.(pending := w'.pending + multiset{Read(id)})
    ensures w.pending - multiset{Read(id)} + multiset{Read(id)} == w.pending
  {
    var e := if closes then ReadClose(id, uids) else ReadOn(id, uids);
    LookupsFindExactly(w, e);
    EventKeepsInv(w, e);
    if closes {
      assert id in w.hall.sessions.Keys <==> id in AfterUids(w.hall, id, uids).sessions.Keys;
    }
  }

  class NetWorker {
    var status: map<nat, NetStatus>
    var outward: set<nat>
    var pending: multiset<Op>
    var listening: bool
    var calls: seq<(nat, bool)>
    const wan: WanServer.WanServer

    ghost function View(): Worker
      reads this, wan, wan.playerMgr
    {
      Worker(status, outward, pending, listening, wan.View(), calls)
    }

    ghost predicate Valid()
      reads this, wan, wan.playerMgr
    {
      wan.Valid() && Inv(View())
    }

    /** `init`: slots 1 to `pointerNum`, all free. */
    constructor (pointerNum: nat, wan: WanServer.WanServer)
      requires wan.Valid() && wan.View() == WanServer.Hall(map[], map[])
      ensures Valid() && Init(View()) && forall id :: id in status <==> 1 <= id <= pointerNum
    {
      status := map[];
      outward, pending, calls := {}, multiset{}, [];
      listening := false;
      this.wan := wan;
      new;
      for id := 1 to pointerNum + 1
        invariant forall i :: i in status <==> 1 <= i < id
        invariant forall i :: i in status ==> status[i].Unconnect?
        invariant View() == Worker(status, {}, multiset{}, false, wan.View(), []) && wan.Valid()
        invariant wan.View() == WanServer.Hall(map[], map[])
      {
        status := status[id := Unconnect];
      }
      InitInv(View());
    }

    ghost predicate SomeFree()
      reads this, wan, wan.playerMgr
    {
      exists id :: IsFree(View(), id)
    }

    /** `pop_pointer`: some free slot, now waiting, or 0 if the pool is exhausted. */
    method PopPointer() returns (id: nat)
      requires 0 !in status
      modifies this`status
      ensures old(SomeFree()) ==> IsFree(old(View()), id) && status == old(status)[id := Waiting]
      ensures !old(SomeFree()) ==> id == 0 && status == old(status)
    {
      var ids := status.Keys;
      while ids != {}
        invariant ids <= status.Keys && status == old(status)
        invariant forall i :: i in status && i !in ids ==> !status[i].Unconnect?
        decreases ids
      {
        var i :| i in ids;
        ids := ids - {i};
        if status[i].Unconnect? {
          assert IsFree(old(View()), i);
          status := status[i := Waiting];
          return i;
        }
      }
      id := 0;
    }

    /** `push_bullet`. */
    method PushBullet() returns (id: nat)
      requires Valid() && SomeFree() && 0 !in status
      modifies this
      ensures Valid() && Enabled(old(View()), Event.PushBullet(id))
      ensures View() == Apply(old(View()), Event.PushBullet(id))
      ensures IsFree(old(View()), id) && status == old(status)[id := Waiting]
      ensures outward == old(outward) + {id} && pending == old(pending)
    {
      ghost var before := View();
      id := PopPointer();
      outward := outward + {id};
      EventKeepsInv(before, Event.PushBullet(id));
    }

    method StartAccept() returns (id: nat)
      requires wan.Valid() && SomeFree() && 0 !in status
      modifies this`status, this`pending
      ensures IsFree(old(View()), id) && View() == SlotMachine.StartAccept(old(View()), id)
      ensures status == old(status)[id := Waiting] && pending == old(pending) + multiset{Accept(id)}
    {
      id := PopPointer();
      pending := pending + multiset{Accept(id)};
    }

    /** `open`, once the acceptor listens. */
    method Open() returns (id: nat)
      requires Valid() && SomeFree() && 0 !in status && !listening
      modifies this
      ensures Valid() && Enabled(old(View()), Event.Open(id)) && View() == Apply(old(View()), Event.Open(id))
      ensures listening && pending == old(pending) + multiset{Accept(id)}
    {
      ghost var before := View();
      id := StartAccept();
      listening := true;
      EventKeepsInv(before, Event.Open(id));
    }

    method StartConnect(id: nat)
      modifies this`pending
      ensures pending == old(pending) + multiset{Connect(id)}
    {
      pending := pending + multiset{Connect(id)};
    }

    /** The loop of `shoot`. */
    method ConnectOutward()
      modifies this`pending
      ensures pending == old(pending) + Connects(outward)
      ensures forall op: Op :: pending[op] == old(pending)[op] + if op.Connect? && op.id in outward then 1 else 0
    {
      var ids := outward;
      ghost var done := {};
      while ids != {}
        invariant ids !! done && ids + done == outward
        invariant pending == old(pending) + Connects(done)
        decreases ids
      {
        var id :| id in ids;
        ids := ids - {id};
        StartConnect(id);
        OneMoreConnect(done, id);
        done := done + {id};
      }
      assert done == outward;
      forall op: Op ensures pending[op] == old(pending)[op] + if op.Connect? && op.id in outward then 1 else 0 {
        ConnectsCount(outward, op.id);
      }
    }

    /** `shoot`: a connect for every outward slot, none of which may have an operation outstanding. */
    method Shoot()
      requires Valid() && ReadyToShoot(View())
      modifies this
      ensures Valid() && View() == Apply(old(View()), Event.Shoot)
      ensures forall op: Op :: pending[op] == old(pending)[op] + if op.Connect? && op.id in outward then 1 else 0
    {
      ghost var before := View();
      ConnectOutward();
      EventKeepsInv(before, Event.Shoot);
    }

    /** `close`. */
    method Close(id: nat)
      requires wan.Valid() && CloseFinds(View(), id)
      modifies this, wan, wan.playerMgr
      ensures wan.Valid() && View() == Closed(old(View()), id) && outward == old(outward)
      ensures status == old(status)[id := if id in outward then Waiting else Unconnect]
      ensures pending == old(pending) + if id in outward then multiset{Timer(id)} else multiset{}
      ensures calls == old(calls) + if id in outward then [] else [(id, false)]
      ensures wan.sessions == if id in outward then old(wan.sessions) else old(wan.sessions) - {id}
      ensures wan.playerMgr.players.Keys == old(wan.playerMgr.players.Keys)
    {
      if id in outward {
        status := status[id := Waiting];
        pending := pending + multiset{Timer(id)};
      } else {
        status := status[id := Unconnect];
        calls := calls + [(id, false)];
        wan.DelSession(id);
      }
    }

    /** What a successful accept does for its client: `start`, which posts the first read, and on_connect. */
    method Greet(id: nat)
      requires wan.Valid()
      modifies this`status, this`pending, this`calls, wan
      ensures wan.Valid() && status == old(status)[id := Connected]
      ensures pending == old(pending) + multiset{Read(id)} && calls == old(calls) + [(id, true)]
      ensures wan.View() == WanServer.AfterJoin(old(wan.View()), id)
    {
      status := status[id := Connected];
      pending := pending + multiset{Read(id)};
      calls := calls + [(id, true)];
      wan.AddSession(id);
    }

    /** The completion handler of an accept: on success the slot starts and on_connect is called; either way the
        next accept is posted, on the free slot that there must be. */
    method AcceptCompleted(id: nat, ok: bool) returns (next: nat)
      requires Valid() && Accept(id) in pending && SomeFree() && 0 !in status
      modifies this, wan, wan.playerMgr
      ensures Valid()
      ensures pending == old(pending) - multiset{Accept(id)} + (if ok then multiset{Read(id)} else multiset{})
                         + multiset{Accept(next)}
      ensures var e := if ok then AcceptOk(id, next) else AcceptFail(id, next);
        Enabled(old(View()), e) && View() == Apply(old(View()), e)
    {
      ghost var before := View();
      assert SlotOk(before, id);
      ghost var free: nat :| IsFree(before, free);
      pending := pending - multiset{Accept(id)};
      if ok {
        Greet(id);
      }
      ghost var middle := View();
      assert IsFree(middle, free);
      next := StartAccept();
      ghost var e := if ok then AcceptOk(id, next) else AcceptFail(id, next);
      assert Enabled(before, e) && Apply(before, e) == SlotMachine.StartAccept(middle, next);
      EventKeepsInv(before, e);
    }

    /** The Enter messages of one parse, in order. */
    method HandleEnters(id: nat, uids: seq<I32>)
      requires wan.Valid() && (uids != [] ==> id in wan.sessions)
      modifies wan, wan.playerMgr
      ensures wan.Valid() && wan.View() == AfterUids(old(wan.View()), id, uids)
      ensures forall uid :: uid in uids ==> WanServer.IsOnline(wan.playerMgr.players, uid)
      ensures (set uid | uid in uids) <= wan.playerMgr.players.Keys
      ensures uids != [] ==> id in wan.sessions && wan.sessions[id] == ToU32(uids[|uids| - 1])
    {
      var i := 0;
      while i < |uids|
        invariant i <= |uids| && wan.Valid() && (i < |uids| ==> id in wan.sessions)
        invariant AfterUids(wan.View(), id, uids[i..]) == AfterUids(old(wan.View()), id, uids)
      {
        assert uids[i..][1..] == uids[i + 1..];
        var accepted := wan.HandleEnter(id, uids[i]);
        i := i + 1;
      }
      LastUidStays(old(wan.View()), id, uids);
    }

    /** After a parse: the connection is closed or the next read is posted. */
    method ReadOnOrClose(id: nat, closes: bool)
      requires wan.Valid() && (closes ==> CloseFinds(View(), id))
      modifies this, wan, wan.playerMgr
      ensures wan.Valid() && outward == old(outward)
      ensures View() == if closes then Closed(old(View()), id)
                        else old(View()).(pending := old(pending) + multiset{Read(id)})
      ensures pending == old(pending) + if !closes then multiset{Read(id)}
                                        else if id in outward then multiset{Timer(id)} else multiset{}
      ensures wan.sessions.Keys == old(wan.sessions.Keys) - if closes && id !in outward then {id} else {}
      ensures wan.playerMgr.players.Keys == old(wan.playerMgr.players.Keys)
      ensures !closes ==> wan.playerMgr.players == old(wan.playerMgr.players)
    {
      if closes {
        Close(id);
      } else {
        pending := pending + multiset{Read(id)};
      }
    }

    /** The completion handler of a read: each Enter the parse dispatches is handled; then the connection is closed
        (read error, short or rejected parse) or the next read is posted. */
    method ReadCompleted(id: nat, uids: seq<I32>, closes: bool)
      requires Valid() && Read(id) in pending && (uids != [] ==> id !in outward)
      modifies this, wan, wan.playerMgr
      ensures Valid()
      ensures var e := if closes then ReadClose(id, uids) else ReadOn(id, uids);
        LookupsFind(old(View()), e) && View() == Apply(old(View()), e)
      ensures !closes ==> pending == old(pending)
      ensures closes ==> pending == old(pending) - multiset{Read(id)}
                                    + if id in outward then multiset{Timer(id)} else multiset{}
      ensures wan.sessions.Keys == old(wan.sessions.Keys) - if closes && id !in outward then {id} else {}
      ensures (set uid | uid in uids) <= wan.playerMgr.players.Keys
      ensures !closes ==> forall uid :: uid in uids ==> WanServer.IsOnline(wan.playerMgr.players, uid)
    {
      ghost var before := View();
      ParsedRead(before, id, uids, closes);
      pending := pending - multiset{Read(id)};
      HandleEnters(id, uids);
      assert View() == AfterParse(before, id, uids);
      ReadOnOrClose(id, closes);
    }

    /** The completion handler of a connect. */
    method ConnectCompleted(id: nat, ok: bool)
      requires Valid() && Connect(id) in pending
      modifies this, wan, wan.playerMgr
      ensures Valid()
      ensures var e := if ok then ConnectOk(id) else ConnectFail(id);
        LookupsFind(old(View()), e) && View() == Apply(old(View()), e)
      ensures status == old(status)[id := if ok then Connected else Waiting]
      ensures pending == old(pending) - multiset{Connect(id)} + multiset{if ok then Read(id) else Timer(id)}
      ensures calls == old(calls) && wan.View() == old(wan.View())
    {
      ghost var before := View();
      assert SlotOk(before, id);
      ghost var e := if ok then ConnectOk(id) else ConnectFail(id);
      LookupsFindExactly(before, e);
      pending := pending - multiset{Connect(id)};
      if ok {
        status := status[id := Connected];
        pending := pending + multiset{Read(id)};
      } else {
        Close(id);
      }
      EventKeepsInv(before, e);
    }

    /** `handle_reconnect`. */
    method TimerCompleted(id: nat, ok: bool)
      requires Valid() && Timer(id) in pending
      modifies this
      ensures Valid()
      ensures View() == Apply(old(View()), if ok then TimerOk(id) else TimerFail(id))
      ensures pending == old(pending) - multiset{Timer(id)} + if ok then multiset{Connect(id)} else multiset{}
      ensures status == old(status)
    {
      ghost var before := View();
      pending := pending - multiset{Timer(id)};
      if ok {
        StartConnect(id);
      }
      EventKeepsInv(before, if ok then TimerOk(id) else TimerFail(id));
    }
  }
}
