/** The connection slots of `net_worker` with their outstanding asynchronous operations, driving the session
    table of `wan_server`, as one event-driven machine. */
module SlotMachine {
  import opened Wire
  import opened WorkerSlot
  import opened Players
  import opened WanServer
  import Alternation

  datatype Op = Accept(id: nat) | Connect(id: nat) | Timer(id: nat) | Read(id: nat)

  datatype Worker = Worker(
    status: map<nat, NetStatus>,   // `m_pointer_ptr_umap`
    outward: set<nat>,             // the keys of `m_outward_ptr_umap`
    pending: multiset<Op>,         // operations started and not completed
    listening: bool,               // `open` was called
    hall: Hall,                    // the session table and the players
    calls: seq<(nat, bool)>)       // calls of on_connect (true) and on_disconnect (false)

  datatype Event =
    | PushBullet(id: nat)
    | Open(id: nat)
    | Shoot
    | AcceptOk(id: nat, next: nat)
    | AcceptFail(id: nat, next: nat)
    | ReadOn(id: nat, uids: seq<I32>)      // data parsed, nothing rejected
    | ReadClose(id: nat, uids: seq<I32>)   // read error or empty read, or a parse that was short or rejected
    | ConnectOk(id: nat)
    | ConnectFail(id: nat)
    | TimerOk(id: nat)
    | TimerFail(id: nat)

  // ------------------------------------------------------------- the operations

  predicate IsFree(w: Worker, id: nat) { id in w.status && w.status[id].Unconnect? }

  /** `pop_pointer` picks some free slot and makes it wait; the table it searches has no order to rely on. */
  function Popped(w: Worker, id: nat): Worker
    requires IsFree(w, id)
  {
    w.(status := w.status[id := Waiting])
  }

  function StartAccept(w: Worker, id: nat): Worker
    requires IsFree(w, id)
  {
    var w' := Popped(w, id);
    w'.(pending := w'.pending + multiset{Accept(id)})
  }

  function StartConnect(w: Worker, id: nat): Worker {
    w.(pending := w.pending + multiset{Connect(id)})
  }

  /** `start`: connected, with a read posted. */
  function Started(w: Worker, id: nat): Worker {
    w.(status := w.status[id := Connected], pending := w.pending + multiset{Read(id)})
  }

  function Completed(w: Worker, op: Op): Worker {
    w.(pending := w.pending - multiset{op})
  }

  /** The lookup of `del_session` finds a session, if `close` makes one. */
  predicate CloseFinds(w: Worker, id: nat) { id in w.outward || id in w.hall.sessions }

  function Closed(w: Worker, id: nat): Worker
    requires CloseFinds(w, id)
  {
    if id in w.outward then
      w.(status := w.status[id := Waiting], pending := w.pending + multiset{Timer(id)})
    else
      w.(status := w.status[id := Unconnect], hall := AfterDrop(w.hall, id), calls := w.calls + [(id, false)])
  }

  /** The handler calls of one parse, each an Enter. */
  function AfterUids(h: Hall, id: nat, uids: seq<I32>): (h': Hall)
    requires uids != [] ==> id in h.sessions
    ensures h'.sessions.Keys == h.sessions.Keys
    decreases |uids|
  {
    if uids == [] then h else AfterUids(AfterUid(h, id, uids[0]), id, uids[1..])
  }

  /** The players of all these messages are online, and the session carries the last uid. */
  lemma {:induction false} LastUidStays(h: Hall, id: nat, uids: seq<I32>)
    requires uids != [] ==> id in h.sessions
    ensures forall uid :: uid in uids || IsOnline(h.players, uid) ==> IsOnline(AfterUids(h, id, uids).players, uid)
    ensures uids != [] ==> AfterUids(h, id, uids).sessions[id] == ToU32(uids[|uids| - 1])
    decreases |uids|
  {
    if uids != [] {
      var h' := AfterUid(h, id, uids[0]);
      LastUidStays(h', id, uids[1..]);
      assert forall uid :: IsOnline(h.players, uid) || uid == uids[0] ==> IsOnline(h'.players, uid);
      if |uids| == 1 { assert AfterUids(h', id, uids[1..]) == h'; }
    }
  }

  // ------------------------------------------------------------------ the events

  /** No outward slot has an operation outstanding; `shoot` does not ask. */
  predicate ReadyToShoot(w: Worker) {
    forall id :: id in w.outward ==> OpsOn(w, id) == 0
  }

  predicate Enabled(w: Worker, e: Event) {
    match e
    case PushBullet(id) => IsFree(w, id)
    case Open(id) => !w.listening && IsFree(w, id)
    case Shoot => ReadyToShoot(w)
    case AcceptOk(id, next) => Accept(id) in w.pending && IsFree(w, next) && next != id
    case AcceptFail(id, next) => Accept(id) in w.pending && IsFree(w, next)
    case ReadOn(id, _) => Read(id) in w.pending
    case ReadClose(id, _) => Read(id) in w.pending
    case ConnectOk(id) => Connect(id) in w.pending
    case ConnectFail(id) => Connect(id) in w.pending
    case TimerOk(id) => Timer(id) in w.pending
    case TimerFail(id) => Timer(id) in w.pending
  }

  /** Every session lookup the event makes finds a session. */
  predicate LookupsFind(w: Worker, e: Event) {
    match e
    case ReadOn(id, uids) => uids != [] ==> id in w.hall.sessions
    case ReadClose(id, uids) => (uids != [] ==> id in w.hall.sessions) && CloseFinds(w, id)
    case ConnectFail(id) => CloseFinds(w, id)
    case _ => true
  }

  /** `shoot` starts a connect on every outward slot. */
  function Connects(ids: set<nat>): multiset<Op> {
    multiset(set id | id in ids :: Connect(id))
  }

  function Apply(w: Worker, e: Event): Worker
    requires Enabled(w, e) && LookupsFind(w, e)
  {
    match e
    case PushBullet(id) =>
      var w' := Popped(w, id);
      w'.(outward := w'.outward + {id})
    case Open(id) => StartAccept(w, id).(listening := true)
    case Shoot => w.(pending := w.pending + Connects(w.outward))
    case AcceptOk(id, next) =>
      var w' := Started(Completed(w, Accept(id)), id);
      StartAccept(w'.(hall := AfterJoin(w'.hall, id), calls := w'.calls + [(id, true)]), next)
    case AcceptFail(id, next) => StartAccept(Completed(w, Accept(id)), next)
    case ReadOn(id, uids) => w.(hall := AfterUids(w.hall, id, uids))
    case ReadClose(id, uids) => Closed(Completed(w, Read(id)).(hall := AfterUids(w.hall, id, uids)), id)
    case ConnectOk(id) => Started(Completed(w, Connect(id)), id)
    case ConnectFail(id) => Closed(Completed(w, Connect(id)), id)
    case TimerOk(id) => StartConnect(Completed(w, Timer(id)), id)
    case TimerFail(id) => Completed(w, Timer(id))
  }

  // --------------------------------------------------------------- the invariant

  /** One slot with the operations outstanding on it. */
  datatype Slot = Slot(status: Option<NetStatus>, outward: bool,
                       accepting: nat, connecting: nat, timing: nat, reading: nat)

  function SlotOf(w: Worker, id: nat): Slot {
    Slot(if id in w.status then Some(w.status[id]) else None, id in w.outward,
         w.pending[Accept(id)], w.pending[Connect(id)], w.pending[Timer(id)], w.pending[Read(id)])
  }

  function Ops(s: Slot): nat { s.accepting + s.connecting + s.timing + s.reading }

  function OpsOn(w: Worker, id: nat): nat { Ops(SlotOf(w, id)) }

  /** At most one operation is outstanding, and the status says which kind it can be. */
  predicate Consistent(s: Slot) {
    && Ops(s) <= 1
    && (s.status == Some(Connected) <==> s.reading == 1)
    && (s.status == None || s.status == Some(Unconnect) ==> Ops(s) == 0 && !s.outward)
    && (s.connecting + s.timing > 0 ==> s.outward)
    && (s.outward ==> s.accepting == 0)
  }

  predicate SlotOk(w: Worker, id: nat) { Consistent(SlotOf(w, id)) }

  ghost predicate SlotsOk(w: Worker) {
    forall id :: SlotOk(w, id)
  }

  /** At most one accept is outstanding in all; none before `open`, and one from then on. */
  ghost predicate OneAccept(w: Worker) {
    && (forall i, j :: Accept(i) in w.pending && Accept(j) in w.pending ==> i == j)
    && (w.listening <==> exists i :: Accept(i) in w.pending)
  }

  predicate Serves(w: Worker, id: nat) { id in w.status && w.status[id].Connected? && id !in w.outward }

  /** The on_connect and on_disconnect calls for one id. */
  function CallsOf(calls: seq<(nat, bool)>, id: nat): seq<bool> {
    if calls == [] then []
    else
      CallsOf(calls[..|calls| - 1], id)
      + if calls[|calls| - 1].0 == id then [calls[|calls| - 1].1] else []
  }

  /** There is a session exactly for each connected slot that is not outward, and the calls for the id have last
      said so. */
  predicate SessionOk(w: Worker, id: nat) {
    && (id in w.hall.sessions <==> Serves(w, id))
    && Alternation.Phase(CallsOf(w.calls, id)) == (if id in w.hall.sessions then 1 else 0)
  }

  ghost predicate SessionsOk(w: Worker) {
    forall id :: SessionOk(w, id)
  }

  ghost predicate Inv(w: Worker) {
    SlotsOk(w) && OneAccept(w) && SessionsOk(w)
  }

  // ------------------------------------------------------------------- each event

  lemma ConnectsCount(ids: set<nat>, id: nat)
    ensures Connects(ids)[Connect(id)] == if id in ids then 1 else 0
    ensures Connects(ids)[Accept(id)] == Connects(ids)[Timer(id)] == Connects(ids)[Read(id)] == 0
  {
  }

  function Waits(s: Slot): Slot { s.(status := Some(Waiting)) }

  /** What a close makes of its slot. */
  function Dropped(s: Slot): Slot {
    if s.outward then s.(status := Some(Waiting), timing := s.timing + 1) else s.(status := Some(Unconnect))
  }

  /** What the event finds at the slot `id`. */
  predicate Meets(e: Event, id: nat, s: Slot) {
    match e
    case PushBullet(x) => id == x ==> s.status == Some(Unconnect)
    case Open(x) => id == x ==> s.status == Some(Unconnect)
    case Shoot => s.outward ==> Ops(s) == 0
    case AcceptOk(x, next) =>
      (id == x ==> s.accepting >= 1) && (id == next ==> s.status == Some(Unconnect)) && x != next
    case AcceptFail(x, next) => (id == x ==> s.accepting >= 1) && (id == next ==> s.status == Some(Unconnect))
    case ReadOn(_, _) => true
    case ReadClose(x, _) => id == x ==> s.reading >= 1
    case ConnectOk(x) => id == x ==> s.connecting >= 1
    case ConnectFail(x) => id == x ==> s.connecting >= 1
    case TimerOk(x) => id == x ==> s.timing >= 1
    case TimerFail(x) => id == x ==> s.timing >= 1
  }

  /** What an event makes of one slot. */
  function SlotAfter(e: Event, id: nat, s: Slot): Slot
    requires Meets(e, id, s)
  {
    match e
    case PushBullet(x) => if id == x then Waits(s).(outward := true) else s
    case Open(x) => if id == x then Waits(s).(accepting := s.accepting + 1) else s
    case Shoot => if s.outward then s.(connecting := s.connecting + 1) else s
    case AcceptOk(x, next) =>
      if id == x then s.(status := Some(Connected), accepting := s.accepting - 1, reading := s.reading + 1)
      else if id == next then Waits(s).(accepting := s.accepting + 1) else s
    case AcceptFail(x, next) =>
      var s' := if id == x then s.(accepting := s.accepting - 1) else s;
      if id == next then Waits(s').(accepting := s'.accepting + 1) else s'
    case ReadOn(_, _) => s
    case ReadClose(x, _) => if id == x then Dropped(s.(reading := s.reading - 1)) else s
    case ConnectOk(x) =>
      if id == x then s.(status := Some(Connected), connecting := s.connecting - 1, reading := s.reading + 1) else s
    case ConnectFail(x) => if id == x then Dropped(s.(connecting := s.connecting - 1)) else s
    case TimerOk(x) => if id == x then s.(timing := s.timing - 1, connecting := s.connecting + 1) else s
    case TimerFail(x) => if id == x then s.(timing := s.timing - 1) else s
  }

  // The operations, slot by slot.

  lemma StartAcceptActs(w: Worker, x: nat, id: nat)
    requires IsFree(w, x)
    ensures var s := SlotOf(w, id);
      SlotOf(StartAccept(w, x), id) == if id == x then Waits(s).(accepting := s.accepting + 1) else s
  {
  }

  lemma StartedActs(w: Worker, x: nat, id: nat)
    ensures var s := SlotOf(w, id);
      SlotOf(Started(w, x), id) == if id == x then s.(status := Some(Connected), reading := s.reading + 1) else s
  {
  }

  lemma CompletedActs(w: Worker, op: Op, id: nat)
    requires op in w.pending
    ensures var s := SlotOf(w, id);
      SlotOf(Completed(w, op), id) ==
        if op == Accept(id) then s.(accepting := s.accepting - 1)
        else if op == Connect(id) then s.(connecting := s.connecting - 1)
        else if op == Timer(id) then s.(timing := s.timing - 1)
        else if op == Read(id) then s.(reading := s.reading - 1) else s
  {
  }

  lemma ClosedActs(w: Worker, x: nat, id: nat)
    requires CloseFinds(w, x)
    ensures SlotOf(Closed(w, x), id) == if id == x then Dropped(SlotOf(w, id)) else SlotOf(w, id)
  {
  }

  lemma ShootActs(w: Worker, id: nat)
    requires ReadyToShoot(w)
    ensures var s := SlotOf(w, id);
      SlotOf(Apply(w, Shoot), id) == if s.outward then s.(connecting := s.connecting + 1) else s
  {
    ConnectsCount(w.outward, id);
  }

  lemma AcceptOkActs(w: Worker, x: nat, next: nat, id: nat)
    requires Enabled(w, AcceptOk(x, next)) && Meets(AcceptOk(x, next), id, SlotOf(w, id))
    ensures SlotOf(Apply(w, AcceptOk(x, next)), id) == SlotAfter(AcceptOk(x, next), id, SlotOf(w, id))
  {
    var w1 := Completed(w, Accept(x));
    CompletedActs(w, Accept(x), id);
    var w2 := Started(w1, x);
    StartedActs(w1, x, id);
    var w3 := w2.(hall := AfterJoin(w2.hall, x), calls := w2.calls + [(x, true)]);
    assert SlotOf(w3, id) == SlotOf(w2, id);
    StartAcceptActs(w3, next, id);
  }

  lemma AcceptFailActs(w: Worker, x: nat, next: nat, id: nat)
    requires Enabled(w, AcceptFail(x, next)) && Meets(AcceptFail(x, next), id, SlotOf(w, id))
    ensures SlotOf(Apply(w, AcceptFail(x, next)), id) == SlotAfter(AcceptFail(x, next), id, SlotOf(w, id))
  {
    CompletedActs(w, Accept(x), id);
    StartAcceptActs(Completed(w, Accept(x)), next, id);
  }

  lemma CloseActs(w: Worker, e: Event, id: nat)
    requires Enabled(w, e) && LookupsFind(w, e) && (e.ReadClose? || e.ConnectFail?) && Meets(e, id, SlotOf(w, id))
    ensures SlotOf(Apply(w, e), id) == SlotAfter(e, id, SlotOf(w, id))
  {
    if e.ReadClose? {
      CompletedActs(w, Read(e.id), id);
      ClosedActs(Completed(w, Read(e.id)).(hall := AfterUids(w.hall, e.id, e.uids)), e.id, id);
    } else {
      CompletedActs(w, Connect(e.id), id);
      ClosedActs(Completed(w, Connect(e.id)), e.id, id);
    }
  }

  lemma ConnectOkActs(w: Worker, x: nat, id: nat)
    requires Enabled(w, ConnectOk(x))
    ensures SlotOf(Apply(w, ConnectOk(x)), id) == SlotAfter(ConnectOk(x), id, SlotOf(w, id))
  {
    CompletedActs(w, Connect(x), id);
    StartedActs(Completed(w, Connect(x)), x, id);
  }

  lemma TimerActs(w: Worker, e: Event, id: nat)
    requires Enabled(w, e) && (e.TimerOk? || e.TimerFail?) && Meets(e, id, SlotOf(w, id))
    ensures SlotOf(Apply(w, e), id) == SlotAfter(e, id, SlotOf(w, id))
  {
    CompletedActs(w, Timer(e.id), id);
  }

  lemma EventActsOnSlots(w: Worker, e: Event, id: nat)
    requires Enabled(w, e) && LookupsFind(w, e) && Meets(e, id, SlotOf(w, id))
    ensures SlotOf(Apply(w, e), id) == SlotAfter(e, id, SlotOf(w, id))
  {
    if e.AcceptOk? {
      AcceptOkActs(w, e.id, e.next, id);
    } else if e.AcceptFail? {
      AcceptFailActs(w, e.id, e.next, id);
    } else if e.ReadClose? || e.ConnectFail? {
      CloseActs(w, e, id);
    } else if e.ConnectOk? {
      ConnectOkActs(w, e.id, id);
    } else if e.TimerOk? || e.TimerFail? {
      TimerActs(w, e, id);
    } else if e.Open? {
      StartAcceptActs(w, e.id, id);
    } else if e.Shoot? {
      ShootActs(w, id);
    }
  }

  lemma SlotStaysConsistent(e: Event, id: nat, s: Slot)
    requires Consistent(s) && Meets(e, id, s)
    ensures Consistent(SlotAfter(e, id, s))
  {
  }

  lemma EventMeetsSlot(w: Worker, e: Event, id: nat)
    requires Enabled(w, e)
    ensures Meets(e, id, SlotOf(w, id))
  {
  }

  lemma ListeningStays(w: Worker, e: Event)
    requires Enabled(w, e) && LookupsFind(w, e)
    ensures Apply(w, e).listening == (w.listening || e.Open?)
  {
  }

  lemma EventKeepsSlot(w: Worker, e: Event, id: nat)
    requires SlotOk(w, id) && Enabled(w, e) && LookupsFind(w, e)
    ensures SlotOk(Apply(w, e), id)
  {
    EventMeetsSlot(w, e, id);
    SlotStaysConsistent(e, id, SlotOf(w, id));
    EventActsOnSlots(w, e, id);
  }

  lemma EventKeepsSlots(w: Worker, e: Event)
    requires SlotsOk(w) && Enabled(w, e) && LookupsFind(w, e)
    ensures SlotsOk(Apply(w, e))
  {
    forall id ensures SlotOk(Apply(w, e), id) { EventKeepsSlot(w, e, id); }
  }

  /** A completed accept posts the next one. */
  lemma EventKeepsAccepting(w: Worker, e: Event)
    requires SlotsOk(w) && OneAccept(w) && Enabled(w, e) && LookupsFind(w, e)
    ensures Apply(w, e).listening ==> exists i :: Accept(i) in Apply(w, e).pending
  {
    ListeningStays(w, e);
    if w.listening || e.Open? {
      var i :| if e.Open? then i == e.id else Accept(i) in w.pending;
      var next := if e.AcceptOk? || e.AcceptFail? then e.next else i;
      EventMeetsSlot(w, e, next);
      EventActsOnSlots(w, e, next);
      assert SlotOf(Apply(w, e), next).accepting > 0;
    }
  }

  /** Where an accept is pending after the event. */
  lemma AcceptMoves(w: Worker, e: Event, id: nat)
    requires SlotOk(w, id) && OneAccept(w) && Enabled(w, e) && LookupsFind(w, e)
    ensures Accept(id) in Apply(w, e).pending ==>
      if e.Open? then id == e.id else if e.AcceptOk? || e.AcceptFail? then id == e.next else Accept(id) in w.pending
  {
    EventMeetsSlot(w, e, id);
    EventActsOnSlots(w, e, id);
    assert Accept(id) in Apply(w, e).pending <==> SlotAfter(e, id, SlotOf(w, id)).accepting > 0;
  }

  lemma EventKeepsOneAccept(w: Worker, e: Event)
    requires SlotsOk(w) && OneAccept(w) && Enabled(w, e) && LookupsFind(w, e)
    ensures OneAccept(Apply(w, e))
  {
    ListeningStays(w, e);
    EventKeepsAccepting(w, e);
    forall id ensures Accept(id) in Apply(w, e).pending ==>
        if e.Open? then id == e.id else if e.AcceptOk? || e.AcceptFail? then id == e.next else Accept(id) in w.pending
    {
      assert SlotOk(w, id);
      AcceptMoves(w, e, id);
    }
  }

  // ---------------------------------------------------------------- session table

  /** The on_connect or on_disconnect call an event makes. */
  function CallMade(w: Worker, e: Event): seq<(nat, bool)> {
    if e.AcceptOk? then [(e.id, true)]
    else if (e.ReadClose? || e.ConnectFail?) && e.id !in w.outward then [(e.id, false)]
    else []
  }

  lemma EventActsOnCalls(w: Worker, e: Event)
    requires Enabled(w, e) && LookupsFind(w, e)
    ensures Apply(w, e).calls == w.calls + CallMade(w, e)
  {
    match e {
      case AcceptOk(_, _) =>
      case AcceptFail(_, _) =>
      case ReadOn(_, _) =>
      case ReadClose(_, _) =>
      case ConnectFail(_) =>
      case _ =>
    }
  }

  /** The hall of an event: the joiner, the uids of the messages, or the leaver. */
  function HallAfter(w: Worker, e: Event): Hall
    requires LookupsFind(w, e)
  {
    if e.AcceptOk? then AfterJoin(w.hall, e.id)
    else
      var h := if e.ReadOn? || e.ReadClose? then AfterUids(w.hall, e.id, e.uids) else w.hall;
      if (e.ReadClose? || e.ConnectFail?) && e.id !in w.outward then AfterDrop(h, e.id) else h
  }

  lemma EventActsOnHall(w: Worker, e: Event)
    requires Enabled(w, e) && LookupsFind(w, e)
    ensures Apply(w, e).hall == HallAfter(w, e)
  {
    match e {
      case AcceptOk(_, _) =>
      case AcceptFail(_, _) =>
      case ReadOn(_, _) =>
      case ReadClose(_, _) =>
      case ConnectFail(_) =>
      case _ =>
    }
  }

  lemma SessionsAfter(w: Worker, e: Event, id: nat)
    requires LookupsFind(w, e)
    ensures id in HallAfter(w, e).sessions <==>
      if CallMade(w, e) != [] && CallMade(w, e)[0].0 == id then CallMade(w, e)[0].1 else id in w.hall.sessions
  {
    if e.ReadOn? || e.ReadClose? {
      var h := AfterUids(w.hall, e.id, e.uids);
      assert id in h.sessions.Keys <==> id in w.hall.sessions.Keys;
    }
  }

  lemma CallsOfAppend(calls: seq<(nat, bool)>, call: (nat, bool), id: nat)
    ensures CallsOf(calls + [call], id) == CallsOf(calls, id) + if call.0 == id then [call.1] else []
  {
    assert (calls + [call])[..|calls|] == calls;
  }

  lemma CallsPhase(calls: seq<(nat, bool)>, made: seq<(nat, bool)>, id: nat)
    requires |made| <= 1
    ensures var phase := Alternation.Phase(CallsOf(calls, id));
      Alternation.Phase(CallsOf(calls + made, id)) ==
        if made == [] || made[0].0 != id then phase
        else if made[0].1 then if phase == 0 then 1 else -1 else if phase == 1 then 0 else -1
  {
    if made == [] {
      assert calls + [] == calls;
    } else {
      assert made == [made[0]];
      CallsOfAppend(calls, made[0], id);
      if made[0].0 == id {
        Alternation.PhaseAppend(CallsOf(calls, id), made[0].1);
      } else {
        assert CallsOf(calls, id) + [] == CallsOf(calls, id);
      }
    }
  }

  predicate Serving(s: Slot) { s.status == Some(Connected) && !s.outward }

  /** The call an event makes for this id: on_connect, on_disconnect or none. */
  function CallOn(e: Event, id: nat, s: Slot): Option<bool> {
    if e.AcceptOk? && e.id == id then Some(true)
    else if (e.ReadClose? || e.ConnectFail?) && e.id == id && !s.outward then Some(false)
    else None
  }

  /** A slot starts serving with on_connect, stops with on_disconnect, and never twice in a row. */
  lemma ServingFollowsCalls(e: Event, id: nat, s: Slot)
    requires Consistent(s) && Meets(e, id, s)
    ensures Serving(SlotAfter(e, id, s)) == CallOn(e, id, s).GetOr(Serving(s))
    ensures CallOn(e, id, s).Some? ==> CallOn(e, id, s).value != Serving(s)
  {
  }

  lemma CallsMadeFor(w: Worker, e: Event, id: nat)
    ensures var made := CallMade(w, e);
      CallOn(e, id, SlotOf(w, id)) == if made == [] || made[0].0 != id then None else Some(made[0].1)
  {
  }

  lemma EventKeepsSession(w: Worker, e: Event, id: nat)
    requires SlotOk(w, id) && SessionOk(w, id) && Enabled(w, e) && LookupsFind(w, e)
    ensures SessionOk(Apply(w, e), id)
  {
    EventMeetsSlot(w, e, id);
    EventActsOnSlots(w, e, id);
    EventActsOnCalls(w, e);
    EventActsOnHall(w, e);
    SessionsAfter(w, e, id);
    CallsMadeFor(w, e, id);
    ServingFollowsCalls(e, id, SlotOf(w, id));
    SessionFollows(w, Apply(w, e), id, CallMade(w, e), CallOn(e, id, SlotOf(w, id)));
  }

  lemma SessionFollows(w: Worker, w': Worker, id: nat, made: seq<(nat, bool)>, call: Option<bool>)
    requires SessionOk(w, id) && |made| <= 1
    requires call == if made == [] || made[0].0 != id then None else Some(made[0].1)
    requires w'.calls == w.calls + made
    requires id in w'.hall.sessions <==> call.GetOr(id in w.hall.sessions)
    requires Serving(SlotOf(w', id)) == call.GetOr(Serving(SlotOf(w, id)))
    requires call.Some? ==> call.value != Serving(SlotOf(w, id))
    ensures SessionOk(w', id)
  {
    CallsPhase(w.calls, made, id);
    assert Serves(w, id) <==> Serving(SlotOf(w, id));
    assert Serves(w', id) <==> Serving(SlotOf(w', id));
  }

  /** The lookups an event makes all find a session, except those of a handle_enter on an outward connection. */
  lemma LookupsFindExactly(w: Worker, e: Event)
    requires Inv(w) && Enabled(w, e)
    ensures LookupsFind(w, e) <==> ((e.ReadOn? || e.ReadClose?) && e.uids != [] ==> e.id !in w.outward)
  {
    if !e.Shoot? {
      assert SlotOk(w, e.id) && SessionOk(w, e.id);
    }
  }

  lemma EventKeepsInv(w: Worker, e: Event)
    requires Inv(w) && Enabled(w, e) && LookupsFind(w, e)
    ensures Inv(Apply(w, e))
  {
    EventKeepsSlots(w, e);
    EventKeepsOneAccept(w, e);
    forall id ensures SessionOk(Apply(w, e), id) {
      assert SlotOk(w, id) && SessionOk(w, id);
      EventKeepsSession(w, e, id);
    }
  }

  // ---------------------------------------------------------------------- runs

  /** `init`: all slots free, nothing outstanding, nobody there. */
  ghost predicate Init(w: Worker) {
    && (forall id :: id in w.status ==> w.status[id].Unconnect?)
    && w.outward == {} && w.pending == multiset{} && !w.listening
    && w.hall == Hall(map[], map[]) && w.calls == []
  }

  predicate ValidRun(w: Worker, es: seq<Event>)
    decreases |es|
  {
    es == [] || (Enabled(w, es[0]) && LookupsFind(w, es[0]) && ValidRun(Apply(w, es[0]), es[1..]))
  }

  function Final(w: Worker, es: seq<Event>): Worker
    requires ValidRun(w, es)
    decreases |es|
  {
    if es == [] then w else Final(Apply(w, es[0]), es[1..])
  }

  lemma InitInv(w: Worker)
    requires Init(w)
    ensures Inv(w)
  {
  }

  lemma {:induction false} RunKeepsInv(w: Worker, es: seq<Event>)
    requires Inv(w) && ValidRun(w, es)
    ensures Inv(Final(w, es))
    decreases |es|
  {
    if es != [] {
      EventKeepsInv(w, es[0]);
      RunKeepsInv(Apply(w, es[0]), es[1..]);
    }
  }

  ghost predicate Reachable(w: Worker) {
    exists init, es {:trigger ValidRun(init, es)} :: Init(init) && ValidRun(init, es) && Final(init, es) == w
  }

  lemma ReachableInv(w: Worker)
    requires Reachable(w)
    ensures Inv(w)
  {
    var init, es :| Init(init) && ValidRun(init, es) && Final(init, es) == w;
    InitInv(init);
    RunKeepsInv(init, es);
  }

  /** In every run each slot has at most one operation outstanding: a read exactly if it is connected, none if it
      is free; all accepts together are at most one; and an outward slot is never free to be handed out again. */
  lemma OneOutstandingOperation(w: Worker, id: nat, other: nat)
    requires Reachable(w) && id in w.status
    ensures OpsOn(w, id) <= 1
    ensures w.status[id].Connected? <==> w.pending[Read(id)] == 1
    ensures w.status[id].Unconnect? ==> OpsOn(w, id) == 0
    ensures id in w.outward ==> !IsFree(w, id) && w.pending[Accept(id)] == 0
    ensures Accept(id) in w.pending && Accept(other) in w.pending ==> id == other
  {
    ReachableInv(w);
    assert SlotOk(w, id);
  }

  /** Once `open` was called the server always has an accept posted, exactly one, and none before. */
  lemma AlwaysAccepting(w: Worker)
    requires Reachable(w)
    ensures w.listening <==> exists i :: w.pending[Accept(i)] == 1
    ensures forall i, j :: Accept(i) in w.pending && Accept(j) in w.pending ==> i == j
  {
    ReachableInv(w);
    if i :| Accept(i) in w.pending {
      assert SlotOk(w, i);
      assert w.pending[Accept(i)] == 1;
    }
  }

  /** In every run there is a session exactly for each connected slot that is not outward, and on_connect and
      on_disconnect alternate for each id. */
  lemma SessionTableAgrees(w: Worker, id: nat)
    requires Reachable(w)
    ensures id in w.hall.sessions <==> Serves(w, id)
    ensures w.outward == {} ==> (id in w.hall.sessions <==> id in w.status && w.status[id].Connected?)
    ensures Alternation.Alternates(CallsOf(w.calls, id))
    ensures |CallsOf(w.calls, id)| % 2 == 1 <==> id in w.hall.sessions
  {
    ReachableInv(w);
    assert SessionOk(w, id);
    Alternation.PhaseMeansAlternates(CallsOf(w.calls, id));
  }

  /** No event of a run looks up a session that is not there, except a handle_enter on an outward connection. */
  lemma LookupsFindInRuns(w: Worker, e: Event)
    requires Reachable(w) && Enabled(w, e)
    ensures LookupsFind(w, e) <==> ((e.ReadOn? || e.ReadClose?) && e.uids != [] ==> e.id !in w.outward)
    ensures w.outward == {} ==> LookupsFind(w, e)
  {
    ReachableInv(w);
    LookupsFindExactly(w, e);
  }

  /** Connecting all outward slots keeps one operation per slot exactly if none of them has one outstanding. */
  lemma ShootingExactly(w: Worker)
    requires SlotsOk(w)
    ensures (forall id :: OpsOn(w.(pending := w.pending + Connects(w.outward)), id) <= 1) <==> ReadyToShoot(w)
  {
    var w' := w.(pending := w.pending + Connects(w.outward));
    forall id
      ensures OpsOn(w', id) == OpsOn(w, id) + if id in w.outward then 1 else 0
      ensures OpsOn(w, id) <= 1
    {
      assert SlotOk(w, id);
      ConnectsCount(w.outward, id);
    }
  }

  // ----------------------------------------------------------------- stranded slots

  /** Waiting for nothing: not outward, no operation outstanding. */
  predicate Stranded(w: Worker, id: nat) {
    id in w.status && w.status[id].Waiting? && id !in w.outward && OpsOn(w, id) == 0
  }

  /** A failed accept strands its slot ... */
  lemma FailedAcceptStrands(w: Worker, id: nat, next: nat)
    requires Reachable(w) && Enabled(w, AcceptFail(id, next))
    ensures Stranded(Apply(w, AcceptFail(id, next)), id)
  {
    ReachableInv(w);
    assert SlotOk(w, id);
    EventMeetsSlot(w, AcceptFail(id, next), id);
    EventActsOnSlots(w, AcceptFail(id, next), id);
    StrandedSlot(Apply(w, AcceptFail(id, next)), id);
  }

  lemma StrandedSlot(w: Worker, id: nat)
    ensures Stranded(w, id) <==> SlotOf(w, id) == Slot(Some(Waiting), false, 0, 0, 0, 0)
  {
  }

  lemma EventLeavesStranded(w: Worker, e: Event, id: nat)
    requires Stranded(w, id) && Enabled(w, e) && LookupsFind(w, e)
    ensures Stranded(Apply(w, e), id)
  {
    EventMeetsSlot(w, e, id);
    StrandedSlot(w, id);
    StrandedStays(e, id);
    EventActsOnSlots(w, e, id);
    StrandedSlot(Apply(w, e), id);
  }

  lemma StrandedStays(e: Event, id: nat)
    requires Meets(e, id, Slot(Some(Waiting), false, 0, 0, 0, 0))
    ensures SlotAfter(e, id, Slot(Some(Waiting), false, 0, 0, 0, 0)) == Slot(Some(Waiting), false, 0, 0, 0, 0)
  {
  }

  /** ... and a stranded slot is never used again, whatever happens. */
  lemma {:induction false} StrandedForGood(w: Worker, es: seq<Event>, id: nat)
    requires Stranded(w, id) && ValidRun(w, es)
    ensures Stranded(Final(w, es), id)
    decreases |es|
  {
    if es != [] {
      EventLeavesStranded(w, es[0], id);
      StrandedForGood(Apply(w, es[0]), es[1..], id);
    }
  }

  predicate WaitsForNothing(s: Slot) { s.status == Some(Waiting) && !s.outward && Ops(s) == 0 }

  lemma SlotStrandsExactly(e: Event, id: nat, s: Slot)
    requires Consistent(s) && Meets(e, id, s)
    ensures WaitsForNothing(SlotAfter(e, id, s)) <==> WaitsForNothing(s) || (e.AcceptFail? && e.id == id)
  {
    if e.AcceptFail? && e.id == id {
      assert s.accepting == 1 && s.status.Some? && s.status.value.Waiting?;
    }
  }

  /** Nothing but a failed accept strands a slot. */
  lemma EventStrandsExactly(w: Worker, e: Event, id: nat)
    requires Inv(w) && Enabled(w, e) && LookupsFind(w, e)
    ensures Stranded(Apply(w, e), id) <==> Stranded(w, id) || (e.AcceptFail? && e.id == id)
  {
    assert SlotOk(w, id);
    EventMeetsSlot(w, e, id);
    EventActsOnSlots(w, e, id);
    SlotStrandsExactly(e, id, SlotOf(w, id));
    assert Stranded(w, id) <==> WaitsForNothing(SlotOf(w, id));
    assert Stranded(Apply(w, e), id) <==> WaitsForNothing(SlotOf(Apply(w, e), id));
  }

  predicate FailsAccept(es: seq<Event>, id: nat) { exists e :: e in es && e.AcceptFail? && e.id == id }

  /** Over every run the stranded slots are exactly those of the failed accepts. */
  lemma {:induction false} RunStrandsExactly(w: Worker, es: seq<Event>, id: nat)
    requires Inv(w) && ValidRun(w, es)
    ensures Stranded(Final(w, es), id) <==> Stranded(w, id) || FailsAccept(es, id)
    decreases |es|
  {
    if es != [] {
      EventStrandsExactly(w, es[0], id);
      EventKeepsInv(w, es[0]);
      RunStrandsExactly(Apply(w, es[0]), es[1..], id);
      assert es == [es[0]] + es[1..];
    }
  }

  /** From the start of a server on. */
  lemma StrandedAreFailedAccepts(w: Worker, es: seq<Event>, id: nat)
    requires Init(w) && ValidRun(w, es)
    ensures Stranded(Final(w, es), id) <==> FailsAccept(es, id)
  {
    InitInv(w);
    RunStrandsExactly(w, es, id);
  }

  // ------------------------------------------------------------------ dialling

  /** An outward slot that is being dialled, connected, or waiting to be dialled again. */
  predicate Dialled(w: Worker, id: nat) { id in w.outward && OpsOn(w, id) == 1 }

  lemma SlotStaysDialled(e: Event, id: nat, s: Slot)
    requires Consistent(s) && Meets(e, id, s) && s.outward
    ensures SlotAfter(e, id, s).outward
    ensures Ops(s) == 1 ==> (Ops(SlotAfter(e, id, s)) == 1 <==> !(e.TimerFail? && e.id == id))
    ensures Ops(s) == 0 && !e.Shoot? ==> Ops(SlotAfter(e, id, s)) == 0
  {
  }

  lemma EventKeepsDialled(w: Worker, e: Event, id: nat)
    requires Inv(w) && Enabled(w, e) && LookupsFind(w, e) && id in w.outward
    ensures id in Apply(w, e).outward
    ensures Dialled(w, id) ==> (Dialled(Apply(w, e), id) <==> !(e.TimerFail? && e.id == id))
    ensures !Dialled(w, id) && !e.Shoot? ==> !Dialled(Apply(w, e), id)
  {
    assert SlotOk(w, id);
    EventMeetsSlot(w, e, id);
    EventActsOnSlots(w, e, id);
    SlotStaysDialled(e, id, SlotOf(w, id));
  }

  predicate CancelsTimer(es: seq<Event>, id: nat) { exists e :: e in es && e.TimerFail? && e.id == id }

  lemma {:induction false} RunKeepsDialled(w: Worker, es: seq<Event>, id: nat)
    requires Inv(w) && ValidRun(w, es) && id in w.outward && Shoot !in es
    ensures Dialled(Final(w, es), id) <==> Dialled(w, id) && !CancelsTimer(es, id)
    decreases |es|
  {
    if es != [] {
      assert es[0] in es && es == [es[0]] + es[1..];
      EventKeepsDialled(w, es[0], id);
      EventKeepsInv(w, es[0]);
      RunKeepsDialled(Apply(w, es[0]), es[1..], id);
    }
  }

  /** After `shoot` every outward slot has exactly one operation outstanding, over every run, if and only if its
      reconnect timer has not been cancelled. */
  lemma OutwardStaysDialled(w: Worker, es: seq<Event>, id: nat)
    requires Reachable(w) && Enabled(w, Shoot) && id in w.outward && ValidRun(Apply(w, Shoot), es) && Shoot !in es
    ensures Dialled(Final(Apply(w, Shoot), es), id) <==> !CancelsTimer(es, id)
  {
    ShootingDials(w, id);
    RunKeepsDialled(Apply(w, Shoot), es, id);
  }

  lemma ShootingDials(w: Worker, id: nat)
    requires Reachable(w) && Enabled(w, Shoot) && id in w.outward
    ensures Inv(Apply(w, Shoot)) && Dialled(Apply(w, Shoot), id)
  {
    ReachableInv(w);
    EventKeepsInv(w, Shoot);
    ShootActs(w, id);
    ShotIsDialled(w, Apply(w, Shoot), id);
  }

  lemma ShotIsDialled(w: Worker, w': Worker, id: nat)
    requires id in w.outward && OpsOn(w, id) == 0
    requires SlotOf(w', id) == SlotOf(w, id).(connecting := SlotOf(w, id).connecting + 1)
    ensures Dialled(w', id)
  {
    OneMoreOp(SlotOf(w, id), SlotOf(w', id));
  }

  lemma OneMoreOp(s: Slot, s': Slot)
    requires Ops(s) == 0 && s.outward && s' == s.(connecting := s.connecting + 1)
    ensures Ops(s') == 1 && s'.outward
  {
  }

  // ---------------------------------------------------- what is started and completed

  function One(b: bool): nat { if b then 1 else 0 }

  /** How many of these operations the event starts: an accept when it opens and after every accept, a connect on
      each outward slot when it shoots and after a timer, a timer after each close of an outward slot, and a read
      after an accept, a connect and a read that does not close. */
  function Starts(w: Worker, e: Event, op: Op): nat {
    match op
    case Accept(id) => One(e == Open(id)) + One((e.AcceptOk? || e.AcceptFail?) && e.next == id)
    case Connect(id) => One(e == Shoot && id in w.outward) + One(e == TimerOk(id))
    case Timer(id) => One((e.ReadClose? || e.ConnectFail?) && e.id == id && id in w.outward)
    case Read(id) => One((e.AcceptOk? || e.ConnectOk? || e.ReadOn?) && e.id == id)
  }

  /** How many of them it completes. */
  function Completes(e: Event, op: Op): nat {
    match op
    case Accept(id) => One((e.AcceptOk? || e.AcceptFail?) && e.id == id)
    case Connect(id) => One((e.ConnectOk? || e.ConnectFail?) && e.id == id)
    case Timer(id) => One((e.TimerOk? || e.TimerFail?) && e.id == id)
    case Read(id) => One((e.ReadOn? || e.ReadClose?) && e.id == id)
  }

  /** The operations of this kind at a slot. */
  function Outstanding(s: Slot, op: Op): nat {
    match op
    case Accept(_) => s.accepting
    case Connect(_) => s.connecting
    case Timer(_) => s.timing
    case Read(_) => s.reading
  }

  lemma SlotStarts(w: Worker, e: Event, op: Op, s: Slot)
    requires Meets(e, op.id, s) && (s.outward <==> op.id in w.outward)
    ensures Outstanding(SlotAfter(e, op.id, s), op) + Completes(e, op) == Outstanding(s, op) + Starts(w, e, op)
  {
  }

  function StartsOver(w: Worker, es: seq<Event>, op: Op): nat
    requires ValidRun(w, es)
    decreases |es|
  {
    if es == [] then 0 else Starts(w, es[0], op) + StartsOver(Apply(w, es[0]), es[1..], op)
  }

  function CompletesOver(es: seq<Event>, op: Op): nat {
    if es == [] then 0 else Completes(es[0], op) + CompletesOver(es[1..], op)
  }

  /** Over every run the operations outstanding are those that were started and have not completed. */
  lemma {:induction false} OperationsOverRuns(w: Worker, es: seq<Event>, op: Op)
    requires ValidRun(w, es)
    ensures Final(w, es).pending[op] + CompletesOver(es, op) == w.pending[op] + StartsOver(w, es, op)
    decreases |es|
  {
    if es != [] {
      EventMeetsSlot(w, es[0], op.id);
      EventActsOnSlots(w, es[0], op.id);
      SlotStarts(w, es[0], op, SlotOf(w, op.id));
      assert Outstanding(SlotOf(w, op.id), op) == w.pending[op];
      assert Outstanding(SlotOf(Apply(w, es[0]), op.id), op) == Apply(w, es[0]).pending[op];
      OperationsOverRuns(Apply(w, es[0]), es[1..], op);
    }
  }

  // ----------------------------------------------------------- presence over runs

  /** A read in which the client enters at most once, with a uid of its own: the session has not entered before
      and no other live session carries the uid. */
  ghost predicate Disciplined(w: Worker, e: Event) {
    (e.ReadOn? || e.ReadClose?) && e.uids != [] ==>
      && |e.uids| == 1 && e.uids[0] != 0
      && e.id in w.hall.sessions && w.hall.sessions[e.id] == 0
      && !CarriedElsewhere(w.hall.sessions, e.id, e.uids[0])
  }

  ghost predicate PresenceOk(h: Hall) { PresenceAgrees(h) && UidsAreDistinct(h) && UidsAreKnown(h) }

  lemma EnterKeepsPresenceOk(h: Hall, id: nat, uid: I32)
    requires PresenceOk(h) && id in h.sessions && h.sessions[id] == 0 && uid != 0
    requires !CarriedElsewhere(h.sessions, id, uid)
    ensures PresenceOk(AfterUid(h, id, uid))
  {
    EnterKeepsPresenceExactly(h, id, uid);
    UidSurvives(uid);
    var h' := AfterUid(h, id, uid);
    forall i, j | i in h'.sessions && j in h'.sessions && h'.sessions[i] > 0 && h'.sessions[i] == h'.sessions[j]
      ensures i == j
    {
      if i != j && (i == id || j == id) {
        var other := if i == id then j else i;
        assert Carries(h.sessions, other, uid);
        assert false;
      }
    }
  }

  lemma DropKeepsPresenceOk(h: Hall, id: nat)
    requires PresenceOk(h) && id in h.sessions
    ensures PresenceOk(AfterDrop(h, id))
  {
    LeaveKeepsPresenceExactly(h, id);
  }

  lemma AfterOneUid(h: Hall, id: nat, uids: seq<I32>)
    requires id in h.sessions && |uids| == 1
    ensures AfterUids(h, id, uids) == AfterUid(h, id, uids[0])
  {
    assert uids[1..] == [];
    assert AfterUids(AfterUid(h, id, uids[0]), id, []) == AfterUid(h, id, uids[0]);
  }

  lemma EventKeepsPresence(w: Worker, e: Event)
    requires PresenceOk(w.hall) && Enabled(w, e) && LookupsFind(w, e) && Disciplined(w, e)
    ensures PresenceOk(Apply(w, e).hall)
  {
    EventActsOnHall(w, e);
    if e.AcceptOk? {
      JoinKeepsPresence(w.hall, e.id);
    } else {
      var h := if e.ReadOn? || e.ReadClose? then AfterUids(w.hall, e.id, e.uids) else w.hall;
      if (e.ReadOn? || e.ReadClose?) && e.uids != [] {
        EnterKeepsPresenceOk(w.hall, e.id, e.uids[0]);
        AfterOneUid(w.hall, e.id, e.uids);
      }
      if (e.ReadClose? || e.ConnectFail?) && e.id !in w.outward {
        DropKeepsPresenceOk(h, e.id);
      }
    }
  }

  ghost predicate DisciplinedRun(w: Worker, es: seq<Event>)
    decreases |es|
  {
    es == [] || (Enabled(w, es[0]) && LookupsFind(w, es[0]) && Disciplined(w, es[0])
                 && DisciplinedRun(Apply(w, es[0]), es[1..]))
  }

  /** In every run in which each session enters at most once, with a non-zero uid no other live session carries, a
      player is online exactly when some live session carries its uid. */
  lemma {:induction false} PresenceOverRuns(w: Worker, es: seq<Event>)
    requires PresenceOk(w.hall) && DisciplinedRun(w, es)
    ensures ValidRun(w, es) && PresenceOk(Final(w, es).hall)
    decreases |es|
  {
    if es != [] {
      EventKeepsPresence(w, es[0]);
      PresenceOverRuns(Apply(w, es[0]), es[1..]);
    }
  }

  lemma InitPresence(w: Worker)
    requires Init(w)
    ensures PresenceOk(w.hall)
  {
  }

  /** So it is in every such run of a new server. */
  lemma PresenceFromStart(w: Worker, es: seq<Event>, uid: I32)
    requires Init(w) && DisciplinedRun(w, es)
    ensures ValidRun(w, es) && (IsOnline(Final(w, es).hall.players, uid) <==> Carried(Final(w, es).hall.sessions, uid))
  {
    InitPresence(w);
    PresenceOverRuns(w, es);
  }

  // The exact condition.

  function Enters(id: nat, uids: seq<I32>): seq<Call> {
    if uids == [] then [] else [Enter(id, uids[0])] + Enters(id, uids[1..])
  }

  /** The handler calls an event makes, in order. */
  function HallCalls(w: Worker, e: Event): seq<Call> {
    if e.AcceptOk? then [Join(e.id)]
    else
      (if e.ReadOn? || e.ReadClose? then Enters(e.id, e.uids) else [])
      + if (e.ReadClose? || e.ConnectFail?) && e.id !in w.outward then [Drop(e.id)] else []
  }

  lemma {:induction false} EntersAreUids(h: Hall, id: nat, uids: seq<I32>)
    requires uids != [] ==> id in h.sessions
    ensures AllFind(h, Enters(id, uids)) && AfterCalls(h, Enters(id, uids)) == AfterUids(h, id, uids)
    decreases |uids|
  {
    if uids != [] {
      EntersAreUids(AfterUid(h, id, uids[0]), id, uids[1..]);
      assert Enters(id, uids)[1..] == Enters(id, uids[1..]);
    }
  }

  lemma OneCall(h: Hall, c: Call)
    requires Finds(h, c)
    ensures AllFind(h, [c]) && AfterCalls(h, [c]) == AfterCall(h, c)
  {
    assert [c][1..] == [];
    assert AllFind(AfterCall(h, c), []) && AfterCalls(AfterCall(h, c), []) == AfterCall(h, c);
  }

  lemma EventMakesCalls(w: Worker, e: Event)
    requires Enabled(w, e) && LookupsFind(w, e)
    ensures AllFind(w.hall, HallCalls(w, e)) && AfterCalls(w.hall, HallCalls(w, e)) == Apply(w, e).hall
  {
    EventActsOnHall(w, e);
    if e.AcceptOk? {
      OneCall(w.hall, Join(e.id));
    } else {
      var parsed := e.ReadOn? || e.ReadClose?;
      var enters := if parsed then Enters(e.id, e.uids) else [];
      if parsed { EntersAreUids(w.hall, e.id, e.uids); }
      var h := AfterCalls(w.hall, enters);
      if (e.ReadClose? || e.ConnectFail?) && e.id !in w.outward {
        assert e.id in h.sessions.Keys;
        OneCall(h, Drop(e.id));
        CallsConcat(w.hall, enters, [Drop(e.id)]);
      } else {
        assert enters + [] == enters;
      }
    }
  }

  /** The handler calls of a run. */
  function RunCalls(w: Worker, es: seq<Event>): seq<Call>
    requires ValidRun(w, es)
    decreases |es|
  {
    if es == [] then [] else HallCalls(w, es[0]) + RunCalls(Apply(w, es[0]), es[1..])
  }

  lemma {:induction false} RunMakesCalls(w: Worker, es: seq<Event>)
    requires ValidRun(w, es)
    ensures AllFind(w.hall, RunCalls(w, es)) && AfterCalls(w.hall, RunCalls(w, es)) == Final(w, es).hall
    decreases |es|
  {
    if es != [] {
      EventMakesCalls(w, es[0]);
      RunMakesCalls(Apply(w, es[0]), es[1..]);
      CallsConcat(w.hall, HallCalls(w, es[0]), RunCalls(Apply(w, es[0]), es[1..]));
    }
  }

  /** In every run of a new server a player is online exactly when some live session carries its uid, before and after
      every handler call, if and only if every handler call is considerate. */
  lemma PresenceExactlyOverRuns(w: Worker, es: seq<Event>)
    requires Init(w) && ValidRun(w, es)
    ensures AllFind(w.hall, RunCalls(w, es)) && AfterCalls(w.hall, RunCalls(w, es)) == Final(w, es).hall
    ensures AgreesThroughout(w.hall, RunCalls(w, es)) <==> AllConsiderate(w.hall, RunCalls(w, es))
  {
    InitPresence(w);
    RunMakesCalls(w, es);
    PresenceExactly(w.hall, RunCalls(w, es));
  }

  // ---------------------------------------------------- a lookup that finds nothing

  lemma ValidCons(w: Worker, e: Event, es: seq<Event>)
    requires Enabled(w, e) && LookupsFind(w, e) && ValidRun(Apply(w, e), es)
    ensures ValidRun(w, [e] + es) && Final(w, [e] + es) == Final(Apply(w, e), es)
  {
    assert ([e] + es)[0] == e && ([e] + es)[1..] == es;
  }

  lemma {:induction false} RunOn(w: Worker, es: seq<Event>, e: Event)
    requires ValidRun(w, es) && Enabled(Final(w, es), e) && LookupsFind(Final(w, es), e)
    ensures ValidRun(w, es + [e]) && Final(w, es + [e]) == Apply(Final(w, es), e)
    decreases |es|
  {
    if es == [] {
      ValidCons(w, e, []);
      assert [] + [e] == [e] + [];
    } else {
      RunOn(Apply(w, es[0]), es[1..], e);
      ValidCons(w, es[0], es[1..] + [e]);
      assert es + [e] == [es[0]] + (es[1..] + [e]);
    }
  }

  lemma ReachOn(w: Worker, e: Event)
    requires Reachable(w) && Enabled(w, e) && LookupsFind(w, e)
    ensures Reachable(Apply(w, e))
  {
    var init, es :| Init(init) && ValidRun(init, es) && Final(init, es) == w;
    RunOn(init, es, e);
  }

  /** A server of one slot, with that slot set aside for an outward connection ... */
  lemma OutwardSlot() returns (w: Worker)
    ensures Reachable(w) && 1 in w.outward && 1 !in w.hall.sessions && ReadyToShoot(w)
  {
    var init := Worker(map[1 := Unconnect], {}, multiset{}, false, Hall(map[], map[]), []);
    assert Init(init) && ValidRun(init, []) && Final(init, []) == init;
    ReachOn(init, PushBullet(1));
    w := Apply(init, PushBullet(1));
    assert w.pending == multiset{};
  }

  lemma ShootDials(w: Worker, id: nat)
    requires Enabled(w, Shoot) && id in w.outward
    ensures Connect(id) in Apply(w, Shoot).pending
    ensures Apply(w, Shoot).outward == w.outward && Apply(w, Shoot).hall == w.hall
  {
    ConnectsCount(w.outward, id);
  }

  lemma ConnectedReads(w: Worker, id: nat)
    requires Enabled(w, ConnectOk(id))
    ensures Read(id) in Apply(w, ConnectOk(id)).pending && Apply(w, ConnectOk(id)).hall == w.hall
  {
  }

  /** ... dials out, and the other side answers with an Enter: `handle_enter` looks up a session that was never
      added. */
  lemma OutwardEnterFindsNothing() returns (w: Worker)
    ensures Reachable(w) && Enabled(w, ReadOn(1, [7])) && !LookupsFind(w, ReadOn(1, [7]))
  {
    var pushed := OutwardSlot();
    ShootDials(pushed, 1);
    ReachOn(pushed, Shoot);
    w := Answering(Apply(pushed, Shoot));
  }

  lemma Answering(shot: Worker) returns (w: Worker)
    requires Reachable(shot) && Connect(1) in shot.pending && 1 !in shot.hall.sessions
    ensures Reachable(w) && Enabled(w, ReadOn(1, [7])) && !LookupsFind(w, ReadOn(1, [7]))
  {
    ConnectedReads(shot, 1);
    ReachOn(shot, ConnectOk(1));
    w := Apply(shot, ConnectOk(1));
  }
}
