/** The WebSocket hub (internal/delivery/ws/hub.go) and the client channels it feeds
    (internal/delivery/ws/client.go). Every method of the hub runs under its lock, and broadcasts
    come from the one subscriber goroutine, so each is one step; the goroutines that call
    `unregister` and drain the channels run at any time. */
module HubProtocol {

  type ClientId = nat
  type Project = string

  const SEND_BUFFER_SIZE: nat := 16

  datatype Broadcast = Broadcast(project: Project, message: string)

  /** A client is created, registered once, and closed by its first effective unregister. */
  datatype Phase = New | Open | Closed

  /** Messages are named by their position among all broadcasts. `buffer` is the Go channel,
      `received` what WritePump has taken from it; `from` and `until` delimit the membership,
      and `missed` are the messages that found the buffer full. */
  datatype Client = Client(project: Project, phase: Phase, buffer: seq<nat>, received: seq<nat>,
                           from: nat, until: nat, missed: set<nat>)

  datatype Hub = Hub(rooms: map<Project, set<ClientId>>, clients: map<ClientId, Client>, broadcasts: seq<Broadcast>)

  const EMPTY: Hub := Hub(map[], map[], [])

  datatype Op =
    | Create(c: ClientId, project: Project)
    | Register(c: ClientId)
    | Unregister(c: ClientId)
    | Send(b: Broadcast)
    | Receive(c: ClientId)

  predicate Enabled(h: Hub, op: Op) {
    match op
    case Create(c, _) => c !in h.clients
    case Register(c) => c in h.clients && h.clients[c].phase.New?
    case Unregister(c) => c in h.clients
    case Send(_) => true
    case Receive(c) => c in h.clients && h.clients[c].buffer != []
  }

  function Room(h: Hub, p: Project): set<ClientId> { if p in h.rooms then h.rooms[p] else {} }

  /** select { case client.send <- message: default: go h.unregister(client) } */
  function Offer(c: Client, n: nat): Client {
    if |c.buffer| < SEND_BUFFER_SIZE then c.(buffer := c.buffer + [n]) else c.(missed := c.missed + {n})
  }

  function OfferAll(clients: map<ClientId, Client>, room: set<ClientId>, n: nat): map<ClientId, Client> {
    map c | c in clients :: if c in room then Offer(clients[c], n) else clients[c]
  }

  function Apply(h: Hub, op: Op): Hub
    requires Enabled(h, op)
  {
    match op
    case Create(c, p) => h.(clients := h.clients[c := Client(p, New, [], [], 0, 0, {})])
    case Register(c) =>
      var client := h.clients[c];
      h.(rooms := h.rooms[client.project := Room(h, client.project) + {c}],
         clients := h.clients[c := client.(phase := Open, from := |h.broadcasts|)])
    case Unregister(c) =>
      var client := h.clients[c];
      var rest := Room(h, client.project) - {c};
      if c !in Room(h, client.project) then h
      else h.(rooms := if rest == {} then h.rooms - {client.project} else h.rooms[client.project := rest],
              clients := h.clients[c := client.(phase := Closed, until := |h.broadcasts|)])
    case Send(b) =>
      h.(clients := OfferAll(h.clients, Room(h, b.project), |h.broadcasts|), broadcasts := h.broadcasts + [b])
    case Receive(c) =>
      var client := h.clients[c];
      h.(clients := h.clients[c := client.(buffer := client.buffer[1..], received := client.received + [client.buffer[0]])])
  }

  /** The Go runtime panics on a send to a closed channel and on closing one twice. */
  ghost predicate Panics(h: Hub, op: Op)
    requires Enabled(h, op)
  {
    match op
    case Unregister(c) => c in Room(h, h.clients[c].project) && !h.clients[c].phase.Open?
    case Send(b) => exists c :: c in Room(h, b.project) && (c !in h.clients || !h.clients[c].phase.Open?)
    case _ => false
  }

  // ------------------------------------------------------------------ rooms and channels

  ghost predicate RoomsOk(h: Hub) {
    && (forall p :: p in h.rooms ==> h.rooms[p] != {})
    && (forall p, c :: p in h.rooms && c in h.rooms[p] ==> c in h.clients && h.clients[c].project == p)
    && (forall c :: c in h.clients ==> (c in Room(h, h.clients[c].project) <==> h.clients[c].phase.Open?))
  }

  lemma StepKeepsRooms(h: Hub, op: Op)
    requires RoomsOk(h) && Enabled(h, op)
    ensures RoomsOk(Apply(h, op))
  {
    var h' := Apply(h, op);
    match op {
      case Unregister(c) =>
        var p := h.clients[c].project;
        assert forall q :: q != p ==> Room(h', q) == Room(h, q);
        assert c in Room(h, p) ==> Room(h', p) == Room(h, p) - {c};
      case _ =>
    }
  }

  // ------------------------------------------------------------------ order of delivery

  /** What the client has been given, in channel order. */
  function Taken(c: Client): seq<nat> { c.received + c.buffer }

  function End(h: Hub, c: Client): nat { if c.phase.Closed? then c.until else |h.broadcasts| }

  ghost predicate InOrder(s: seq<nat>) {
    forall i, j :: 0 <= i < j < |s| ==> s[i] < s[j]
  }

  /** Broadcast `n` was made to the client's project while it was registered. */
  predicate Meant(h: Hub, c: Client, n: nat) {
    !c.phase.New? && c.from <= n < End(h, c) && n < |h.broadcasts| && h.broadcasts[n].project == c.project
  }

  ghost predicate StreamOk(h: Hub, c: Client) {
    && |c.buffer| <= SEND_BUFFER_SIZE && c.until <= |h.broadcasts|
    && InOrder(Taken(c))
    && (forall n :: n in Taken(c) || n in c.missed ==> Meant(h, c, n))
    && (forall n :: Meant(h, c, n) ==> n in Taken(c) || n in c.missed)
    && (forall n :: n in c.missed ==> n !in Taken(c))
  }

  ghost predicate Consistent(h: Hub) {
    RoomsOk(h) && forall c :: c in h.clients ==> StreamOk(h, h.clients[c])
  }

  lemma OfferKeepsStream(h: Hub, c: Client, b: Broadcast)
    requires StreamOk(h, c) && c.phase.Open? && c.project == b.project && c.from <= |h.broadcasts|
    ensures StreamOk(h.(broadcasts := h.broadcasts + [b]), Offer(c, |h.broadcasts|))
  {
    var n, h' := |h.broadcasts|, h.(broadcasts := h.broadcasts + [b]);
    var c' := Offer(c, n);
    assert forall k :: k in Taken(c) || k in c.missed ==> k < n;
    assert n !in Taken(c) && n !in c.missed;
    if |c.buffer| < SEND_BUFFER_SIZE {
      assert Taken(c') == Taken(c) + [n];
      assert InOrder(Taken(c')) by {
        forall i, j | 0 <= i < j < |Taken(c')| ensures Taken(c')[i] < Taken(c')[j] {
          assert Taken(c)[i] in Taken(c);
        }
      }
    } else {
      assert Taken(c') == Taken(c);
    }
    forall k: nat ensures Meant(h', c', k) <==> Meant(h, c, k) || k == n {
      if k < n { assert h'.broadcasts[k] == h.broadcasts[k]; }
    }
  }

  lemma OtherBroadcastKeepsStream(h: Hub, c: Client, b: Broadcast)
    requires StreamOk(h, c) && (c.phase.Open? ==> c.project != b.project)
    ensures StreamOk(h.(broadcasts := h.broadcasts + [b]), c)
  {}

  lemma SendKeepsConsistent(h: Hub, b: Broadcast)
    requires Consistent(h) && forall c :: c in h.clients ==> h.clients[c].from <= |h.broadcasts|
    ensures Consistent(Apply(h, Send(b)))
  {
    var h' := Apply(h, Send(b));
    StepKeepsRooms(h, Send(b));
    forall c | c in h'.clients ensures StreamOk(h', h'.clients[c]) {
      var client := h.clients[c];
      var grown := h.(broadcasts := h.broadcasts + [b]);
      if c in Room(h, b.project) {
        assert client.phase.Open? && client.project == b.project;
        OfferKeepsStream(h, client, b);
        SameBroadcasts(grown, h', h'.clients[c]);
      } else {
        OtherBroadcastKeepsStream(h, client, b);
        SameBroadcasts(grown, h', client);
      }
    }
  }

  lemma SameBroadcasts(h: Hub, h': Hub, c: Client)
    requires h'.broadcasts == h.broadcasts && StreamOk(h, c)
    ensures StreamOk(h', c)
  {}

  lemma PhaseKeepsStream(h: Hub, op: Op)
    requires Consistent(h) && Enabled(h, op) && (op.Register? || op.Unregister?)
    requires h.clients[op.c].phase.New? ==> h.clients[op.c].buffer == h.clients[op.c].received == []
    ensures StreamOk(h, Apply(h, op).clients[op.c])
  {}

  ghost predicate Wellformed(h: Hub) { Consistent(h) && Begun(h) }

  /** Nobody has been given anything before registering. */
  ghost predicate Begun(h: Hub) {
    && (forall c :: c in h.clients ==> h.clients[c].from <= |h.broadcasts|)
    && (forall c :: c in h.clients && h.clients[c].phase.New? ==> Taken(h.clients[c]) == [])
  }

  lemma StepKeepsBegun(h: Hub, op: Op)
    requires RoomsOk(h) && Begun(h) && Enabled(h, op)
    ensures Begun(Apply(h, op))
  {}

  lemma StepKeepsWellformed(h: Hub, op: Op)
    requires Wellformed(h) && Enabled(h, op)
    ensures Wellformed(Apply(h, op))
  {
    StepKeepsRooms(h, op);
    StepKeepsStreams(h, op);
    StepKeepsBegun(h, op);
  }

  lemma StepKeepsStreams(h: Hub, op: Op)
    requires Wellformed(h) && Enabled(h, op)
    ensures forall d :: d in Apply(h, op).clients ==> StreamOk(Apply(h, op), Apply(h, op).clients[d])
  {
    var h' := Apply(h, op);
    match op {
      case Send(b) => SendKeepsConsistent(h, b);
      case Receive(c) =>
        forall d | d in h'.clients ensures StreamOk(h', h'.clients[d]) { ReceiveKeepsStream(h, c, d); }
      case Create(c, p) =>
        forall d | d in h'.clients ensures StreamOk(h', h'.clients[d]) {
          if d != c { SameBroadcasts(h, h', h.clients[d]); }
        }
      case _ =>
        PhaseKeepsStream(h, op);
        forall d | d in h'.clients ensures StreamOk(h', h'.clients[d]) {
          SameBroadcasts(h, h', h'.clients[d]);
        }
    }
  }

  lemma ReceiveKeepsStream(h: Hub, c: ClientId, d: ClientId)
    requires Wellformed(h) && Enabled(h, Receive(c)) && d in h.clients
    ensures var h' := Apply(h, Receive(c)); StreamOk(h', h'.clients[d])
  {
    var h' := Apply(h, Receive(c));
    if d == c { TakingKeepsStream(h, h.clients[c]); }
    SameBroadcasts(h, h', h'.clients[d]);
  }

  lemma TakingKeepsStream(h: Hub, c: Client)
    requires StreamOk(h, c) && c.buffer != []
    ensures StreamOk(h, c.(buffer := c.buffer[1..], received := c.received + [c.buffer[0]]))
  {
    var c' := c.(buffer := c.buffer[1..], received := c.received + [c.buffer[0]]);
    assert Taken(c') == Taken(c);
    assert forall n: nat :: Meant(h, c', n) == Meant(h, c, n);
  }

  // ------------------------------------------------------------------ all runs

  ghost predicate Run(h: Hub, ops: seq<Op>, h': Hub)
    decreases |ops|
  {
    if ops == [] then h == h' else Enabled(h, ops[0]) && Run(Apply(h, ops[0]), ops[1..], h')
  }

  lemma {:induction false} RunKeepsWellformed(h: Hub, ops: seq<Op>, h': Hub)
    requires Wellformed(h) && Run(h, ops, h')
    ensures Wellformed(h')
    decreases |ops|
  {
    if ops != [] {
      StepKeepsWellformed(h, ops[0]);
      RunKeepsWellformed(Apply(h, ops[0]), ops[1..], h');
    }
  }

  /** Hub safety: in every interleaving a client is in its room exactly while its channel is open,
      no room is empty, and no enabled step sends to a closed channel or closes one twice. */
  lemma HubSafety(ops: seq<Op>, h: Hub, next: Op)
    requires Run(EMPTY, ops, h) && Enabled(h, next)
    ensures forall c :: c in h.clients ==> (c in Room(h, h.clients[c].project) <==> h.clients[c].phase.Open?)
    ensures forall p :: p in h.rooms ==> h.rooms[p] != {}
    ensures !Panics(h, next)
  {
    RunKeepsWellformed(EMPTY, ops, h);
  }

  /** Order: what a client is given are broadcasts to its own project made while it was registered,
      each at most once and in order; the only ones left out are those that found its buffer full. */
  lemma DeliveryInOrder(ops: seq<Op>, h: Hub, c: ClientId, n: nat)
    requires Run(EMPTY, ops, h) && c in h.clients
    ensures InOrder(Taken(h.clients[c]))
    ensures n in Taken(h.clients[c]) <==> Meant(h, h.clients[c], n) && n !in h.clients[c].missed
  {
    RunKeepsWellformed(EMPTY, ops, h);
    assert StreamOk(h, h.clients[c]);
  }

  /** A message is missed only at the moment a full buffer refuses it, and a taken one is not lost. */
  lemma MissedOnlyWhenFull(ops: seq<Op>, h: Hub, op: Op, c: ClientId, n: nat)
    requires Run(EMPTY, ops, h) && Enabled(h, op) && c in h.clients
    ensures n in Apply(h, op).clients[c].missed && n !in h.clients[c].missed ==>
              op.Send? && n == |h.broadcasts| && |h.clients[c].buffer| == 16
    ensures Taken(h.clients[c]) <= Taken(Apply(h, op).clients[c])
  {
    RunKeepsWellformed(EMPTY, ops, h);
    assert StreamOk(h, h.clients[c]);
    var client, client' := h.clients[c], Apply(h, op).clients[c];
    if op.Send? && c in Room(h, op.b.project) {
      assert client' == Offer(client, |h.broadcasts|);
      if |client.buffer| < SEND_BUFFER_SIZE { assert Taken(client') == Taken(client) + [|h.broadcasts|]; }
    } else {
      assert Taken(client') == Taken(client);
    }
  }

  // ------------------------------------------------------------------ what the operations achieve

  datatype Option<T> = None | Some(value: T)

  /** The client's last registration or unregistration. */
  function LastTurn(ops: seq<Op>, c: ClientId): Option<Op> {
    if ops == [] then None
    else if LastTurn(ops[1..], c).Some? then LastTurn(ops[1..], c)
    else if ops[0] == Register(c) || ops[0] == Unregister(c) then Some(ops[0])
    else None
  }

  /** The project the client was created for. */
  function CreatedFor(ops: seq<Op>, c: ClientId): Option<Project> {
    if ops == [] then None
    else if ops[0].Create? && ops[0].c == c then Some(ops[0].project)
    else CreatedFor(ops[1..], c)
  }

  /** The broadcasts made, in order. */
  function Sent(ops: seq<Op>): seq<Broadcast> {
    if ops == [] then [] else (if ops[0].Send? then [ops[0].b] else []) + Sent(ops[1..])
  }

  predicate Member(h: Hub, c: ClientId) { c in h.clients && c in Room(h, h.clients[c].project) }

  lemma TurnTakesEffect(h: Hub, op: Op, c: ClientId)
    requires RoomsOk(h) && Enabled(h, op)
    ensures Member(Apply(h, op), c) <==>
            if op == Register(c) || op == Unregister(c) then op.Register? else Member(h, c)
  {}

  lemma {:induction false} MembersAreRegistered(h: Hub, ops: seq<Op>, h': Hub, c: ClientId)
    requires RoomsOk(h) && Run(h, ops, h')
    ensures Member(h', c) <==> if LastTurn(ops, c).Some? then LastTurn(ops, c).value.Register? else Member(h, c)
    decreases |ops|
  {
    if ops != [] {
      TurnTakesEffect(h, ops[0], c);
      StepKeepsRooms(h, ops[0]);
      MembersAreRegistered(Apply(h, ops[0]), ops[1..], h', c);
    }
  }

  lemma {:induction false} BroadcastsAreSent(h: Hub, ops: seq<Op>, h': Hub)
    requires Run(h, ops, h')
    ensures h'.broadcasts == h.broadcasts + Sent(ops)
    decreases |ops|
  {
    if ops != [] {
      BroadcastsAreSent(Apply(h, ops[0]), ops[1..], h');
      var now := if ops[0].Send? then [ops[0].b] else [];
      assert Apply(h, ops[0]).broadcasts == h.broadcasts + now;
      assert h.broadcasts + now + Sent(ops[1..]) == h.broadcasts + (now + Sent(ops[1..]));
    }
  }

  lemma {:induction false} ProjectsStay(h: Hub, ops: seq<Op>, h': Hub, c: ClientId)
    requires Run(h, ops, h')
    ensures c in h.clients ==> c in h'.clients && h'.clients[c].project == h.clients[c].project
    ensures c !in h.clients && c in h'.clients ==> CreatedFor(ops, c) == Some(h'.clients[c].project)
    decreases |ops|
  {
    if ops != [] { ProjectsStay(Apply(h, ops[0]), ops[1..], h', c); }
  }

  /** A client is in a room if and only if it was created for that project and its last turn was its
      registration; and the messages are those broadcast, in order. */
  lemma RoomsFollowTheTurns(ops: seq<Op>, h: Hub, p: Project, c: ClientId)
    requires Run(EMPTY, ops, h)
    ensures c in Room(h, p) <==> CreatedFor(ops, c) == Some(p) && LastTurn(ops, c) == Some(Register(c))
    ensures h.broadcasts == Sent(ops)
  {
    MembersAreRegistered(EMPTY, ops, h, c);
    BroadcastsAreSent(EMPTY, ops, h);
    RunKeepsWellformed(EMPTY, ops, h);
    LastTurnIsTheirs(ops, c);
    ProjectsStay(EMPTY, ops, h, c);
  }

  lemma {:induction false} LastTurnIsTheirs(ops: seq<Op>, c: ClientId)
    ensures var o := LastTurn(ops, c); o.Some? ==> o.value == Register(c) || o.value == Unregister(c)
  {
    if ops != [] { LastTurnIsTheirs(ops[1..], c); }
  }

  lemma OfferGives(c: Client, n: nat)
    ensures Taken(Offer(c, n)) == Taken(c) + if |c.buffer| < 16 then [n] else []
  {
    if |c.buffer| < 16 { assert c.received + (c.buffer + [n]) == c.received + c.buffer + [n]; }
  }

  lemma SendGives(h: Hub, b: Broadcast, c: ClientId)
    requires c in h.clients
    ensures Taken(Apply(h, Send(b)).clients[c]) == Taken(h.clients[c]) +
              if c in Room(h, b.project) && |h.clients[c].buffer| < 16 then [|h.broadcasts|] else []
  {
    OfferGives(h.clients[c], |h.broadcasts|);
  }

  /** A broadcast reaches every member of the room that has a free slot of its sixteen, and nobody else. */
  lemma BroadcastReaches(ops: seq<Op>, h: Hub, b: Broadcast, c: ClientId)
    requires Run(EMPTY, ops, h) && c in h.clients
    ensures var before, after := h.clients[c], Apply(h, Send(b)).clients[c];
            var member := CreatedFor(ops, c) == Some(b.project) && LastTurn(ops, c) == Some(Register(c));
            Taken(after) == Taken(before) + if member && |before.buffer| < 16 then [|Sent(ops)|] else []
  {
    RoomsFollowTheTurns(ops, h, b.project, c);
    SendGives(h, b, c);
  }

  /** The client's connection takes the oldest message waiting. */
  lemma ReceiveTakesOldest(h: Hub, c: ClientId)
    requires Enabled(h, Receive(c))
    ensures var before, after := h.clients[c], Apply(h, Receive(c)).clients[c];
            |after.received| == |before.received| + 1 && Taken(after) == Taken(before)
  {}
}

module Hub {
  import opened HubProtocol

  class Hub {
    var rooms: map<Project, set<ClientId>>
    var clients: map<ClientId, Client>
    var broadcasts: seq<Broadcast>

    ghost function State(): HubProtocol.Hub
      reads this
    {
      HubProtocol.Hub(rooms, clients, broadcasts)
    }

    ghost predicate Valid()
      reads this
    {
      Wellformed(State())
    }

    constructor ()
      ensures Valid() && State() == EMPTY
    {
      rooms, clients, broadcasts := map[], map[], [];
    }

    method Register(c: ClientId)
      requires Valid() && c in clients && clients[c].phase.New?
      modifies this
      ensures Valid() && State() == Apply(old(State()), Op.Register(c))
    {
      StepKeepsWellformed(State(), Op.Register(c));
      Enter(c);
    }

    method Enter(c: ClientId)
      requires c in clients && clients[c].phase.New?
      modifies this
      ensures State() == Apply(old(State()), Op.Register(c))
    {
      var p := clients[c].project;
      if p !in rooms { rooms := rooms[p := {}]; }
      rooms := rooms[p := rooms[p] + {c}];
      clients := clients[c := clients[c].(phase := Open, from := |broadcasts|)];
    }

    /** May be called any number of times for a client; only the first call closes the channel. */
    method Unregister(c: ClientId)
      requires Valid() && c in clients
      modifies this
      ensures Valid() && State() == Apply(old(State()), Op.Unregister(c))
    {
      StepKeepsWellformed(State(), Op.Unregister(c));
      Leave(c);
    }

    method Leave(c: ClientId)
      requires c in clients && (c in Room(State(), clients[c].project) ==> clients[c].phase.Open?)
      modifies this
      ensures State() == Apply(old(State()), Op.Unregister(c))
    {
      var p := clients[c].project;
      if p !in rooms { return; }
      if c !in rooms[p] { return; }
      rooms := rooms[p := rooms[p] - {c}];
      Close(c);
      if |rooms[p]| == 0 { rooms := rooms - {p}; }
    }

    /** close(client.send) panics on a closed channel. */
    method Close(c: ClientId)
      requires c in clients && clients[c].phase.Open?
      modifies this`clients
      ensures clients == old(clients)[c := old(clients)[c].(phase := Closed, until := |broadcasts|)]
    {
      clients := clients[c := clients[c].(phase := Closed, until := |broadcasts|)];
    }

    /** The select of `BroadcastToProject`; sending on a closed channel panics. */
    method TrySend(c: ClientId, n: nat) returns (sent: bool)
      requires c in clients && clients[c].phase.Open?
      modifies this`clients
      ensures clients == old(clients)[c := Offer(old(clients)[c], n)]
      ensures sent <==> |old(clients)[c].buffer| < SEND_BUFFER_SIZE
    {
      sent := |clients[c].buffer| < SEND_BUFFER_SIZE;
      if sent {
        clients := clients[c := clients[c].(buffer := clients[c].buffer + [n])];
      } else {
        clients := clients[c := clients[c].(missed := clients[c].missed + {n})];
      }
    }

    /** Returns the clients whose unregister goroutine was started. */
    method BroadcastToProject(p: Project, message: string) returns (dropped: set<ClientId>)
      requires Valid()
      modifies this
      ensures Valid() && State() == Apply(old(State()), Send(Broadcast(p, message)))
      ensures forall c :: c in dropped <==>
                c in Room(old(State()), p) && |old(clients)[c].buffer| >= SEND_BUFFER_SIZE
    {
      StepKeepsWellformed(State(), Send(Broadcast(p, message)));
      var n := |broadcasts|;
      broadcasts := broadcasts + [Broadcast(p, message)];
      if p in rooms {
        dropped := OfferRoom(rooms[p], n);
      } else {
        dropped := {};
        assert OfferAll(clients, {}, n) == clients;
      }
    }

    /** The loop over the room, in no particular order. */
    method OfferRoom(room: set<ClientId>, n: nat) returns (dropped: set<ClientId>)
      requires forall c :: c in room ==> c in clients && clients[c].phase.Open?
      modifies this`clients
      ensures clients == OfferAll(old(clients), room, n)
      ensures forall c :: c in dropped <==> c in room && |old(clients)[c].buffer| >= SEND_BUFFER_SIZE
    {
      var todo := room;
      dropped := {};
      OfferNobody(clients, n);
      assert room - todo == {};
      while todo != {}
        invariant todo <= room
        invariant clients == OfferAll(old(clients), room - todo, n)
        invariant forall c :: c in dropped <==> c in room - todo && |old(clients)[c].buffer| >= SEND_BUFFER_SIZE
        decreases |todo|
      {
        var c :| c in todo;
        OfferOneMore(old(clients), room - todo, c, n);
        assert room - (todo - {c}) == room - todo + {c};
        var sent := TrySend(c, n);
        if !sent { dropped := dropped + {c}; }
        todo := todo - {c};
      }
      assert room - {} == room;
    }
  }

  lemma OfferNobody(clients: map<ClientId, Client>, n: nat)
    ensures OfferAll(clients, {}, n) == clients
  {}

  lemma OfferOneMore(clients: map<ClientId, Client>, done: set<ClientId>, c: ClientId, n: nat)
    requires c in clients && c !in done
    ensures OfferAll(clients, done + {c}, n) == OfferAll(clients, done, n)[c := Offer(clients[c], n)]
    ensures OfferAll(clients, done, n)[c] == clients[c]
  {}
}
