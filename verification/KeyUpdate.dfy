/** Traffic secrets after the handshake: the packed update budget, KeyUpdate in both
    directions, and agreement of reader and writer (section 4.6.3 of RFC 8446). */
module KeyUpdate {
  import opened Bytes

  const LIMIT: nat := 8
  const RESPONSE_PENDING: nat := 0x8000_0000

  datatype Request = NotRequested | Requested

  datatype Side = Client | Server

  /** A traffic secret is its first generation, advanced some number of times. */
  datatype Secret = Initial(id: nat) | Next(previous: Secret)

  datatype Event = Send(request: Request) | NewRead(secret: Secret, respond: bool) | NewWrite(secret: Secret)

  function Advanced(s: Secret, n: nat): Secret
  {
    if n == 0 then s else Next(Advanced(s, n - 1))
  }

  lemma {:induction false} AdvancedOnce(s: Secret, n: nat)
    ensures Advanced(Next(s), n) == Next(Advanced(s, n))
  {
    if n != 0 {
      AdvancedOnce(s, n - 1);
    }
  }

  // ------------------------------------------------------------------- the budget

  function Packed(count: nat, pending: bool): nat
  {
    count + if pending then RESPONSE_PENDING else 0
  }

  /** `KeyUpdateBudget`: the count in the low digits, the response flag in digit 31. */
  class Budget {
    var state: nat

    ghost predicate Holds(count: nat, pending: bool)
      reads this
    {
      count <= LIMIT && state == Packed(count, pending)
    }

    constructor ()
      ensures Holds(0, false)
    {
      state := 0;
    }

    /** `state & !RESPONSE_PENDING` */
    function Count(): nat
      reads this
    {
      state % RESPONSE_PENDING
    }

    /** `state & RESPONSE_PENDING` */
    function Flag(): nat
      reads this
    {
      if state / RESPONSE_PENDING % 2 == 1 then RESPONSE_PENDING else 0
    }

    method Consume(ghost count: nat, ghost pending: bool) returns (ok: bool)
      requires Holds(count, pending)
      modifies this
      ensures ok <==> count < LIMIT
      ensures if ok then Holds(count + 1, pending) else Holds(count, pending)
    {
      if Count() >= LIMIT {
        return false;
      }
      state := Count() + 1 + Flag();
      ok := true;
    }

    method Reset(ghost count: nat, ghost pending: bool)
      requires Holds(count, pending)
      modifies this
      ensures Holds(0, pending)
    {
      state := Flag();
    }

    method ResponsePending(ghost count: nat, ghost pending: bool) returns (set_: bool)
      requires Holds(count, pending)
      ensures set_ == pending
    {
      set_ := Flag() != 0;
    }

    method RequestResponse(ghost count: nat, ghost pending: bool)
      requires Holds(count, pending)
      modifies this
      ensures Holds(count, true)
    {
      state := Count() + RESPONSE_PENDING;
    }

    method ClearResponse(ghost count: nat, ghost pending: bool)
      requires Holds(count, pending)
      modifies this
      ensures Holds(count, false)
    {
      state := Count();
    }
  }

  // --------------------------------------------------------------- traffic secrets

  /** The active traffic state as a value. */
  datatype Active = Active(client: Secret, server: Secret, count: nat, pending: bool)

  function SecretOf(a: Active, side: Side): Secret
  {
    if side == Client then a.client else a.server
  }

  function AdvanceSide(a: Active, side: Side): Active
  {
    if side == Client then a.(client := Next(a.client)) else a.(server := Next(a.server))
  }

  function Peer(role: Side): Side
  {
    if role == Client then Server else Client
  }

  datatype Op = Receive(request: Request) | SendUpdate(request: Request) | NoteData

  /** One operation of an endpoint; `None` is a fatal error. */
  function Step(role: Side, a: Active, op: Op): Option<Active>
  {
    match op
    case Receive(request) =>
      if a.count >= LIMIT then None
      else Some(AdvanceSide(a, Peer(role)).(count := a.count + 1, pending := a.pending || request == Requested))
    case SendUpdate(request) =>
      Some(AdvanceSide(a, role).(pending := a.pending && request != NotRequested))
    case NoteData => Some(a.(count := 0))
  }

  datatype Phase = Empty | Live

  /** `material::State` when active, with `KeyUpdateCore::receive` and `send`. The sink
      takes `room` more events and fails on the next; every failure clears the state. */
  class Traffic {
    const role: Side
    var phase: Phase
    var client: Secret
    var server: Secret
    const updates: Budget
    ghost var count: nat
    ghost var pending: bool

    ghost predicate Valid()
      reads this, updates
    {
      updates.Holds(count, pending)
    }

    ghost function View(): Active
      reads this
    {
      Active(client, server, count, pending)
    }

    constructor (role: Side, client: Secret, server: Secret)
      ensures Valid() && phase == Live && this.role == role && fresh(updates)
      ensures View() == Active(client, server, 0, false)
    {
      this.role, this.client, this.server := role, client, server;
      phase, count, pending := Live, 0, false;
      updates := new Budget();
    }

    method Advance(side: Side)
      requires Valid()
      modifies this
      ensures Valid() && phase == old(phase) && View() == AdvanceSide(old(View()), side)
    {
      if side == Client {
        client := Next(client);
      } else {
        server := Next(server);
      }
    }

    method ReceiveUpdate(request: Request, room: nat) returns (ok: bool, events: seq<Event>)
      requires Valid() && phase == Live
      modifies this, updates
      ensures ok ==> Valid() && phase == Live && Step(role, old(View()), Receive(request)) == Some(View())
      ensures ok <==> Step(role, old(View()), Receive(request)).Some? && room >= 1
      ensures ok ==> events == [NewRead(SecretOf(View(), Peer(role)), request == Requested)]
      ensures !ok ==> phase == Empty && events == []
    {
      events := [];
      var allowed := updates.Consume(count, pending);
      if !allowed {
        phase := Empty;
        return false, [];
      }
      count := count + 1;
      Advance(Peer(role));
      if room == 0 {
        phase := Empty;
        return false, [];
      }
      events := [NewRead(if Peer(role) == Client then client else server, request == Requested)];
      if request == Requested {
        updates.RequestResponse(count, pending);
        pending := true;
      }
      ok := true;
    }

    method Send(request: Request, room: nat) returns (ok: bool, events: seq<Event>)
      requires Valid() && phase == Live
      modifies this, updates
      ensures ok ==> Valid() && phase == Live && Step(role, old(View()), SendUpdate(request)) == Some(View())
      ensures ok <==> room >= 2
      ensures ok ==> events == [Event.Send(request), NewWrite(SecretOf(View(), role))]
      ensures !ok ==> phase == Empty && events <= [Event.Send(request)]
    {
      events := [];
      if room == 0 {
        phase := Empty;
        return false, events;
      }
      events := [Event.Send(request)];
      Advance(role);
      if room == 1 {
        phase := Empty;
        return false, events;
      }
      events := events + [NewWrite(if role == Client then client else server)];
      if request == NotRequested {
        updates.ClearResponse(count, pending);
        pending := false;
      }
      ok := true;
    }

    method NoteApplicationData()
      requires Valid()
      modifies this, updates
      ensures Valid() && phase == old(phase) && Some(View()) == Step(role, old(View()), NoteData)
    {
      updates.Reset(count, pending);
      count := 0;
    }
  }

  // ------------------------------------------------------------------------ runs

  /** The state after a run, if nothing in it was fatal. */
  function Run(role: Side, a: Active, ops: seq<Op>): Option<Active>
  {
    if ops == [] then Some(a)
    else
      match Run(role, a, ops[..|ops| - 1])
      case None => None
      case Some(b) => Step(role, b, ops[|ops| - 1])
  }

  function Receives(ops: seq<Op>): nat
  {
    if ops == [] then 0 else Receives(ops[..|ops| - 1]) + if ops[|ops| - 1].Receive? then 1 else 0
  }

  function Sends(ops: seq<Op>): nat
  {
    if ops == [] then 0 else Sends(ops[..|ops| - 1]) + if ops[|ops| - 1].SendUpdate? then 1 else 0
  }

  /** A requested update has arrived and no unrequested one was sent since. */
  ghost predicate ResponseOwed(ops: seq<Op>)
  {
    exists i :: 0 <= i < |ops| && ops[i] == Receive(Requested) &&
      forall j :: i < j < |ops| ==> ops[j] != SendUpdate(NotRequested)
  }

  lemma OwedStep(ops: seq<Op>, op: Op)
    ensures ResponseOwed(ops + [op]) <==>
            op == Receive(Requested) || (ResponseOwed(ops) && op != SendUpdate(NotRequested))
  {
    var all := ops + [op];
    if op == Receive(Requested) {
      assert all[|ops|] == Receive(Requested);
    }
    if ResponseOwed(ops) && op != SendUpdate(NotRequested) {
      var i :| 0 <= i < |ops| && ops[i] == Receive(Requested) &&
        forall j :: i < j < |ops| ==> ops[j] != SendUpdate(NotRequested);
      assert all[i] == Receive(Requested);
      assert forall j :: i < j < |all| ==> all[j] != SendUpdate(NotRequested);
    }
    if ResponseOwed(all) && op != Receive(Requested) {
      var i :| 0 <= i < |all| && all[i] == Receive(Requested) &&
        forall j :: i < j < |all| ==> all[j] != SendUpdate(NotRequested);
      assert ops[i] == all[i];
      assert forall j :: i < j < |ops| ==> ops[j] == all[j];
      assert all[|ops|] == op;
    }
  }

  /** Each direction's secret is its first generation advanced once per update, and the
      flag is set exactly while a response is owed. */
  lemma {:induction false} RunSecrets(role: Side, a: Active, ops: seq<Op>)
    requires Run(role, a, ops).Some? && !a.pending
    ensures var b := Run(role, a, ops).value;
            && SecretOf(b, role) == Advanced(SecretOf(a, role), Sends(ops))
            && SecretOf(b, Peer(role)) == Advanced(SecretOf(a, Peer(role)), Receives(ops))
            && (b.pending <==> ResponseOwed(ops))
  {
    if ops != [] {
      var init, op := ops[..|ops| - 1], ops[|ops| - 1];
      RunSecrets(role, a, init);
      OwedStep(init, op);
      assert ops == init + [op];
    }
  }

  /** Updates accepted since the last progress note. */
  function Streak(ops: seq<Op>): nat
  {
    if ops == [] then 0
    else
      match ops[|ops| - 1]
      case NoteData => 0
      case Receive(_) => Streak(ops[..|ops| - 1]) + 1
      case SendUpdate(_) => Streak(ops[..|ops| - 1])
  }

  lemma {:induction false} RunStreak(role: Side, a: Active, ops: seq<Op>)
    requires Run(role, a, ops).Some? && a.count == 0
    ensures Run(role, a, ops).value.count == Streak(ops) <= LIMIT
  {
    if ops != [] {
      RunStreak(role, a, ops[..|ops| - 1]);
    }
  }

  lemma {:induction false} RunPrefix(role: Side, a: Active, ops: seq<Op>, n: nat)
    requires Run(role, a, ops).Some? && n <= |ops|
    ensures Run(role, a, ops[..n]).Some?
  {
    if n < |ops| {
      assert ops[..n] == ops[..|ops| - 1][..n];
      RunPrefix(role, a, ops[..|ops| - 1], n);
    } else {
      assert ops[..n] == ops;
    }
  }

  lemma {:induction false} WindowWithinStreak(ops: seq<Op>, i: nat)
    requires i <= |ops| && NoteData !in ops[i..]
    ensures Receives(ops[i..]) <= Streak(ops)
  {
    if i < |ops| {
      var init := ops[..|ops| - 1];
      assert ops[i..][..|ops| - i - 1] == init[i..];
      assert ops[i..][|ops| - i - 1] == ops[|ops| - 1];
      WindowWithinStreak(init, i);
    }
  }

  /** Any stretch of a successful run without a progress note holds at most eight
      accepted updates. */
  lemma AtMostEightBetweenNotes(role: Side, a: Active, ops: seq<Op>, i: nat, j: nat)
    requires Run(role, a, ops).Some? && a.count == 0
    requires i <= j <= |ops| && NoteData !in ops[i..j]
    ensures Receives(ops[i..j]) <= LIMIT
  {
    RunPrefix(role, a, ops, j);
    RunStreak(role, a, ops[..j]);
    assert ops[..j][i..] == ops[i..j];
    WindowWithinStreak(ops[..j], i);
  }

  // ------------------------------------------------------------------ two endpoints

  /** A client and a server with the updates under way in each direction, in order. */
  datatype Link = Link(client: Active, server: Active, toServer: seq<Request>, toClient: seq<Request>)

  datatype Move = ClientSends(request: Request) | ServerSends(request: Request)
                | ClientReads | ServerReads | ClientNotes | ServerNotes

  function MoveStep(l: Link, m: Move): Option<Link>
  {
    match m
    case ClientSends(request) =>
      (match Step(Client, l.client, SendUpdate(request))
       case None => None
       case Some(c) => Some(l.(client := c, toServer := l.toServer + [request])))
    case ServerSends(request) =>
      (match Step(Server, l.server, SendUpdate(request))
       case None => None
       case Some(s) => Some(l.(server := s, toClient := l.toClient + [request])))
    case ClientReads =>
      if l.toClient == [] then None
      else (match Step(Client, l.client, Receive(l.toClient[0]))
            case None => None
            case Some(c) => Some(l.(client := c, toClient := l.toClient[1..])))
    case ServerReads =>
      if l.toServer == [] then None
      else (match Step(Server, l.server, Receive(l.toServer[0]))
            case None => None
            case Some(s) => Some(l.(server := s, toServer := l.toServer[1..])))
    case ClientNotes => Some(l.(client := l.client.(count := 0)))
    case ServerNotes => Some(l.(server := l.server.(count := 0)))
  }

  /** Each writer is ahead of its reader by exactly the updates still under way. */
  ghost predicate InStep(l: Link)
  {
    && l.client.client == Advanced(l.server.client, |l.toServer|)
    && l.server.server == Advanced(l.client.server, |l.toClient|)
  }

  lemma StepKeepsInStep(l: Link, m: Move)
    requires InStep(l) && MoveStep(l, m).Some?
    ensures InStep(MoveStep(l, m).value)
  {
    if m.ServerReads? && |l.toServer| > 0 {
      AdvancedOnce(l.server.client, |l.toServer| - 1);
    }
    if m.ClientReads? && |l.toClient| > 0 {
      AdvancedOnce(l.client.server, |l.toClient| - 1);
    }
  }

  function Moves(l: Link, moves: seq<Move>): Option<Link>
    decreases |moves|
  {
    if moves == [] then Some(l)
    else
      match MoveStep(l, moves[0])
      case None => None
      case Some(next) => Moves(next, moves[1..])
  }

  /** From equal secrets, after any run of the two endpoints, reader and writer agree in
      each direction once every update sent has been delivered. */
  lemma {:induction false} ReaderWriterAgree(l: Link, moves: seq<Move>)
    requires InStep(l) && Moves(l, moves).Some?
    ensures var e := Moves(l, moves).value;
            && InStep(e)
            && (e.toServer == [] ==> e.client.client == e.server.client)
            && (e.toClient == [] ==> e.server.server == e.client.server)
    decreases |moves|
  {
    if moves != [] {
      StepKeepsInStep(l, moves[0]);
      ReaderWriterAgree(MoveStep(l, moves[0]).value, moves[1..]);
    }
  }
}
