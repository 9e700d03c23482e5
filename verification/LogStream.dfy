/**
 The log hook and its streaming clients: a bounded buffer of recent lines, replayed to a new client under the lock
 that registers it, then a bounded queue for each client that loses lines only while it is full.
 */
module LogStreams {
  import opened Prelude

  const MAX_SIZE := 100
  const QUEUE_SIZE := 50

  /** The last `n` elements, or all when there are fewer. */
  function LastN(s: seq<string>, n: nat): (r: seq<string>)
    ensures |r| == if |s| < n then |s| else n
  {
    if |s| < n then s else s[|s| - n..]
  }

  lemma LastNOfLastN(s: seq<string>, line: string)
    ensures (if |LastN(s, MAX_SIZE)| >= MAX_SIZE then LastN(s, MAX_SIZE)[1..] else LastN(s, MAX_SIZE)) + [line]
         == LastN(s + [line], MAX_SIZE)
  {
  }

  // ----- every interleaving -----

  type ClientId = nat

  /** `taken` and `lost` are places in the history: those the client got, in order, and those it missed. */
  datatype ClientState = ClientState(
    registered: bool, closed: bool,
    written: seq<string>, queue: seq<string>,
    start: nat, end: nat, taken: seq<nat>, lost: seq<nat>)

  datatype State = State(history: seq<string>, buffer: seq<string>, clients: map<ClientId, ClientState>)

  datatype Event =
    | Fired(line: string)
    | Connected(id: ClientId)
    | WasRead(id: ClientId)
    | Deregistered(id: ClientId)
    | Closed(id: ClientId)

  const INITIAL := State([], [], map[])

  function Range(a: nat, b: nat): (r: seq<nat>)
    requires a <= b
    ensures |r| == b - a && forall i | 0 <= i < b - a :: r[i] == a + i
  {
    seq(b - a, i requires 0 <= i => a + i)
  }

  function FirstReplayed(start: nat): nat {
    if start < MAX_SIZE then 0 else start - MAX_SIZE
  }

  function OnFire(c: ClientState, place: nat, line: string): ClientState {
    if !c.registered then c
    else if |c.queue| < QUEUE_SIZE then c.(queue := c.queue + [line], taken := c.taken + [place], end := place + 1)
    else c.(lost := c.lost + [place], end := place + 1)
  }

  function Step(s: State, e: Event): State {
    match e
    case Fired(line) =>
      State(s.history + [line],
            (if |s.buffer| >= MAX_SIZE then s.buffer[1..] else s.buffer) + [line],
            map id | id in s.clients :: OnFire(s.clients[id], |s.history|, line))
    case Connected(id) =>
      if id in s.clients then s else
      var n := |s.history|;
      s.(clients := s.clients[id := ClientState(true, false, s.buffer, [], n, n, Range(FirstReplayed(n), n), [])])
    case WasRead(id) =>
      if id in s.clients && s.clients[id].registered && s.clients[id].queue != [] then
        var c := s.clients[id];
        s.(clients := s.clients[id := c.(written := c.written + [c.queue[0]], queue := c.queue[1..])])
      else s
    case Deregistered(id) =>
      if id in s.clients && s.clients[id].registered then
        s.(clients := s.clients[id := s.clients[id].(registered := false)])
      else s
    case Closed(id) =>
      if id in s.clients && !s.clients[id].registered then
        s.(clients := s.clients[id := s.clients[id].(closed := true)])
      else s
  }

  function Exec(es: seq<Event>): State {
    if es == [] then INITIAL else Step(Exec(es[..|es| - 1]), es[|es| - 1])
  }

  /** Lines are the history at strictly increasing places, so in order and none twice. */
  ghost predicate Selects(lines: seq<string>, places: seq<nat>, history: seq<string>) {
    && |lines| == |places|
    && (forall k | 0 <= k < |places| :: places[k] < |history| && lines[k] == history[places[k]])
    && (forall j, k | 0 <= j < k < |places| :: places[j] < places[k])
  }

  /** What a client was sent, followed by its queue, against the full history. */
  ghost predicate Faithful(c: ClientState, history: seq<string>) {
    var from := FirstReplayed(c.start);
    && c.start <= c.end <= |history|
    && (c.registered ==> c.end == |history| && !c.closed)
    && |c.queue| <= QUEUE_SIZE
    && Selects(c.written + c.queue, c.taken, history)
    && Range(from, c.start) <= c.taken
    && (forall i: nat :: i in c.taken || i in c.lost ==> from <= i < c.end)
    && (forall i: nat :: c.start <= i < c.end ==> (i in c.taken <==> i !in c.lost))
    && (forall i: nat :: i in c.lost ==> c.start <= i)
  }

  ghost predicate Inv(s: State) {
    s.buffer == LastN(s.history, MAX_SIZE) && AllFaithful(s.clients, s.history)
  }

  ghost predicate AllFaithful(clients: map<ClientId, ClientState>, history: seq<string>) {
    forall id {:trigger Faithful(clients[id], history)} | id in clients :: Faithful(clients[id], history)
  }

  lemma SelectsMore(lines: seq<string>, places: seq<nat>, history: seq<string>, line: string)
    requires Selects(lines, places, history)
    ensures Selects(lines, places, history + [line])
    ensures Selects(lines + [line], places + [|history|], history + [line])
  {
  }

  lemma FireKeepsFaith(c: ClientState, history: seq<string>, line: string)
    requires Faithful(c, history)
    ensures Faithful(OnFire(c, |history|, line), history + [line])
  {
    var d := OnFire(c, |history|, line);
    SelectsMore(c.written + c.queue, c.taken, history, line);
    if d.taken != c.taken {
      assert d.written + d.queue == c.written + c.queue + [line];
    }
  }

  lemma ConnectFaithfully(history: seq<string>)
    ensures var n := |history|;
            Faithful(ClientState(true, false, LastN(history, MAX_SIZE), [], n, n, Range(FirstReplayed(n), n), []), history)
  {
  }

  lemma InvStep(s: State, e: Event)
    requires Inv(s)
    ensures Inv(Step(s, e))
  {
    match e
    case Fired(line) =>
      LastNOfLastN(s.history, line);
      forall id | id in s.clients ensures Faithful(OnFire(s.clients[id], |s.history|, line), s.history + [line]) {
        assert Faithful(s.clients[id], s.history);
        FireKeepsFaith(s.clients[id], s.history, line);
      }
    case Connected(id) => ConnectFaithfully(s.history);
    case WasRead(id) =>
      if id in s.clients && s.clients[id].queue != [] {
        var c := s.clients[id];
        assert Faithful(c, s.history);
        assert c.written + [c.queue[0]] + c.queue[1..] == c.written + c.queue;
      }
    case Deregistered(id) => assert id in s.clients ==> Faithful(s.clients[id], s.history);
    case Closed(id) => assert id in s.clients ==> Faithful(s.clients[id], s.history);
  }

  lemma {:induction false} InvExec(es: seq<Event>)
    ensures Inv(Exec(es))
  {
    if es != [] {
      InvExec(es[..|es| - 1]);
      InvStep(Exec(es[..|es| - 1]), es[|es| - 1]);
    }
  }

  /**
   In every interleaving of log writes, connects, reads and disconnects the buffer holds the last hundred lines, and
   what each client was sent plus its queue is an ordered, duplicate-free choice of history lines that starts with
   the hundred lines before it connected and, from there on, misses exactly the lines recorded as lost.
   */
  lemma StreamIsFaithful(es: seq<Event>)
    ensures var s := Exec(es);
            && s.buffer == LastN(s.history, 100)
            && forall id | id in s.clients :: Faithful(s.clients[id], s.history)
  {
    InvExec(es);
    var s := Exec(es);
    forall id | id in s.clients ensures Faithful(s.clients[id], s.history) {}
  }

  /** A line is lost to a client exactly when it is written while the registered client's queue holds fifty. */
  lemma LostExactlyWhenFull(es: seq<Event>, e: Event, id: ClientId)
    requires id in Exec(es).clients
    ensures var s, t := Exec(es), Exec(es + [e]);
            && id in t.clients
            && (t.clients[id].lost != s.clients[id].lost
                <==> e.Fired? && s.clients[id].registered && |s.clients[id].queue| == 50)
  {
    InvExec(es);
    assert (es + [e])[..|es|] == es;
    assert Faithful(Exec(es).clients[id], Exec(es).history);
  }

  /** No line is put on a closed queue: once closed, a client's queue never changes again. */
  lemma NothingOnClosed(es: seq<Event>, e: Event, id: ClientId)
    requires id in Exec(es).clients && Exec(es).clients[id].closed
    ensures id in Exec(es + [e]).clients && Exec(es + [e]).clients[id] == Exec(es).clients[id]
  {
    InvExec(es);
    assert (es + [e])[..|es|] == es;
    assert Faithful(Exec(es).clients[id], Exec(es).history);
  }

  /** A read moves the oldest queued line to the end of what was sent, and nothing else. */
  lemma ReadDelivers(es: seq<Event>, id: ClientId)
    requires id in Exec(es).clients && Exec(es).clients[id].registered && Exec(es).clients[id].queue != []
    ensures var s, t := Exec(es), Exec(es + [WasRead(id)]);
            && id in t.clients && t.history == s.history && t.buffer == s.buffer
            && t.clients[id].written == s.clients[id].written + [s.clients[id].queue[0]]
            && t.clients[id].queue == s.clients[id].queue[1..]
            && t.clients[id].registered && t.clients[id].taken == s.clients[id].taken
            && t.clients - {id} == s.clients - {id}
  {
    assert (es + [WasRead(id)])[..|es|] == es;
  }

  function Reads(id: ClientId, n: nat): (es: seq<Event>)
    ensures |es| == n
  {
    seq(n, i => WasRead(id))
  }

  /** n reads of one client. */
  function AfterReads(s: State, id: ClientId, n: nat): State {
    if n == 0 then s else Step(AfterReads(s, id, n - 1), WasRead(id))
  }

  lemma {:induction false} ReadsAreRun(es: seq<Event>, id: ClientId, n: nat)
    ensures Exec(es + Reads(id, n)) == AfterReads(Exec(es), id, n)
  {
    if n == 0 {
      assert es + Reads(id, 0) == es;
    } else {
      ReadsAreRun(es, id, n - 1);
      assert (es + Reads(id, n))[..|es| + n - 1] == es + Reads(id, n - 1);
    }
  }

  lemma {:induction false} ReadsMove(s: State, id: ClientId, n: nat)
    requires id in s.clients && s.clients[id].registered && n <= |s.clients[id].queue|
    ensures var t, c := AfterReads(s, id, n), s.clients[id];
            t == s.(clients := s.clients[id := c.(written := c.written + c.queue[..n], queue := c.queue[n..])])
  {
    if n == 0 {
      var c := s.clients[id];
      assert c.(written := c.written + c.queue[..0], queue := c.queue[0..]) == c;
      assert s.clients[id := c] == s.clients;
    } else {
      ReadsMove(s, id, n - 1);
      var c := s.clients[id];
      OneMore(c.queue, n);
      assert c.written + c.queue[..n - 1] + [c.queue[n - 1..][0]] == c.written + c.queue[..n];
      var was, now := AfterReads(s, id, n - 1), c.(written := c.written + c.queue[..n], queue := c.queue[n..]);
      assert was.clients[id := now] == s.clients[id := now];
    }
  }

  lemma OneMore(queue: seq<string>, n: nat)
    requires 0 < n <= |queue|
    ensures queue[..n] == queue[..n - 1] + [queue[n - 1..][0]]
    ensures queue[n..] == queue[n - 1..][1..]
  {
  }

  /** As many reads as lines are queued bring out exactly those lines, in their order. */
  lemma ReadsDrain(es: seq<Event>, id: ClientId, n: nat)
    requires id in Exec(es).clients && Exec(es).clients[id].registered && n <= |Exec(es).clients[id].queue|
    ensures var s, t := Exec(es), Exec(es + Reads(id, n));
            && id in t.clients && t.clients[id].registered && t.history == s.history
            && t.clients[id].written == s.clients[id].written + s.clients[id].queue[..n]
            && t.clients[id].queue == s.clients[id].queue[n..]
            && t.clients[id].taken == s.clients[id].taken
  {
    ReadsAreRun(es, id, n);
    ReadsMove(Exec(es), id, n);
  }

  /** Once its queue is read empty a client has been sent every line of the history since its replay, but for the lost ones. */
  lemma DrainedIsComplete(es: seq<Event>, id: ClientId)
    requires id in Exec(es).clients && Exec(es).clients[id].registered
    ensures var t := Exec(es + Reads(id, |Exec(es).clients[id].queue|));
            && id in t.clients && t.clients[id].queue == [] && Selects(t.clients[id].written, t.clients[id].taken, t.history)
            && forall i: nat | t.clients[id].start <= i < |t.history| :: i in t.clients[id].taken <==> i !in t.clients[id].lost
  {
    var n := |Exec(es).clients[id].queue|;
    ReadsDrain(es, id, n);
    InvExec(es + Reads(id, n));
    var t := Exec(es + Reads(id, n));
    assert Faithful(t.clients[id], t.history);
    assert t.clients[id].written + t.clients[id].queue == t.clients[id].written;
  }

  // ----- the objects -----

  class Client {
    var queue: seq<string>
    var written: seq<string>   // what the response has carried
    var closed: bool

    constructor ()
      ensures queue == [] && written == [] && !closed
    {
      queue, written, closed := [], [], false;
    }
  }

  /** Every registered client has a name, and no two names are one client. */
  ghost predicate Named(clients: set<Client>, handles: map<ClientId, Client>) {
    && (forall id, other | id in handles && other in handles && handles[id] == handles[other] :: id == other)
    && (forall c | c in clients :: exists id | id in handles :: handles[id] == c)
  }

  lemma NameOneMore(clients: set<Client>, handles: map<ClientId, Client>, client: Client, id: ClientId)
    requires Named(clients, handles) && id !in handles && client !in handles.Values
    ensures Named(clients + {client}, handles[id := client])
  {
    var more := handles[id := client];
    forall c | c in clients + {client} ensures exists other | other in more :: more[other] == c {
      if c == client {
        assert more[id] == c;
      } else {
        var other :| other in handles && handles[other] == c;
        assert more[other] == c;
      }
    }
  }

  /** What connecting does to the machine. */
  lemma ConnectOne(s: State, id: ClientId)
    requires Inv(s) && id !in s.clients
    ensures var t := Step(s, Connected(id));
            && Inv(t) && t.buffer == s.buffer && t.clients.Keys == s.clients.Keys + {id}
            && (forall other | other in s.clients :: t.clients[other] == s.clients[other])
            && t.clients[id].queue == [] && t.clients[id].written == s.buffer && !t.clients[id].closed && t.clients[id].registered
  {
    InvStep(s, Connected(id));
  }

  /** What a line does to the machine; a registered queue is never closed. */
  lemma FireAll(s: State, line: string)
    requires Inv(s)
    ensures var t := Step(s, Fired(line));
            && Inv(t) && t.buffer == (if |s.buffer| >= MAX_SIZE then s.buffer[1..] else s.buffer) + [line]
            && t.clients.Keys == s.clients.Keys
    ensures forall id | id in s.clients ::
              var c, d := s.clients[id], Step(s, Fired(line)).clients[id];
              && d.registered == c.registered && d.written == c.written && d.closed == c.closed
              && d.queue == (if c.registered && |c.queue| < QUEUE_SIZE then c.queue + [line] else c.queue)
              && (c.registered ==> !c.closed)
  {
    InvStep(s, Fired(line));
    forall id | id in s.clients ensures s.clients[id].registered ==> !s.clients[id].closed {
      assert Faithful(s.clients[id], s.history);
    }
  }

  /** The hook in a state of the machine; `handles` are the clients that ever connected, under their machine names. */
  class LogHook {
    var clients: set<Client>
    var buffer: seq<string>
    ghost var model: State
    ghost var handles: map<ClientId, Client>

    ghost predicate Holds(id: ClientId)
      requires id in handles && id in model.clients
      reads this, handles[id]
    {
      var c, m := handles[id], model.clients[id];
      c.queue == m.queue && c.written == m.written && c.closed == m.closed && (c in clients <==> m.registered)
    }

    ghost predicate Valid()
      reads this, handles.Values
    {
      && Inv(model) && buffer == model.buffer && handles.Keys == model.clients.Keys && Named(clients, handles)
      && forall id | id in handles :: Holds(id)
    }

    constructor ()
      ensures Valid() && model == INITIAL && clients == {}
    {
      clients, buffer, model, handles := {}, [], INITIAL, map[];
    }

    method Fire(line: string)
      requires Valid()
      modifies this`buffer, this`model, clients
      ensures Valid() && model == Step(old(model), Fired(line))
    {
      FireAll(model, line);
      ghost var next := Step(model, Fired(line));
      forall c | c in clients ensures !c.closed {
        ghost var id :| id in handles && handles[id] == c;
        assert Holds(id);
      }
      if |buffer| >= MAX_SIZE {
        buffer := buffer[1..];
      }
      buffer := buffer + [line];
      Broadcast(line);
      model := next;
      forall id | id in handles ensures Holds(id) {
        assert old(Holds(id));
      }
    }

    /** The order in which the map is walked does not matter; a send on a closed queue would panic. */
    method Broadcast(line: string)
      requires forall c | c in clients :: !c.closed
      modifies clients
      ensures forall c | c in clients ::
                && c.queue == (if |old(c.queue)| < QUEUE_SIZE then old(c.queue) + [line] else old(c.queue))
                && c.written == old(c.written) && !c.closed
    {
      var rest := clients;
      while rest != {}
        invariant rest <= clients
        invariant forall c | c in clients :: c.written == old(c.written) && !c.closed
        invariant forall c | c in rest :: c.queue == old(c.queue)
        invariant forall c | c in clients && c !in rest ::
                    c.queue == if |old(c.queue)| < QUEUE_SIZE then old(c.queue) + [line] else old(c.queue)
        decreases rest
      {
        var c :| c in rest;
        assert !c.closed;
        if |c.queue| < QUEUE_SIZE {
          c.queue := c.queue + [line];
        }
        rest := rest - {c};
      }
    }

    /** Replays the buffer and registers the client, with no line fired in between. */
    method Connect(ghost id: ClientId) returns (client: Client)
      requires Valid() && id !in handles
      modifies this`clients, this`model, this`handles
      ensures Valid() && fresh(client) && handles == old(handles)[id := client]
      ensures model == Step(old(model), Connected(id))
    {
      client := Replay();
      Register(client, id);
    }

    method Register(client: Client, ghost id: ClientId)
      requires Valid() && id !in handles && client !in handles.Values
      requires client.queue == [] && client.written == buffer && !client.closed
      modifies this`clients, this`model, this`handles
      ensures Valid() && handles == old(handles)[id := client] && clients == old(clients) + {client}
      ensures model == Step(old(model), Connected(id))
    {
      ConnectOne(model, id);
      NameOneMore(clients, handles, client, id);
      ghost var next := Step(model, Connected(id));
      clients := clients + {client};
      handles := handles[id := client];
      model := next;
      forall other | other in handles ensures Holds(other) {
        if other != id {
          assert old(Holds(other));
        }
      }
    }

    method Replay() returns (client: Client)
      ensures fresh(client) && client.queue == [] && client.written == buffer && !client.closed
    {
      client := new Client();
      for i := 0 to |buffer|
        invariant client.queue == [] && !client.closed && client.written == buffer[..i]
      {
        client.written := client.written + [buffer[i]];
      }
      assert buffer[..|buffer|] == buffer;
    }

    method Read(client: Client, ghost id: ClientId)
      requires Valid() && id in handles && handles[id] == client && client in clients && client.queue != []
      modifies this`model, client
      ensures Valid() && handles == old(handles) && model == Step(old(model), WasRead(id))
    {
      InvStep(model, WasRead(id));
      assert Holds(id);
      client.written := client.written + [client.queue[0]];
      client.queue := client.queue[1..];
      model := Step(model, WasRead(id));
      forall other | other in handles ensures Holds(other) {
        assert old(Holds(other));
      }
    }

    /** The first half of the deferred clean-up, under the lock. */
    method Deregister(client: Client, ghost id: ClientId)
      requires Valid() && id in handles && handles[id] == client && client in clients
      modifies this`clients, this`model
      ensures Valid() && client !in clients && model == Step(old(model), Deregistered(id))
    {
      InvStep(model, Deregistered(id));
      assert Holds(id);
      clients := clients - {client};
      model := Step(model, Deregistered(id));
      forall other | other in handles ensures Holds(other) {
        assert old(Holds(other));
      }
    }

    /** The second half, after the lock was released: nobody can send on the queue any more. */
    method Close(client: Client, ghost id: ClientId)
      requires Valid() && id in handles && handles[id] == client && client !in clients
      modifies this`model, client`closed
      ensures Valid() && client.closed && model == Step(old(model), Closed(id))
    {
      InvStep(model, Closed(id));
      assert Holds(id);
      client.closed := true;
      model := Step(model, Closed(id));
      forall other | other in handles ensures Holds(other) {
        assert old(Holds(other));
      }
    }
  }
}
