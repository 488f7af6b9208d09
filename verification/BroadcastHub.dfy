/** The hub that fans engine events out to the connected WebSocket clients: one
    goroutine owning the client set, and counters read by the telemetry loop. */
module BroadcastHub {
  import opened Wrappers

  /** The identity of one connection. */
  type Client = nat
  type Message = seq<bv8>

  /** A client's outbound queue as the hub sees it: everything the hub ever put in,
      and whether the hub has closed it. */
  datatype Channel = Channel(queued: seq<Message>, closed: bool)

  type Channels = map<Client, Channel>

  datatype State = State(
    clients: set<Client>,
    channels: Channels,
    bytesSent: nat,
    droppedClients: nat,
    connected: int,
    totalBytesSent: nat,
    totalDropped: nat
  )

  const New := State({}, map[], 0, 0, 0, 0, 0)

  // ---------------------------------------------------------------------------
  // The operations as functions; `None` is a Go panic
  // ---------------------------------------------------------------------------

  function ChannelOf(m: Channels, c: Client): Channel {
    if c in m then m[c] else Channel([], false)
  }

  function Closed(m: Channels, c: Client): Channels {
    m[c := ChannelOf(m, c).(closed := true)]
  }

  function Queued(m: Channels, c: Client, msg: Message): Channels {
    var ch := ChannelOf(m, c);
    m[c := ch.(queued := ch.queued + [msg])]
  }

  function Registered(h: State, c: Client): State {
    h.(clients := h.clients + {c}, connected := h.connected + 1)
  }

  function Unregistered(h: State, c: Client): Option<State> {
    if c !in h.clients then Some(h)
    else if ChannelOf(h.channels, c).closed then None
    else Some(h.(clients := h.clients - {c}, channels := Closed(h.channels, c), connected := h.connected - 1))
  }

  /** The queues once `msg` has gone to the clients in `served` and the ones in `lost` were closed. */
  function Delivered(m: Channels, served: set<Client>, lost: set<Client>, msg: Message): Channels {
    map c | c in m.Keys + served + lost ::
      var ch := ChannelOf(m, c);
      if c in served then ch.(queued := ch.queued + [msg])
      else if c in lost then ch.(closed := true)
      else ch
  }

  /** Some client the hub still serves has a queue the hub has already closed. */
  predicate ServesClosed(h: State) {
    exists c :: c in h.clients && ChannelOf(h.channels, c).closed
  }

  /** The hub once `msg` has reached the clients in `served` and the ones in `lost` were dropped. */
  function Halfway(h: State, served: set<Client>, lost: set<Client>, msg: Message): State {
    State(h.clients - lost, Delivered(h.channels, served, lost, msg),
          h.bytesSent + |served| * |msg|, h.droppedClients + |lost|, h.connected - |lost|,
          h.totalBytesSent + |served| * |msg|, h.totalDropped + |lost|)
  }

  /** `ready` are the clients whose queue has room when the hub reaches them. */
  function Broadcasted(h: State, msg: Message, ready: set<Client>): Option<State> {
    if ServesClosed(h) then None else Some(Halfway(h, h.clients * ready, h.clients - ready, msg))
  }

  function Reset(h: State): State {
    h.(bytesSent := 0, droppedClients := 0)
  }

  // ---------------------------------------------------------------------------
  // The hub
  // ---------------------------------------------------------------------------

  function Sent(h: State, c: Client, msg: Message): State {
    h.(channels := Queued(h.channels, c, msg),
       bytesSent := h.bytesSent + |msg|, totalBytesSent := h.totalBytesSent + |msg|)
  }

  function Dropped(h: State, c: Client): State {
    h.(clients := h.clients - {c}, channels := Closed(h.channels, c),
       droppedClients := h.droppedClients + 1, totalDropped := h.totalDropped + 1,
       connected := h.connected - 1)
  }

  lemma ServeOne(m: Channels, served: set<Client>, lost: set<Client>, msg: Message, c: Client)
    requires c !in served && c !in lost
    ensures ChannelOf(Delivered(m, served, lost, msg), c) == ChannelOf(m, c)
    ensures Delivered(m, served + {c}, lost, msg) == Queued(Delivered(m, served, lost, msg), c, msg)
  {
  }

  lemma LoseOne(m: Channels, served: set<Client>, lost: set<Client>, msg: Message, c: Client)
    requires c !in served && c !in lost
    ensures Delivered(m, served, lost + {c}, msg) == Closed(Delivered(m, served, lost, msg), c)
  {
  }

  lemma OneMore(n: nat, k: nat)
    ensures (n + 1) * k == n * k + k
  {
  }

  /** One turn of the loop over the clients. */
  lemma OneTurn(h: State, served: set<Client>, lost: set<Client>, msg: Message, c: Client)
    requires c !in served && c !in lost
    ensures ChannelOf(Halfway(h, served, lost, msg).channels, c) == ChannelOf(h.channels, c)
    ensures Halfway(h, served + {c}, lost, msg) == Sent(Halfway(h, served, lost, msg), c, msg)
    ensures Halfway(h, served, lost + {c}, msg) == Dropped(Halfway(h, served, lost, msg), c)
  {
    hide Delivered, Closed, Queued, ChannelOf;
    ServeOne(h.channels, served, lost, msg, c);
    LoseOne(h.channels, served, lost, msg, c);
    OneMore(|served|, |msg|);
  }

  lemma NotStarted(h: State, msg: Message)
    ensures Halfway(h, {}, {}, msg) == h
  {
  }

  class Hub {
    var clients: set<Client>
    var channels: Channels
    var bytesSent: nat
    var droppedClients: nat
    var connected: int
    var totalBytesSent: nat
    var totalDropped: nat

    ghost function View(): State
      reads this
    {
      State(clients, channels, bytesSent, droppedClients, connected, totalBytesSent, totalDropped)
    }

    constructor ()
      ensures View() == New
    {
      clients, channels := {}, map[];
      bytesSent, droppedClients, connected := 0, 0, 0;
      totalBytesSent, totalDropped := 0, 0;
    }

    method Register(c: Client)
      modifies this
      ensures View() == Registered(old(View()), c)
      ensures View() == old(View()).(clients := old(clients) + {c}, connected := old(connected) + 1)
    {
      clients := clients + {c};
      connected := connected + 1;
    }

    /** Closing a closed channel panics. */
    method Unregister(c: Client) returns (panicked: bool)
      modifies this
      ensures panicked <==> Unregistered(old(View()), c).None?
      ensures !panicked ==> Some(View()) == Unregistered(old(View()), c)
    {
      panicked := false;
      if c in clients {
        clients := clients - {c};
        if ChannelOf(channels, c).closed {
          return true;
        }
        channels := Closed(channels, c);
        connected := connected - 1;
      }
    }

    /** The clients are visited in any order. Sending on a closed channel panics. */
    method Broadcast(msg: Message, ready: set<Client>) returns (panicked: bool)
      modifies this
      ensures panicked <==> Broadcasted(old(View()), msg, ready).None?
      ensures !panicked ==> Some(View()) == Broadcasted(old(View()), msg, ready)
    {
      hide Halfway, Closed, Queued, ChannelOf;
      ghost var h := View();
      var rest := clients;
      ghost var served: set<Client>, lost: set<Client> := {}, {};
      NotStarted(h, msg);
      while rest != {}
        invariant served <= h.clients * ready && lost <= h.clients - ready
        invariant rest == h.clients - served - lost
        invariant forall c :: c in served + lost ==> !ChannelOf(h.channels, c).closed
        invariant View() == Halfway(h, served, lost, msg)
        decreases rest
      {
        var c :| c in rest;
        rest := rest - {c};
        OneTurn(h, served, lost, msg, c);
        if ChannelOf(channels, c).closed {
          return true;
        }
        if c in ready {
          channels := Queued(channels, c, msg);
          bytesSent := bytesSent + |msg|;
          totalBytesSent := totalBytesSent + |msg|;
          served := served + {c};
        } else {
          clients := clients - {c};
          channels := Closed(channels, c);
          droppedClients := droppedClients + 1;
          totalDropped := totalDropped + 1;
          connected := connected - 1;
          lost := lost + {c};
        }
      }
      assert served == h.clients * ready && lost == h.clients - ready;
      panicked := false;
    }

    method SnapshotAndReset() returns (bytes: nat, dropped: nat)
      modifies this
      ensures bytes == old(bytesSent) && dropped == old(droppedClients)
      ensures View() == Reset(old(View()))
      ensures View() == old(View()).(bytesSent := 0, droppedClients := 0)
    {
      bytes, dropped := bytesSent, droppedClients;
      bytesSent, droppedClients := 0, 0;
    }
  }

  // ---------------------------------------------------------------------------
  // Runs
  // ---------------------------------------------------------------------------

  datatype Event =
    | Join(c: Client)
    | Leave(c: Client)
    | Post(msg: Message, ready: set<Client>)
    | Snapshot

  function Step(h: State, e: Event): Option<State> {
    match e
    case Join(c) => Some(Registered(h, c))
    case Leave(c) => Unregistered(h, c)
    case Post(msg, ready) => Broadcasted(h, msg, ready)
    case Snapshot => Some(Reset(h))
  }

  /** The hub after a run; `None` once an event has panicked. */
  function After(es: seq<Event>): Option<State> {
    if es == [] then Some(New)
    else
      var before := After(es[..|es| - 1]);
      if before.None? then None else Step(before.value, es[|es| - 1])
  }
}
