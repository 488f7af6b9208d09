/** What whole runs of the hub deliver, when they panic, and what the counters add up to. */
module HubDelivery {
  import opened Wrappers
  import opened BroadcastHub

  // ---------------------------------------------------------------------------
  // One client's history, read off the events alone
  // ---------------------------------------------------------------------------

  /** `e` removes `c` if the hub serves it: it leaves, or its queue is full. */
  predicate Ends(e: Event, c: Client) {
    e == Leave(c) || (e.Post? && c !in e.ready)
  }

  /** `e` makes the hub send to or close the queue of `c` if the hub serves it. */
  predicate Touches(e: Event, c: Client) {
    e == Leave(c) || e.Post?
  }

  predicate Joined(es: seq<Event>, c: Client) {
    exists r :: 0 <= r < |es| && es[r] == Join(c)
  }

  predicate Removed(es: seq<Event>, c: Client) {
    exists k :: 0 <= k < |es| && Ends(es[k], c) && Joined(es[..k], c)
  }

  predicate Returned(es: seq<Event>, c: Client) {
    exists j :: 0 <= j < |es| && es[j] == Join(c) && Removed(es[..j], c)
  }

  /** `c` joined, was removed, joined again, and the hub then used its queue. */
  predicate Ruined(es: seq<Event>, c: Client) {
    exists t :: 0 <= t < |es| && Touches(es[t], c) && Returned(es[..t], c)
  }

  lemma Extended(es: seq<Event>, c: Client)
    requires es != []
    ensures var init, e := es[..|es| - 1], es[|es| - 1];
            && (Joined(es, c) <==> Joined(init, c) || e == Join(c))
            && (Removed(es, c) <==> Removed(init, c) || (Ends(e, c) && Joined(init, c)))
            && (Returned(es, c) <==> Returned(init, c) || (e == Join(c) && Removed(init, c)))
            && (Ruined(es, c) <==> Ruined(init, c) || (Touches(e, c) && Returned(init, c)))
  {
    var n := |es| - 1;
    assert forall k :: 0 <= k < n ==> es[..n][k] == es[k] && es[..n][..k] == es[..k];
  }

  /** What one event does to one client. */
  lemma StepOnClient(h: State, e: Event, c: Client)
    requires Step(h, e).Some?
    ensures var h' := Step(h, e).value;
            var before, after := ChannelOf(h.channels, c), ChannelOf(h'.channels, c);
            && (c !in h.clients ==> after == before && (c in h'.clients <==> e == Join(c)))
            && (c in h.clients && Ends(e, c) ==> c !in h'.clients && after == before.(closed := true) && !before.closed)
            && (c in h.clients && !Ends(e, c) ==>
                  c in h'.clients && after.closed == before.closed
                  && after.queued == before.queued + (if e.Post? then [e.msg] else []))
  {
  }

  // ---------------------------------------------------------------------------
  // Panics
  // ---------------------------------------------------------------------------

  /** Where the events leave a client: its queue is closed once it was removed, and
      the hub serves it while it is joined and not removed, or after it came back. */
  lemma {:induction false} HistoryTells(es: seq<Event>, c: Client)
    requires After(es).Some?
    ensures var h := After(es).value;
            && (ChannelOf(h.channels, c).closed <==> Removed(es, c))
            && (c in h.clients <==> if Removed(es, c) then Returned(es, c) else Joined(es, c))
    decreases |es|
  {
    hide Joined, Removed, Returned, Ruined, Step, ChannelOf;
    if es == [] {
      NothingYet(c);
    } else {
      var init, e := es[..|es| - 1], es[|es| - 1];
      HistoryTells(init, c);
      Extended(es, c);
      StepOnClient(After(init).value, e, c);
      if Returned(init, c) {
        ReturnedWasRemoved(init, c);
        if Touches(e, c) {
          TouchingClosedPanics(After(init).value, e, c);
        }
      }
    }
  }

  lemma NothingYet(c: Client)
    ensures !Joined([], c) && !Removed([], c) && !Returned([], c) && !Ruined([], c)
    ensures ChannelOf(New.channels, c) == Channel([], false)
  {
  }

  lemma ReturnedWasRemoved(es: seq<Event>, c: Client)
    requires Returned(es, c)
    ensures Removed(es, c)
  {
    hide Ends, Joined;
    var j :| 0 <= j < |es| && es[j] == Join(c) && Removed(es[..j], c);
    var k :| 0 <= k < j && Ends(es[..j][k], c) && Joined(es[..j][..k], c);
    assert es[..j][..k] == es[..k];
  }

  lemma TouchingClosedPanics(h: State, e: Event, c: Client)
    requires c in h.clients && ChannelOf(h.channels, c).closed && Touches(e, c)
    ensures Step(h, e).None?
  {
  }

  lemma OnlyTouchingClosedPanics(h: State, e: Event) returns (c: Client)
    requires Step(h, e).None?
    ensures c in h.clients && ChannelOf(h.channels, c).closed && Touches(e, c)
  {
    match e
    case Leave(d) => c := d;
    case Post(_, _) => c :| c in h.clients && ChannelOf(h.channels, c).closed;
  }

  /** The hub closes a queue twice, or sends to a queue it has closed, in exactly
      the runs where some client registers again after its removal and the hub
      reaches it once more. */
  lemma {:induction false} PanicsExactly(es: seq<Event>)
    ensures After(es).None? <==> exists c :: Ruined(es, c)
    decreases |es|
  {
    hide Joined, Removed, Returned, Ruined, Touches, Step, ChannelOf;
    if es == [] {
      forall c ensures !Ruined(es, c) { NothingYet(c); }
    } else {
      var init, e := es[..|es| - 1], es[|es| - 1];
      PanicsExactly(init);
      forall c ensures Ruined(es, c) <==> Ruined(init, c) || (Touches(e, c) && Returned(init, c)) { Extended(es, c); }
      if After(init).Some? {
        var h := After(init).value;
        if After(es).None? {
          var c := OnlyTouchingClosedPanics(h, e);
          HistoryTells(init, c);
          assert Ruined(es, c);
        }
        forall c | Ruined(es, c) ensures After(es).None? {
          ReturnedWasRemoved(init, c);
          HistoryTells(init, c);
          TouchingClosedPanics(h, e, c);
        }
      } else {
        var c :| Ruined(init, c);
        assert Ruined(es, c);
      }
    }
  }

  predicate JoinsOnce(es: seq<Event>) {
    forall i, j :: 0 <= i < j < |es| && es[i].Join? && es[j].Join? ==> es[i].c != es[j].c
  }

  lemma RuinedJoinsTwice(es: seq<Event>, c: Client) returns (r: nat, j: nat)
    requires Ruined(es, c)
    ensures r < j < |es| && es[r] == es[j] == Join(c)
  {
    var t :| 0 <= t < |es| && Touches(es[t], c) && Returned(es[..t], c);
    j :| 0 <= j < t && es[..t][j] == Join(c) && Removed(es[..t][..j], c);
    var k :| 0 <= k < j && Ends(es[..t][..j][k], c) && Joined(es[..t][..j][..k], c);
    r :| 0 <= r < k && es[..t][..j][..k][r] == Join(c);
  }

  /** A connection registers once, right after it is made, so the hub never panics. */
  lemma NoPanicWhenClientsJoinOnce(es: seq<Event>)
    requires JoinsOnce(es)
    ensures After(es).Some?
  {
    PanicsExactly(es);
    forall c ensures !Ruined(es, c) { NobodyIsRuined(es, c); }
  }

  lemma NobodyIsRuined(es: seq<Event>, c: Client)
    requires JoinsOnce(es)
    ensures !Ruined(es, c)
  {
    if Ruined(es, c) {
      var r, j := RuinedJoinsTwice(es, c);
    }
  }

  // ---------------------------------------------------------------------------
  // Delivery
  // ---------------------------------------------------------------------------

  function Messages(es: seq<Event>): seq<Message> {
    if es == [] then []
    else Messages(es[..|es| - 1]) + (if es[|es| - 1].Post? then [es[|es| - 1].msg] else [])
  }

  /** `c` first registers at `r`, its first removal is event `k` (or has not come
      yet, when `k` is the length of the run), and it does not register after that. */
  predicate ServedBetween(es: seq<Event>, c: Client, r: nat, k: nat) {
    && r < k <= |es|
    && es[r] == Join(c)
    && (forall i :: 0 <= i < r ==> es[i] != Join(c))
    && (forall i :: r < i < k ==> !Ends(es[i], c))
    && (k < |es| ==> Ends(es[k], c))
    && (forall i :: k < i < |es| ==> es[i] != Join(c))
  }

  lemma {:induction false} StrangersAreIgnored(es: seq<Event>, c: Client)
    requires After(es).Some? && forall i :: 0 <= i < |es| ==> es[i] != Join(c)
    ensures c !in After(es).value.clients && ChannelOf(After(es).value.channels, c) == Channel([], false)
    decreases |es|
  {
    hide Step, ChannelOf, Ends;
    if es == [] {
      NothingYet(c);
    } else {
      StrangersAreIgnored(es[..|es| - 1], c);
      StepOnClient(After(es[..|es| - 1]).value, es[|es| - 1], c);
    }
  }

  /** No gaps: the hub queues for a client exactly the messages broadcast between
      its registration and its removal, in order; the queue is closed by the removal
      and by nothing else. */
  lemma {:induction false} DeliveryHasNoGaps(es: seq<Event>, c: Client, r: nat, k: nat)
    requires After(es).Some? && ServedBetween(es, c, r, k)
    ensures ChannelOf(After(es).value.channels, c) == Channel(Messages(es[r + 1..k]), k < |es|)
    ensures c in After(es).value.clients <==> k == |es|
    decreases |es|
  {
    hide Step, ChannelOf, Messages, Ends;
    var n := |es| - 1;
    var init, e := es[..n], es[n];
    StepOnClient(After(init).value, e, c);
    if r == n {
      StrangersAreIgnored(init, c);
      assert Ends(e, c) ==> false by { NotAnEnd(c); }
      NoMessages(es[r + 1..k]);
    } else {
      var k' := if k <= n then k else n;
      assert init[r + 1..k'] == es[r + 1..k'];
      DeliveryHasNoGaps(init, c, r, k');
      if k == n + 1 {
        assert es[r + 1..k][..k - r - 2] == es[r + 1..n];
        LastMessage(es[r + 1..k]);
      }
    }
  }

  lemma NotAnEnd(c: Client)
    ensures !Ends(Join(c), c)
  {
  }

  lemma NoMessages(es: seq<Event>)
    requires es == []
    ensures Messages(es) == []
  {
  }

  lemma LastMessage(es: seq<Event>)
    requires es != []
    ensures Messages(es) == Messages(es[..|es| - 1]) + (if es[|es| - 1].Post? then [es[|es| - 1].msg] else [])
  {
  }

  // ---------------------------------------------------------------------------
  // Counters
  // ---------------------------------------------------------------------------

  /** How many events registered a client. */
  function Joins(es: seq<Event>): nat {
    if es == [] then 0 else Joins(es[..|es| - 1]) + (if es[|es| - 1].Join? then 1 else 0)
  }

  /** How many registered a client the hub was serving already. */
  function Rejoins(es: seq<Event>): nat
    requires After(es).Some?
  {
    if es == [] then 0
    else
      var init, e := es[..|es| - 1], es[|es| - 1];
      Rejoins(init) + (if e.Join? && e.c in After(init).value.clients then 1 else 0)
  }

  /** How many took a served client out at its own request. */
  function Leaves(es: seq<Event>): nat
    requires After(es).Some?
  {
    if es == [] then 0
    else
      var init, e := es[..|es| - 1], es[|es| - 1];
      Leaves(init) + (if e.Leave? && e.c in After(init).value.clients then 1 else 0)
  }

  /** The sum of what the telemetry snapshots returned: bytes and dropped clients. */
  function Reported(es: seq<Event>): (nat, nat)
    requires After(es).Some?
  {
    if es == [] then (0, 0)
    else
      var init := es[..|es| - 1];
      var sum, h := Reported(init), After(init).value;
      if es[|es| - 1].Snapshot? then (sum.0 + h.bytesSent, sum.1 + h.droppedClients) else sum
  }

  function Size(queue: seq<Message>): nat {
    if queue == [] then 0 else Size(queue[..|queue| - 1]) + |queue[|queue| - 1]|
  }

  /** All bytes in all queues. */
  ghost function QueuedBytes(m: Channels): nat {
    if m == map[] then 0
    else
      var c :| c in m;
      Size(m[c].queued) + QueuedBytes(m - {c})
  }

  lemma {:induction false} TakeOneOut(m: Channels, c: Client)
    requires c in m
    ensures QueuedBytes(m) == Size(m[c].queued) + QueuedBytes(m - {c})
    decreases |m|
  {
    var d :| d in m && QueuedBytes(m) == Size(m[d].queued) + QueuedBytes(m - {d});
    if d != c {
      TakeOneOut(m - {d}, c);
      TakeOneOut(m - {c}, d);
      assert m - {d} - {c} == m - {c} - {d};
    }
  }

  lemma ChangeOne(m: Channels, c: Client, ch: Channel)
    ensures QueuedBytes(m[c := ch]) == QueuedBytes(m) - Size(ChannelOf(m, c).queued) + Size(ch.queued)
  {
    TakeOneOut(m[c := ch], c);
    assert m[c := ch] - {c} == m - {c};
    if c in m {
      TakeOneOut(m, c);
    } else {
      assert m - {c} == m;
    }
  }

  lemma QueueOrClose(m: Channels, c: Client, msg: Message)
    ensures QueuedBytes(Queued(m, c, msg)) == QueuedBytes(m) + |msg|
    ensures QueuedBytes(Closed(m, c)) == QueuedBytes(m)
  {
    hide QueuedBytes;
    var ch := ChannelOf(m, c);
    ChangeOne(m, c, ch.(queued := ch.queued + [msg]));
    assert (ch.queued + [msg])[..|ch.queued|] == ch.queued;
    ChangeOne(m, c, ch.(closed := true));
  }

  lemma {:induction false} DeliveredBytes(m: Channels, served: set<Client>, lost: set<Client>, msg: Message)
    requires served !! lost
    ensures QueuedBytes(Delivered(m, served, lost, msg)) == QueuedBytes(m) + |served| * |msg|
    decreases served, lost
  {
    hide Delivered, QueuedBytes, Queued, Closed;
    if served != {} {
      var c :| c in served;
      var rest := served - {c};
      DeliveredBytes(m, rest, lost, msg);
      ServeOne(m, rest, lost, msg, c);
      assert rest + {c} == served;
      QueueOrClose(Delivered(m, rest, lost, msg), c, msg);
      OneMore(|rest|, |msg|);
    } else if lost != {} {
      var c :| c in lost;
      var rest := lost - {c};
      DeliveredBytes(m, served, rest, msg);
      LoseOne(m, served, rest, msg, c);
      assert rest + {c} == lost;
      QueueOrClose(Delivered(m, served, rest, msg), c, msg);
    } else {
      NothingDelivered(m, msg);
    }
  }

  lemma NothingDelivered(m: Channels, msg: Message)
    ensures Delivered(m, {}, {}, msg) == m
  {
  }

  /** What one event does to the counters. */
  lemma StepKeepsBalance(h: State, e: Event)
    requires Step(h, e).Some?
    ensures var h' := Step(h, e).value;
            && h'.connected + h'.totalDropped == h.connected + h.totalDropped
               + (if e.Join? then 1 else 0) - (if e.Leave? && e.c in h.clients then 1 else 0)
            && h'.connected - |h'.clients| == h.connected - |h.clients|
               + (if e.Join? && e.c in h.clients then 1 else 0)
            && h'.totalBytesSent - QueuedBytes(h'.channels) == h.totalBytesSent - QueuedBytes(h.channels)
            && h'.totalBytesSent - h'.bytesSent == h.totalBytesSent - h.bytesSent
               + (if e.Snapshot? then h.bytesSent else 0)
            && h'.totalDropped - h'.droppedClients == h.totalDropped - h.droppedClients
               + (if e.Snapshot? then h.droppedClients else 0)
  {
    hide QueuedBytes, Delivered, ServesClosed, Closed;
    match e
    case Join(c) => assert c in h.clients ==> h.clients + {c} == h.clients;
    case Leave(c) => QueueOrClose(h.channels, c, []);
    case Post(msg, ready) =>
      DeliveredBytes(h.channels, h.clients * ready, h.clients - ready, msg);
      assert h.clients - (h.clients - ready) == h.clients * ready;
      assert h.clients == h.clients * ready + (h.clients - ready);
    case Snapshot =>
  }

  /** What the counters agree on in any state a run reaches. */
  ghost predicate Balanced(es: seq<Event>)
    requires After(es).Some?
  {
    var h := After(es).value;
    && Joins(es) == h.connected + Leaves(es) + h.totalDropped
    && h.connected == |h.clients| + Rejoins(es)
    && h.totalBytesSent == QueuedBytes(h.channels)
    && h.totalBytesSent == Reported(es).0 + h.bytesSent
    && h.totalDropped == Reported(es).1 + h.droppedClients
  }

  /** Registrations are the connected, the unregistered and the dropped; the
      connection count is off by exactly the repeated registrations; the running
      total is the bytes in the queues; and all snapshots plus the live counters
      make up the running totals. */
  lemma {:induction false} CountersBalance(es: seq<Event>)
    requires After(es).Some?
    ensures Balanced(es)
    decreases |es|
  {
    hide QueuedBytes, Step;
    if es != [] {
      CountersBalance(es[..|es| - 1]);
      StepKeepsBalance(After(es[..|es| - 1]).value, es[|es| - 1]);
    } else {
      NoBytes();
    }
  }

  lemma NoBytes()
    ensures QueuedBytes(map[]) == 0
  {
  }
}
