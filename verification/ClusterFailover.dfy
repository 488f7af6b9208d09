/** What one heartbeat (`checkPeers` then `checkMasterHealth`) does, and exactly
    when a sequence of heartbeats ends in a takeover. */
module ClusterFailover {
  import opened Wrappers
  import opened ClusterNode

  /** One heartbeat: the iteration order and the answers of its ping round, the
      clock when the round ends and the clock when the health check runs. */
  datatype Beat = Beat(order: seq<Id>, replies: map<Id, PingReply>, scanned: int, checked: int)

  ghost predicate Fits(b: Beat, n: Node) {
    Lists(b.order, n)
  }

  /** A peer whose answer can be adopted: it says "master" and its epoch is not
      below the zero the round starts from. */
  predicate AnswersAsMaster(n: Node, b: Beat, p: Id) {
    p in n.peers && p in b.replies && b.replies[p].role == Master && b.replies[p].epoch >= 0
  }

  ghost predicate Silent(n: Node, b: Beat) {
    forall p :: p in n.peers ==> !AnswersAsMaster(n, b, p)
  }

  function AfterRound(n: Node, b: Beat): Node
    requires forall p :: p in b.order ==> p in n.peers
  {
    Round(n, b.order, b.replies, b.scanned)
  }

  predicate Fires(n: Node, b: Beat, deadAfter: int)
    requires forall p :: p in b.order ==> p in n.peers
  {
    MasterLooksDead(AfterRound(n, b), b.checked, deadAfter)
  }

  function Tick(n: Node, b: Beat, deadAfter: int): Node
    requires forall p :: p in b.order ==> p in n.peers
  {
    if Fires(n, b, deadAfter) then Promote(AfterRound(n, b), b.checked) else AfterRound(n, b)
  }

  /** The heartbeat as the manager runs it. */
  method Heartbeat(m: Manager, b: Beat, deadAfter: int) returns (claim: Option<int>)
    requires Fits(b, m.View())
    modifies m
    ensures m.View() == Tick(old(m.View()), b, deadAfter)
    ensures claim.Some? <==> Fires(old(m.View()), b, deadAfter) && HasQuorum(AfterRound(old(m.View()), b))
  {
    m.CheckPeers(b.order, b.replies, b.scanned);
    claim := m.CheckMasterHealth(b.checked, deadAfter);
  }

  // ---------------------------------------------------------------------------
  // One ping round
  // ---------------------------------------------------------------------------

  /** What a peer's record becomes when it is pinged. */
  function Pinged(r: PeerRecord, p: Id, replies: map<Id, PingReply>): PeerRecord {
    if p in replies then PeerRecord(true, replies[p].role, replies[p].epoch) else r.(online := false)
  }

  lemma {:induction false} ScanTouchesEveryPeer(n: Node, scan: Scan, order: seq<Id>, replies: map<Id, PingReply>)
    requires forall p :: p in order ==> p in n.peers
    ensures var after := ScanPeers(n, scan, order, replies).0;
            && after == n.(peers := after.peers)
            && after.peers.Keys == n.peers.Keys
            && forall p :: p in n.peers ==>
                 after.peers[p] == if p in order then Pinged(n.peers[p], p, replies) else n.peers[p]
    decreases |order|
  {
    if order != [] {
      var p := order[0];
      var n' := if p in replies then RecordReply(n, p, replies[p]) else RecordFailure(n, p);
      var scan' := if p in replies then Observe(scan, p, replies[p]) else scan;
      assert order == [p] + order[1..];
      ScanTouchesEveryPeer(n', scan', order[1..], replies);
    }
  }

  lemma {:induction false} ScanKeepsHighest(n: Node, scan: Scan, order: seq<Id>, replies: map<Id, PingReply>)
    requires forall p :: p in order ==> p in n.peers
    ensures var best := ScanPeers(n, scan, order, replies).1;
            && best.epoch >= scan.epoch
            && (best == scan
                || (best.found.Some? && best.found.value in order && best.found.value in replies
                    && replies[best.found.value] == PingReply(Master, best.epoch)))
            && forall p :: p in order && p in replies && replies[p].role == Master && replies[p].epoch >= scan.epoch ==>
                 best.found.Some? && replies[p].epoch <= best.epoch
    decreases |order|
  {
    if order != [] {
      var p := order[0];
      var n' := if p in replies then RecordReply(n, p, replies[p]) else RecordFailure(n, p);
      var scan' := if p in replies then Observe(scan, p, replies[p]) else scan;
      assert order == [p] + order[1..];
      ScanKeepsHighest(n', scan', order[1..], replies);
    }
  }

  /** Place `a` of the order is the candidate: an answering master, and every master that
      answers after it has a lower epoch. */
  ghost predicate LastHighest(order: seq<Id>, replies: map<Id, PingReply>, best: Scan, a: int) {
    && 0 <= a < |order| && best.found == Some(order[a])
    && order[a] in replies && replies[order[a]] == PingReply(Master, best.epoch)
    && forall b :: a < b < |order| && order[b] in replies && replies[order[b]].role == Master ==>
         replies[order[b]].epoch < best.epoch
  }

  /** Of masters with the same epoch the one asked last is the candidate. */
  lemma {:induction false} ScanKeepsTheLast(n: Node, scan: Scan, order: seq<Id>, replies: map<Id, PingReply>)
    requires forall p :: p in order ==> p in n.peers
    ensures var best := ScanPeers(n, scan, order, replies).1;
            || (exists a :: LastHighest(order, replies, best, a))
            || (best == scan && forall p :: p in order && p in replies && replies[p].role == Master ==>
                                  replies[p].epoch < scan.epoch)
    decreases |order|
  {
    if order != [] {
      var p, rest := order[0], order[1..];
      var n' := if p in replies then RecordReply(n, p, replies[p]) else RecordFailure(n, p);
      var scan' := if p in replies then Observe(scan, p, replies[p]) else scan;
      assert order == [p] + rest;
      ScanKeepsTheLast(n', scan', rest, replies);
      var best := ScanPeers(n', scan', rest, replies).1;
      assert best == ScanPeers(n, scan, order, replies).1;
      if a :| LastHighest(rest, replies, best, a) {
        assert forall b :: a + 1 < b < |order| ==> order[b] == rest[b - 1];
        assert LastHighest(order, replies, best, a + 1);
      } else if scan' != scan || (p in replies && replies[p].role == Master && replies[p].epoch >= scan.epoch) {
        assert LastHighest(order, replies, best, 0);
      }
    }
  }

  /** A round adopts an answering master of the highest epoch when there is one,
      forgets a master it only knew by address otherwise, and marks exactly the
      peers that answered as online. */
  lemma RoundAdoptsHighestMaster(n: Node, b: Beat)
    requires Fits(b, n)
    ensures var after := AfterRound(n, b);
            && after.role == n.role && after.mode == n.mode && after.initialSynced == n.initialSynced
            && after.peers == (map p | p in n.peers :: Pinged(n.peers[p], p, b.replies))
            && Online(after) == (set p | p in n.peers && p in b.replies)
    ensures var after := AfterRound(n, b);
            !Silent(n, b) ==>
              && after.currentMaster.Peer?
              && AnswersAsMaster(n, b, after.currentMaster.id)
              && (forall p :: AnswersAsMaster(n, b, p) ==>
                    b.replies[p].epoch <= b.replies[after.currentMaster.id].epoch)
              && after.lastMasterSeen == b.scanned
              && after.epoch >= n.epoch && after.epoch >= b.replies[after.currentMaster.id].epoch
              && (after.epoch == n.epoch || after.epoch == b.replies[after.currentMaster.id].epoch)
    ensures var after := AfterRound(n, b);
            Silent(n, b) ==>
              && after.currentMaster == (if n.currentMaster.Peer? then NoMaster else n.currentMaster)
              && after.lastMasterSeen == n.lastMasterSeen
              && after.epoch == n.epoch
  {
    hide ScanPeers;
    ScanTouchesEveryPeer(n, EmptyScan, b.order, b.replies);
    ScanKeepsHighest(n, EmptyScan, b.order, b.replies);
    var (scanned, best) := ScanPeers(n, EmptyScan, b.order, b.replies);
    if best.found.Some? {
      assert AnswersAsMaster(n, b, best.found.value);
    }
  }

  // ---------------------------------------------------------------------------
  // Exact failover
  // ---------------------------------------------------------------------------

  /** A heartbeat calls `Takeover` exactly when an automatic slave was told "me is
      master" by a takeover message, no peer answers as master, and the message is
      older than the limit. (When a master does answer, only a stall longer than
      the limit between the round and the check can fire it.) */
  lemma FailoverExactly(n: Node, b: Beat, deadAfter: int)
    requires Fits(b, n)
    ensures Fires(n, b, deadAfter) <==>
            && n.mode == Auto
            && n.role == Slave
            && (if Silent(n, b) then n.currentMaster == Me && b.checked - n.lastMasterSeen > deadAfter
                else b.checked - b.scanned > deadAfter)
  {
    RoundAdoptsHighestMaster(n, b);
  }

  /** A heartbeat makes a node master exactly when it fires and the peers that
      answered, with the node itself, are a strict majority (or the cluster has
      fewer than three nodes). */
  lemma HeartbeatPromotesExactly(n: Node, b: Beat, deadAfter: int)
    requires Fits(b, n)
    requires n.role != Master
    ensures Tick(n, b, deadAfter).role == Master <==>
            && Fires(n, b, deadAfter)
            && (|n.peers| + 1 < 3 || 2 * (1 + |set p | p in n.peers && p in b.replies|) > |n.peers| + 1)
  {
    RoundAdoptsHighestMaster(n, b);
    assert AfterRound(n, b).peers.Keys == n.peers.Keys;
  }

  // ---------------------------------------------------------------------------
  // Whole runs of heartbeats
  // ---------------------------------------------------------------------------

  ghost predicate AllFit(n: Node, beats: seq<Beat>) {
    forall k :: 0 <= k < |beats| ==> Fits(beats[k], n)
  }

  lemma TickKeepsTable(n: Node, b: Beat, deadAfter: int)
    requires Fits(b, n)
    ensures Tick(n, b, deadAfter).peers.Keys == n.peers.Keys
    ensures Tick(n, b, deadAfter).mode == n.mode
    ensures Tick(n, b, deadAfter).epoch >= n.epoch
  {
    RoundAdoptsHighestMaster(n, b);
    assert AfterRound(n, b).peers.Keys == n.peers.Keys;
  }

  ghost predicate FiresDuring(n: Node, beats: seq<Beat>, deadAfter: int)
    requires AllFit(n, beats)
    decreases |beats|
  {
    && beats != []
    && (Fires(n, beats[0], deadAfter)
        || (TickKeepsTable(n, beats[0], deadAfter); FiresDuring(Tick(n, beats[0], deadAfter), beats[1..], deadAfter)))
  }

  /** `beats[k]` is reached without any master answering and finds the takeover
      message too old. */
  ghost predicate GivesUpAt(n: Node, beats: seq<Beat>, k: int, deadAfter: int) {
    && 0 <= k < |beats|
    && (forall i :: 0 <= i <= k ==> Silent(n, beats[i]))
    && beats[k].checked - n.lastMasterSeen > deadAfter
  }

  /** A master answers the round of `beats[k]`, and the health check comes so late
      after it that even this master looks dead. */
  ghost predicate StallsAt(n: Node, beats: seq<Beat>, k: int, deadAfter: int) {
    0 <= k < |beats| && !Silent(n, beats[k]) && beats[k].checked - beats[k].scanned > deadAfter
  }

  /** Over any sequence of heartbeats with no message in between, a slave calls
      `Takeover` if and only if its master was announced by a takeover message and
      some heartbeat past the limit is reached with every round before it silent, or
      some health check is stalled for longer than the limit after a master answered. */
  lemma {:induction false} FailoverExactlyOverRuns(n: Node, beats: seq<Beat>, deadAfter: int)
    requires AllFit(n, beats)
    requires n.mode == Auto && n.role == Slave
    ensures FiresDuring(n, beats, deadAfter) <==>
            || (n.currentMaster == Me && exists k :: GivesUpAt(n, beats, k, deadAfter))
            || (exists k :: StallsAt(n, beats, k, deadAfter))
    decreases |beats|
  {
    if beats != [] {
      var b, rest := beats[0], beats[1..];
      FailoverExactly(n, b, deadAfter);
      if Fires(n, b, deadAfter) {
        assert if Silent(n, b) then GivesUpAt(n, beats, 0, deadAfter) else StallsAt(n, beats, 0, deadAfter);
      } else {
        var n' := Tick(n, b, deadAfter);
        RoundAdoptsHighestMaster(n, b);
        TickKeepsTable(n, b, deadAfter);
        FailoverExactlyOverRuns(n', rest, deadAfter);
        hide Tick, Fires, FiresDuring, AfterRound;
        SilenceDependsOnTableOnly(n, n', beats);
        assert Silent(n, b) || n'.currentMaster != Me;
        if n.currentMaster == Me {
          LaterGivingUp(n, n', beats, deadAfter);
        }
        LaterStalling(n, n', beats, deadAfter);
      }
    }
  }

  /** Giving up moves from the later heartbeats to all of them and back. */
  lemma LaterGivingUp(n: Node, n': Node, beats: seq<Beat>, deadAfter: int)
    requires beats != [] && (Silent(n, beats[0]) ==> n'.lastMasterSeen == n.lastMasterSeen)
    requires forall k :: 0 <= k < |beats| ==> (Silent(n, beats[k]) <==> Silent(n', beats[k]))
    requires !GivesUpAt(n, beats, 0, deadAfter)
    ensures (exists k :: GivesUpAt(n, beats, k, deadAfter)) <==>
            Silent(n, beats[0]) && exists k :: GivesUpAt(n', beats[1..], k, deadAfter)
  {
    var rest := beats[1..];
    if k :| GivesUpAt(n, beats, k, deadAfter) {
      assert k > 0 && Silent(n, beats[0]);
      assert forall i :: 0 <= i <= k - 1 ==> rest[i] == beats[i + 1];
      assert GivesUpAt(n', rest, k - 1, deadAfter);
    }
    if Silent(n, beats[0]) && exists k :: GivesUpAt(n', rest, k, deadAfter) {
      var k :| GivesUpAt(n', rest, k, deadAfter);
      assert forall i :: 1 <= i <= k + 1 ==> beats[i] == rest[i - 1];
      assert GivesUpAt(n, beats, k + 1, deadAfter);
    }
  }

  lemma LaterStalling(n: Node, n': Node, beats: seq<Beat>, deadAfter: int)
    requires beats != [] && !StallsAt(n, beats, 0, deadAfter)
    requires forall k :: 0 <= k < |beats| ==> (Silent(n, beats[k]) <==> Silent(n', beats[k]))
    ensures (exists k :: StallsAt(n, beats, k, deadAfter)) <==> exists k :: StallsAt(n', beats[1..], k, deadAfter)
  {
    var rest := beats[1..];
    if k :| StallsAt(n, beats, k, deadAfter) {
      assert rest[k - 1] == beats[k];
      assert StallsAt(n', rest, k - 1, deadAfter);
    }
    if k :| StallsAt(n', rest, k, deadAfter) {
      assert rest[k] == beats[k + 1];
      assert StallsAt(n, beats, k + 1, deadAfter);
    }
  }

  lemma SilenceDependsOnTableOnly(n: Node, m: Node, beats: seq<Beat>)
    requires n.peers.Keys == m.peers.Keys
    ensures forall k :: 0 <= k < |beats| ==> (Silent(n, beats[k]) <==> Silent(m, beats[k]))
  {
  }

  /** Losing a master that was only ever learnt from pings never fires the failover,
      however long it stays silent: a heartbeat fires only when a master did answer
      and the check after that answer was stalled. */
  lemma MasterKnownFromPingsIsNeverReplaced(n: Node, beats: seq<Beat>, deadAfter: int)
    requires AllFit(n, beats)
    requires n.mode == Auto && n.role == Slave && n.currentMaster != Me
    ensures FiresDuring(n, beats, deadAfter) <==> exists k :: StallsAt(n, beats, k, deadAfter)
    ensures (forall k :: 0 <= k < |beats| ==> Silent(n, beats[k])) ==> !FiresDuring(n, beats, deadAfter)
  {
    FailoverExactlyOverRuns(n, beats, deadAfter);
  }

  /** The limit runs from the moment a takeover message is accepted: over any heartbeats
      after it the node takes over if and only if one of them is overdue since that
      moment and reached in silence, or is stalled after a master answered; when no
      master ever answers, exactly when one of them is overdue, and never sooner. */
  lemma AnnouncedMasterIsReplacedExactly(n: Node, epoch: int, heard: int, beats: seq<Beat>, deadAfter: int)
    requires n.mode == Auto && epoch > n.epoch
    requires AllFit(n, beats)
    ensures FiresDuring(Accept(n, Me, epoch, heard), beats, deadAfter) <==>
            || (exists k :: 0 <= k < |beats| && beats[k].checked - heard > deadAfter
                            && forall i :: 0 <= i <= k ==> Silent(n, beats[i]))
            || (exists k :: StallsAt(n, beats, k, deadAfter))
    ensures (forall i :: 0 <= i < |beats| ==> Silent(n, beats[i])) ==>
              (FiresDuring(Accept(n, Me, epoch, heard), beats, deadAfter) <==>
               exists k :: 0 <= k < |beats| && beats[k].checked - heard > deadAfter)
  {
    var n' := Accept(n, Me, epoch, heard);
    hide FiresDuring;
    SilenceDependsOnTableOnly(n, n', beats);
    FailoverExactlyOverRuns(n', beats, deadAfter);
    forall k ensures GivesUpAt(n', beats, k, deadAfter) <==>
                     0 <= k < |beats| && beats[k].checked - heard > deadAfter
                     && forall i :: 0 <= i <= k ==> Silent(n, beats[i]) {
    }
    forall k ensures StallsAt(n', beats, k, deadAfter) <==> StallsAt(n, beats, k, deadAfter) {
    }
    hide Silent;
  }

  // ---------------------------------------------------------------------------
  // Takeover messages in any order
  // ---------------------------------------------------------------------------

  datatype Notice = Notice(newMaster: MasterRef, epoch: int, heard: int)

  function Deliver(n: Node, notices: seq<Notice>): Node
    decreases |notices|
  {
    if notices == [] then n
    else Deliver(Accept(n, notices[0].newMaster, notices[0].epoch, notices[0].heard), notices[1..])
  }

  ghost predicate Announces(notices: seq<Notice>, newMaster: MasterRef, epoch: int) {
    exists k :: 0 <= k < |notices| && notices[k].newMaster == newMaster && notices[k].epoch == epoch
  }

  /** The node ends on the highest epoch delivered; it is a slave of some claimant
      of that epoch unless no claim was newer than its own. */
  lemma {:induction false} DeliveryKeepsHighest(n: Node, notices: seq<Notice>)
    ensures var after := Deliver(n, notices);
            && after.epoch >= n.epoch
            && (forall k :: 0 <= k < |notices| ==> notices[k].epoch <= after.epoch)
            && (after == n
                || (after.epoch > n.epoch && after.role == Slave
                    && Announces(notices, after.currentMaster, after.epoch)))
    decreases |notices|
  {
    if notices != [] {
      var n' := Accept(n, notices[0].newMaster, notices[0].epoch, notices[0].heard);
      DeliveryKeepsHighest(n', notices[1..]);
      var after := Deliver(n', notices[1..]);
      assert notices == [notices[0]] + notices[1..];
      if after != n' {
        var rest := notices[1..];
        var k :| 0 <= k < |rest| && rest[k].epoch == after.epoch && rest[k].newMaster == after.currentMaster;
        assert notices[k + 1] == rest[k];
      } else if after != n {
        assert notices[0].epoch == after.epoch && notices[0].newMaster == after.currentMaster;
      }
    }
  }

  ghost predicate SameNotices(a: seq<Notice>, b: seq<Notice>) {
    forall newMaster, epoch :: Announces(a, newMaster, epoch) <==> Announces(b, newMaster, epoch)
  }

  /** Takeover messages commute and duplicates are harmless: two deliveries of the
      same notices leave the same epoch and role, and, as every node announces
      itself as "me", the same master. */
  lemma DeliveryOrderIsIrrelevant(n: Node, a: seq<Notice>, b: seq<Notice>)
    requires SameNotices(a, b)
    ensures Deliver(n, a).epoch == Deliver(n, b).epoch
    ensures Deliver(n, a).role == Deliver(n, b).role
    ensures (forall k :: 0 <= k < |a| ==> a[k].newMaster == Me) ==>
              Deliver(n, a).currentMaster == Deliver(n, b).currentMaster
  {
    DeliveryKeepsHighest(n, a);
    DeliveryKeepsHighest(n, b);
    var x, y := Deliver(n, a), Deliver(n, b);
    if x != n {
      assert Announces(b, x.currentMaster, x.epoch);
    }
    if y != n {
      assert Announces(a, y.currentMaster, y.epoch);
    }
  }
}
