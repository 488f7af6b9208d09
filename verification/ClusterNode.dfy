/** One cluster node: the fields of `Manager` that take part in the election, the
    critical sections that change them as functions on values, and the manager
    itself as a class whose methods are proved against those functions.

    Addresses are numbers, time is in nanoseconds and every clock reading is a
    parameter. */
module ClusterNode {
  import opened Wrappers

  type Id = nat

  datatype Mode = Off | Manual | Auto

  /** `Unknown` is the role of a peer whose ping body could not be decoded. */
  datatype Role = Unknown | Standalone | Slave | Master

  /** `currentMaster`: the empty string, the literal "me", or a peer's key. */
  datatype MasterRef = NoMaster | Me | Peer(id: Id)

  datatype PeerRecord = PeerRecord(online: bool, role: Role, epoch: int)

  datatype PingReply = PingReply(role: Role, epoch: int)

  datatype Node = Node(
    mode: Mode,
    role: Role,
    epoch: int,
    currentMaster: MasterRef,
    lastMasterSeen: int,
    initialSynced: bool,
    peers: map<Id, PeerRecord>)

  /** The two variables a ping round carries from peer to peer. */
  datatype Scan = Scan(found: Option<Id>, epoch: int)

  const EmptyScan := Scan(None, 0)

  // ---------------------------------------------------------------------------
  // Critical sections as functions
  // ---------------------------------------------------------------------------

  function RecordFailure(n: Node, p: Id): Node
    requires p in n.peers
  {
    n.(peers := n.peers[p := n.peers[p].(online := false)])
  }

  function RecordReply(n: Node, p: Id, reply: PingReply): Node
    requires p in n.peers
  {
    n.(peers := n.peers[p := PeerRecord(true, reply.role, reply.epoch)])
  }

  function Observe(scan: Scan, p: Id, reply: PingReply): Scan {
    if reply.role == Master && reply.epoch >= scan.epoch then Scan(Some(p), reply.epoch) else scan
  }

  function FinishRound(n: Node, scan: Scan, now: int): Node {
    if scan.found.Some? then
      n.(currentMaster := Peer(scan.found.value),
         lastMasterSeen := now,
         epoch := if scan.epoch > n.epoch then scan.epoch else n.epoch)
    else if n.currentMaster != NoMaster && n.currentMaster != Me then
      n.(currentMaster := NoMaster)
    else
      n
  }

  function Online(n: Node): set<Id> {
    set p | p in n.peers && n.peers[p].online
  }

  predicate HasQuorum(n: Node) {
    |n.peers| + 1 < 3 || (1 + |Online(n)|) * 2 > |n.peers| + 1
  }

  function Promote(n: Node, now: int): Node {
    if HasQuorum(n) then
      n.(epoch := n.epoch + 1, role := Master, currentMaster := Me, lastMasterSeen := now)
    else
      n
  }

  function Accept(n: Node, newMaster: MasterRef, epoch: int, now: int): Node {
    if epoch <= n.epoch then
      n
    else
      n.(epoch := epoch, role := Slave, currentMaster := newMaster, lastMasterSeen := now, initialSynced := false)
  }

  function StepDown(n: Node): Node {
    if n.role == Master then n.(role := Slave) else n
  }

  function Answer(n: Node): PingReply {
    PingReply(n.role, n.epoch)
  }

  /** The guard of `checkMasterHealth`. */
  predicate MasterLooksDead(n: Node, now: int, deadAfter: int) {
    n.mode == Auto && n.role == Slave && n.currentMaster != NoMaster && now - n.lastMasterSeen > deadAfter
  }

  /** An uninterrupted ping round over the peers in `order`; a peer absent from
      `replies` did not answer. */
  function ScanPeers(n: Node, scan: Scan, order: seq<Id>, replies: map<Id, PingReply>): (Node, Scan)
    requires forall p :: p in order ==> p in n.peers
    decreases |order|
  {
    if order == [] then (n, scan)
    else if order[0] in replies then
      var p := order[0];
      ScanPeers(RecordReply(n, p, replies[p]), Observe(scan, p, replies[p]), order[1..], replies)
    else
      ScanPeers(RecordFailure(n, order[0]), scan, order[1..], replies)
  }

  lemma ScanNext(n: Node, scan: Scan, order: seq<Id>, k: nat, replies: map<Id, PingReply>)
    requires k < |order| && forall p :: p in order ==> p in n.peers
    ensures ScanPeers(n, scan, order[k..], replies) ==
            if order[k] in replies then
              var p := order[k];
              ScanPeers(RecordReply(n, p, replies[p]), Observe(scan, p, replies[p]), order[k + 1..], replies)
            else
              ScanPeers(RecordFailure(n, order[k]), scan, order[k + 1..], replies)
  {
  }

  lemma ScanEnds(n: Node, scan: Scan, replies: map<Id, PingReply>)
    ensures ScanPeers(n, scan, [], replies) == (n, scan)
  {
  }

  /** `order` lists the peer table once each: Go iterates a map in any order. */
  ghost predicate Lists(order: seq<Id>, n: Node) {
    && (forall p :: p in order <==> p in n.peers)
    && (forall a, b :: 0 <= a < b < |order| ==> order[a] != order[b])
  }

  function Round(n: Node, order: seq<Id>, replies: map<Id, PingReply>, now: int): Node
    requires forall p :: p in order ==> p in n.peers
  {
    var (scanned, scan) := ScanPeers(n, EmptyScan, order, replies);
    FinishRound(scanned, scan, now)
  }

  // ---------------------------------------------------------------------------
  // The manager
  // ---------------------------------------------------------------------------

  class Manager {
    var mode: Mode
    var role: Role
    var epoch: int
    var currentMaster: MasterRef
    var lastMasterSeen: int
    var initialSynced: bool
    var peers: map<Id, PeerRecord>

    ghost function View(): Node
      reads this
    {
      Node(mode, role, epoch, currentMaster, lastMasterSeen, initialSynced, peers)
    }

    constructor (mode: Mode, addresses: set<Id>)
      ensures View() == Node(mode, if mode == Off then Standalone else Slave, 0, NoMaster, 0, false,
                             map p | p in addresses :: PeerRecord(false, Unknown, 0))
    {
      this.mode := mode;
      this.role := if mode == Off then Standalone else Slave;
      this.epoch := 0;
      this.currentMaster := NoMaster;
      this.lastMasterSeen := 0;
      this.initialSynced := false;
      this.peers := map p | p in addresses :: PeerRecord(false, Unknown, 0);
    }

    /** The three locked sections of `checkPeers`. */
    method MarkOffline(p: Id)
      requires p in peers
      modifies this
      ensures View() == RecordFailure(old(View()), p)
      ensures var r := old(peers)[p];
              View() == old(View()).(peers := old(peers)[p := PeerRecord(false, r.role, r.epoch)])
    {
      peers := peers[p := peers[p].(online := false)];
    }

    method MarkOnline(p: Id, body: PingReply)
      requires p in peers
      modifies this
      ensures View() == RecordReply(old(View()), p, body)
      ensures View() == old(View()).(peers := old(peers)[p := PeerRecord(true, body.role, body.epoch)])
    {
      peers := peers[p := PeerRecord(true, body.role, body.epoch)];
    }

    method Adopt(masterFound: Option<Id>, masterEpoch: int, now: int)
      modifies this
      ensures View() == FinishRound(old(View()), Scan(masterFound, masterEpoch), now)
    {
      if masterFound.Some? {
        currentMaster := Peer(masterFound.value);
        lastMasterSeen := now;
        if masterEpoch > epoch {
          epoch := masterEpoch;
        }
      } else if currentMaster != NoMaster && currentMaster != Me {
        currentMaster := NoMaster;
      }
    }

    method CheckPeers(order: seq<Id>, replies: map<Id, PingReply>, now: int)
      requires Lists(order, View())
      modifies this
      ensures View() == Round(old(View()), order, replies, now)
    {
      var masterFound: Option<Id> := None;
      var masterEpoch := 0;
      ghost var before := View();
      assert order[0..] == order && order[|order|..] == [];
      hide ScanPeers, Lists, FinishRound;
      for k := 0 to |order|
        invariant forall p :: p in order ==> p in View().peers
        invariant forall p :: p in order[k..] ==> p in View().peers
        invariant ScanPeers(View(), Scan(masterFound, masterEpoch), order[k..], replies)
               == ScanPeers(before, EmptyScan, order, replies)
      {
        hide Round;
        var p := order[k];
        assert p in order;
        ScanNext(View(), Scan(masterFound, masterEpoch), order, k, replies);
        if p !in replies {
          MarkOffline(p);
        } else {
          var body := replies[p];
          MarkOnline(p, body);
          if body.role == Master && body.epoch >= masterEpoch {
            masterFound := Some(p);
            masterEpoch := body.epoch;
          }
        }
        assert forall q :: q in order[k + 1..] ==> q in order;
      }
      ScanEnds(View(), Scan(masterFound, masterEpoch), replies);
      Adopt(masterFound, masterEpoch, now);
    }

    method HasQuorumLocked() returns (ok: bool)
      ensures ok == HasQuorum(View())
    {
      var total := |peers| + 1;
      if total < 3 {
        return true;
      }
      var online := 1;
      var rest := peers.Keys;
      ghost var marked: set<Id> := {};
      while rest != {}
        invariant rest <= peers.Keys
        invariant marked == Online(View()) - rest
        invariant online == 1 + |marked|
        decreases rest
      {
        var p :| p in rest;
        rest := rest - {p};
        if peers[p].online {
          online := online + 1;
          marked := marked + {p};
        }
      }
      assert marked == Online(View());
      ok := online * 2 > total;
    }

    /** Returns the epoch claimed, which is sent to every peer together with the
        literal "me", or nothing when the takeover is refused. */
    method Takeover(now: int) returns (claim: Option<int>)
      modifies this
      ensures View() == Promote(old(View()), now)
      ensures claim == if HasQuorum(old(View())) then Some(old(epoch) + 1) else None
      ensures View() == if claim.None? then old(View())
                        else Node(old(mode), Master, old(epoch) + 1, Me, now, old(initialSynced), old(peers))
    {
      var quorum := HasQuorumLocked();
      if !quorum {
        return None;
      }
      epoch := epoch + 1;
      role := Master;
      currentMaster := Me;
      lastMasterSeen := now;
      claim := Some(epoch);
    }

    method CheckMasterHealth(now: int, deadAfter: int) returns (claim: Option<int>)
      modifies this
      ensures View() == if MasterLooksDead(old(View()), now, deadAfter) then Promote(old(View()), now) else old(View())
      ensures claim.Some? <==> MasterLooksDead(old(View()), now, deadAfter) && HasQuorum(old(View()))
    {
      claim := None;
      if mode == Auto && role == Slave && currentMaster != NoMaster && now - lastMasterSeen > deadAfter {
        claim := Takeover(now);
      }
    }

    method HandleTakeover(newMaster: MasterRef, bodyEpoch: int, now: int) returns (success: bool)
      modifies this
      ensures View() == Accept(old(View()), newMaster, bodyEpoch, now)
      ensures success <==> bodyEpoch > old(epoch)
      ensures View() == if success then Node(old(mode), Slave, bodyEpoch, newMaster, now, false, old(peers))
                        else old(View())
    {
      if bodyEpoch <= epoch {
        return false;
      }
      epoch := bodyEpoch;
      role := Slave;
      currentMaster := newMaster;
      lastMasterSeen := now;
      initialSynced := false;
      success := true;
    }

    method Release()
      modifies this
      ensures View() == StepDown(old(View()))
      ensures View() == Node(old(mode), if old(role) == Master then Slave else old(role), old(epoch),
                             old(currentMaster), old(lastMasterSeen), old(initialSynced), old(peers))
    {
      if role == Master {
        role := Slave;
      }
    }
  }
}
