/** The gossip flood: announce and withdraw messages relayed once per node. */
module Gossip {
  import opened Wrappers
  import opened Lists

  type NodeId = nat

  datatype Kind = Announce | Withdraw

  /** `subject` is the node at the message's address. */
  datatype Message = Message(origin: NodeId, epoch: nat, subject: NodeId, kind: Kind)

  /** What deduplication goes by. */
  type Tag = (NodeId, nat)

  function TagOf(m: Message): Tag {
    (m.origin, m.epoch)
  }

  // ----- One node -----

  datatype Node = Node(peers: set<NodeId>, seen: set<Tag>)

  /** A node's state after a message, and the nodes it relays to. */
  function Handle(me: NodeId, n: Node, m: Message): (Node, set<NodeId>) {
    if TagOf(m) in n.seen then (n, {})
    else
      var seen := n.seen + {TagOf(m)};
      match m.kind
      case Announce => (Node(n.peers + {m.subject}, seen), n.peers + {m.subject} - {me, m.subject})
      case Withdraw => (Node(n.peers - {m.subject}, seen), n.peers - {me, m.subject})
  }

  datatype Reply = NodeList(nodes: set<NodeId>) | Ack

  class GossipState {
    var seen: set<Tag>
    var epoch: nat

    constructor ()
      ensures seen == {} && epoch == 0
    {
      seen, epoch := {}, 0;
    }

    method NextEpoch() returns (e: nat)
      modifies `epoch
      ensures e == epoch == old(epoch) + 1
    {
      epoch := epoch + 1;
      e := epoch;
    }

    /** True if the event is new. */
    method MarkSeen(origin: NodeId, epoch: nat) returns (novel: bool)
      modifies `seen
      ensures novel == ((origin, epoch) !in old(seen)) && seen == old(seen) + {(origin, epoch)}
    {
      novel := (origin, epoch) !in seen;
      seen := seen + {(origin, epoch)};
    }
  }

  class QuickNode {
    const id: NodeId
    const gossip: GossipState
    var peers: set<NodeId>

    constructor (id: NodeId, peers: set<NodeId>)
      ensures this.id == id && this.peers == peers && fresh(gossip) && gossip.seen == {} && gossip.epoch == 0
    {
      this.id := id;
      this.peers := peers;
      gossip := new GossipState();
    }

    ghost function View(): Node
      reads this, gossip
    {
      Node(peers, gossip.seen)
    }

    /**
     * Handle a message: apply it if new, and relay it. A withdrawal is relayed before the node is dropped. An announcement
     * is answered with all nodes known, the new one among them.
     */
    method HandleGossip(m: Message) returns (relayed: set<NodeId>, reply: Reply)
      modifies this, gossip
      ensures (View(), relayed) == Handle(id, old(View()), m)
      ensures reply == if m.kind.Withdraw? then Ack else NodeList(old(peers) + if TagOf(m) in old(gossip.seen) then {} else {m.subject})
    {
      var novel := gossip.MarkSeen(m.origin, m.epoch);
      if !novel {
        assert gossip.seen == old(gossip.seen);
        match m.kind
        case Announce => return {}, NodeList(peers);
        case Withdraw => return {}, Ack;
      }
      match m.kind
      case Announce =>
        peers := peers + {m.subject};
        relayed := PeersExcept(m.subject);
        reply := NodeList(peers);
      case Withdraw =>
        relayed := PeersExcept(m.subject);
        peers := peers - {m.subject};
        reply := Ack;
    }

    /** Ring members other than this node and `skip`. */
    method PeersExcept(skip: NodeId) returns (r: set<NodeId>)
      ensures r == peers - {id, skip}
    {
      r := set p | p in peers && p != id && p != skip;
    }
  }

  // ----- The cluster -----

  datatype Packet = Packet(to: NodeId, m: Message)

  /**
   * `todo`: messages not sent out yet. `net`: packets under way. `relayed`: every packet ever sent.
   * `applied`: the events applied, in order.
   */
  datatype Cluster = Cluster(nodes: map<NodeId, Node>, todo: set<Message>, net: multiset<Packet>,
                             relayed: set<Packet>, applied: seq<(NodeId, Tag)>)

  datatype Action =
    | Originate(m: Message)   // announce or withdraw oneself to all peers
    | Deliver(p: Packet)
    | Lose(p: Packet)
    | Learn(n: NodeId, more: set<NodeId>)   // nodes from the reply to an announce

  function Packets(to: set<NodeId>, m: Message): (r: set<Packet>)
    ensures forall p :: p in r <==> p.to in to && p.m == m
  {
    set t <- to :: Packet(t, m)
  }

  predicate Enabled(c: Cluster, a: Action) {
    match a
    case Originate(m) => m in c.todo && m.origin in c.nodes
    case Deliver(p) => p in c.net && p.to in c.nodes
    case Lose(p) => p in c.net
    case Learn(n, more) => n in c.nodes && more <= c.nodes.Keys && n !in more
  }

  function Do(c: Cluster, a: Action): Cluster
    requires Enabled(c, a)
  {
    match a
    case Originate(m) =>
      var n := c.nodes[m.origin];
      var out := Packets(n.peers - {m.origin}, m);
      c.(nodes := c.nodes[m.origin := n.(seen := n.seen + {TagOf(m)})], todo := c.todo - {m},
         net := c.net + multiset(out), relayed := c.relayed + out)
    case Deliver(p) =>
      var (n, to) := Handle(p.to, c.nodes[p.to], p.m);
      var out := Packets(to, p.m);
      c.(nodes := c.nodes[p.to := n], net := c.net - multiset{p} + multiset(out), relayed := c.relayed + out,
         applied := if TagOf(p.m) in c.nodes[p.to].seen then c.applied else c.applied + [(p.to, TagOf(p.m))])
    case Lose(p) => c.(net := c.net - multiset{p})
    case Learn(n, more) => c.(nodes := c.nodes[n := c.nodes[n].(peers := c.nodes[n].peers + more)])
  }

  function Exec(c: Cluster, acts: seq<Action>): Option<Cluster> {
    if acts == [] then Some(c)
    else
      var before := Exec(c, acts[..|acts| - 1]);
      if before.Some? && Enabled(before.value, acts[|acts| - 1]) then Some(Do(before.value, acts[|acts| - 1])) else None
  }

  // ----- Invariants of every run -----

  /** Messages of a run: between nodes of the cluster, and told apart by their tags. */
  ghost predicate Proper(nodes: set<NodeId>, all: set<Message>) {
    && (forall m <- all :: m.origin in nodes && m.subject in nodes)
    && (forall m <- all, w <- all :: TagOf(m) == TagOf(w) ==> m == w)
  }

  ghost predicate Sound(c: Cluster, all: set<Message>) {
    && Proper(c.nodes.Keys, all)
    && c.todo <= all
    && (forall n <- c.nodes :: c.nodes[n].peers <= c.nodes.Keys)
    && NetSound(c.nodes.Keys, c.net, all)
  }

  ghost predicate NetSound(nodes: set<NodeId>, net: multiset<Packet>, all: set<Message>) {
    forall p <- net :: p.m in all && p.to in nodes
  }

  lemma {:induction false} StepSound(c: Cluster, a: Action, all: set<Message>)
    requires Sound(c, all) && Enabled(c, a)
    ensures Sound(Do(c, a), all) && Do(c, a).nodes.Keys == c.nodes.Keys
  {
    hide Sound, Do;
    match a
    case Originate(m) => OriginateSound(c, m, all);
    case Deliver(p) => DeliverSound(c, p, all);
    case Lose(p) => LoseSound(c, p, all);
    case Learn(n, more) => LearnSound(c, n, more, all);
  }

  lemma {:induction false} OriginateSound(c: Cluster, m: Message, all: set<Message>)
    requires Sound(c, all) && Enabled(c, Originate(m))
    ensures Sound(Do(c, Originate(m)), all) && Do(c, Originate(m)).nodes.Keys == c.nodes.Keys
  {
    hide NetSound, Packets, Proper;
    assert Do(c, Originate(m)).nodes.Keys == c.nodes.Keys;
    NetAdd(c.nodes.Keys, c.net, all, c.nodes[m.origin].peers - {m.origin}, m);
  }

  lemma {:induction false} DeliverSound(c: Cluster, p: Packet, all: set<Message>)
    requires Sound(c, all) && Enabled(c, Deliver(p))
    ensures Sound(Do(c, Deliver(p)), all) && Do(c, Deliver(p)).nodes.Keys == c.nodes.Keys
  {
    SubjectKnown(c, p, all);
    hide NetSound, Packets, Proper;
    assert Do(c, Deliver(p)).nodes.Keys == c.nodes.Keys;
    NetDrop(c.nodes.Keys, c.net, all, p);
    NetAdd(c.nodes.Keys, c.net - multiset{p}, all, Handle(p.to, c.nodes[p.to], p.m).1, p.m);
  }

  lemma {:induction false} LoseSound(c: Cluster, p: Packet, all: set<Message>)
    requires Sound(c, all) && Enabled(c, Lose(p))
    ensures Sound(Do(c, Lose(p)), all) && Do(c, Lose(p)).nodes.Keys == c.nodes.Keys
  {
    hide NetSound, Proper;
    NetDrop(c.nodes.Keys, c.net, all, p);
  }

  lemma {:induction false} LearnSound(c: Cluster, n: NodeId, more: set<NodeId>, all: set<Message>)
    requires Sound(c, all) && Enabled(c, Learn(n, more))
    ensures Sound(Do(c, Learn(n, more)), all) && Do(c, Learn(n, more)).nodes.Keys == c.nodes.Keys
  {
    hide NetSound, Proper;
    assert Do(c, Learn(n, more)).nodes.Keys == c.nodes.Keys;
  }

  lemma {:induction false} NetAdd(nodes: set<NodeId>, net: multiset<Packet>, all: set<Message>, to: set<NodeId>, m: Message)
    requires NetSound(nodes, net, all) && to <= nodes && m in all
    ensures NetSound(nodes, net + multiset(Packets(to, m)), all)
  {
  }

  lemma {:induction false} NetDrop(nodes: set<NodeId>, net: multiset<Packet>, all: set<Message>, p: Packet)
    requires NetSound(nodes, net, all) && p in net
    ensures NetSound(nodes, net - multiset{p}, all) && p.m in all && p.to in nodes
  {
  }

  // ----- The flood ends -----

  ghost function Unseen(c: Cluster, all: set<Message>): set<(NodeId, Message)> {
    set n, m | n in c.nodes && m in all && TagOf(m) !in c.nodes[n].seen :: (n, m)
  }

  /** What is still to come: each event at each node may send a packet to every node. */
  ghost function Weight(c: Cluster, all: set<Message>): nat {
    (|c.todo| + |Unseen(c, all)|) * (|c.nodes| + 1) + |c.net|
  }

  lemma {:induction false} PacketCount(to: set<NodeId>, m: Message)
    ensures |Packets(to, m)| == |to|
  {
    if to != {} {
      var t :| t in to;
      PacketCount(to - {t}, m);
      assert Packets(to, m) == Packets(to - {t}, m) + {Packet(t, m)};
    }
  }

  lemma {:induction false} Lighter(a: nat, b: nat, k: nat, x: nat, y: nat)
    requires a < b && x <= y + k
    ensures a * (k + 1) + x < b * (k + 1) + y
  {
    assert b * (k + 1) == (b - 1) * (k + 1) + (k + 1);
    assert a * (k + 1) <= (b - 1) * (k + 1);
  }

  predicate MessageStep(a: Action) {
    !a.Learn?
  }

  /** Sending out, delivering and losing use up weight; learning of nodes adds none. */
  lemma {:induction false} StepLighter(c: Cluster, a: Action, all: set<Message>)
    requires Sound(c, all) && Enabled(c, a)
    ensures MessageStep(a) ==> Weight(Do(c, a), all) < Weight(c, all)
    ensures !MessageStep(a) ==> Weight(Do(c, a), all) <= Weight(c, all)
  {
    hide Sound, Unseen, Weight, Packets, Handle;
    StepSound(c, a, all);
    var d := Do(c, a);
    assert |d.nodes| == |c.nodes| by { assert |d.nodes| == |d.nodes.Keys| && |c.nodes| == |c.nodes.Keys|; }
    StepUnseen(c, a, all);
    SubsetCount(Unseen(d, all), Unseen(c, all));
    match a
    case Originate(m) => OriginateLighter(c, m, all);
    case Deliver(p) => DeliverLighter(c, p, all);
    case Lose(p) => Lower(c, d, all);
    case Learn(n, more) => Lower(c, d, all);
  }

  lemma {:induction false} StepUnseen(c: Cluster, a: Action, all: set<Message>)
    requires Enabled(c, a)
    ensures Unseen(Do(c, a), all) <= Unseen(c, all)
  {
    hide Packets;
  }

  lemma {:induction false} Lower(c: Cluster, d: Cluster, all: set<Message>)
    requires |d.todo| == |c.todo| && |Unseen(d, all)| <= |Unseen(c, all)| && |d.nodes| == |c.nodes|
    ensures Weight(d, all) - |d.net| <= Weight(c, all) - |c.net|
  {
    hide Unseen;
    assert (|d.todo| + |Unseen(d, all)|) * (|c.nodes| + 1) <= (|c.todo| + |Unseen(c, all)|) * (|c.nodes| + 1);
  }

  lemma {:induction false} OriginateLighter(c: Cluster, m: Message, all: set<Message>)
    requires Sound(c, all) && Enabled(c, Originate(m))
    requires |Unseen(Do(c, Originate(m)), all)| <= |Unseen(c, all)| && |Do(c, Originate(m)).nodes| == |c.nodes|
    ensures Weight(Do(c, Originate(m)), all) < Weight(c, all)
  {
    hide Unseen, Proper;
    var d := Do(c, Originate(m));
    var to := c.nodes[m.origin].peers - {m.origin};
    PacketCount(to, m);
    SubsetCount(to, c.nodes.Keys);
    assert |c.nodes| == |c.nodes.Keys|;
    assert |d.net| == |c.net| + |Packets(to, m)|;
    Lighter(|d.todo| + |Unseen(d, all)|, |c.todo| + |Unseen(c, all)|, |c.nodes|, |d.net|, |c.net|);
  }

  lemma {:induction false} DeliverLighter(c: Cluster, p: Packet, all: set<Message>)
    requires Sound(c, all) && Enabled(c, Deliver(p))
    requires Unseen(Do(c, Deliver(p)), all) <= Unseen(c, all) && |Do(c, Deliver(p)).nodes| == |c.nodes|
    requires |Unseen(Do(c, Deliver(p)), all)| <= |Unseen(c, all)|
    ensures Weight(Do(c, Deliver(p)), all) < Weight(c, all)
  {
    hide Sound, Unseen, Handle, Packets, Do;
    var d := Do(c, Deliver(p));
    var to := Handle(p.to, c.nodes[p.to], p.m).1;
    DeliverNet(c, p, all);
    if TagOf(p.m) in c.nodes[p.to].seen {
      Lower(c, d, all);
    } else {
      DeliverSeen(c, p, all);
      Lighter(|d.todo| + |Unseen(d, all)|, |c.todo| + |Unseen(c, all)|, |c.nodes|, |d.net|, |c.net|);
    }
  }

  lemma {:induction false} DeliverNet(c: Cluster, p: Packet, all: set<Message>)
    requires Sound(c, all) && Enabled(c, Deliver(p))
    ensures Do(c, Deliver(p)).todo == c.todo
    ensures TagOf(p.m) in c.nodes[p.to].seen ==> |Do(c, Deliver(p)).net| == |c.net| - 1
    ensures |Do(c, Deliver(p)).net| <= |c.net| + |c.nodes|
  {
    hide Packets, Proper, NetSound;
    var to := Handle(p.to, c.nodes[p.to], p.m).1;
    PacketCount(to, p.m);
    SubjectKnown(c, p, all);
    SubsetCount(to, c.nodes.Keys);
    assert |c.nodes| == |c.nodes.Keys|;
    assert |Do(c, Deliver(p)).net| == |c.net| - 1 + |Packets(to, p.m)|;
  }

  lemma {:induction false} SubjectKnown(c: Cluster, p: Packet, all: set<Message>)
    requires Sound(c, all) && p in c.net
    ensures p.m in all && p.m.subject in c.nodes
  {
  }

  lemma {:induction false} DeliverSeen(c: Cluster, p: Packet, all: set<Message>)
    requires Sound(c, all) && Enabled(c, Deliver(p)) && TagOf(p.m) !in c.nodes[p.to].seen
    requires Unseen(Do(c, Deliver(p)), all) <= Unseen(c, all)
    ensures |Unseen(Do(c, Deliver(p)), all)| < |Unseen(c, all)|
  {
    hide Packets;
    SubjectKnown(c, p, all);
    var d, pair := Do(c, Deliver(p)), (p.to, p.m);
    assert pair in Unseen(c, all) && pair !in Unseen(d, all);
    SubsetCount(Unseen(d, all), Unseen(c, all) - {pair});
  }

  function MessageSteps(acts: seq<Action>): nat {
    if acts == [] then 0
    else MessageSteps(acts[..|acts| - 1]) + if MessageStep(acts[|acts| - 1]) then 1 else 0
  }

  /** Every run, in whatever order packets arrive or get lost, takes at most as many message steps as it weighs at the start. */
  lemma {:induction false} FloodEnds(c: Cluster, acts: seq<Action>, all: set<Message>)
    requires Sound(c, all) && Exec(c, acts).Some?
    ensures Sound(Exec(c, acts).value, all)
    ensures MessageSteps(acts) + Weight(Exec(c, acts).value, all) <= Weight(c, all)
  {
    hide Sound, Weight;
    if acts != [] {
      var init := acts[..|acts| - 1];
      FloodEnds(c, init, all);
      var m := Exec(c, init).value;
      StepSound(m, acts[|acts| - 1], all);
      StepLighter(m, acts[|acts| - 1], all);
    }
  }

  // ----- Each event is applied at most once -----

  ghost predicate Once(c: Cluster) {
    && (forall i, j :: 0 <= i < j < |c.applied| ==> c.applied[i] != c.applied[j])
    && (forall i :: 0 <= i < |c.applied| ==> c.applied[i].0 in c.nodes && c.applied[i].1 in c.nodes[c.applied[i].0].seen)
  }

  lemma {:induction false} StepOnce(c: Cluster, a: Action)
    requires Once(c) && Enabled(c, a)
    ensures Once(Do(c, a))
  {
  }

  /** In every run, with losses and withdrawals, no node applies an event twice. */
  lemma {:induction false} AppliedOnce(c: Cluster, acts: seq<Action>)
    requires c.applied == [] && Exec(c, acts).Some?
    ensures Once(Exec(c, acts).value)
  {
    hide Once, Do;
    if acts == [] {
      assert Once(c) by { NoneApplied(c); }
    } else {
      AppliedOnce(c, acts[..|acts| - 1]);
      StepOnce(Exec(c, acts[..|acts| - 1]).value, acts[|acts| - 1]);
    }
  }

  lemma {:induction false} NoneApplied(c: Cluster)
    requires c.applied == []
    ensures Once(c)
  {
  }
}
