/** Runs without loss: whom the flood reaches, and what it leaves behind. */
module GossipReach {
  import opened Gossip

  /** No message is lost. */
  ghost predicate LossFree(acts: seq<Action>) {
    forall a <- acts :: !a.Lose?
  }

  /** Before the run: no message sent, none seen. */
  ghost predicate Fresh(c: Cluster, all: set<Message>) {
    && Sound(c, all) && c.todo == all && c.net == multiset{} && c.relayed == {} && c.applied == []
    && forall n <- c.nodes, m <- all :: TagOf(m) !in c.nodes[n].seen
  }

  /** Nodes that some message of the run withdraws. */
  ghost function Withdrawn(all: set<Message>): set<NodeId> {
    set m <- all | m.kind == Withdraw :: m.subject
  }

  ghost function Announced(all: set<Message>): set<NodeId> {
    set m <- all | m.kind == Announce :: m.subject
  }

  // ----- One delivery -----

  /** A new message of either kind goes on to every peer but the node itself and the message's subject; an old one to nobody. */
  lemma {:induction false} NewIsRelayed(c: Cluster, p: Packet)
    requires Enabled(c, Deliver(p))
    ensures var n, d := c.nodes[p.to], Do(c, Deliver(p));
            var out := if TagOf(p.m) in n.seen then {} else Packets(n.peers - {p.to, p.m.subject}, p.m);
            d.relayed == c.relayed + out && d.net == c.net - multiset{p} + multiset(out)
  {
    hide Packets;
    var n := c.nodes[p.to];
    assert n.peers + {p.m.subject} - {p.to, p.m.subject} == n.peers - {p.to, p.m.subject};
    var none: set<NodeId> := {};
    assert Packets(none, p.m) == {};
  }

  // ----- What every step keeps -----

  /** A packet sent is under way or was received. */
  ghost predicate Arriving(c: Cluster, p: Packet) {
    p in c.relayed ==> p in c.net || (p.to in c.nodes && TagOf(p.m) in c.nodes[p.to].seen)
  }

  /** What node `n` did about message `m`, given peers it had at the start and that nothing withdraws. */
  ghost predicate DidPart(c: Cluster, peers: set<NodeId>, n: NodeId, m: Message) {
    && n in c.nodes
    && peers <= c.nodes[n].peers
    && (TagOf(m) in c.nodes[n].seen ==>
          && (forall q <- peers :: q != n && q != m.subject ==> Packet(q, m) in c.relayed)
          && (n == m.origin || (n, TagOf(m)) in c.applied))
  }

  /** Once `n` applied `m`, the node announced is a peer, and the node withdrawn is none. */
  ghost predicate Took(c: Cluster, n: NodeId, m: Message) {
    n in c.nodes && ((n, TagOf(m)) in c.applied ==> (m.subject in c.nodes[n].peers <==> m.kind == Announce))
  }

  ghost predicate SentOut(c: Cluster, m: Message) {
    m in c.todo || (m.origin in c.nodes && TagOf(m) in c.nodes[m.origin].seen)
  }

  /** Nothing else in the run speaks against `m`. */
  ghost predicate Unopposed(all: set<Message>, m: Message) {
    if m.kind == Announce then m.subject !in Withdrawn(all) else m.subject !in Announced(all)
  }

  /** A step other than learning a withdrawn node back from a reply. */
  predicate KeepsOut(a: Action, m: Message) {
    m.kind == Withdraw && a.Learn? ==> m.subject !in a.more
  }

  lemma {:induction false} StepArriving(c: Cluster, a: Action, all: set<Message>, p: Packet)
    requires Sound(c, all) && Enabled(c, a) && !a.Lose? && Arriving(c, p)
    ensures Arriving(Do(c, a), p)
  {
    hide Packets, Proper;
    match a
    case Originate(m) =>
      var out := Packets(c.nodes[m.origin].peers - {m.origin}, m);
      assert p in out ==> p in multiset(out);
    case Deliver(q) =>
      var out := Packets(Handle(q.to, c.nodes[q.to], q.m).1, q.m);
      assert p in out ==> p in multiset(out);
    case Lose(q) =>
    case Learn(n, more) =>
  }

  lemma {:induction false} StepPart(c: Cluster, a: Action, all: set<Message>, peers: set<NodeId>, n: NodeId, m: Message)
    requires Sound(c, all) && Enabled(c, a) && m in all && peers !! Withdrawn(all)
    requires DidPart(c, peers, n, m)
    ensures DidPart(Do(c, a), peers, n, m)
  {
    match a
    case Originate(w) => OriginatePart(c, w, all, peers, n, m);
    case Deliver(q) => DeliverPart(c, q, all, peers, n, m);
    case Lose(q) =>
    case Learn(k, more) =>
  }

  lemma {:induction false} OriginatePart(c: Cluster, w: Message, all: set<Message>, peers: set<NodeId>, n: NodeId, m: Message)
    requires Sound(c, all) && Enabled(c, Originate(w)) && m in all && DidPart(c, peers, n, m)
    ensures DidPart(Do(c, Originate(w)), peers, n, m)
  {
    if n == w.origin && TagOf(m) == TagOf(w) {
      assert m == w;
    }
  }

  lemma {:induction false} DeliverPart(c: Cluster, q: Packet, all: set<Message>, peers: set<NodeId>, n: NodeId, m: Message)
    requires Sound(c, all) && Enabled(c, Deliver(q)) && m in all && peers !! Withdrawn(all)
    requires DidPart(c, peers, n, m)
    ensures DidPart(Do(c, Deliver(q)), peers, n, m)
  {
    hide Handle;
    assert q.m in all;
    var d := Do(c, Deliver(q));
    NewIsRelayed(c, q);
    HandleKeeps(q.to, c.nodes[q.to], q.m, all, peers);
    if n == q.to && TagOf(m) == TagOf(q.m) {
      assert m == q.m;
      if TagOf(m) !in c.nodes[n].seen {
        assert d.applied[|c.applied|] == (n, TagOf(m));
      }
    }
    assert (n, TagOf(m)) in c.applied ==> (n, TagOf(m)) in d.applied;
  }

  /** Handling a message of the run leaves the peers that nothing withdraws, and marks just that message. */
  lemma {:induction false} HandleKeeps(me: NodeId, n: Node, w: Message, all: set<Message>, peers: set<NodeId>)
    requires w in all && peers !! Withdrawn(all)
    ensures peers <= n.peers ==> peers <= Handle(me, n, w).0.peers
    ensures Handle(me, n, w).0.seen == n.seen + {TagOf(w)}
  {
    if w.kind == Withdraw {
      assert w.subject in Withdrawn(all);
    }
  }

  lemma {:induction false} StepTook(c: Cluster, a: Action, all: set<Message>, n: NodeId, m: Message)
    requires Sound(c, all) && Enabled(c, a) && m in all && Unopposed(all, m) && KeepsOut(a, m) && Took(c, n, m)
    ensures Took(Do(c, a), n, m)
  {
    hide Packets;
    match a
    case Originate(w) =>
    case Lose(q) =>
    case Learn(k, more) =>
    case Deliver(q) =>
      assert q.m in all;
      assert q.m.kind == Withdraw ==> q.m.subject in Withdrawn(all);
      assert q.m.kind == Announce ==> q.m.subject in Announced(all);
      DeliverTook(c, q, all, n, m);
  }

  lemma {:induction false} DeliverTook(c: Cluster, q: Packet, all: set<Message>, n: NodeId, m: Message)
    requires Sound(c, all) && Enabled(c, Deliver(q)) && m in all && q.m in all && Took(c, n, m)
    requires m.subject == q.m.subject ==> m.kind == q.m.kind
    ensures Took(Do(c, Deliver(q)), n, m)
  {
    hide Packets;
    var d := Do(c, Deliver(q));
    if (n, TagOf(m)) in d.applied && (n, TagOf(m)) !in c.applied {
      assert n == q.to && TagOf(m) == TagOf(q.m);
      assert m == q.m;
    }
  }

  lemma {:induction false} StepSentOut(c: Cluster, a: Action, m: Message)
    requires Enabled(c, a) && SentOut(c, m)
    ensures SentOut(Do(c, a), m)
  {
  }

  // ----- Runs -----

  /** All of it, along a run. */
  lemma {:induction false} RunSpreads(c: Cluster, acts: seq<Action>, all: set<Message>, n: NodeId, m: Message, p: Packet)
    requires Fresh(c, all) && LossFree(acts) && Exec(c, acts).Some? && n in c.nodes && m in all
    ensures var d := Exec(c, acts).value;
            && Sound(d, all) && d.nodes.Keys == c.nodes.Keys
            && Arriving(d, p) && DidPart(d, c.nodes[n].peers - Withdrawn(all), n, m) && SentOut(d, m)
  {
    hide Sound, Arriving, DidPart, SentOut, Do, Enabled, Withdrawn;
    if acts == [] {
      StartSpreads(c, all, n, m, p);
    } else {
      var init, a := acts[..|acts| - 1], acts[|acts| - 1];
      assert a in acts && forall x <- init :: x in acts;
      RunSpreads(c, init, all, n, m, p);
      var d := Exec(c, init).value;
      StepSound(d, a, all);
      StepArriving(d, a, all, p);
      StepPart(d, a, all, c.nodes[n].peers - Withdrawn(all), n, m);
      StepSentOut(d, a, m);
    }
  }

  lemma {:induction false} StartSpreads(c: Cluster, all: set<Message>, n: NodeId, m: Message, p: Packet)
    requires Fresh(c, all) && n in c.nodes && m in all
    ensures Sound(c, all) && Arriving(c, p) && DidPart(c, c.nodes[n].peers - Withdrawn(all), n, m) && SentOut(c, m)
  {
  }

  lemma {:induction false} RunTook(c: Cluster, acts: seq<Action>, all: set<Message>, n: NodeId, m: Message)
    requires Fresh(c, all) && Exec(c, acts).Some? && n in c.nodes && m in all && Unopposed(all, m)
    requires forall a <- acts :: KeepsOut(a, m)
    ensures Sound(Exec(c, acts).value, all) && Took(Exec(c, acts).value, n, m)
  {
    hide Sound, Took, Do, Enabled, Unopposed;
    if acts == [] {
      StartTook(c, all, n, m);
    } else {
      var init, a := acts[..|acts| - 1], acts[|acts| - 1];
      assert a in acts && forall x <- init :: x in acts;
      RunTook(c, init, all, n, m);
      StepSound(Exec(c, init).value, a, all);
      StepTook(Exec(c, init).value, a, all, n, m);
    }
  }

  lemma {:induction false} StartTook(c: Cluster, all: set<Message>, n: NodeId, m: Message)
    requires Fresh(c, all) && n in c.nodes
    ensures Sound(c, all) && Took(c, n, m)
  {
  }

  /** Nothing under way and nothing left to send. */
  predicate Quiescent(c: Cluster) {
    c.net == multiset{} && c.todo == {}
  }

  /** At quiescence of a loss-free run, every node a message was relayed to, except its origin, applied it, to that effect. */
  lemma {:induction false} RelayedIsApplied(c: Cluster, acts: seq<Action>, all: set<Message>, p: Packet)
    requires Fresh(c, all) && LossFree(acts) && Exec(c, acts).Some? && Quiescent(Exec(c, acts).value)
    requires p in Exec(c, acts).value.relayed && p.m in all && p.to in c.nodes && p.to != p.m.origin
    ensures (p.to, TagOf(p.m)) in Exec(c, acts).value.applied
    ensures var d := Exec(c, acts).value;
            Unopposed(all, p.m) && (forall a <- acts :: KeepsOut(a, p.m)) ==>
              p.to in d.nodes && (p.m.subject in d.nodes[p.to].peers <==> p.m.kind == Announce)
  {
    hide Exec, Sound, LossFree, Withdrawn, Unopposed, KeepsOut;
    RunSpreads(c, acts, all, p.to, p.m, p);
    if Unopposed(all, p.m) && forall a <- acts :: KeepsOut(a, p.m) {
      RunTook(c, acts, all, p.to, p.m);
    }
  }

  /** A walk from `o` along peers as they were at the start, never to a node of `avoid`. */
  ghost predicate Walk(c: Cluster, path: seq<NodeId>, o: NodeId, avoid: set<NodeId>) {
    && path != [] && path[0] == o
    && (forall i :: 0 <= i < |path| ==> path[i] in c.nodes)
    && (forall i :: 0 <= i < |path| - 1 ==> Hop(c, path[i], path[i + 1], avoid))
  }

  ghost predicate Hop(c: Cluster, u: NodeId, v: NodeId, avoid: set<NodeId>) {
    u in c.nodes && v in c.nodes[u].peers && v != u && v !in avoid
  }

  /**
   * At quiescence of a loss-free run of announcements and withdrawals, every node that can be reached from the origin along
   * the peers known at the start, past the message's subject and nodes withdrawn in the run, has seen the message; if it is
   * not the origin it applied it.
   */
  lemma {:induction false} FloodReaches(c: Cluster, acts: seq<Action>, all: set<Message>, m: Message, path: seq<NodeId>)
    requires Fresh(c, all) && LossFree(acts) && Exec(c, acts).Some? && Quiescent(Exec(c, acts).value)
    requires m in all && Walk(c, path, m.origin, Withdrawn(all) + {m.subject})
    ensures var d := Exec(c, acts).value;
            var last := path[|path| - 1];
            && last in d.nodes && TagOf(m) in d.nodes[last].seen
            && (last != m.origin ==> (last, TagOf(m)) in d.applied)
    decreases |path|
  {
    hide Exec, Sound, LossFree, Withdrawn;
    var d, avoid := Exec(c, acts).value, Withdrawn(all) + {m.subject};
    var last := path[|path| - 1];
    if |path| == 1 {
      RunSpreads(c, acts, all, last, m, Packet(last, m));
    } else {
      var init := path[..|path| - 1];
      assert Walk(c, init, m.origin, avoid) by {
        assert forall i :: 0 <= i < |init| ==> init[i] == path[i];
      }
      FloodReaches(c, acts, all, m, init);
      var prev := path[|path| - 2];
      assert Hop(c, prev, path[|path| - 2 + 1], avoid);
      assert prev == init[|init| - 1];
      RunSpreads(c, acts, all, prev, m, Packet(last, m));
      RunSpreads(c, acts, all, last, m, Packet(last, m));
    }
  }

  /**
   * So an announcement that nothing withdraws makes its subject a peer of each of these nodes; and a withdrawal that nothing
   * announces, and no reply brings back, takes its subject from each of them.
   */
  lemma {:induction false} FloodTakesEffect(c: Cluster, acts: seq<Action>, all: set<Message>, m: Message, path: seq<NodeId>)
    requires Fresh(c, all) && LossFree(acts) && Exec(c, acts).Some? && Quiescent(Exec(c, acts).value)
    requires m in all && Walk(c, path, m.origin, Withdrawn(all) + {m.subject}) && path[|path| - 1] != m.origin
    requires Unopposed(all, m) && forall a <- acts :: KeepsOut(a, m)
    ensures var d, last := Exec(c, acts).value, path[|path| - 1];
            last in d.nodes && (m.subject in d.nodes[last].peers <==> m.kind == Announce)
  {
    hide Exec, Sound, LossFree, Withdrawn, Unopposed, KeepsOut;
    FloodReaches(c, acts, all, m, path);
    RunTook(c, acts, all, path[|path| - 1], m);
  }

  // ----- Withdrawals: the order of arrival decides -----

  function HandleAll(me: NodeId, n: Node, ms: seq<Message>): Node {
    if ms == [] then n else Handle(me, HandleAll(me, n, ms[..|ms| - 1]), ms[|ms| - 1]).0
  }

  /** The message at `i` is the first with its tag. */
  predicate FirstOfTag(seen: set<Tag>, ms: seq<Message>, i: nat)
    requires i < |ms|
  {
    TagOf(ms[i]) !in seen && forall j :: 0 <= j < i ==> TagOf(ms[j]) != TagOf(ms[i])
  }

  /** The message at `i` is the last about `s` of those that are the first with their tag. */
  predicate LastAbout(seen: set<Tag>, ms: seq<Message>, s: NodeId, i: nat)
    requires i < |ms|
  {
    && ms[i].subject == s && FirstOfTag(seen, ms, i)
    && forall j :: i < j < |ms| && ms[j].subject == s ==> !FirstOfTag(seen, ms, j)
  }

  lemma {:induction false} SeenAfter(me: NodeId, n: Node, ms: seq<Message>, tag: Tag)
    ensures tag in HandleAll(me, n, ms).seen <==> tag in n.seen || exists j :: 0 <= j < |ms| && TagOf(ms[j]) == tag
  {
    if ms != [] {
      var init := ms[..|ms| - 1];
      SeenAfter(me, n, init, tag);
      assert forall j :: 0 <= j < |init| ==> init[j] == ms[j];
    }
  }

  /**
   * Epochs are not compared: a node keeps `s` as a peer exactly if the last new message about it to
   * arrive announced it, or none arrived and it was a peer before.
   */
  lemma {:induction false} LastArrivalWins(me: NodeId, n: Node, ms: seq<Message>, s: NodeId)
    ensures s in HandleAll(me, n, ms).peers <==>
            || (exists i :: 0 <= i < |ms| && LastAbout(n.seen, ms, s, i) && ms[i].kind == Announce)
            || ((forall i :: 0 <= i < |ms| && ms[i].subject == s ==> !FirstOfTag(n.seen, ms, i)) && s in n.peers)
  {
    if ms != [] {
      var last := |ms| - 1;
      var init := ms[..last];
      LastArrivalWins(me, n, init, s);
      SeenAfter(me, n, init, TagOf(ms[last]));
      assert FirstOfTag(n.seen, ms, last) <==> TagOf(ms[last]) !in HandleAll(me, n, init).seen by {
        assert forall j :: 0 <= j < last ==> init[j] == ms[j];
      }
      forall i | 0 <= i < last ensures FirstOfTag(n.seen, ms, i) <==> FirstOfTag(n.seen, init, i) {
        assert forall j :: 0 <= j <= i ==> init[j] == ms[j];
      }
      if ms[last].subject == s && FirstOfTag(n.seen, ms, last) {
        assert LastAbout(n.seen, ms, s, last);
      } else {
        forall i | 0 <= i < last ensures LastAbout(n.seen, ms, s, i) <==> LastAbout(n.seen, init, s, i) {
        }
      }
    }
  }

  /** So a withdrawal overtaken by the older announcement is undone. */
  lemma {:induction false} LateAnnounceReadds(me: NodeId, s: NodeId)
    ensures var join, leave := Message(s, 1, s, Announce), Message(s, 2, s, Withdraw);
            var n := Node({}, {});
            && s !in HandleAll(me, n, [join, leave]).peers
            && s in HandleAll(me, n, [leave, join]).peers
  {
    var join, leave := Message(s, 1, s, Announce), Message(s, 2, s, Withdraw);
    var n := Node({}, {});
    assert HandleAll(me, n, []) == n;
    assert [join, leave][..1] == [join] && [leave, join][..1] == [leave];
    assert [join][..0] == [] && [leave][..0] == [];
    assert HandleAll(me, n, [join]) == Handle(me, n, join).0;
    assert HandleAll(me, n, [leave]) == Handle(me, n, leave).0;
  }
}
