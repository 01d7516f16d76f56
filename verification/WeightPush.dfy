/** One synchronisation of all evaluation policies, with a buffer per policy or one shared by each
    node: the plan composed with the transfers, up to what a policy loads. */
module WeightPush {
  import opened Sequences
  import opened StateDicts
  import opened NumpyDicts
  import opened TransferPlan
  import opened WeightTransfer

  /** The state dicts that can be sent. */
  ghost predicate Sendable(modules: seq<Module>) {
    Keyed(modules) && forall it | it in Items(modules) :: Shaped(it.tensor)
  }

  /** The buffer each evaluation policy reads, and the one shared on each node. */
  datatype Buffers = Buffers(ofPolicy: map<Policy, WeightBuffer>, ofNode: map<Node, WeightBuffer>) {
    ghost function All(): set<WeightBuffer> {
      (set p | p in ofPolicy :: ofPolicy[p]) + (set n | n in ofNode :: ofNode[n])
    }
  }

  ghost predicate Buffered(strategy: Strategy) {
    strategy.Double? || strategy.Shared?
  }

  /** Policies of different nodes never read the same buffer; with the shared strategy all policies
      of a node read the node's buffer, which keeps numpy arrays, otherwise each has its own. */
  ghost predicate Wired(strategy: Strategy, places: map<Node, Placement>, b: Buffers) {
    && (forall n, p | n in places && p in places[n].evals :: p in b.ofPolicy)
    && (forall n, m, p, q | n in places && m in places && p in places[n].evals && q in places[m].evals
          && b.ofPolicy[p] == b.ofPolicy[q] :: n == m && (strategy.Double? ==> p == q))
    && (strategy.Shared? ==> forall n | n in places && places[n].evals != [] ::
          && n in b.ofNode && b.ofNode[n].numpy
          && forall p | p in places[n].evals :: b.ofPolicy[p] == b.ofNode[n])
  }

  /** No policy is seated on two nodes. */
  ghost predicate SeatedOnce(places: map<Node, Placement>) {
    forall n, m, p | n in places && m in places && p in places[n].evals && p in places[m].evals :: n == m
  }

  /** A buffer for each evaluation policy. */
  method OwnBuffers(places: map<Node, Placement>, evals: seq<Policy>, numpy: bool) returns (b: Buffers)
    requires forall n, p | n in places && p in places[n].evals :: p in evals
    requires SeatedOnce(places)
    ensures fresh(b.All()) && Wired(Double, places, b)
    ensures forall p | p in b.ofPolicy :: b.ofPolicy[p].numpy == numpy
  {
    var ofPolicy: map<Policy, WeightBuffer> := map[];
    for i := 0 to |evals|
      invariant forall p :: p in ofPolicy <==> p in evals[..i]
      invariant forall p | p in ofPolicy :: fresh(ofPolicy[p]) && ofPolicy[p].numpy == numpy
      invariant forall p, q | p in ofPolicy && q in ofPolicy && ofPolicy[p] == ofPolicy[q] :: p == q
    {
      var buffer := new WeightBuffer(numpy);
      ofPolicy := ofPolicy[evals[i] := buffer];
    }
    b := Buffers(ofPolicy, map[]);
    assert evals[..|evals|] == evals;
  }

  /** The policies seated on the nodes that have a buffer read it; no two nodes have the same. */
  ghost predicate Sharing(nodes: set<Node>, places: map<Node, Placement>, ofPolicy: map<Policy, WeightBuffer>,
                          ofNode: map<Node, WeightBuffer>) {
    && (forall n | n in nodes :: n in places && n in ofNode && ofNode[n].numpy)
    && (forall n, m | n in nodes && m in nodes && ofNode[n] == ofNode[m] :: n == m)
    && (forall n, p | n in nodes && p in places[n].evals :: p in ofPolicy && ofPolicy[p] == ofNode[n])
  }

  /** One more node with a buffer of its own. */
  lemma SharingMore(nodes: set<Node>, places: map<Node, Placement>, ofPolicy: map<Policy, WeightBuffer>,
                    ofNode: map<Node, WeightBuffer>,
                    node: Node, buffer: WeightBuffer, after: map<Policy, WeightBuffer>)
    requires Sharing(nodes, places, ofPolicy, ofNode) && SeatedOnce(places)
    requires node in places && node !in nodes && buffer.numpy && forall n | n in nodes :: ofNode[n] != buffer
    requires forall p :: p in after <==> p in ofPolicy || p in places[node].evals
    requires forall p | p in after :: after[p] == if p in places[node].evals then buffer else ofPolicy[p]
    ensures Sharing(nodes + {node}, places, after, ofNode[node := buffer])
  {
  }

  lemma SharingNone(places: map<Node, Placement>)
    ensures Sharing({}, places, map[], map[])
  {
  }

  lemma SharingWired(nodes: set<Node>, places: map<Node, Placement>, b: Buffers)
    requires Sharing(nodes, places, b.ofPolicy, b.ofNode)
    requires forall n | n in places && places[n].evals != [] :: n in nodes
    ensures Wired(Shared, places, b)
  {
  }

  /** A buffer for each node with evaluation policies. */
  method NodeBuffers(places: map<Node, Placement>) returns (b: Buffers)
    requires SeatedOnce(places)
    ensures fresh(b.All()) && Wired(Shared, places, b)
  {
    hide Sharing, SeatedOnce, Wired;
    var ofPolicy: map<Policy, WeightBuffer>, ofNode: map<Node, WeightBuffer> := map[], map[];
    SharingNone(places);
    var rest := places.Keys;
    ghost var done: set<Node> := {};
    while rest != {}
      invariant rest <= places.Keys && (forall n | n in places && n !in rest && places[n].evals != [] :: n in done)
      invariant done !! rest && ofNode.Keys == done && Sharing(done, places, ofPolicy, ofNode)
      invariant forall p | p in ofPolicy :: fresh(ofPolicy[p])
      invariant forall n | n in ofNode :: fresh(ofNode[n])
      decreases rest
    {
      var node :| node in rest;
      rest := rest - {node};
      if places[node].evals != [] {
        var buffer := new WeightBuffer(true);
        ghost var before := ofPolicy;
        ofPolicy := Assign(ofPolicy, places[node].evals, buffer);
        SharingMore(done, places, before, ofNode, node, buffer, ofPolicy);
        ofNode, done := ofNode[node := buffer], done + {node};
      }
    }
    b := Buffers(ofPolicy, ofNode);
    SharingWired(done, places, b);
  }

  /** Let some policies read one buffer. */
  method Assign(before: map<Policy, WeightBuffer>, evals: seq<Policy>, buffer: WeightBuffer)
    returns (after: map<Policy, WeightBuffer>)
    ensures forall p :: p in after <==> p in before || p in evals
    ensures forall p | p in after :: after[p] == if p in evals then buffer else before[p]
  {
    after := before;
    for i := 0 to |evals|
      invariant forall p :: p in after <==> p in before || p in evals[..i]
      invariant forall p | p in after :: after[p] == if p in evals[..i] then buffer else before[p]
    {
      after := after[evals[i] := buffer];
    }
    assert evals[..|evals|] == evals;
  }

  /** Whether a transfer delivers the whole dict: within one process, and into a shared buffer on the
      sender's own node. */
  predicate Whole(t: Transfer, strategy: Strategy, remote: bool) {
    !remote || (strategy.Shared? && t.intraNode)
  }

  /** The buffers a transfer listed under `from` writes. */
  ghost function Targets(t: Transfer, from: Node, strategy: Strategy, b: Buffers): set<WeightBuffer> {
    (set p | p in t.receivers && p in b.ofPolicy :: b.ofPolicy[p])
    + if strategy.Shared? && t.intraNode && from in b.ofNode then {b.ofNode[from]} else {}
  }

  /** Every buffer a transfer writes keeps what the transfer delivers of the sender's dict. */
  ghost predicate Filled(t: Transfer, from: Node, strategy: Strategy, remote: bool, dicts: map<Policy, seq<Module>>,
                         b: Buffers)
    reads Targets(t, from, strategy, b)
  {
    t.sender in dicts && forall x | x in Targets(t, from, strategy, b) ::
      x.isReady && x.buffer == Stored(Delivery(dicts[t.sender], Whole(t, strategy, remote)), x.numpy)
  }

  /** What a transfer needs. */
  ghost predicate Ready(t: Transfer, from: Node, strategy: Strategy, dicts: map<Policy, seq<Module>>, b: Buffers) {
    && t.sender in dicts && Sendable(dicts[t.sender]) && (forall p | p in t.receivers :: p in b.ofPolicy)
    && (strategy.Shared? && t.intraNode ==> t.receivers == [] && from in b.ofNode && b.ofNode[from].numpy)
  }

  ghost predicate AllReady(transfers: Transfers, strategy: Strategy, dicts: map<Policy, seq<Module>>, b: Buffers) {
    forall slot: Slot | At(transfers, slot) :: Ready(transfers[slot.from][slot.at], slot.from, strategy, dicts, b)
  }

  /** No two transfers write the same buffer. */
  ghost predicate Apart(transfers: Transfers, strategy: Strategy, b: Buffers) {
    forall s: Slot, u: Slot | At(transfers, s) && At(transfers, u) && s != u ::
      Targets(transfers[s.from][s.at], s.from, strategy, b) !! Targets(transfers[u.from][u.at], u.from, strategy, b)
  }

  /** Send to the receivers of a transfer, by broadcast or within the process. */
  method SendReceivers(modules: seq<Module>, receivers: seq<Policy>, b: Buffers, remote: bool)
    requires Sendable(modules) && forall p | p in receivers :: p in b.ofPolicy
    modifies set p | p in receivers && p in b.ofPolicy :: b.ofPolicy[p]
    ensures forall p | p in receivers :: b.ofPolicy[p].isReady
              && b.ofPolicy[p].buffer == Stored(Delivery(modules, !remote), b.ofPolicy[p].numpy)
  {
    hide NonEmpty, Meaning, Keyed, Stored;
    for i := 0 to |receivers|
      invariant forall j | 0 <= j < i :: b.ofPolicy[receivers[j]].isReady
                  && b.ofPolicy[receivers[j]].buffer
                     == Stored(Delivery(modules, !remote), b.ofPolicy[receivers[j]].numpy)
    {
      if remote {
        SyncFull(modules, b.ofPolicy[receivers[i]]);
      } else {
        SyncLocal(modules, b.ofPolicy[receivers[i]]);
      }
    }
  }

  /** One transfer. */
  method SendOne(t: Transfer, from: Node, strategy: Strategy, remote: bool, dicts: map<Policy, seq<Module>>, b: Buffers)
    requires Ready(t, from, strategy, dicts, b)
    modifies Targets(t, from, strategy, b)
    ensures Filled(t, from, strategy, remote, dicts, b)
  {
    hide NonEmpty, Meaning, Stored, Sendable;
    if strategy.Shared? && t.intraNode {
      SendCpu(dicts[t.sender], b.ofNode[from]);
    }
    if |t.receivers| > 0 {
      SendReceivers(dicts[t.sender], t.receivers, b, remote);
    }
  }

  /** The transfers listed under one node, leaving what other nodes filled. */
  method SendNode(transfers: Transfers, strategy: Strategy, remote: bool, dicts: map<Policy, seq<Module>>, b: Buffers,
                  node: Node, ghost done: set<Node>)
    requires AllReady(transfers, strategy, dicts, b) && Apart(transfers, strategy, b)
    requires node in transfers && node !in done
    requires forall slot: Slot | At(transfers, slot) && slot.from in done ::
               Filled(transfers[slot.from][slot.at], slot.from, strategy, remote, dicts, b)
    modifies b.All()
    ensures forall slot: Slot | At(transfers, slot) && slot.from in done + {node} ::
              Filled(transfers[slot.from][slot.at], slot.from, strategy, remote, dicts, b)
  {
    hide Filled, Ready;
    for i := 0 to |transfers[node]|
      invariant forall slot: Slot | At(transfers, slot) && (slot.from in done || (slot.from == node && slot.at < i)) ::
                  Filled(transfers[slot.from][slot.at], slot.from, strategy, remote, dicts, b)
    {
      assert At(transfers, Slot(node, i));
      TargetsInside(transfers[node][i], node, strategy, b);
      forall slot: Slot | At(transfers, slot) && slot != Slot(node, i)
        ensures Targets(transfers[slot.from][slot.at], slot.from, strategy, b)
             !! Targets(transfers[node][i], node, strategy, b)
      {
        assert At(transfers, Slot(node, i));
      }
      SendOne(transfers[node][i], node, strategy, remote, dicts, b);
    }
  }

  lemma TargetsInside(t: Transfer, from: Node, strategy: Strategy, b: Buffers)
    ensures Targets(t, from, strategy, b) <= b.All()
  {
  }

  /** After one synchronisation every buffer written keeps its sender's dict. */
  method SendWeights(transfers: Transfers, strategy: Strategy, remote: bool, dicts: map<Policy, seq<Module>>,
                     b: Buffers)
    requires AllReady(transfers, strategy, dicts, b) && Apart(transfers, strategy, b)
    modifies b.All()
    ensures forall slot: Slot | At(transfers, slot) ::
              Filled(transfers[slot.from][slot.at], slot.from, strategy, remote, dicts, b)
  {
    hide Filled, AllReady, Apart, Targets;
    var rest := transfers.Keys;
    ghost var done: set<Node> := {};
    while rest != {}
      invariant done + rest == transfers.Keys && done !! rest
      invariant forall slot: Slot | At(transfers, slot) && slot.from in done ::
                  Filled(transfers[slot.from][slot.at], slot.from, strategy, remote, dicts, b)
      decreases rest
    {
      var node :| node in rest;
      SendNode(transfers, strategy, remote, dicts, b, node, done);
      done, rest := done + {node}, rest - {node};
    }
  }

  /** A plan made from the placement of the policies. */
  ghost predicate Planned(order: seq<Node>, places: map<Node, Placement>, transfers: Transfers, strategy: Strategy) {
    && WellPlaced(order, places) && Senders(order, places) != [] && Sound(Routes(order, places), places)
    && Follows(transfers, Routes(order, places), places, strategy) && Buffered(strategy)
  }

  /** The buffers read on one node. */
  ghost function BuffersOn(node: Node, places: map<Node, Placement>, b: Buffers): set<WeightBuffer>
    requires node in places
  {
    set p | p in places[node].evals && p in b.ofPolicy :: b.ofPolicy[p]
  }

  /** The node a place in the plan is for. */
  lemma SlotNode(order: seq<Node>, places: map<Node, Placement>, transfers: Transfers, strategy: Strategy, slot: Slot)
    returns (target: Node)
    requires Planned(order, places, transfers, strategy) && At(transfers, slot)
    ensures target in places && places[target].evals != [] && Fills(Routes(order, places), slot, target)
    ensures var t := transfers[slot.from][slot.at];
      && slot.from in places && t.sender in places[slot.from].trains && (t.intraNode <==> target == slot.from)
      && t.receivers == if strategy.Double? then places[target].evals
                        else if target != slot.from then [places[target].evals[0]] else []
  {
    hide Senders, Routes;
    var list := Routes(order, places)[slot.from];
    target := list[slot.at];
    assert transfers[slot.from][slot.at] == TransferAt(places, strategy, slot.from, list, slot.at);
    assert target in list;
  }

  /** What the wiring makes of one transfer: it writes exactly the buffers of its target node. */
  lemma TransferTargets(t: Transfer, from: Node, target: Node, strategy: Strategy, places: map<Node, Placement>,
                        b: Buffers)
    requires Wired(strategy, places, b) && Buffered(strategy) && target in places && places[target].evals != []
    requires t.intraNode <==> target == from
    requires t.receivers == if strategy.Double? then places[target].evals
                            else if target != from then [places[target].evals[0]] else []
    ensures forall p | p in t.receivers :: p in b.ofPolicy
    ensures strategy.Shared? && t.intraNode ==> t.receivers == [] && from in b.ofNode && b.ofNode[from].numpy
    ensures Targets(t, from, strategy, b) == BuffersOn(target, places, b)
  {
    var first := places[target].evals[0];
    assert first in places[target].evals;
    if strategy.Shared? {
      assert BuffersOn(target, places, b) == {b.ofNode[target]};
    }
  }

  /** A transfer writes exactly the buffers of one node, the one its place in the routes feeds. */
  lemma SlotTarget(order: seq<Node>, places: map<Node, Placement>, transfers: Transfers, strategy: Strategy,
                   b: Buffers, slot: Slot)
    returns (target: Node)
    requires Planned(order, places, transfers, strategy) && Wired(strategy, places, b) && At(transfers, slot)
    ensures target in places && places[target].evals != [] && Fills(Routes(order, places), slot, target)
    ensures var t := transfers[slot.from][slot.at];
      && slot.from in places && t.sender in places[slot.from].trains && (t.intraNode <==> target == slot.from)
      && (forall p | p in t.receivers :: p in b.ofPolicy)
      && (strategy.Shared? && t.intraNode ==> t.receivers == [] && slot.from in b.ofNode && b.ofNode[slot.from].numpy)
      && Targets(t, slot.from, strategy, b) == BuffersOn(target, places, b)
  {
    hide Senders, Routes, WellPlaced, Sound, Follows, Wired, Targets, BuffersOn;
    target := SlotNode(order, places, transfers, strategy, slot);
    TransferTargets(transfers[slot.from][slot.at], slot.from, target, strategy, places, b);
  }

  lemma NodesApart(strategy: Strategy, places: map<Node, Placement>, b: Buffers, n: Node, m: Node)
    requires Wired(strategy, places, b) && n in places && m in places && n != m
    ensures BuffersOn(n, places, b) !! BuffersOn(m, places, b)
  {
  }

  lemma PlanApart(order: seq<Node>, places: map<Node, Placement>, transfers: Transfers, strategy: Strategy, b: Buffers)
    requires Planned(order, places, transfers, strategy) && Wired(strategy, places, b)
    ensures Apart(transfers, strategy, b)
  {
    hide WellPlaced, Senders, Routes, Sound, Follows, Wired, Targets, BuffersOn;
    assert Distinct(order) && forall n :: n in order <==> n in places by { WellPlacedOrder(order, places); }
    forall s: Slot, u: Slot | At(transfers, s) && At(transfers, u) && s != u
      ensures Targets(transfers[s.from][s.at], s.from, strategy, b)
           !! Targets(transfers[u.from][u.at], u.from, strategy, b)
    {
      var n := SlotTarget(order, places, transfers, strategy, b, s);
      var m := SlotTarget(order, places, transfers, strategy, b, u);
      var slot := FedOnce(order, places, n);
      NodesApart(strategy, places, b, n, m);
    }
  }

  lemma WellPlacedOrder(order: seq<Node>, places: map<Node, Placement>)
    requires WellPlaced(order, places)
    ensures Distinct(order) && forall n :: n in order <==> n in places
  {
  }

  lemma PlanReady(order: seq<Node>, places: map<Node, Placement>, transfers: Transfers, strategy: Strategy,
                  dicts: map<Policy, seq<Module>>, b: Buffers)
    requires Planned(order, places, transfers, strategy) && Wired(strategy, places, b)
    requires forall n, t | n in places && t in places[n].trains :: t in dicts && Sendable(dicts[t])
    ensures AllReady(transfers, strategy, dicts, b)
  {
    hide Planned, Wired, Sendable;
    forall slot: Slot | At(transfers, slot)
      ensures Ready(transfers[slot.from][slot.at], slot.from, strategy, dicts, b)
    {
      var target := SlotTarget(order, places, transfers, strategy, b, slot);
    }
  }

  /** Whether what a policy on this node receives is whole: within one process, or with a shared
      buffer on a node that also trains. */
  ghost predicate WholeOn(node: Node, places: map<Node, Placement>, strategy: Strategy, remote: bool)
    requires node in places
  {
    !remote || (strategy.Shared? && places[node].trains != [])
  }

  /** The buffer that policy `p` of a node reads keeps the dict of some training policy. */
  ghost predicate Updated(p: Policy, node: Node, places: map<Node, Placement>, strategy: Strategy, remote: bool,
                          trains: seq<Policy>, dicts: map<Policy, seq<Module>>, b: Buffers)
    requires p in b.ofPolicy && node in places
    reads b.ofPolicy[p]
  {
    && b.ofPolicy[p].isReady
    && exists t :: t in trains && t in dicts
         && b.ofPolicy[p].buffer
            == Stored(Delivery(dicts[t], WholeOn(node, places, strategy, remote)), b.ofPolicy[p].numpy)
  }

  /** A node is fed by a transfer from itself exactly when it trains. */
  lemma IntraNode(order: seq<Node>, places: map<Node, Placement>, node: Node, slot: Slot)
    requires WellPlaced(order, places) && Senders(order, places) != [] && Sound(Routes(order, places), places)
    requires node in places && places[node].evals != [] && Fills(Routes(order, places), slot, node)
    ensures slot.from == node <==> places[node].trains != []
  {
    hide Senders, Routes, Mixed, OnlyEval, OnlyTrain;
    if places[node].trains != [] {
      ClassesOf(order, places);
      MixedFills(order, places, node);
      var one := FedOnce(order, places, node);
    }
  }

  lemma PolicyUpdated(order: seq<Node>, places: map<Node, Placement>, transfers: Transfers, strategy: Strategy,
                      remote: bool,
                      trains: seq<Policy>, dicts: map<Policy, seq<Module>>, b: Buffers, node: Node, p: Policy)
    requires Planned(order, places, transfers, strategy) && Wired(strategy, places, b)
    requires forall slot: Slot | At(transfers, slot) ::
               Filled(transfers[slot.from][slot.at], slot.from, strategy, remote, dicts, b)
    requires forall n, t | n in places && t in places[n].trains :: t in trains
    requires node in places && p in places[node].evals && p in b.ofPolicy
    ensures Updated(p, node, places, strategy, remote, trains, dicts, b)
  {
    hide WellPlaced, Senders, Routes, Sound, Wired, Targets, Delivery, Stored;
    WellPlacedOrder(order, places);
    var slot := FedOnce(order, places, node);
    assert At(transfers, slot);
    var target := SlotTarget(order, places, transfers, strategy, b, slot);
    IntraNode(order, places, node, slot);
    assert Filled(transfers[slot.from][slot.at], slot.from, strategy, remote, dicts, b);
  }

  lemma SeatedTrains(order: seq<Node>, places: map<Node, Placement>, trains: seq<Policy>, evals: seq<Policy>,
                     nodeOf: map<Policy, Node>)
    requires (forall q | q in trains || q in evals :: q in nodeOf) && Seated(order, places, trains, evals, nodeOf)
    ensures forall n, t | n in places && t in places[n].trains :: t in trains
    ensures (forall n | n in order :: n in places && places[n].trains == []) <==> trains == []
  {
    forall n, t | n in places && t in places[n].trains ensures t in trains {
      OnNodeHas(trains, nodeOf, n);
    }
    if trains != [] {
      var t := trains[0];
      OnNodeHas(trains, nodeOf, nodeOf[t]);
      assert t in OnNode(trains, nodeOf, nodeOf[t]);
      assert nodeOf[t] in places && nodeOf[t] in order;
    } else {
      assert forall n :: OnNode(trains, nodeOf, n) == [];
    }
  }

  /** Create the buffers the strategy asks for; a shared buffer always keeps numpy arrays. */
  method InitWeightBuffers(strategy: Strategy, order: seq<Node>, places: map<Node, Placement>, evals: seq<Policy>,
                           numpy: bool)
    returns (b: Buffers)
    requires Buffered(strategy) && WellPlaced(order, places)
    requires forall n, p | n in places && p in places[n].evals :: p in evals
    ensures fresh(b.All()) && Wired(strategy, places, b)
    ensures forall n, p | n in places && p in places[n].evals :: b.ofPolicy[p].numpy == (strategy.Shared? || numpy)
  {
    if strategy.Double? {
      b := OwnBuffers(places, evals, numpy);
    } else {
      b := NodeBuffers(places);
    }
  }

  /** From the policy lists to synchronised buffers: with a training policy, the buffer of every
      evaluation policy ends up with a training policy's dict; without one, the plan is an error. */
  method SyncWeights(trains: seq<Policy>, evals: seq<Policy>, nodeOf: map<Policy, Node>, strategy: Strategy,
                     numpy: bool, remote: bool,
                     dicts: map<Policy, seq<Module>>)
    returns (plan: Plan<Transfers>, b: Buffers, places: map<Node, Placement>)
    requires (forall q | q in trains || q in evals :: q in nodeOf) && Distinct(evals) && Buffered(strategy)
    requires forall t | t in trains :: t in dicts && Sendable(dicts[t])
    ensures plan.NoTrainPolicy? || plan.Planned?
    ensures plan.NoTrainPolicy? <==> trains == []
    ensures forall p | p in evals ::
              p in b.ofPolicy && b.ofPolicy[p].numpy == (strategy.Shared? || numpy) && nodeOf[p] in places
    ensures plan.Planned? ==> forall p | p in evals :: Updated(p, nodeOf[p], places, strategy, remote, trains, dicts, b)
  {
    hide Seated, WellPlaced, Senders, Routes, Sound, Follows, Updated, Filled, Apart, AllReady, Sendable;
    var order;
    order, places := InitPlacement(trains, evals, nodeOf);
    SeatedWell(order, places, trains, evals, nodeOf);
    SeatedTrains(order, places, trains, evals, nodeOf);
    b := InitWeightBuffers(strategy, order, places, evals, numpy);
    plan := BuildTransferInfo(order, places, strategy);
    if plan.Planned? {
      PlanApart(order, places, plan.value, strategy, b);
      PlanReady(order, places, plan.value, strategy, dicts, b);
      SendWeights(plan.value, strategy, remote, dicts, b);
      forall p | p in evals ensures Updated(p, nodeOf[p], places, strategy, remote, trains, dicts, b) {
        PolicyUpdated(order, places, plan.value, strategy, remote, trains, dicts, b, nodeOf[p], p);
      }
    }
  }

  /** What an evaluation policy loads afterwards: the dict of a training policy exactly when the
      transfer was whole or no module is empty, and its buffer keeps tensors or none is uint16. */
  method LoadPolicy(p: Policy, node: Node, places: map<Node, Placement>, strategy: Strategy, remote: bool,
                    trains: seq<Policy>, dicts: map<Policy, seq<Module>>, b: Buffers)
    returns (loaded: State)
    requires p in b.ofPolicy && node in places && Updated(p, node, places, strategy, remote, trains, dicts, b)
    requires forall t | t in trains :: t in dicts && Sendable(dicts[t])
    ensures exists t :: t in trains && t in dicts
              && b.ofPolicy[p].buffer
                 == Stored(Delivery(dicts[t], WholeOn(node, places, strategy, remote)), b.ofPolicy[p].numpy)
              && loaded == AllTensors(b.ofPolicy[p].buffer)
              && (loaded == Meaning(dicts[t]) <==>
                    && (WholeOn(node, places, strategy, remote) || forall m | m in dicts[t] :: m.params != [])
                    && (!b.ofPolicy[p].numpy || !SomeUint16(Meaning(dicts[t]))))
  {
    hide Stored, Delivery, Meaning, SomeUint16, AllTensors;
    ghost var whole, buffer := WholeOn(node, places, strategy, remote), b.ofPolicy[p];
    ghost var t :| t in trains && t in dicts && buffer.buffer == Stored(Delivery(dicts[t], whole), buffer.numpy);
    DeliveryLoads(dicts[t], whole, buffer.numpy);
    loaded := UpdateWeights(b.ofPolicy[p], Delivery(dicts[t], whole));
  }
}
