/** Who sends weights to whom when training and evaluation policies live on different nodes. */
module TransferPlan {
  import opened Arithmetic
  import opened Sequences

  type Node = string
  type Policy = nat

  datatype Placement = Placement(trains: seq<Policy>, evals: seq<Policy>)

  type Router = map<Node, seq<Node>>

  function Listed(router: Router, node: Node): seq<Node> {
    if node in router then router[node] else []
  }

  function OnlyEval(order: seq<Node>, places: map<Node, Placement>): seq<Node>
    requires forall n | n in order :: n in places
  {
    if order == [] then []
    else
      var last := order[|order| - 1];
      OnlyEval(order[..|order| - 1], places) + if places[last].trains == [] then [last] else []
  }

  function OnlyTrain(order: seq<Node>, places: map<Node, Placement>): seq<Node>
    requires forall n | n in order :: n in places
  {
    if order == [] then []
    else
      var last := order[|order| - 1];
      OnlyTrain(order[..|order| - 1], places)
      + if places[last].trains != [] && places[last].evals == [] then [last] else []
  }

  function Mixed(order: seq<Node>, places: map<Node, Placement>): seq<Node>
    requires forall n | n in order :: n in places
  {
    if order == [] then []
    else
      var last := order[|order| - 1];
      Mixed(order[..|order| - 1], places)
      + if places[last].trains != [] && places[last].evals != [] then [last] else []
  }

  /** Shares differ by at most one element. */
  lemma ShareEven<T>(s: seq<T>, i: nat, j: nat, k: nat)
    requires i < k && j < k
    ensures |Strided(s, i, k)| <= |Strided(s, j, k)| + 1
  {
    var a, b := |Strided(s, i, k)|, |Strided(s, j, k)|;
    if a >= b + 2 {
      StridedAt(s, i, k, b + 1);
      StridedAt(s, j, k, b);
      OneMore(b, k);
    }
  }

  function InTurn<T>(s: seq<T>, i: nat): T
    requires s != []
  {
    s[i % |s|]
  }

  /** Hand out the evaluation nodes to the senders in turn. */
  function Spread(router: Router, senders: seq<Node>, evals: seq<Node>): Router
    requires senders != []
  {
    if evals == [] then router
    else
      var before := Spread(router, senders, evals[..|evals| - 1]);
      var t := InTurn(senders, |evals| - 1);
      before[t := Listed(before, t) + [evals[|evals| - 1]]]
  }

  /** Each sender gets its share behind what it had; nobody else changes. */
  lemma {:induction false} SpreadShare(router: Router, senders: seq<Node>, evals: seq<Node>, j: nat)
    requires j < |senders| && Distinct(senders)
    ensures Listed(Spread(router, senders, evals), senders[j])
         == Listed(router, senders[j]) + Strided(evals, j, |senders|)
  {
    if evals != [] {
      SpreadShare(router, senders, evals[..|evals| - 1], j);
    }
  }

  lemma {:induction false} SpreadOthers(router: Router, senders: seq<Node>, evals: seq<Node>, node: Node)
    requires senders != [] && node !in senders
    ensures Listed(Spread(router, senders, evals), node) == Listed(router, node)
  {
    if evals != [] {
      SpreadOthers(router, senders, evals[..|evals| - 1], node);
    }
  }

  lemma {:induction false} SpreadFilled(router: Router, senders: seq<Node>, evals: seq<Node>)
    requires senders != [] && forall t | t in router :: router[t] != []
    ensures forall t | t in Spread(router, senders, evals) :: Spread(router, senders, evals)[t] != []
    ensures forall t | t in Spread(router, senders, evals) :: t in router || t in senders
  {
    if evals != [] {
      SpreadFilled(router, senders, evals[..|evals| - 1]);
    }
  }

  /** Dedicated training nodes send to other nodes if there are any, mixed nodes otherwise. */
  function Senders(order: seq<Node>, places: map<Node, Placement>): seq<Node>
    requires forall n | n in order :: n in places
  {
    if OnlyTrain(order, places) != [] then OnlyTrain(order, places) else Mixed(order, places)
  }

  function Own(mixed: seq<Node>): Router {
    map m | m in mixed :: [m]
  }

  function Routes(order: seq<Node>, places: map<Node, Placement>): Router
    requires (forall n | n in order :: n in places) && Senders(order, places) != []
  {
    Spread(Own(Mixed(order, places)), Senders(order, places), OnlyEval(order, places))
  }

  lemma OwnNone()
    ensures Own([]) == map[]
  {
  }

  lemma OwnSnoc(mixed: seq<Node>, node: Node)
    ensures Own(mixed + [node]) == Own(mixed)[node := [node]]
  {
  }

  datatype Plan<T> = Planned(value: T) | NoTrainPolicy | Unsupported

  /** Classify the nodes and route each node with evaluation policies to a node that trains. */
  method BuildRouter(order: seq<Node>, places: map<Node, Placement>) returns (plan: Plan<Router>)
    requires forall n | n in order :: n in places
    ensures plan == if Senders(order, places) == [] then NoTrainPolicy else Planned(Routes(order, places))
  {
    hide Spread, Own;
    OwnNone();
    var trainNodes, evalNodes, mixedNodes, router: Router := [], [], [], map[];
    for i := 0 to |order|
      invariant trainNodes == OnlyTrain(order[..i], places) && evalNodes == OnlyEval(order[..i], places)
      invariant mixedNodes == Mixed(order[..i], places) && router == Own(mixedNodes)
    {
      assert order[..i + 1][..i] == order[..i];
      var node := order[i];
      if |places[node].trains| == 0 {
        evalNodes := evalNodes + [node];
      } else if |places[node].evals| == 0 {
        trainNodes := trainNodes + [node];
      } else {
        OwnSnoc(mixedNodes, node);
        mixedNodes := mixedNodes + [node];
        router := router[node := [node]];
      }
    }
    assert order[..|order|] == order;
    if |trainNodes| > 0 {
      router := HandOut(router, trainNodes, evalNodes);
    } else if |mixedNodes| > 0 {
      router := HandOut(router, mixedNodes, evalNodes);
    } else {
      return NoTrainPolicy;
    }
    plan := Planned(router);
  }

  method HandOut(before: Router, senders: seq<Node>, evals: seq<Node>) returns (router: Router)
    requires senders != []
    ensures router == Spread(before, senders, evals)
  {
    router := before;
    for i := 0 to |evals|
      invariant router == Spread(before, senders, evals[..i])
    {
      assert evals[..i + 1][..i] == evals[..i];
      var t := InTurn(senders, i);
      if t !in router {
        router := router[t := []];
      }
      router := router[t := router[t] + [evals[i]]];
    }
    assert evals[..|evals|] == evals;
  }

  lemma {:induction false} ClassesOf(order: seq<Node>, places: map<Node, Placement>)
    requires Distinct(order) && forall n | n in order :: n in places
    ensures Distinct(OnlyEval(order, places)) && Distinct(OnlyTrain(order, places)) && Distinct(Mixed(order, places))
    ensures forall n :: n in OnlyEval(order, places) <==> n in order && places[n].trains == []
    ensures forall n :: n in OnlyTrain(order, places) <==> n in order && places[n].trains != [] && places[n].evals == []
    ensures forall n :: n in Mixed(order, places) <==> n in order && places[n].trains != [] && places[n].evals != []
  {
    hide Distinct;
    OnlyEvalOf(order, places);
    OnlyTrainOf(order, places);
    MixedOf(order, places);
  }

  lemma LastApart(order: seq<Node>)
    requires Distinct(order) && order != []
    ensures var init, last := order[..|order| - 1], order[|order| - 1];
      Distinct(init) && last !in init && forall n :: n in order <==> n in init || n == last
  {
    assert order == order[..|order| - 1] + [order[|order| - 1]];
  }

  lemma DistinctSnoc(some: seq<Node>, node: Node)
    requires Distinct(some) && node !in some
    ensures Distinct(some + [node])
  {
  }

  lemma {:induction false} OnlyEvalOf(order: seq<Node>, places: map<Node, Placement>)
    requires Distinct(order) && forall n | n in order :: n in places
    ensures Distinct(OnlyEval(order, places))
    ensures forall n :: n in OnlyEval(order, places) <==> n in order && places[n].trains == []
  {
    if order != [] {
      LastApart(order);
      OnlyEvalOf(order[..|order| - 1], places);
      DistinctSnoc(OnlyEval(order[..|order| - 1], places), order[|order| - 1]);
    }
  }

  lemma {:induction false} OnlyTrainOf(order: seq<Node>, places: map<Node, Placement>)
    requires Distinct(order) && forall n | n in order :: n in places
    ensures Distinct(OnlyTrain(order, places))
    ensures forall n :: n in OnlyTrain(order, places) <==> n in order && places[n].trains != [] && places[n].evals == []
  {
    if order != [] {
      LastApart(order);
      OnlyTrainOf(order[..|order| - 1], places);
      DistinctSnoc(OnlyTrain(order[..|order| - 1], places), order[|order| - 1]);
    }
  }

  lemma {:induction false} MixedOf(order: seq<Node>, places: map<Node, Placement>)
    requires Distinct(order) && forall n | n in order :: n in places
    ensures Distinct(Mixed(order, places))
    ensures forall n :: n in Mixed(order, places) <==> n in order && places[n].trains != [] && places[n].evals != []
  {
    if order != [] {
      LastApart(order);
      MixedOf(order[..|order| - 1], places);
      DistinctSnoc(Mixed(order[..|order| - 1], places), order[|order| - 1]);
    }
  }

  /** Each class lists its nodes in the order of the placement. */
  lemma {:induction false} ClassesPick(order: seq<Node>, places: map<Node, Placement>, evaluating: Node -> bool,
                                       training: Node -> bool, both: Node -> bool)
    requires forall n | n in order :: n in places
    requires forall n | n in order :: evaluating(n) <==> places[n].trains == []
    requires forall n | n in order :: training(n) <==> places[n].trains != [] && places[n].evals == []
    requires forall n | n in order :: both(n) <==> places[n].trains != [] && places[n].evals != []
    ensures Picks(OnlyEval(order, places), order, evaluating)
    ensures Picks(OnlyTrain(order, places), order, training)
    ensures Picks(Mixed(order, places), order, both)
  {
    hide Picks;
    if order == [] {
      PicksNone(evaluating);
      PicksNone(training);
      PicksNone(both);
    } else {
      var init, last := order[..|order| - 1], order[|order| - 1];
      assert order == init + [last];
      ClassesPick(init, places, evaluating, training, both);
      PicksSnoc(OnlyEval(init, places), init, evaluating, last);
      PicksSnoc(OnlyTrain(init, places), init, training, last);
      PicksSnoc(Mixed(init, places), init, both, last);
    }
  }

  /** Nodes that only train send to the others if there are any; if not, every node that trains
      does. */
  lemma SendersDedicated(order: seq<Node>, places: map<Node, Placement>, t: Node)
    requires Distinct(order) && forall n | n in order :: n in places
    ensures t in Senders(order, places) <==>
              && t in order && places[t].trains != []
              && (places[t].evals == [] || forall n | n in order && places[n].trains != [] :: places[n].evals != [])
  {
    ClassesOf(order, places);
    if n :| n in order && places[n].trains != [] && places[n].evals == [] {
      assert n in OnlyTrain(order, places);
    } else if OnlyTrain(order, places) != [] {
      assert OnlyTrain(order, places)[0] in order;
    }
  }

  /** There is a sender unless no node trains. */
  lemma SendersTrain(order: seq<Node>, places: map<Node, Placement>)
    requires Distinct(order) && forall n | n in order :: n in places
    ensures Senders(order, places) == [] <==> forall n | n in order :: places[n].trains == []
    ensures Distinct(Senders(order, places))
    ensures forall t | t in Senders(order, places) :: t in order && places[t].trains != []
  {
    ClassesOf(order, places);
    if n :| n in order && places[n].trains != [] {
      assert n in OnlyTrain(order, places) || n in Mixed(order, places);
    }
    if Senders(order, places) != [] {
      var t := Senders(order, places)[0];
      assert t in order;
    }
  }

  /** A mixed sender feeds itself first. */
  function OwnPart(order: seq<Node>, places: map<Node, Placement>, t: Node): seq<Node>
    requires forall n | n in order :: n in places
  {
    if t in Mixed(order, places) then [t] else []
  }

  /** What one node sends to: itself if it is mixed, then its share of the evaluation nodes. */
  lemma {:induction false} RoutesShare(order: seq<Node>, places: map<Node, Placement>, j: nat)
    requires Distinct(order) && (forall n | n in order :: n in places) && j < |Senders(order, places)|
    ensures var senders := Senders(order, places);
      Listed(Routes(order, places), senders[j])
      == OwnPart(order, places, senders[j]) + Strided(OnlyEval(order, places), j, |senders|)
  {
    SendersTrain(order, places);
    SpreadShare(Own(Mixed(order, places)), Senders(order, places), OnlyEval(order, places), j);
  }

  lemma RoutesOthers(order: seq<Node>, places: map<Node, Placement>, t: Node)
    requires Distinct(order) && (forall n | n in order :: n in places)
    requires Senders(order, places) != [] && t !in Senders(order, places)
    ensures Listed(Routes(order, places), t) == OwnPart(order, places, t)
  {
    SpreadOthers(Own(Mixed(order, places)), Senders(order, places), OnlyEval(order, places), t);
  }

  /** A place in the routes. */
  datatype Slot = Slot(from: Node, at: nat)

  ghost predicate Fills(router: Router, slot: Slot, node: Node) {
    slot.from in router && slot.at < |router[slot.from]| && router[slot.from][slot.at] == node
  }

  /** Where the `i`-th evaluation node is fed. */
  ghost function EvalSlot(order: seq<Node>, places: map<Node, Placement>, i: nat): Slot
    requires (forall n | n in order :: n in places) && Senders(order, places) != []
  {
    var senders := Senders(order, places);
    var t := InTurn(senders, i);
    Slot(t, |OwnPart(order, places, t)| + Div(i, |senders|))
  }

  lemma {:induction false} EvalSlotFills(order: seq<Node>, places: map<Node, Placement>, i: nat)
    requires Distinct(order) && (forall n | n in order :: n in places)
    requires Senders(order, places) != [] && i < |OnlyEval(order, places)|
    ensures Fills(Routes(order, places), EvalSlot(order, places, i), OnlyEval(order, places)[i])
  {
    hide Strided, Spread, OwnPart, OnlyEval, Senders, Routes;
    var k := |Senders(order, places)|;
    Division(i, k);
    RoutesShare(order, places, i % k);
    StridedAt(OnlyEval(order, places), i % k, k, i / k);
  }

  /** Every place in the routes is a mixed node feeding itself or an evaluation node's. */
  lemma SlotCases(order: seq<Node>, places: map<Node, Placement>, slot: Slot) returns (own: bool, i: nat)
    requires Distinct(order) && (forall n | n in order :: n in places) && Senders(order, places) != []
    requires slot.from in Routes(order, places) && slot.at < |Routes(order, places)[slot.from]|
    ensures own ==> slot.from in Mixed(order, places) && slot.at == 0 && Fills(Routes(order, places), slot, slot.from)
    ensures !own ==> i < |OnlyEval(order, places)| && slot == EvalSlot(order, places, i)
                     && Fills(Routes(order, places), slot, OnlyEval(order, places)[i])
  {
    hide Strided, Spread, Routes, Mixed, OnlyEval, Senders, Product;
    var senders, part := Senders(order, places), OwnPart(order, places, slot.from);
    own, i := true, 0;
    if slot.from !in senders {
      RoutesOthers(order, places, slot.from);
    } else {
      var j: nat :| j < |senders| && senders[j] == slot.from;
      RoutesShare(order, places, j);
      if slot.at >= |part| {
        own, i := false, j + Product(slot.at - |part|, |senders|);
        StridedAt(OnlyEval(order, places), j, |senders|, slot.at - |part|);
        Quotient(slot.at - |part|, |senders|, j);
      }
    }
  }

  /** The one place that feeds a node with evaluation policies. */
  lemma FedOnce(order: seq<Node>, places: map<Node, Placement>, node: Node) returns (slot: Slot)
    requires Distinct(order) && (forall n | n in order :: n in places) && Senders(order, places) != []
    requires node in order && places[node].evals != []
    ensures Fills(Routes(order, places), slot, node)
    ensures forall other: Slot :: Fills(Routes(order, places), other, node) ==> other == slot
  {
    hide Routes, Mixed, OnlyEval, Senders, OwnPart, EvalSlot;
    ClassesOf(order, places);
    if places[node].trains == [] {
      var i: nat :| i < |OnlyEval(order, places)| && OnlyEval(order, places)[i] == node;
      slot := EvalSlot(order, places, i);
      EvalSlotFills(order, places, i);
    } else {
      slot := Slot(node, 0);
      MixedFills(order, places, node);
    }
    forall other: Slot | Fills(Routes(order, places), other, node) ensures other == slot {
      var own, k := SlotCases(order, places, other);
    }
  }

  lemma MixedFills(order: seq<Node>, places: map<Node, Placement>, node: Node)
    requires Distinct(order) && (forall n | n in order :: n in places) && Senders(order, places) != []
    requires node in Mixed(order, places)
    ensures Fills(Routes(order, places), Slot(node, 0), node)
  {
    hide Strided, Spread, Routes, Mixed, OnlyEval, Senders;
    var senders := Senders(order, places);
    if node !in senders {
      RoutesOthers(order, places, node);
    } else {
      var j: nat :| j < |senders| && senders[j] == node;
      RoutesShare(order, places, j);
    }
  }

  /** The senders take turns: the `i`-th node that only evaluates is fed by sender `i` modulo their
      number and by no other node, and a mixed node feeds itself before all others. */
  lemma SendersTakeTurns(order: seq<Node>, places: map<Node, Placement>, i: nat, t: Node)
    requires Distinct(order) && (forall n | n in order :: n in places) && Senders(order, places) != []
    requires i < |OnlyEval(order, places)|
    ensures var senders := Senders(order, places);
      OnlyEval(order, places)[i] in Listed(Routes(order, places), t) <==> t == senders[i % |senders|]
    ensures t in Mixed(order, places) ==>
              Listed(Routes(order, places), t) != [] && Listed(Routes(order, places), t)[0] == t
  {
    hide Routes, Mixed, OnlyEval, Senders, OwnPart;
    var node := OnlyEval(order, places)[i];
    EvalSlotFills(order, places, i);
    ClassesOf(order, places);
    assert node in order && places[node].trains == [];
    if t in Mixed(order, places) {
      MixedFills(order, places, t);
    }
    if node in Listed(Routes(order, places), t) {
      var at: nat :| at < |Listed(Routes(order, places), t)| && Listed(Routes(order, places), t)[at] == node;
      var own, j := SlotCases(order, places, Slot(t, at));
    }
  }

  datatype Strategy = Unbuffered | Double | Shared | Sharded

  datatype Transfer = Transfer(sender: Policy, receivers: seq<Policy>, intraNode: bool)

  /** The transfer from `node` to the node at `index` of its list. */
  function TransferAt(places: map<Node, Placement>, strategy: Strategy, node: Node, list: seq<Node>,
                      index: nat): Transfer
    requires node in places && places[node].trains != [] && index < |list| && list[index] in places
    requires places[list[index]].evals != []
  {
    var target := list[index];
    Transfer(InTurn(places[node].trains, index),
         if strategy.Unbuffered? || strategy.Double? then places[target].evals
         else if target != node then [places[target].evals[0]] else [],
         target == node)
  }

  /** Every sender trains and every target evaluates. */
  ghost predicate Sound(router: Router, places: map<Node, Placement>) {
    && (forall t | t in router :: t in places && places[t].trains != [] && router[t] != [])
    && (forall t, n | t in router && n in router[t] :: n in places && places[n].evals != [])
  }

  method BuildNodeTransfers(places: map<Node, Placement>, strategy: Strategy, node: Node, list: seq<Node>)
    returns (items: seq<Transfer>)
    requires node in places && places[node].trains != [] && !strategy.Sharded?
    requires forall n | n in list :: n in places && places[n].evals != []
    ensures |items| == |list| && forall i | 0 <= i < |list| :: items[i] == TransferAt(places, strategy, node, list, i)
  {
    items := [];
    for i := 0 to |list|
      invariant |items| == i
      invariant forall j | 0 <= j < i :: items[j] == TransferAt(places, strategy, node, list, j)
    {
      var sender := InTurn(places[node].trains, i);
      var receivers, intraNode := [], false;
      if list[i] == node {
        intraNode := true;
      }
      if strategy.Unbuffered? || strategy.Double? {
        receivers := places[list[i]].evals;
      } else if list[i] != node {
        receivers := [places[list[i]].evals[0]];
      }
      items := items + [Transfer(sender, receivers, intraNode)];
    }
  }

  type Transfers = map<Node, seq<Transfer>>

  /** One transfer per route. */
  ghost predicate Follows(transfers: Transfers, router: Router, places: map<Node, Placement>, strategy: Strategy)
    requires Sound(router, places)
  {
    && transfers.Keys == router.Keys
    && forall t | t in router :: |transfers[t]| == |router[t]| &&
         forall i | 0 <= i < |router[t]| :: transfers[t][i] == TransferAt(places, strategy, t, router[t], i)
  }

  /** The training policies of a node send its transfers in turn, so their shares differ by at most
      one. */
  lemma TrainersTakeTurns(transfers: Transfers, router: Router, places: map<Node, Placement>, strategy: Strategy,
                          t: Node, i: nat, j: nat)
    requires Sound(router, places) && Follows(transfers, router, places, strategy) && t in router
    requires i < |places[t].trains| && j < |places[t].trains|
    ensures var trains, all := places[t].trains, transfers[t];
      && (forall at | 0 <= at < |all| :: all[at].sender == trains[at % |trains|])
      && (forall item | item in Strided(all, i, |trains|) :: item.sender == trains[i])
      && |Strided(all, i, |trains|)| <= |Strided(all, j, |trains|)| + 1
  {
    hide Strided, Product;
    var all, k := transfers[t], |places[t].trains|;
    assert forall at | 0 <= at < |all| :: all[at] == TransferAt(places, strategy, t, router[t], at);
    forall q: nat | q < |Strided(all, i, k)| ensures Strided(all, i, k)[q].sender == places[t].trains[i] {
      StridedAt(all, i, k, q);
      Quotient(q, k, i);
    }
    ShareEven(all, i, j, k);
  }

  method BuildTransfers(router: Router, places: map<Node, Placement>, strategy: Strategy)
    returns (plan: Plan<Transfers>)
    requires Sound(router, places)
    ensures plan.Unsupported? <==> strategy.Sharded? && router != map[]
    ensures !plan.Unsupported? ==> plan.Planned? && Follows(plan.value, router, places, strategy)
  {
    var transfers: Transfers, rest := map[], router.Keys;
    while rest != {}
      invariant rest <= router.Keys && transfers.Keys == router.Keys - rest
      invariant strategy.Sharded? ==> rest == router.Keys
      invariant forall t | t in transfers :: |transfers[t]| == |router[t]| &&
                  forall i | 0 <= i < |router[t]| :: transfers[t][i] == TransferAt(places, strategy, t, router[t], i)
      decreases rest
    {
      var t :| t in rest;
      if strategy.Sharded? {
        return Unsupported;
      }
      var items := BuildNodeTransfers(places, strategy, t, router[t]);
      transfers, rest := transfers[t := items], rest - {t};
    }
    plan := Planned(transfers);
  }

  /** Every listed node holds a policy, and each evaluation policy sits on one node, once. */
  ghost predicate WellPlaced(order: seq<Node>, places: map<Node, Placement>) {
    && Distinct(order) && (forall n :: n in order <==> n in places)
    && (forall n | n in places :: places[n].trains != [] || places[n].evals != [])
    && (forall n | n in places :: Distinct(places[n].evals))
    && (forall n, m, p | n in places && m in places && p in places[n].evals && p in places[m].evals :: n == m)
  }

  lemma RoutesSound(order: seq<Node>, places: map<Node, Placement>)
    requires WellPlaced(order, places) && Senders(order, places) != []
    ensures Sound(Routes(order, places), places)
  {
    hide Strided, Senders, Mixed, OnlyEval, OnlyTrain, OwnPart;
    var router := Routes(order, places);
    ClassesOf(order, places);
    SendersTrain(order, places);
    SpreadFilled(Own(Mixed(order, places)), Senders(order, places), OnlyEval(order, places));
    forall t, n | t in router && n in router[t] ensures n in places && places[n].evals != [] {
      var at: nat :| at < |router[t]| && router[t][at] == n;
      var own, i := SlotCases(order, places, Slot(t, at));
    }
  }

  /** There are routes exactly when some node evaluates. */
  lemma RoutesSome(order: seq<Node>, places: map<Node, Placement>)
    requires WellPlaced(order, places) && Senders(order, places) != [] && Sound(Routes(order, places), places)
    ensures Routes(order, places) != map[] <==> exists n :: n in order && places[n].evals != []
  {
    hide Senders, Routes;
    var router := Routes(order, places);
    if router != map[] {
      var t :| t in router;
      var target := router[t][0];
      assert target in router[t];
      assert target in order && places[target].evals != [];
    }
    if n :| n in order && places[n].evals != [] {
      var slot := FedOnce(order, places, n);
    }
  }

  /** The whole plan; `NoTrainPolicy` is the error for a placement without training policies. */
  method BuildTransferInfo(order: seq<Node>, places: map<Node, Placement>, strategy: Strategy)
    returns (plan: Plan<Transfers>)
    requires WellPlaced(order, places)
    ensures plan.NoTrainPolicy? <==> forall n | n in order :: places[n].trains == []
    ensures plan.Planned? ==> Senders(order, places) != [] && Sound(Routes(order, places), places)
    ensures plan.Planned? ==> Follows(plan.value, Routes(order, places), places, strategy)
    ensures plan.Unsupported? <==>
              && strategy.Sharded? && (exists n :: n in order && places[n].trains != [])
              && (exists n :: n in order && places[n].evals != [])
  {
    hide Senders, Routes, Sound;
    SendersTrain(order, places);
    var router := BuildRouter(order, places);
    match router {
      case Planned(routes) =>
        RoutesSound(order, places);
        RoutesSome(order, places);
        plan := BuildTransfers(routes, places, strategy);
      case NoTrainPolicy =>
        plan := NoTrainPolicy;
      case Unsupported =>
        assert false;
    }
  }

  ghost predicate At(transfers: Transfers, slot: Slot) {
    slot.from in transfers && slot.at < |transfers[slot.from]|
  }

  /** Without a buffer or with one per policy every evaluation policy is in exactly one receiver
      list, once, together with exactly the others of its node, and the sender of that list trains on
      the node it is listed under. */
  lemma DoubleFeedsOnce(order: seq<Node>, places: map<Node, Placement>, strategy: Strategy, transfers: Transfers,
                        node: Node, p: Policy)
    returns (slot: Slot)
    requires WellPlaced(order, places) && Senders(order, places) != [] && Sound(Routes(order, places), places)
    requires Follows(transfers, Routes(order, places), places, strategy) && (strategy.Unbuffered? || strategy.Double?)
    requires node in places && p in places[node].evals
    ensures At(transfers, slot) && transfers[slot.from][slot.at].receivers == places[node].evals
    ensures Distinct(transfers[slot.from][slot.at].receivers)
    ensures slot.from in places && transfers[slot.from][slot.at].sender in places[slot.from].trains
    ensures forall other: Slot :: At(transfers, other) && p in transfers[other.from][other.at].receivers ==>
              other == slot
  {
    hide Senders, Routes;
    var router := Routes(order, places);
    slot := FedOnce(order, places, node);
    assert transfers[slot.from][slot.at] == TransferAt(places, strategy, slot.from, router[slot.from], slot.at);
    forall other: Slot | At(transfers, other) && p in transfers[other.from][other.at].receivers ensures other == slot {
      assert transfers[other.from][other.at] == TransferAt(places, strategy, other.from, router[other.from], other.at);
      assert Fills(router, other, node);
    }
  }

  /** A transfer feeds a node with a shared buffer through its own buffer actor or through the
      node's first evaluation policy. */
  ghost predicate FeedsShared(item: Transfer, from: Node, node: Node, places: map<Node, Placement>)
    requires node in places && places[node].evals != []
  {
    if item.intraNode then from == node && item.receivers == [] else item.receivers == [places[node].evals[0]]
  }

  /** Under the shared strategy every node with evaluation policies is fed exactly once. */
  lemma SharedFeedsOnce(order: seq<Node>, places: map<Node, Placement>, transfers: Transfers, node: Node)
    returns (slot: Slot)
    requires WellPlaced(order, places) && Senders(order, places) != [] && Sound(Routes(order, places), places)
    requires Follows(transfers, Routes(order, places), places, Shared)
    requires node in places && places[node].evals != []
    ensures At(transfers, slot) && FeedsShared(transfers[slot.from][slot.at], slot.from, node, places)
    ensures slot.from in places && transfers[slot.from][slot.at].sender in places[slot.from].trains
    ensures forall other: Slot | At(transfers, other) ::
              FeedsShared(transfers[other.from][other.at], other.from, node, places) ==> other == slot
  {
    hide Senders, Routes;
    var router := Routes(order, places);
    slot := FedOnce(order, places, node);
    assert transfers[slot.from][slot.at] == TransferAt(places, Shared, slot.from, router[slot.from], slot.at);
    forall other: Slot |
      At(transfers, other) && FeedsShared(transfers[other.from][other.at], other.from, node, places)
      ensures other == slot
    {
      var target := router[other.from][other.at];
      assert transfers[other.from][other.at] == TransferAt(places, Shared, other.from, router[other.from], other.at);
      assert places[node].evals[0] in places[node].evals && places[target].evals[0] in places[target].evals;
      assert Fills(router, other, node);
    }
  }

  /** The nodes that only evaluate are spread over the senders with counts differing by at most
      one. */
  lemma SpreadEven(order: seq<Node>, places: map<Node, Placement>, i: nat, j: nat)
    requires Distinct(order) && (forall n | n in order :: n in places)
    requires i < |Senders(order, places)| && j < |Senders(order, places)|
    ensures var router, senders := Routes(order, places), Senders(order, places);
      |Listed(router, senders[i])| - |OwnPart(order, places, senders[i])|
      <= |Listed(router, senders[j])| - |OwnPart(order, places, senders[j])| + 1
  {
    RoutesShare(order, places, i);
    RoutesShare(order, places, j);
    ShareEven(OnlyEval(order, places), i, j, |Senders(order, places)|);
  }

  function OnNode(policies: seq<Policy>, nodeOf: map<Policy, Node>, node: Node): seq<Policy>
    requires forall p | p in policies :: p in nodeOf
  {
    if policies == [] then []
    else
      var last := policies[|policies| - 1];
      OnNode(policies[..|policies| - 1], nodeOf, node) + if nodeOf[last] == node then [last] else []
  }

  lemma {:induction false} OnNodeHas(policies: seq<Policy>, nodeOf: map<Policy, Node>, node: Node)
    requires forall p | p in policies :: p in nodeOf
    ensures forall p :: p in OnNode(policies, nodeOf, node) <==> p in policies && nodeOf[p] == node
    ensures Distinct(policies) ==> Distinct(OnNode(policies, nodeOf, node))
  {
    if policies != [] {
      var init := policies[..|policies| - 1];
      OnNodeHas(init, nodeOf, node);
      assert policies == init + [policies[|policies| - 1]];
    }
  }

  /** The policies of a node are listed in the given order. */
  lemma {:induction false} OnNodePicks(policies: seq<Policy>, nodeOf: map<Policy, Node>, node: Node,
                                       there: Policy -> bool)
    requires forall p | p in policies :: p in nodeOf && (there(p) <==> nodeOf[p] == node)
    ensures Picks(OnNode(policies, nodeOf, node), policies, there)
  {
    hide Picks;
    if policies == [] {
      PicksNone(there);
    } else {
      var init, last := policies[..|policies| - 1], policies[|policies| - 1];
      assert policies == init + [last];
      OnNodePicks(init, nodeOf, node, there);
      PicksSnoc(OnNode(init, nodeOf, node), init, there, last);
    }
  }

  function HeldOn(trains: seq<Policy>, evals: seq<Policy>, nodeOf: map<Policy, Node>, node: Node): Placement
    requires forall p | p in trains || p in evals :: p in nodeOf
  {
    Placement(OnNode(trains, nodeOf, node), OnNode(evals, nodeOf, node))
  }

  const NOBODY := Placement([], [])

  ghost predicate Listing(order: seq<Node>, nodes: set<Node>) {
    Distinct(order) && forall n :: n in order <==> n in nodes
  }

  /** The nodes seen so far hold exactly the policies seen so far. */
  ghost predicate Seated(order: seq<Node>, places: map<Node, Placement>, trains: seq<Policy>, evals: seq<Policy>,
                         nodeOf: map<Policy, Node>)
    requires forall p | p in trains || p in evals :: p in nodeOf
  {
    && Listing(order, places.Keys)
    && (forall n | n in places :: places[n] == HeldOn(trains, evals, nodeOf, n) != NOBODY)
    && (forall n | n !in places :: HeldOn(trains, evals, nodeOf, n) == NOBODY)
  }

  /** Some of the policies is on the node. */
  ghost predicate Hosts(policies: seq<Policy>, nodeOf: map<Policy, Node>, node: Node) {
    exists p :: p in policies && p in nodeOf && nodeOf[p] == node
  }

  /** The nodes are listed in the order in which their first policies come. */
  ghost predicate InOrder(order: seq<Node>, policies: seq<Policy>, nodeOf: map<Policy, Node>) {
    && (forall n :: n in order <==> Hosts(policies, nodeOf, n))
    && forall i, j, k | 0 <= i < j < |order| && 0 <= k <= |policies| && Hosts(policies[..k], nodeOf, order[j]) ::
         Hosts(policies[..k], nodeOf, order[i])
  }

  lemma InOrderNone(nodeOf: map<Policy, Node>)
    ensures InOrder([], [], nodeOf)
  {
  }

  lemma HostsSnoc(policies: seq<Policy>, p: Policy, nodeOf: map<Policy, Node>)
    requires p in nodeOf
    ensures forall n :: Hosts(policies + [p], nodeOf, n) <==> Hosts(policies, nodeOf, n) || n == nodeOf[p]
  {
    forall n ensures Hosts(policies + [p], nodeOf, n) <==> Hosts(policies, nodeOf, n) || n == nodeOf[p] {
      if Hosts(policies, nodeOf, n) {
        var q :| q in policies && q in nodeOf && nodeOf[q] == n;
        assert q in policies + [p];
      }
      assert p in policies + [p];
    }
  }

  lemma InOrderMore(order: seq<Node>, policies: seq<Policy>, nodeOf: map<Policy, Node>, p: Policy)
    requires InOrder(order, policies, nodeOf) && p in nodeOf
    ensures InOrder(if nodeOf[p] in order then order else order + [nodeOf[p]], policies + [p], nodeOf)
  {
    hide Hosts;
    var node, all := nodeOf[p], policies + [p];
    var after := if node in order then order else order + [node];
    HostsSnoc(policies, p, nodeOf);
    forall i, j, k | 0 <= i < j < |after| && 0 <= k <= |all| && Hosts(all[..k], nodeOf, after[j])
      ensures Hosts(all[..k], nodeOf, after[i])
    {
      assert after[i] == order[i] && order[i] in order;
      if k == |all| {
        assert all[..k] == all;
      } else {
        assert all[..k] == policies[..k];
        HostsPrefix(policies, k, nodeOf, after[j]);
      }
    }
  }

  lemma HostsPrefix(policies: seq<Policy>, k: nat, nodeOf: map<Policy, Node>, node: Node)
    requires k <= |policies| && Hosts(policies[..k], nodeOf, node)
    ensures Hosts(policies, nodeOf, node)
  {
    var p :| p in policies[..k] && p in nodeOf && nodeOf[p] == node;
    assert p in policies;
  }

  lemma ListingMore(order: seq<Node>, nodes: set<Node>, node: Node)
    requires Listing(order, nodes)
    ensures Listing(if node in nodes then order else order + [node], nodes + {node})
  {
  }

  /** One more policy on `node`. */
  lemma SeatedMore(order: seq<Node>, places: map<Node, Placement>, trains: seq<Policy>, evals: seq<Policy>,
                   trainsAfter: seq<Policy>, evalsAfter: seq<Policy>, nodeOf: map<Policy, Node>, node: Node)
    requires forall p | p in trains || p in evals || p in trainsAfter || p in evalsAfter :: p in nodeOf
    requires Seated(order, places, trains, evals, nodeOf)
    requires forall n | n != node :: HeldOn(trainsAfter, evalsAfter, nodeOf, n) == HeldOn(trains, evals, nodeOf, n)
    requires HeldOn(trainsAfter, evalsAfter, nodeOf, node) != NOBODY
    ensures Seated(if node in places then order else order + [node],
                   places[node := HeldOn(trainsAfter, evalsAfter, nodeOf, node)], trainsAfter, evalsAfter, nodeOf)
  {
    hide HeldOn, Listing;
    ListingMore(order, places.Keys, node);
    assert places[node := HeldOn(trainsAfter, evalsAfter, nodeOf, node)].Keys == places.Keys + {node};
  }

  lemma SeatedNone(nodeOf: map<Policy, Node>)
    ensures Seated([], map[], [], [], nodeOf)
  {
  }

  lemma OnNodeSnoc(policies: seq<Policy>, p: Policy, nodeOf: map<Policy, Node>)
    requires forall q | q in policies || q == p :: q in nodeOf
    ensures forall n ::
              OnNode(policies + [p], nodeOf, n) == OnNode(policies, nodeOf, n) + if nodeOf[p] == n then [p] else []
  {
    assert (policies + [p])[..|policies|] == policies;
  }

  /** A node is listed when its first policy is seen. */
  method Visit(order: seq<Node>, places: map<Node, Placement>, node: Node)
    returns (orderAfter: seq<Node>, placesAfter: map<Node, Placement>)
    ensures orderAfter == if node in places then order else order + [node]
    ensures placesAfter == if node in places then places else places[node := NOBODY]
  {
    orderAfter, placesAfter := order, places;
    if node !in places {
      orderAfter, placesAfter := order + [node], places[node := NOBODY];
    }
  }

  method SeatTrain(order: seq<Node>, places: map<Node, Placement>, p: Policy, nodeOf: map<Policy, Node>,
                   ghost trains: seq<Policy>)
    returns (orderAfter: seq<Node>, placesAfter: map<Node, Placement>)
    requires (forall q | q in trains || q == p :: q in nodeOf) && Seated(order, places, trains, [], nodeOf)
    requires InOrder(order, trains, nodeOf)
    ensures Seated(orderAfter, placesAfter, trains + [p], [], nodeOf)
    ensures InOrder(orderAfter, trains + [p], nodeOf)
  {
    hide OnNode, InOrder;
    InOrderMore(order, trains, nodeOf, p);
    var node := nodeOf[p];
    orderAfter, placesAfter := Visit(order, places, node);
    placesAfter := placesAfter[node := placesAfter[node].(trains := placesAfter[node].trains + [p])];
    OnNodeSnoc(trains, p, nodeOf);
    SeatedMore(order, places, trains, [], trains + [p], [], nodeOf, node);
  }

  method SeatEval(order: seq<Node>, places: map<Node, Placement>, p: Policy, nodeOf: map<Policy, Node>,
                  ghost trains: seq<Policy>, ghost evals: seq<Policy>)
    returns (orderAfter: seq<Node>, placesAfter: map<Node, Placement>)
    requires forall q | q in trains || q in evals || q == p :: q in nodeOf
    requires Seated(order, places, trains, evals, nodeOf) && InOrder(order, trains + evals, nodeOf)
    ensures Seated(orderAfter, placesAfter, trains, evals + [p], nodeOf)
    ensures InOrder(orderAfter, trains + (evals + [p]), nodeOf)
  {
    hide OnNode, InOrder;
    InOrderMore(order, trains + evals, nodeOf, p);
    assert trains + evals + [p] == trains + (evals + [p]);
    var node := nodeOf[p];
    orderAfter, placesAfter := Visit(order, places, node);
    placesAfter := placesAfter[node := placesAfter[node].(evals := placesAfter[node].evals + [p])];
    OnNodeSnoc(evals, p, nodeOf);
    SeatedMore(order, places, trains, evals, trains, evals + [p], nodeOf, node);
  }

  /** Seat every policy on its node, training policies first. */
  method InitPlacement(trains: seq<Policy>, evals: seq<Policy>, nodeOf: map<Policy, Node>)
    returns (order: seq<Node>, places: map<Node, Placement>)
    requires forall p | p in trains || p in evals :: p in nodeOf
    ensures Seated(order, places, trains, evals, nodeOf) && InOrder(order, trains + evals, nodeOf)
  {
    hide Seated, OnNode, InOrder;
    order, places := [], map[];
    SeatedNone(nodeOf);
    InOrderNone(nodeOf);
    assert trains[..0] == [] && evals[..0] == [];
    for i := 0 to |trains|
      invariant Seated(order, places, trains[..i], [], nodeOf) && InOrder(order, trains[..i], nodeOf)
    {
      order, places := SeatTrain(order, places, trains[i], nodeOf, trains[..i]);
      assert trains[..i] + [trains[i]] == trains[..i + 1];
    }
    assert trains[..|trains|] == trains && trains + evals[..0] == trains;
    for i := 0 to |evals|
      invariant Seated(order, places, trains, evals[..i], nodeOf) && InOrder(order, trains + evals[..i], nodeOf)
    {
      order, places := SeatEval(order, places, evals[i], nodeOf, trains, evals[..i]);
      assert evals[..i] + [evals[i]] == evals[..i + 1];
    }
    assert evals[..|evals|] == evals;
  }

  /** A placement of different evaluation policies is fit for planning. */
  lemma SeatedWell(order: seq<Node>, places: map<Node, Placement>, trains: seq<Policy>, evals: seq<Policy>,
                   nodeOf: map<Policy, Node>)
    requires (forall p | p in trains || p in evals :: p in nodeOf) && Distinct(evals)
    requires Seated(order, places, trains, evals, nodeOf)
    ensures WellPlaced(order, places)
    ensures forall p | p in evals :: nodeOf[p] in places && p in places[nodeOf[p]].evals
    ensures forall n, p | n in places && p in places[n].evals :: p in evals && nodeOf[p] == n
  {
    forall n | n in places
      ensures Distinct(places[n].evals) && forall p :: p in places[n].evals <==> p in evals && nodeOf[p] == n
    {
      OnNodeHas(evals, nodeOf, n);
    }
    forall p | p in evals ensures nodeOf[p] in places {
      OnNodeHas(evals, nodeOf, nodeOf[p]);
      assert p in OnNode(evals, nodeOf, nodeOf[p]);
    }
  }
}
