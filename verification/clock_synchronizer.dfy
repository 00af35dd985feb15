/** Synchronising the nodes' clocks with the master's (orchestrator/clock_sync.go). */
module ClockSynchronizers {
  import opened Arithmetic
  import opened Orders
  import opened ClockSync

  class SimulationNode {
    const id: Id

    constructor (id: Id)
      ensures this.id == id
    {
      this.id := id;
    }
  }

  // ---- What one synchronisation works on ----

  predicate AllAnswered(replies: seq<Reply>) {
    forall r | r in replies :: r.Answered?
  }

  function Samples(id: Id, replies: seq<Reply>): (r: seq<NodeTime>)
    requires AllAnswered(replies)
    ensures |r| == |replies|
  {
    seq(|replies|, i requires 0 <= i < |replies| =>
      NodeTime(id, replies[i].requestTime, replies[i].timestamp, replies[i].responseTime))
  }

  /** The best samples of the first `n` nodes; the master is not asked. */
  ghost predicate Kept(nodes: seq<SimulationNode>, master: SimulationNode?, replies: seq<seq<Reply>>, n: nat,
                       keeps: seq<seq<NodeTime>>)
    requires |replies| == |nodes| && n <= |nodes|
  {
    |keeps| == n && forall i | 0 <= i < n :: KeptOf(nodes[i], master, replies[i], keeps[i])
  }

  ghost predicate KeptOf(node: SimulationNode, master: SimulationNode?, replies: seq<Reply>, kept: seq<NodeTime>) {
    if node == master then kept == [] else AllAnswered(replies) && Best(kept, Samples(node.id, replies))
  }

  function Concat(keeps: seq<seq<NodeTime>>): seq<NodeTime> {
    if keeps == [] then [] else Concat(keeps[..|keeps| - 1]) + keeps[|keeps| - 1]
  }

  function OfNode(samples: seq<NodeTime>, id: Id): seq<NodeTime> {
    if samples == [] then []
    else
      var last := samples[|samples| - 1];
      OfNode(samples[..|samples| - 1], id) + if last.nodeId == id then [last] else []
  }

  lemma {:induction false} OfNodeConcat(a: seq<NodeTime>, b: seq<NodeTime>, id: Id)
    ensures OfNode(a + b, id) == OfNode(a, id) + OfNode(b, id)
  {
    if b == [] {
      assert a + b == a;
    } else {
      assert (a + b)[..|a + b| - 1] == a + b[..|b| - 1];
      OfNodeConcat(a, b[..|b| - 1], id);
    }
  }

  lemma {:induction false} OfNodeAll(samples: seq<NodeTime>, owner: Id, id: Id)
    requires forall s | s in samples :: s.nodeId == owner
    ensures OfNode(samples, id) == if owner == id then samples else []
  {
    if samples != [] {
      OfNodeAll(samples[..|samples| - 1], owner, id);
      assert samples == samples[..|samples| - 1] + [samples[|samples| - 1]];
    }
  }

  lemma BestIsOfNode(kept: seq<NodeTime>, id: Id, replies: seq<Reply>)
    requires AllAnswered(replies) && Best(kept, Samples(id, replies))
    ensures forall s | s in kept :: s.nodeId == id
    ensures |kept| == if |replies| > SAMPLES_KEPT then SAMPLES_KEPT else |replies|
  {
    var samples := Samples(id, replies);
    var sorted :| multiset(sorted) == multiset(samples) && ByRoundTrip(sorted)
                  && kept == if |sorted| > SAMPLES_KEPT then sorted[..SAMPLES_KEPT] else sorted;
    assert |sorted| == |multiset(sorted)| == |multiset(samples)| == |samples|;
    forall s | s in kept ensures s.nodeId == id {
      assert s in sorted && s in multiset(sorted);
    }
  }

  lemma KeptSamples(node: SimulationNode, master: SimulationNode?, replies: seq<Reply>, kept: seq<NodeTime>, id: Id)
    requires KeptOf(node, master, replies, kept)
    ensures OfNode(kept, id) == if node != master && node.id == id then kept else []
    ensures node != master && |replies| > 0 ==> kept != []
  {
    hide Best, Samples;
    if node != master {
      BestIsOfNode(kept, node.id, replies);
      OfNodeAll(kept, node.id, id);
    }
  }

  predicate Polled(nodes: seq<SimulationNode>, master: SimulationNode?, id: Id) {
    exists node :: node in nodes && node != master && node.id == id
  }

  lemma OneMorePolled(nodes: seq<SimulationNode>, master: SimulationNode?, n: nat, id: Id)
    requires 0 < n <= |nodes|
    ensures Polled(nodes[..n], master, id) <==>
      Polled(nodes[..n - 1], master, id) || (nodes[n - 1] != master && nodes[n - 1].id == id)
  {
  }

  /** Exactly the polled nodes have samples. */
  lemma {:induction false} PolledHaveSamples(nodes: seq<SimulationNode>, master: SimulationNode?,
                                             replies: seq<seq<Reply>>, n: nat, keeps: seq<seq<NodeTime>>, id: Id)
    requires |replies| == |nodes| && n <= |nodes| && Kept(nodes, master, replies, n, keeps)
    requires forall r | r in replies :: |r| == SAMPLES_PER_NODE
    ensures OfNode(Concat(keeps), id) != [] <==> Polled(nodes[..n], master, id)
  {
    if n > 0 {
      hide KeptOf, OfNode, Polled;
      var node, kept := nodes[n - 1], keeps[n - 1];
      PolledHaveSamples(nodes, master, replies, n - 1, keeps[..n - 1], id);
      OfNodeConcat(Concat(keeps[..n - 1]), kept, id);
      KeptSamples(node, master, replies[n - 1], kept, id);
      assert |replies[n - 1]| == SAMPLES_PER_NODE;
      OneMorePolled(nodes, master, n, id);
    }
  }

  /** A node whose id no other polled node has is settled by its own samples alone. */
  lemma {:induction false} SoleNode(nodes: seq<SimulationNode>, master: SimulationNode?, replies: seq<seq<Reply>>,
                                    n: nat, keeps: seq<seq<NodeTime>>, i: nat)
    requires |replies| == |nodes| && i < n <= |nodes| && Kept(nodes, master, replies, n, keeps)
    requires nodes[i] != master
    requires forall j | 0 <= j < n && j != i && nodes[j] != master :: nodes[j].id != nodes[i].id
    ensures OfNode(Concat(keeps), nodes[i].id) == keeps[i]
    decreases n
  {
    hide KeptOf, OfNode;
    var id, node, kept := nodes[i].id, nodes[n - 1], keeps[n - 1];
    OfNodeConcat(Concat(keeps[..n - 1]), kept, id);
    KeptSamples(node, master, replies[n - 1], kept, id);
    if i < n - 1 {
      SoleNode(nodes, master, replies, n - 1, keeps[..n - 1], i);
    } else {
      NoOther(nodes, master, replies, n - 1, keeps[..n - 1], id);
    }
  }

  lemma {:induction false} NoOther(nodes: seq<SimulationNode>, master: SimulationNode?, replies: seq<seq<Reply>>,
                                   n: nat, keeps: seq<seq<NodeTime>>, id: Id)
    requires |replies| == |nodes| && n <= |nodes| && Kept(nodes, master, replies, n, keeps)
    requires forall j | 0 <= j < n && nodes[j] != master :: nodes[j].id != id
    ensures OfNode(Concat(keeps), id) == []
  {
    if n > 0 {
      hide KeptOf, OfNode;
      var node, kept := nodes[n - 1], keeps[n - 1];
      NoOther(nodes, master, replies, n - 1, keeps[..n - 1], id);
      OfNodeConcat(Concat(keeps[..n - 1]), kept, id);
      KeptSamples(node, master, replies[n - 1], kept, id);
    }
  }

  /** The offsets after a synchronisation that met no error. */
  ghost predicate Synchronized(before: map<Id, int>, after: map<Id, int>, nodes: seq<SimulationNode>,
                               master: SimulationNode?, keeps: seq<seq<NodeTime>>, masterReply: Reply)
    requires masterReply.Answered?
  {
    && (forall id :: id in after <==> id in before || Polled(nodes, master, id))
    && (forall id | id in after :: if Polled(nodes, master, id)
          then Median(after[id], OffsetsOf(OfNode(Concat(keeps), id), masterReply.timestamp, masterReply.responseTime))
          else id in before && after[id] == before[id])
  }

  /** The node's clock is `lead` ahead, every answer was read within its request, and two of the five round trips
      are no longer than `bound`. */
  ghost predicate Measured(id: Id, replies: seq<Reply>, lead: int, bound: int) {
    && |replies| == SAMPLES_PER_NODE && AllAnswered(replies)
    && (forall s | s in Samples(id, replies) :: Taken(s, lead))
    && exists a, b | 0 <= a < b < SAMPLES_PER_NODE ::
         Samples(id, replies)[a].RoundTrip() <= bound && Samples(id, replies)[b].RoundTrip() <= bound
  }

  /** No other polled node goes by this one's id. */
  predicate Sole(nodes: seq<SimulationNode>, master: SimulationNode?, i: nat)
    requires i < |nodes|
  {
    nodes[i] != master && forall j | 0 <= j < |nodes| && j != i && nodes[j] != master :: nodes[j].id != nodes[i].id
  }

  ghost predicate MasterMeasured(masterReply: Reply, masterLead: int) {
    && masterReply.Answered?
    && MasterTaken(masterReply.timestamp, masterReply.responseTime,
                   masterReply.responseTime - masterReply.requestTime, masterLead)
  }

  /** After a synchronisation, each node's offset is within the second-shortest of its round trips. */
  lemma SynchronizedIsClose(before: map<Id, int>, after: map<Id, int>, nodes: seq<SimulationNode>,
                            master: SimulationNode?, replies: seq<seq<Reply>>, keeps: seq<seq<NodeTime>>,
                            masterReply: Reply, masterLead: int, i: nat, lead: int, bound: int)
    requires |replies| == |nodes| && Kept(nodes, master, replies, |nodes|, keeps)
    requires MasterMeasured(masterReply, masterLead)
    requires Synchronized(before, after, nodes, master, keeps, masterReply)
    requires i < |nodes| && Sole(nodes, master, i) && Measured(nodes[i].id, replies[i], lead, bound)
    ensures nodes[i].id in after
    ensures Close(after[nodes[i].id], masterLead - lead, bound, masterReply.responseTime - masterReply.requestTime)
  {
    hide Best, Median, OffsetsOf, OfNode;
    var id, samples := nodes[i].id, Samples(nodes[i].id, replies[i]);
    assert nodes[i] in nodes;
    SoleNode(nodes, master, replies, |nodes|, keeps, i);
    assert KeptOf(nodes[i], master, replies[i], keeps[i]);
    assert Settled(after[id], samples, masterReply.timestamp, masterReply.responseTime);
    var a: nat, b: nat :| a < b < SAMPLES_PER_NODE && samples[a].RoundTrip() <= bound &&
        samples[b].RoundTrip() <= bound;
    SettledIsClose(after[id], samples, lead, a, b, bound, masterReply.timestamp, masterReply.responseTime,
                   masterReply.responseTime - masterReply.requestTime, masterLead);
  }

  /** The offset in force for a node: none until it has been synchronised. */
  function OffsetIn(offsets: map<Id, int>, id: Id): int {
    if id in offsets then offsets[id] else 0
  }

  function Adjusted(offsets: map<Id, int>, id: Id, timestamp: int): int {
    timestamp + OffsetIn(offsets, id)
  }

  /** After a synchronisation, timestamps of two nodes compare as their events happened whenever the events are
      further apart than the two errors can be. */
  lemma SynchronizedKeepsOrder(before: map<Id, int>, after: map<Id, int>, nodes: seq<SimulationNode>,
                               master: SimulationNode?, replies: seq<seq<Reply>>, keeps: seq<seq<NodeTime>>,
                               masterReply: Reply, masterLead: int, i: nat, leadI: int, boundI: int,
                               j: nat, leadJ: int, boundJ: int, first: int, second: int)
    requires |replies| == |nodes| && Kept(nodes, master, replies, |nodes|, keeps)
    requires MasterMeasured(masterReply, masterLead)
    requires Synchronized(before, after, nodes, master, keeps, masterReply)
    requires i < |nodes| && Sole(nodes, master, i) && Measured(nodes[i].id, replies[i], leadI, boundI)
    requires j < |nodes| && Sole(nodes, master, j) && Measured(nodes[j].id, replies[j], leadJ, boundJ)
    requires second - first > Half(boundI) + (boundJ - Half(boundJ))
        + (masterReply.responseTime - masterReply.requestTime)
    ensures Adjusted(after, nodes[i].id, first + leadI) < Adjusted(after, nodes[j].id, second + leadJ)
  {
    hide Kept, Synchronized, Measured, MasterTaken;
    SynchronizedIsClose(before, after, nodes, master, replies, keeps, masterReply, masterLead, i, leadI, boundI);
    SynchronizedIsClose(before, after, nodes, master, replies, keeps, masterReply, masterLead, j, leadJ, boundJ);
    AdjustedKeepsOrder(first, second, leadI, leadJ, masterLead, after[nodes[i].id], after[nodes[j].id],
                       boundI, boundJ, masterReply.responseTime - masterReply.requestTime);
  }

  /** The master is not asked and has no offset, so its timestamps stay as they are; after a synchronisation those of a
      polled node compare with them as the events happened, whenever the events are further apart than the node's
      error can be in that direction. */
  lemma MasterKeepsOrder(before: map<Id, int>, after: map<Id, int>, nodes: seq<SimulationNode>,
                         master: SimulationNode?, replies: seq<seq<Reply>>, keeps: seq<seq<NodeTime>>,
                         masterReply: Reply, masterLead: int, j: nat, lead: int, bound: int, atMaster: int, atNode: int)
    requires |replies| == |nodes| && Kept(nodes, master, replies, |nodes|, keeps)
    requires master != null && master.id !in before && !Polled(nodes, master, master.id)
    requires MasterMeasured(masterReply, masterLead)
    requires Synchronized(before, after, nodes, master, keeps, masterReply)
    requires j < |nodes| && Sole(nodes, master, j) && Measured(nodes[j].id, replies[j], lead, bound)
    ensures Adjusted(after, master.id, atMaster + masterLead) == atMaster + masterLead
    ensures atNode - atMaster > (bound - Half(bound)) + (masterReply.responseTime - masterReply.requestTime) ==>
      atMaster + masterLead < Adjusted(after, nodes[j].id, atNode + lead)
    ensures atMaster - atNode > Half(bound) ==>
      Adjusted(after, nodes[j].id, atNode + lead) < atMaster + masterLead
  {
    hide Kept, Measured, MasterTaken, Median, Polled;
    SynchronizedIsClose(before, after, nodes, master, replies, keeps, masterReply, masterLead, j, lead, bound);
  }

  // ---- The synchroniser ----

  class ClockSynchronizer {
    const nodes: seq<SimulationNode>
    var offsets: map<Id, int>
    var masterNode: SimulationNode?

    constructor (nodes: seq<SimulationNode>)
      ensures this.nodes == nodes && offsets == map[]
      ensures masterNode == if |nodes| > 0 then nodes[0] else null
    {
      this.nodes := nodes;
      offsets := map[];
      masterNode := if |nodes| > 0 then nodes[0] else null;
    }

    method SetMasterNode(node: SimulationNode?)
      modifies this`masterNode
      ensures masterNode == node
    {
      masterNode := node;
    }

    method GetNodeOffset(id: Id) returns (offset: int)
      ensures offset == if id in offsets then offsets[id] else 0
    {
      if id !in offsets {
        return 0;
      }
      offset := offsets[id];
    }

    method AdjustTimestamp(id: Id, timestamp: int) returns (adjusted: int)
      ensures adjusted == Adjusted(offsets, id, timestamp)
      ensures id !in offsets ==> adjusted == timestamp
      ensures id in offsets ==> adjusted == timestamp + offsets[id]
    {
      var offset := GetNodeOffset(id);
      adjusted := timestamp + offset;
    }

    /** Asks every node but the master five times and keeps its three quickest answers; then the master once. Any
        error leaves all offsets as they were. */
    method SynchronizeClocks(replies: seq<seq<Reply>>, masterReply: Reply)
      returns (ok: bool, ghost keeps: seq<seq<NodeTime>>)
      requires |replies| == |nodes| && forall r | r in replies :: |r| == SAMPLES_PER_NODE
      modifies this`offsets
      ensures ok <==> masterNode != null && masterReply.Answered?
                      && forall i | 0 <= i < |nodes| && nodes[i] != masterNode :: AllAnswered(replies[i])
      ensures !ok ==> offsets == old(offsets)
      ensures ok ==> Kept(nodes, masterNode, replies, |nodes|, keeps)
                     && Synchronized(old(offsets), offsets, nodes, masterNode, keeps, masterReply)
    {
      hide Best, Median, OffsetsOf, OfNode, Samples, AllAnswered, Polled;
      keeps := [];
      if masterNode == null {
        return false, keeps;
      }
      var allSamples: seq<NodeTime> := [];
      var i := 0;
      while i < |nodes|
        invariant i <= |nodes| && Kept(nodes, masterNode, replies, i, keeps)
        invariant allSamples == Concat(keeps)
        invariant forall j | 0 <= j < i && nodes[j] != masterNode :: AllAnswered(replies[j])
        invariant offsets == old(offsets)
      {
        var kept := [];
        if nodes[i] != masterNode {
          var answered, samples := Ask(nodes[i].id, replies[i]);
          if !answered {
            return false, keeps;
          }
          kept := Quickest(samples);
        }
        allSamples := allSamples + kept;
        assert (keeps + [kept])[..i] == keeps;
        keeps := keeps + [kept];
        i := i + 1;
      }
      if masterReply.Failed? {
        return false, keeps;
      }
      var nodeOffsets := Grouped(allSamples, masterReply.timestamp, masterReply.responseTime);
      forall id ensures id in nodeOffsets <==> Polled(nodes, masterNode, id) {
        PolledHaveSamples(nodes, masterNode, replies, |nodes|, keeps, id);
        assert nodes[..|nodes|] == nodes;
      }
      Settle(nodeOffsets);
      ok := true;
    }

    /** Sets the offset of every id to the median of its samples. */
    method Settle(nodeOffsets: map<Id, seq<int>>)
      requires forall id | id in nodeOffsets :: nodeOffsets[id] != []
      modifies this`offsets
      ensures forall id :: id in offsets <==> id in old(offsets) || id in nodeOffsets
      ensures forall id | id in nodeOffsets :: Median(offsets[id], nodeOffsets[id])
      ensures forall id | id in old(offsets) && id !in nodeOffsets :: offsets[id] == old(offsets)[id]
    {
      hide Median;
      var rest := nodeOffsets.Keys;
      while rest != {}
        invariant rest <= nodeOffsets.Keys
        invariant forall id :: id in offsets <==> id in old(offsets) || (id in nodeOffsets && id !in rest)
        invariant forall id | id in nodeOffsets && id !in rest :: Median(offsets[id], nodeOffsets[id])
        invariant forall id | id in old(offsets) && id !in nodeOffsets :: offsets[id] == old(offsets)[id]
        decreases |rest|
      {
        var id :| id in rest;
        var median := MedianOf(nodeOffsets[id]);
        offsets := offsets[id := median];
        rest := rest - {id};
      }
    }
  }

  method MedianOf(values: seq<int>) returns (median: int)
    requires values != []
    ensures Median(median, values)
  {
    var sorted := SortedBy(values, Itself);
    median := sorted[|sorted| / 2];
  }

  /** The quickest samples. */
  method Quickest(samples: seq<NodeTime>) returns (kept: seq<NodeTime>)
    ensures Best(kept, samples)
  {
    var sorted := SortedBy(samples, RoundTripOf);
    kept := if |sorted| > SAMPLES_KEPT then sorted[..SAMPLES_KEPT] else sorted;
  }

  /** The samples of one node, or nothing at the first error. */
  method Ask(id: Id, replies: seq<Reply>) returns (answered: bool, samples: seq<NodeTime>)
    ensures answered <==> AllAnswered(replies)
    ensures answered ==> samples == Samples(id, replies)
  {
    samples := [];
    var i := 0;
    while i < |replies|
      invariant i <= |replies| && AllAnswered(replies[..i]) && samples == Samples(id, replies[..i])
    {
      if replies[i].Failed? {
        assert replies[i] in replies;
        return false, [];
      }
      samples := samples + [NodeTime(id, replies[i].requestTime, replies[i].timestamp, replies[i].responseTime)];
      i := i + 1;
    }
    assert replies[..i] == replies;
    answered := true;
  }

  /** The offsets of the samples, per node, in the order of the samples. */
  method Grouped(samples: seq<NodeTime>, masterTimestamp: int, masterTime: int) returns (offsets: map<Id, seq<int>>)
    ensures forall id :: id in offsets <==> OfNode(samples, id) != []
    ensures forall id | id in offsets :: offsets[id] == OffsetsOf(OfNode(samples, id), masterTimestamp, masterTime)
  {
    offsets := map[];
    var i := 0;
    while i < |samples|
      invariant i <= |samples|
      invariant forall id :: id in offsets <==> OfNode(samples[..i], id) != []
      invariant forall id | id in offsets ::
          offsets[id] == OffsetsOf(OfNode(samples[..i], id), masterTimestamp, masterTime)
    {
      var sample := samples[i];
      var offset := OffsetOf(sample, masterTimestamp, masterTime);
      assert samples[..i + 1][..i] == samples[..i];
      var earlier := if sample.nodeId in offsets then offsets[sample.nodeId] else [];
      assert earlier == OffsetsOf(OfNode(samples[..i], sample.nodeId), masterTimestamp, masterTime);
      offsets := offsets[sample.nodeId := earlier + [offset]];
      i := i + 1;
    }
    assert samples[..i] == samples;
  }
}
