/** The batching half of both mix nodes (`messageBuffer`, `dispatchMessages`): accepted
    messages wait in a buffer; one dispatch drains the whole buffer into a batch, shuffles the
    batch in place and forwards every message of it to the hop it is addressed to. The
    scheduler that calls the dispatch every five seconds is not part of this model: one call is
    one dispatch. */
module MixEngines {
  import opened Wrappers
  import opened Keys
  import opened Messages
  import opened Peers
  import opened Nodes

  // ---------------------------------------------------------------------------------------
  // The shuffle of `java.util.Collections.shuffle` on a random-access list: for i from the
  // size down to 2, swap position i-1 with a position drawn uniformly from [0, i).
  // `draws[k]` is the value returned by the k-th call of `nextInt`.
  // ---------------------------------------------------------------------------------------

  /** What the random source can return: one draw per swap, the k-th below `n - k`. */
  predicate ValidDraws(n: nat, draws: seq<int>) {
    |draws| == (if n <= 1 then 0 else n - 1) &&
    forall k | 0 <= k < |draws| :: 0 <= draws[k] < n - k
  }

  function Swap<T>(s: seq<T>, i: nat, j: nat): (r: seq<T>)
    requires i < |s| && j < |s|
    ensures |r| == |s| && r[i] == s[j] && r[j] == s[i]
    ensures forall k | 0 <= k < |s| && k != i && k != j :: r[k] == s[k]
  {
    s[i := s[j]][j := s[i]]
  }

  /** The list after the swaps for positions i-1 down to 1 are applied to `s`. */
  function ShuffleFrom<T>(s: seq<T>, draws: seq<int>, i: nat): seq<T>
    requires i <= |s| && ValidDraws(|s|, draws)
    decreases i
  {
    if i <= 1 then s else ShuffleFrom(Swap(s, i - 1, draws[|s| - i]), draws, i - 1)
  }

  function Shuffled<T>(s: seq<T>, draws: seq<int>): seq<T>
    requires ValidDraws(|s|, draws)
  {
    ShuffleFrom(s, draws, |s|)
  }

  lemma SwapPermutes<T>(s: seq<T>, i: nat, j: nat)
    requires i < |s| && j < |s|
    ensures multiset(Swap(s, i, j)) == multiset(s)
  {
    var t := s[i := s[j]];
    assert multiset(t) == multiset(s) - multiset{s[i]} + multiset{s[j]};
    if i != j {
      assert t[j] == s[j];
    }
  }

  /** The shuffle only reorders: every draw sequence the random source can produce yields a
      permutation of the list. */
  lemma {:induction false} ShuffleFromPermutes<T>(s: seq<T>, draws: seq<int>, i: nat)
    requires i <= |s| && ValidDraws(|s|, draws)
    ensures |ShuffleFrom(s, draws, i)| == |s|
    ensures multiset(ShuffleFrom(s, draws, i)) == multiset(s)
    decreases i
  {
    if i > 1 {
      var t := Swap(s, i - 1, draws[|s| - i]);
      SwapPermutes(s, i - 1, draws[|s| - i]);
      ShuffleFromPermutes(t, draws, i - 1);
    }
  }

  lemma ShuffledPermutes<T>(s: seq<T>, draws: seq<int>)
    requires ValidDraws(|s|, draws)
    ensures |Shuffled(s, draws)| == |s|
    ensures multiset(Shuffled(s, draws)) == multiset(s)
  {
    ShuffleFromPermutes(s, draws, |s|);
  }

  /** `Collections.shuffle(batch)`, in place on the batch: the swaps for positions
      `size - 1` down to 1, each with the position drawn for it. */
  method ShuffleBatch<T>(a: array<T>, draws: seq<int>)
    requires ValidDraws(a.Length, draws)
    modifies a
    ensures a[..] == Shuffled(old(a[..]), draws)
  {
    var i := a.Length;
    while i > 1
      invariant 0 <= i <= a.Length
      invariant ShuffleFrom(a[..], draws, i) == Shuffled(old(a[..]), draws)
      decreases i
    {
      SwapElements(a, i - 1, draws[a.Length - i]);
      i := i - 1;
    }
  }

  /** `Collections.swap`. */
  method SwapElements<T>(a: array<T>, i: nat, j: nat)
    requires i < a.Length && j < a.Length
    modifies a
    ensures a[..] == Swap(old(a[..]), i, j)
  {
    a[i], a[j] := a[j], a[i];
  }

  // ---------------------------------------------------------------------------------------
  // What a dispatch writes to the network.
  // ---------------------------------------------------------------------------------------

  /** The states of a sequence of messages, in order. */
  ghost function States(ms: seq<Message>): (r: seq<MessageState>)
    reads ms
    ensures |r| == |ms| && forall i | 0 <= i < |ms| :: r[i] == ms[i].State()
  {
    seq(|ms|, i requires 0 <= i < |ms| reads ms => ms[i].State())
  }

  predicate AllInRange(ss: seq<MessageState>) {
    forall i | 0 <= i < |ss| :: ss[i].IndexInRange()
  }

  /** What forwarding one message writes: the message, to the hop it is addressed to, when
      that hop can be reached. */
  function ForwardOne(s: MessageState, reachable: set<NodeId>): seq<Transmission>
    requires s.IndexInRange()
  {
    if s.CurrentHop() in reachable then [Transmission(s.CurrentHop(), s)] else []
  }

  /** What forwarding a batch in order writes. */
  function Forwarded(ss: seq<MessageState>, reachable: set<NodeId>): seq<Transmission>
    requires AllInRange(ss)
  {
    if |ss| == 0 then [] else Forwarded(ss[..|ss| - 1], reachable) + ForwardOne(ss[|ss| - 1], reachable)
  }

  /** How often a transmission occurs in a forwarded batch: as often as its message occurs in
      the batch when it goes to that message's current hop and the hop is reachable, and
      never otherwise. */
  lemma {:induction false} ForwardedCount(ss: seq<MessageState>, reachable: set<NodeId>, t: Transmission)
    requires AllInRange(ss)
    ensures multiset(Forwarded(ss, reachable))[t] ==
              if t.message.IndexInRange() && t.to == t.message.CurrentHop() && t.to in reachable
              then multiset(ss)[t.message] else 0
  {
    if |ss| > 0 {
      var init, last := ss[..|ss| - 1], ss[|ss| - 1];
      assert ss == init + [last];
      ForwardedCount(init, reachable, t);
      assert multiset(Forwarded(ss, reachable)) == multiset(Forwarded(init, reachable)) + multiset(ForwardOne(last, reachable));
    }
  }

  /** The order of a batch decides only the order of the transmissions, not which ones are
      made: two batches holding the same messages forward the same multiset. */
  lemma ForwardedOrderFree(ss: seq<MessageState>, ts: seq<MessageState>, reachable: set<NodeId>)
    requires AllInRange(ss) && AllInRange(ts) && multiset(ss) == multiset(ts)
    ensures multiset(Forwarded(ss, reachable)) == multiset(Forwarded(ts, reachable))
  {
    forall t: Transmission
      ensures multiset(Forwarded(ss, reachable))[t] == multiset(Forwarded(ts, reachable))[t]
    {
      ForwardedCount(ss, reachable, t);
      ForwardedCount(ts, reachable, t);
    }
  }

  /** When every hop can be reached, each message of the batch is forwarded exactly once, in
      batch order, to the hop it is addressed to. */
  lemma {:induction false} ForwardedAllReachable(ss: seq<MessageState>, reachable: set<NodeId>)
    requires AllInRange(ss)
    requires forall i | 0 <= i < |ss| :: ss[i].CurrentHop() in reachable
    ensures |Forwarded(ss, reachable)| == |ss|
    ensures forall i | 0 <= i < |ss| :: Forwarded(ss, reachable)[i] == Transmission(ss[i].CurrentHop(), ss[i])
  {
    if |ss| > 0 {
      ForwardedAllReachable(ss[..|ss| - 1], reachable);
    }
  }

  /** Forwarding one more message of a batch appends what forwarding that message writes. */
  lemma ForwardedStep(sent: seq<Transmission>, ss: seq<MessageState>, i: nat, reachable: set<NodeId>)
    requires AllInRange(ss) && i < |ss|
    ensures Forwarded(ss[..i + 1], reachable) == Forwarded(ss[..i], reachable) + ForwardOne(ss[i], reachable)
    ensures sent + Forwarded(ss[..i + 1], reachable) == sent + Forwarded(ss[..i], reachable) + ForwardOne(ss[i], reachable)
  {
    assert ss[..i + 1][..i] == ss[..i];
  }

  // ---------------------------------------------------------------------------------------
  // The buffer.
  // ---------------------------------------------------------------------------------------

  class MixEngine {
    var messageBuffer: seq<Message>

    /** Every buffered message is addressed to a hop of its route, so the dispatch can look
        that hop up. */
    ghost predicate Valid()
      reads this, messageBuffer
    {
      AllInRange(States(messageBuffer))
    }

    constructor ()
      ensures Valid() && messageBuffer == []
    {
      messageBuffer := [];
    }

    /** `messageBuffer.put(message)`: an unbounded queue, so the message is appended. */
    method Put(message: Message)
      requires Valid() && message.State().IndexInRange()
      modifies this
      ensures Valid() && messageBuffer == old(messageBuffer) + [message]
    {
      messageBuffer := messageBuffer + [message];
      assert States(messageBuffer) == old(States(messageBuffer)) + [message.State()];
    }

    /** `messageBuffer.drainTo(batch)`: every buffered message moves, in queue order, into a
        new list and the buffer is left empty. */
    method DrainTo() returns (batch: array<Message>)
      modifies this
      ensures fresh(batch) && batch[..] == old(messageBuffer) && messageBuffer == []
    {
      var drained := messageBuffer;
      batch := new Message[|drained|](i requires 0 <= i < |drained| => drained[i]);
      messageBuffer := [];
    }

    /** The batch of a dispatch: the drained buffer, shuffled in place with the given draws;
        its messages are the buffer's, still addressed within their routes. */
    method DrainShuffled(draws: seq<int>) returns (batch: seq<Message>)
      requires Valid() && ValidDraws(|messageBuffer|, draws)
      modifies this
      ensures batch == Shuffled(old(messageBuffer), draws) && messageBuffer == []
      ensures multiset(batch) == multiset(old(messageBuffer))
      ensures States(batch) == Shuffled(old(States(messageBuffer)), draws)
      ensures AllInRange(States(batch))
    {
      ShuffledBatch(messageBuffer, draws);
      var a := DrainTo();
      ShuffleBatch(a, draws);
      batch := a[..];
      StatesUnchanged(batch);
    }

    /** `dispatchMessages`: nothing to do for an empty buffer; otherwise the whole buffer is
        drained into a batch, the batch is shuffled with the given draws, and every message of
        it is sent through `node` to `fullPath[currentHopIndex]`. What is written is exactly
        the forwarding of the batch to the targets reachable when the dispatch began. */
    method Dispatch(node: NodeBase, draws: seq<int>, net: set<Endpoint>) returns (batch: seq<Message>)
      requires Valid() && node.Valid()
      requires ValidDraws(|messageBuffer|, draws)
      modifies this, node, node.peers, node.peers.activePeers.Values
      ensures messageBuffer == []
      ensures Valid() && node.Valid()
      ensures batch == Shuffled(old(messageBuffer), draws)
      ensures AllInRange(Shuffled(old(States(messageBuffer)), draws))
      ensures node.sent == old(node.sent) + Forwarded(Shuffled(old(States(messageBuffer)), draws), old(node.ReachableTargets(net)))
      ensures old(messageBuffer) == [] ==> unchanged(node, node.peers)
      ensures forall t :: node.CanReach(t, net) == old(node.CanReach(t, net))
      ensures forall p: Peer | p in node.peers.activePeers.Values :: p in old(node.peers.activePeers.Values) || fresh(p)
      ensures forall p: Peer | p in old(node.peers.activePeers.Values) :: p.connected == old(p.connected)
    {
      ghost var reachable := node.ReachableTargets(net);
      if |messageBuffer| == 0 {
        batch := [];
        return;
      }
      ghost var before := States(messageBuffer);
      assert forall t :: node.CanReach(t, net) == (t in reachable);
      batch := DrainShuffled(draws);
      ForwardBatch(node, batch, Shuffled(before, draws), reachable, net);
    }
  }

  /** The send loop of `dispatchMessages`: every message of the batch, in batch order, goes
      to `fullPath[currentHopIndex]` through `sendMessageToNode`. */
  method ForwardBatch(node: NodeBase, batch: seq<Message>, ghost states: seq<MessageState>,
                      ghost reachable: set<NodeId>, net: set<Endpoint>)
    requires node.Valid() && States(batch) == states && AllInRange(states)
    requires forall t :: node.CanReach(t, net) == (t in reachable)
    modifies node, node.peers, node.peers.activePeers.Values
    ensures node.Valid()
    ensures node.sent == old(node.sent) + Forwarded(states, reachable)
    ensures forall t :: node.CanReach(t, net) == (t in reachable)
    ensures forall p: Peer | p in node.peers.activePeers.Values :: p in old(node.peers.activePeers.Values) || fresh(p)
    ensures forall p: Peer | p in old(node.peers.activePeers.Values) :: p.connected == old(p.connected)
  {
    for i := 0 to |batch|
      invariant node.Valid()
      invariant forall t :: node.CanReach(t, net) == (t in reachable)
      invariant forall p: Peer | p in node.peers.activePeers.Values :: p in old(node.peers.activePeers.Values) || fresh(p)
      invariant forall p: Peer | old(allocated(p)) :: p.connected == old(p.connected)
      invariant node.sent == old(node.sent) + Forwarded(states[..i], reachable)
    {
      assert batch[i].State() == states[i];
      ForwardedStep(old(node.sent), states, i, reachable);
      ForwardMessage(node, batch[i], reachable, net);
    }
    assert states[..|batch|] == states;
  }

  /** One turn of the send loop: the message goes to `fullPath[currentHopIndex]` through
      `sendMessageToNode`, which writes it when that hop can be reached. */
  method ForwardMessage(node: NodeBase, message: Message, ghost reachable: set<NodeId>, net: set<Endpoint>)
    requires node.Valid() && message.State().IndexInRange()
    requires forall t :: node.CanReach(t, net) == (t in reachable)
    modifies node, node.peers, node.peers.activePeers.Values
    ensures node.Valid()
    ensures forall t :: node.CanReach(t, net) == (t in reachable)
    ensures forall p: Peer | p in node.peers.activePeers.Values :: p in old(node.peers.activePeers.Values) || fresh(p)
    ensures forall p: Peer | old(allocated(p)) :: p.connected == old(p.connected)
    ensures node.sent == old(node.sent) + ForwardOne(message.State(), reachable)
  {
    var nextHopId := message.fullPath[message.currentHopIndex];
    node.SendMessageToNode(nextHopId, message, net);
  }

  /** The shuffle changes only the order of what a dispatch writes: the messages of a shuffled
      buffer are still addressed within their routes, and forwarding them writes the same
      transmissions, as many times each, as forwarding the buffer in its own order. */
  lemma ShuffleOnlyReorders(ss: seq<MessageState>, draws: seq<int>, reachable: set<NodeId>)
    requires ValidDraws(|ss|, draws) && AllInRange(ss)
    ensures AllInRange(Shuffled(ss, draws))
    ensures multiset(Forwarded(Shuffled(ss, draws), reachable)) == multiset(Forwarded(ss, reachable))
  {
    ShuffledPermutes(ss, draws);
    PermutationInRange(ss, Shuffled(ss, draws));
    ForwardedOrderFree(Shuffled(ss, draws), ss, reachable);
  }

  /** Shuffling a buffer keeps its messages, shuffles their states the same way, and keeps
      them addressed within their routes. */
  lemma ShuffledBatch(ms: seq<Message>, draws: seq<int>)
    requires ValidDraws(|ms|, draws) && AllInRange(States(ms))
    ensures multiset(Shuffled(ms, draws)) == multiset(ms)
    ensures forall i | 0 <= i < |Shuffled(ms, draws)| :: Shuffled(ms, draws)[i] in ms
    ensures States(Shuffled(ms, draws)) == Shuffled(States(ms), draws)
    ensures AllInRange(Shuffled(States(ms), draws))
  {
    var before := States(ms);
    ShuffledPermutes(before, draws);
    PermutationInRange(before, Shuffled(before, draws));
    StatesShuffled(ms, draws);
    var shuffled := Shuffled(ms, draws);
    ShuffledPermutes(ms, draws);
    forall i | 0 <= i < |shuffled|
      ensures shuffled[i] in ms
    {
      assert shuffled[i] in multiset(shuffled);
    }
  }

  /** Shuffling messages shuffles their states the same way. */
  lemma {:induction false} StatesShuffleFrom(ms: seq<Message>, draws: seq<int>, i: nat)
    requires i <= |ms| && ValidDraws(|ms|, draws)
    ensures States(ShuffleFrom(ms, draws, i)) == ShuffleFrom(States(ms), draws, i)
    decreases i
  {
    if i > 1 {
      var j := draws[|ms| - i];
      assert States(Swap(ms, i - 1, j)) == Swap(States(ms), i - 1, j);
      StatesShuffleFrom(Swap(ms, i - 1, j), draws, i - 1);
    }
  }

  lemma StatesShuffled(ms: seq<Message>, draws: seq<int>)
    requires ValidDraws(|ms|, draws)
    ensures States(Shuffled(ms, draws)) == Shuffled(States(ms), draws)
  {
    StatesShuffleFrom(ms, draws, |ms|);
  }

  /** A reordering of messages addressed within their routes is addressed within them too. */
  lemma PermutationInRange(ss: seq<MessageState>, ts: seq<MessageState>)
    requires AllInRange(ss) && multiset(ss) == multiset(ts)
    ensures AllInRange(ts)
  {
    forall i | 0 <= i < |ts|
      ensures ts[i].IndexInRange()
    {
      assert ts[i] in multiset(ts);
      assert ts[i] in ss;
      var j :| 0 <= j < |ss| && ss[j] == ts[i];
    }
  }

  /** Messages a step did not touch keep their states. */
  twostate lemma StatesUnchanged(ms: seq<Message>)
    requires forall i | 0 <= i < |ms| :: old(allocated(ms[i])) && unchanged(ms[i])
    ensures States(ms) == old(States(ms))
  {
  }
}
