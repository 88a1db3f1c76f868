/**
  The hand-offs between workers, with the scheduling abstracted away. In the
  purge phase a single producer streams the collection into a channel and
  every message is taken by exactly one consumer; which one is left open,
  as an arbitrary assignment `owner` (owner[i] is the consumer of the i-th
  message). The receive phase is the mirror image: the shared collection is
  an interleaving of the pollers' appends, again described by an owner per
  position.
 */
module Handoff {
  import opened Queue
  import opened Batching
  import opened Consumer
  import opened Poller

  /** What passes through the purge channel: an item, or the close that ends
      the stream. */
  datatype ChannelEvent<T> = Send(item: T) | Close

  /** The items a channel carries before it is closed. */
  function Payload<T>(events: seq<ChannelEvent<T>>): seq<T>
    decreases |events|
  {
    if |events| == 0 || events[0].Close? then [] else [events[0].item] + Payload(events[1..])
  }

  /** The producer: sends every message of the collection once, in
      collection order, then closes the channel. */
  method PurgeProducer(messages: seq<Message>) returns (events: seq<ChannelEvent<Message>>)
    ensures |events| == |messages| + 1
    ensures forall i :: 0 <= i < |messages| ==> events[i] == Send(messages[i])
    ensures events[|messages|] == Close
  {
    events := [];
    var i := 0;
    while i < |messages|
      invariant 0 <= i <= |messages|
      invariant |events| == i
      invariant forall j :: 0 <= j < i ==> events[j] == Send(messages[j])
    {
      events := events + [Send(messages[i])];
      i := i + 1;
    }
    events := events + [Close];
  }

  /** A stream shaped like the producer's carries exactly the collection:
      the consumers between them see every message, once, in order. */
  lemma {:induction false} ProducedStreamCarries<T>(events: seq<ChannelEvent<T>>, items: seq<T>)
    requires |events| == |items| + 1
    requires forall i :: 0 <= i < |items| ==> events[i] == Send(items[i])
    requires events[|items|] == Close
    ensures Payload(events) == items
    decreases |items|
  {
    if |items| != 0 {
      ProducedStreamCarries(events[1..], items[1..]);
      assert items == [items[0]] + items[1..];
    }
  }

  /** `owner` assigns each of `len` positions to one of `n` workers. */
  ghost predicate Assigns(owner: seq<nat>, n: nat, len: nat) {
    |owner| == len && forall i :: 0 <= i < len ==> owner[i] < n
  }

  /** The items assigned to worker c, in their original order. */
  function Portion<T>(items: seq<T>, owner: seq<nat>, c: nat): seq<T>
    requires |owner| == |items|
    decreases |items|
  {
    if |items| == 0 then []
    else
      var last := |items| - 1;
      Portion(items[..last], owner[..last], c) + (if owner[last] == c then [items[last]] else [])
  }

  /** The portions of workers 0 .. n-1. */
  function Portions<T>(items: seq<T>, owner: seq<nat>, n: nat): seq<seq<T>>
    requires |owner| == |items|
  {
    seq(n, c requires 0 <= c < n => Portion(items, owner, c))
  }

  lemma {:induction false} FlattenGrowOne<T>(ps: seq<seq<T>>, qs: seq<seq<T>>, o: nat, x: T)
    requires |ps| == |qs| && o < |ps|
    requires qs[o] == ps[o] + [x]
    requires forall c :: 0 <= c < |ps| && c != o ==> qs[c] == ps[c]
    ensures multiset(Flatten(qs)) == multiset(Flatten(ps)) + multiset{x}
    decreases |ps|
  {
    if o == 0 {
      assert qs[1..] == ps[1..];
    } else {
      FlattenGrowOne(ps[1..], qs[1..], o - 1, x);
    }
  }

  /** Adding one item to the end grows exactly its owner's portion, by that item. */
  lemma PortionsGrow<T>(items: seq<T>, owner: seq<nat>, n: nat)
    requires Assigns(owner, n, |items|) && 0 < |items|
    ensures var last := |items| - 1;
            var ps, qs := Portions(items[..last], owner[..last], n), Portions(items, owner, n);
            && |ps| == |qs| == n
            && qs[owner[last]] == ps[owner[last]] + [items[last]]
            && forall c :: 0 <= c < n && c != owner[last] ==> qs[c] == ps[c]
  {
  }

  lemma PortionsStep<T>(items: seq<T>, owner: seq<nat>, n: nat)
    requires Assigns(owner, n, |items|) && 0 < |items|
    ensures var last := |items| - 1;
            multiset(Flatten(Portions(items, owner, n)))
            == multiset(Flatten(Portions(items[..last], owner[..last], n))) + multiset{items[last]}
  {
    var last := |items| - 1;
    PortionsGrow(items, owner, n);
    FlattenGrowOne(Portions(items[..last], owner[..last], n), Portions(items, owner, n), owner[last], items[last]);
  }

  /** No items, so every portion is empty. */
  lemma PortionsOfNothing<T>(items: seq<T>, owner: seq<nat>, n: nat)
    requires |items| == 0 && |owner| == 0
    ensures Flatten(Portions(items, owner, n)) == []
  {
    var ps := Portions(items, owner, n);
    assert forall c :: 0 <= c < n ==> ps[c] == [];
    FlattenEmpties(ps);
  }

  lemma {:induction false} PortionsPartitionMultiset<T>(items: seq<T>, owner: seq<nat>, n: nat)
    requires Assigns(owner, n, |items|)
    ensures multiset(Flatten(Portions(items, owner, n))) == multiset(items)
    decreases |items|
  {
    if |items| == 0 {
      PortionsOfNothing(items, owner, n);
    } else {
      var last := |items| - 1;
      PortionsPartitionMultiset(items[..last], owner[..last], n);
      PortionsStep(items, owner, n);
      MultisetSnoc(items);
    }
  }

  /** Under any assignment, the portions together hold every item exactly
      once: nothing is lost and nothing is duplicated. */
  lemma PortionsPartition<T>(items: seq<T>, owner: seq<nat>, n: nat)
    requires Assigns(owner, n, |items|)
    ensures multiset(Flatten(Portions(items, owner, n))) == multiset(items)
    ensures |Flatten(Portions(items, owner, n))| == |items|
  {
    var all := Flatten(Portions(items, owner, n));
    PortionsPartitionMultiset(items, owner, n);
    assert |multiset(all)| == |all|;
  }

  lemma MultisetSnoc<T>(s: seq<T>)
    requires 0 < |s|
    ensures multiset(s) == multiset(s[..|s| - 1]) + multiset{s[|s| - 1]}
  {
    assert s == s[..|s| - 1] + [s[|s| - 1]];
  }

  lemma {:induction false} FlattenEmpties<T>(ps: seq<seq<T>>)
    requires forall c :: 0 <= c < |ps| ==> ps[c] == []
    ensures Flatten(ps) == []
    decreases |ps|
  {
    if |ps| != 0 {
      FlattenEmpties(ps[1..]);
    }
  }

  /** The collection after the receive phase: when every poller's appends
      appear in it in that poller's order, interleaved in any way, its length
      is the sum of what the pollers appended and it holds exactly their
      messages. */
  /** The messages each poller run appended, poller by poller. */
  function AppendedBy(runs: seq<PollRun>): seq<seq<Message>> {
    seq(|runs|, p requires 0 <= p < |runs| => runs[p].appended)
  }

  lemma MergedCollection(queueUrl: string, responses: seq<seq<ReceiveResponse>>, runs: seq<PollRun>,
                         merged: seq<Message>, owner: seq<nat>)
    requires |runs| == |responses|
    requires forall p :: 0 <= p < |runs| ==> IsPollRun(queueUrl, responses[p], runs[p])
    requires Assigns(owner, |runs|, |merged|)
    requires Portions(merged, owner, |runs|) == AppendedBy(runs)
    ensures forall p :: 0 <= p < |runs| ==>
              && |runs[p].requests| <= |responses[p]|
              && Portion(merged, owner, p) == Delivered(responses[p][..|runs[p].requests|])
    ensures |merged| == |Flatten(AppendedBy(runs))|
    ensures multiset(merged) == multiset(Flatten(AppendedBy(runs)))
  {
    forall p | 0 <= p < |runs|
      ensures |runs[p].requests| <= |responses[p]|
      ensures Portion(merged, owner, p) == Delivered(responses[p][..|runs[p].requests|])
    {
      assert IsPollRun(queueUrl, responses[p], runs[p]);
      assert Portions(merged, owner, |runs|)[p] == AppendedBy(runs)[p];
    }
    PortionsPartition(merged, owner, |runs|);
  }

  lemma {:induction false} EntriesOfPortion(items: seq<Message>, owner: seq<nat>, c: nat)
    requires |owner| == |items|
    ensures EntriesFor(Portion(items, owner, c)) == Portion(EntriesFor(items), owner, c)
    decreases |items|
  {
    if |items| != 0 {
      var last := |items| - 1;
      EntriesOfPortion(items[..last], owner[..last], c);
      assert EntriesFor(items)[..last] == EntriesFor(items[..last]);
    }
  }

  /** The entries built by consumers 0 .. n-1 from their portions. */
  function ConsumerEntries(messages: seq<Message>, owner: seq<nat>, n: nat): seq<seq<DeleteEntry>>
    requires |owner| == |messages|
  {
    seq(n, c requires 0 <= c < n => EntriesFor(Portion(messages, owner, c)))
  }

  /** Every message of the collection yields exactly one delete entry across
      all consumers, whichever consumer took it: the entries total the
      collection's length. */
  lemma PurgeEntriesPartition(messages: seq<Message>, owner: seq<nat>, n: nat)
    requires Assigns(owner, n, |messages|)
    ensures multiset(Flatten(ConsumerEntries(messages, owner, n))) == multiset(EntriesFor(messages))
    ensures |Flatten(ConsumerEntries(messages, owner, n))| == |messages|
  {
    forall c | 0 <= c < n
      ensures ConsumerEntries(messages, owner, n)[c] == Portions(EntriesFor(messages), owner, n)[c]
    {
      EntriesOfPortion(messages, owner, c);
    }
    assert ConsumerEntries(messages, owner, n) == Portions(EntriesFor(messages), owner, n);
    PortionsPartition(EntriesFor(messages), owner, n);
  }

  /** The delete calls consumers with the given entry lists make when no
      call fails. */
  function TotalCalls<T>(parts: seq<seq<T>>): nat
    decreases |parts|
  {
    if |parts| == 0 then 0 else CeilDiv(|parts[0]|, MaxMessage) + TotalCalls(parts[1..])
  }

  lemma CeilDivSum(a: nat, b: nat)
    ensures CeilDiv(a + b, MaxMessage) <= CeilDiv(a, MaxMessage) + CeilDiv(b, MaxMessage)
    ensures CeilDiv(a, MaxMessage) + CeilDiv(b, MaxMessage) <= CeilDiv(a + b, MaxMessage) + 1
  {
  }

  /** Splitting the entries among consumers never saves a call, and costs at
      most one extra call per consumer beyond the first. */
  lemma {:induction false} TotalCallsBounds<T>(parts: seq<seq<T>>)
    ensures CeilDiv(|Flatten(parts)|, MaxMessage) <= TotalCalls(parts)
    ensures 0 < |parts| ==> TotalCalls(parts) <= CeilDiv(|Flatten(parts)|, MaxMessage) + |parts| - 1
    decreases |parts|
  {
    if |parts| != 0 {
      TotalCallsBounds(parts[1..]);
      CeilDivSum(|parts[0]|, |Flatten(parts[1..])|);
    }
  }

  /** The entry lists of the given consumer runs, consumer by consumer. */
  function DeleteBatches(runs: seq<ConsumerRun>): seq<seq<DeleteEntry>> {
    seq(|runs|, c requires 0 <= c < |runs| => runs[c].deleteBatch)
  }

  /** The delete calls the given consumer runs made, in all. */
  function CallCount(runs: seq<ConsumerRun>): nat
    decreases |runs|
  {
    if |runs| == 0 then 0 else |runs[0].calls| + CallCount(runs[1..])
  }

  /** A purge phase: consumer c took its portion of the collection and ran
      against its own failing calls `failing[c]`. */
  ghost predicate IsPurgeRun(messages: seq<Message>, owner: seq<nat>, failing: seq<set<nat>>, runs: seq<ConsumerRun>)
    requires |owner| == |messages|
  {
    && |runs| == |failing|
    && forall c :: 0 <= c < |runs| ==> IsConsumerRun(Portion(messages, owner, c), failing[c], runs[c])
  }

  lemma {:induction false} CallCountPurged(runs: seq<ConsumerRun>)
    requires forall c :: 0 <= c < |runs| ==> |runs[c].calls| == CeilDiv(|runs[c].deleteBatch|, MaxMessage)
    ensures CallCount(runs) == TotalCalls(DeleteBatches(runs))
    decreases |runs|
  {
    if |runs| != 0 {
      assert DeleteBatches(runs)[1..] == DeleteBatches(runs[1..]);
      CallCountPurged(runs[1..]);
    }
  }

  /** A purge phase in which no consumer failed sends exactly the calls its
      entry lists need: at least ceil(total / 10), and at most one extra call
      for each consumer beyond the first. */
  lemma PurgeRunCalls(messages: seq<Message>, owner: seq<nat>, failing: seq<set<nat>>, runs: seq<ConsumerRun>)
    requires Assigns(owner, |failing|, |messages|)
    requires IsPurgeRun(messages, owner, failing, runs)
    requires forall c :: 0 <= c < |runs| ==> runs[c].status == Purged
    ensures DeleteBatches(runs) == ConsumerEntries(messages, owner, |failing|)
    ensures CallCount(runs) == TotalCalls(ConsumerEntries(messages, owner, |failing|))
    ensures CeilDiv(|messages|, MaxMessage) <= CallCount(runs)
    ensures 0 < |runs| ==> CallCount(runs) <= CeilDiv(|messages|, MaxMessage) + |runs| - 1
  {
    assert DeleteBatches(runs) == ConsumerEntries(messages, owner, |failing|) by {
      assert forall c :: 0 <= c < |runs| ==>
        DeleteBatches(runs)[c] == ConsumerEntries(messages, owner, |failing|)[c];
    }
    forall c | 0 <= c < |runs|
      ensures |runs[c].calls| == CeilDiv(|runs[c].deleteBatch|, MaxMessage)
    {
      assert IsConsumerRun(Portion(messages, owner, c), failing[c], runs[c]);
    }
    CallCountPurged(runs);
    PurgeEntriesPartition(messages, owner, |failing|);
    TotalCallsBounds(ConsumerEntries(messages, owner, |failing|));
  }

  /** 25 messages shared between 2 consumers whose calls all succeed,
      however the channel hands them out: 25 entries in all, sent in 3 or 4
      calls. */
  lemma TwentyFiveOverTwoScenario(messages: seq<Message>, owner: seq<nat>, runs: seq<ConsumerRun>)
    requires |messages| == 25
    requires Assigns(owner, 2, 25)
    requires IsPurgeRun(messages, owner, [{}, {}], runs)
    ensures |Flatten(DeleteBatches(runs))| == 25
    ensures 3 <= CallCount(runs) <= 4
  {
    assert IsConsumerRun(Portion(messages, owner, 0), {}, runs[0]);
    assert IsConsumerRun(Portion(messages, owner, 1), {}, runs[1]);
    PurgeRunCalls(messages, owner, [{}, {}], runs);
    PurgeEntriesPartition(messages, owner, 2);
  }

  /** The purge phase with consumers run one after another: consumer c takes
      its portion of the producer's stream and purges it against its own
      failing calls. */
  method PurgeAll(messages: seq<Message>, owner: seq<nat>, failing: seq<set<nat>>)
    returns (runs: seq<ConsumerRun>)
    requires Assigns(owner, |failing|, |messages|)
    ensures IsPurgeRun(messages, owner, failing, runs)
    ensures DeleteBatches(runs) == ConsumerEntries(messages, owner, |failing|)
    ensures forall c :: 0 <= c < |runs| && runs[c].status == Purged ==>
              Flatten(runs[c].calls) == runs[c].deleteBatch
    // a consumer whose calls all succeed purges its whole portion
    ensures forall c :: 0 <= c < |runs| && c < |failing| && failing[c] == {} ==> runs[c].status == Purged
  {
    var events := PurgeProducer(messages);
    ProducedStreamCarries(events, messages);
    var stream := Payload(events);
    runs := [];
    var c := 0;
    while c < |failing|
      invariant 0 <= c <= |failing|
      invariant |runs| == c
      invariant forall d :: 0 <= d < c ==> IsConsumerRun(Portion(messages, owner, d), failing[d], runs[d])
      invariant forall d :: 0 <= d < c && runs[d].status == Purged ==>
                  Flatten(runs[d].calls) == runs[d].deleteBatch
    {
      var run := PurgeConsumer(Portion(stream, owner, c), failing[c]);
      runs := runs + [run];
      c := c + 1;
    }
    assert DeleteBatches(runs) == ConsumerEntries(messages, owner, |failing|) by {
      assert forall d :: 0 <= d < |runs| ==>
        DeleteBatches(runs)[d] == ConsumerEntries(messages, owner, |failing|)[d];
    }
  }
}
