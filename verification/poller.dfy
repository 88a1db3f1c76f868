/**
  One poller of the drain phase. The queue service is replaced by a finite
  sequence of responses: the poller's k-th ReceiveMessage call is answered by
  the k-th response. If the sequence runs out before the poller stops, the
  run is `Pending`: the poller would go on calling.
 */
module Poller {
  import opened Queue

  /** How a poller's run ended. `Drained`: a call returned no messages.
      `Fatal`: a call returned an error, which ends the whole process.
      `Pending`: the given responses ran out while the poller was still calling. */
  datatype PollStatus = Pending | Drained | Fatal

  /** The calls a poller issued, the messages it appended to the shared
      collection (in order), and how it ended. */
  datatype PollRun = PollRun(requests: seq<ReceiveRequest>, appended: seq<Message>, status: PollStatus)

  /** The messages a response contributes; an error contributes none. */
  function MessagesOf(r: ReceiveResponse): seq<Message> {
    if r.Received? then r.messages else []
  }

  /** A response after which the poller makes no further call. */
  predicate Stops(r: ReceiveResponse) {
    r.ReceiveError? || |r.messages| == 0
  }

  /** Every message of the given responses, response after response. */
  function Delivered(rs: seq<ReceiveResponse>): seq<Message>
    decreases |rs|
  {
    if |rs| == 0 then [] else Delivered(rs[..|rs| - 1]) + MessagesOf(rs[|rs| - 1])
  }

  /** The request every call of the poller sends. */
  function Request(queueUrl: string): ReceiveRequest {
    ReceiveRequest(queueUrl, MaxMessage)
  }

  /** None of the first n responses stops the poller. */
  ghost predicate Continues(rs: seq<ReceiveResponse>, n: nat)
    requires n <= |rs|
  {
    forall i :: 0 <= i < n ==> !Stops(rs[i])
  }

  /** Every request is the poller's capped request for queueUrl. */
  ghost predicate Capped(requests: seq<ReceiveRequest>, queueUrl: string) {
    forall k :: 0 <= k < |requests| ==> requests[k] == Request(queueUrl)
  }

  /** `run` is what a poller does against the responses `rs`: it answers
      every non-stopping response with another call, stops right after the
      first stopping one, and appends exactly the messages of the responses
      it consumed. */
  ghost predicate IsPollRun(queueUrl: string, rs: seq<ReceiveResponse>, run: PollRun) {
    var n := |run.requests|;
    && n <= |rs|
    && Capped(run.requests, queueUrl)
    && run.appended == Delivered(rs[..n])
    && match run.status
       case Pending => n == |rs| && Continues(rs, n)
       case Drained => 0 < n && Continues(rs, n - 1) && rs[n - 1] == Received([])
       case Fatal => 0 < n && Continues(rs, n - 1) && rs[n - 1] == ReceiveError
  }

  lemma {:induction false} DeliveredAppend(rs: seq<ReceiveResponse>, r: ReceiveResponse)
    ensures Delivered(rs + [r]) == Delivered(rs) + MessagesOf(r)
  {
    assert (rs + [r])[..|rs|] == rs;
  }

  lemma {:induction false} DeliveredCons(r: ReceiveResponse, rs: seq<ReceiveResponse>)
    ensures Delivered([r] + rs) == MessagesOf(r) + Delivered(rs)
    decreases |rs|
  {
    if |rs| == 0 {
      assert [r] + rs == [] + [r];
      DeliveredAppend([], r);
    } else {
      var last := rs[|rs| - 1];
      var front := rs[..|rs| - 1];
      assert [r] + rs == ([r] + front) + [last];
      assert rs == front + [last];
      DeliveredAppend([r] + front, last);
      DeliveredAppend(front, last);
      DeliveredCons(r, front);
    }
  }

  /** A non-stopping response in front of a run extends it by one call and
      that response's messages. */
  lemma PollStep(queueUrl: string, r: ReceiveResponse, rs: seq<ReceiveResponse>, rest: PollRun)
    requires !Stops(r)
    requires IsPollRun(queueUrl, rs, rest)
    ensures IsPollRun(queueUrl, [r] + rs,
                      PollRun([Request(queueUrl)] + rest.requests, r.messages + rest.appended, rest.status))
  {
    var full := [r] + rs;
    var m := |rest.requests|;
    var run := PollRun([Request(queueUrl)] + rest.requests, r.messages + rest.appended, rest.status);
    assert full[..m + 1] == [r] + rs[..m];
    DeliveredCons(r, rs[..m]);
    assert Capped(run.requests, queueUrl);
    assert forall i :: 1 <= i < |full| ==> full[i] == rs[i - 1];
    if rest.status == Pending {
      assert Continues(full, m + 1);
    } else {
      assert Continues(full, m);
    }
  }

  /** The poller as a recursive function over the responses: the reference
      the imperative loop is checked against. */
  function Poll(queueUrl: string, rs: seq<ReceiveResponse>): (run: PollRun)
    ensures IsPollRun(queueUrl, rs, run)
    decreases |rs|
  {
    if |rs| == 0 then PollRun([], [], Pending)
    else if rs[0].ReceiveError? then PollRun([Request(queueUrl)], [], Fatal)
    else if |rs[0].messages| == 0 then PollRun([Request(queueUrl)], [], Drained)
    else
      var rest := Poll(queueUrl, rs[1..]);
      PollStep(queueUrl, rs[0], rs[1..], rest);
      assert [rs[0]] + rs[1..] == rs;
      PollRun([Request(queueUrl)] + rest.requests, rs[0].messages + rest.appended, rest.status)
  }

  /** Appends a batch to the collection message by message, as the poller
      does under the collection's lock. */
  method AppendBatch(collection: seq<Message>, batch: seq<Message>) returns (collection': seq<Message>)
    ensures collection' == collection + batch
  {
    collection' := collection;
    var j := 0;
    while j < |batch|
      invariant 0 <= j <= |batch|
      invariant collection' == collection + batch[..j]
    {
      collection' := collection' + [batch[j]];
      assert batch[..j + 1] == batch[..j] + [batch[j]];
      j := j + 1;
    }
    assert batch[..j] == batch;
  }

  /** The receive loop of one poller: each iteration issues a ReceiveMessage
      call for at most MaxMessage messages, stops the process on an error,
      appends the returned messages to the collection, and leaves the loop
      once the running total `curr` did not grow. */
  method FetchMessages(queueUrl: string, responses: seq<ReceiveResponse>, collection: seq<Message>)
    returns (run: PollRun, collection': seq<Message>)
    ensures IsPollRun(queueUrl, responses, run)
    ensures collection' == collection + run.appended
  {
    var curr := 0;
    var prev := 0;
    var requests: seq<ReceiveRequest> := [];
    var appended: seq<Message> := [];
    collection' := collection;
    var k := 0;
    while true
      invariant 0 <= k <= |responses|
      invariant |requests| == k
      invariant Capped(requests, queueUrl)
      invariant Continues(responses, k)
      invariant appended == Delivered(responses[..k])
      invariant curr == prev == |appended|
      invariant collection' == collection + appended
      decreases |responses| - k
    {
      if k == |responses| {
        run := PollRun(requests, appended, Pending);
        assert IsPollRun(queueUrl, responses, run) by {
          assert responses[..k] == responses;
        }
        return;
      }
      var response := responses[k];
      requests := requests + [Request(queueUrl)];
      k := k + 1;
      assert Delivered(responses[..k]) == appended + MessagesOf(response) by {
        assert responses[..k] == responses[..k - 1] + [response];
        DeliveredAppend(responses[..k - 1], response);
      }
      if response.ReceiveError? {
        run := PollRun(requests, appended, Fatal);
        assert IsPollRun(queueUrl, responses, run);
        return;
      }
      curr := curr + |response.messages|;
      collection' := AppendBatch(collection', response.messages);
      appended := appended + response.messages;
      if curr == prev {
        run := PollRun(requests, appended, Drained);
        assert IsPollRun(queueUrl, responses, run) by {
          assert response == Received([]);
        }
        return;
      }
      prev := curr;
    }
  }

  /** The behaviour the loop is held to leaves nothing open: two runs against
      the same responses are the same run. */
  lemma PollRunUnique(queueUrl: string, rs: seq<ReceiveResponse>, a: PollRun, b: PollRun)
    requires IsPollRun(queueUrl, rs, a)
    requires IsPollRun(queueUrl, rs, b)
    ensures a == b
  {
    assert |a.requests| == |b.requests|;
    assert a.requests == b.requests;
  }

  /** A response that respects the request's cap of MaxMessage messages. */
  predicate WithinCap(r: ReceiveResponse) {
    |MessagesOf(r)| <= MaxMessage
  }

  lemma {:induction false} DeliveredBounds(rs: seq<ReceiveResponse>)
    ensures (forall i :: 0 <= i < |rs| ==> WithinCap(rs[i])) ==> |Delivered(rs)| <= MaxMessage * |rs|
    ensures (forall i :: 0 <= i < |rs| ==> !Stops(rs[i])) ==> |Delivered(rs)| >= |rs|
    decreases |rs|
  {
    if |rs| != 0 {
      var front := rs[..|rs| - 1];
      DeliveredBounds(front);
      assert forall i :: 0 <= i < |front| ==> front[i] == rs[i];
    }
  }

  /** Every call but a stopping one delivers at least one message, and no call
      delivers more than it asked for when the service honours the cap: so
      a run of n calls that ended appended between n - 1 and
      MaxMessage * (n - 1) messages. */
  lemma AppendedBounds(queueUrl: string, rs: seq<ReceiveResponse>, run: PollRun)
    requires IsPollRun(queueUrl, rs, run)
    requires run.status != Pending
    ensures |run.appended| >= |run.requests| - 1
    ensures (forall i :: 0 <= i < |rs| ==> WithinCap(rs[i])) ==>
              |run.appended| <= MaxMessage * (|run.requests| - 1)
  {
    var n := |run.requests|;
    var front := rs[..n - 1];
    assert rs[..n] == front + [rs[n - 1]];
    DeliveredAppend(front, rs[n - 1]);
    assert MessagesOf(rs[n - 1]) == [];
    DeliveredBounds(front);
  }

  /** An error adds nothing to the collection: what a failed run appended is
      exactly what the calls before the failing one returned. */
  lemma FatalAppendsNothing(queueUrl: string, rs: seq<ReceiveResponse>, run: PollRun)
    requires IsPollRun(queueUrl, rs, run)
    requires run.status == Fatal
    ensures run.appended == Delivered(rs[..|run.requests| - 1])
  {
    var n := |run.requests|;
    assert rs[..n] == rs[..n - 1] + [rs[n - 1]];
    DeliveredAppend(rs[..n - 1], rs[n - 1]);
  }

  /** A first response with no messages ends the poller after one call: the
      loop does not wait for a second empty response. */
  lemma FirstEmptyResponseStops(queueUrl: string, rs: seq<ReceiveResponse>)
    requires 0 < |rs| && rs[0] == Received([])
    ensures Poll(queueUrl, rs) == PollRun([Request(queueUrl)], [], Drained)
  {
  }

  /** Batches of 10, 10 and 3 messages followed by two empty ones: the poller
      makes four calls, appends the 23 messages in order, and never consumes
      the fifth response. */
  lemma TenTenThreeScenario(queueUrl: string, b1: seq<Message>, b2: seq<Message>, b3: seq<Message>)
    requires |b1| == 10 && |b2| == 10 && |b3| == 3
    ensures var run := Poll(queueUrl, [Received(b1), Received(b2), Received(b3), Received([]), Received([])]);
            && |run.requests| == 4
            && run.appended == b1 + b2 + b3
            && |run.appended| == 23
            && run.status == Drained
  {
    var r := Request(queueUrl);
    var rs := [Received(b1), Received(b2), Received(b3), Received([]), Received([])];
    var expected := PollRun([r, r, r, r], b1 + b2 + b3, Drained);
    assert Delivered(rs[..4]) == b1 + b2 + b3 by {
      assert rs[..4] == [Received(b1), Received(b2), Received(b3)] + [Received([])];
      DeliveredAppend([Received(b1), Received(b2), Received(b3)], Received([]));
      assert [Received(b1), Received(b2), Received(b3)] == [Received(b1), Received(b2)] + [Received(b3)];
      DeliveredAppend([Received(b1), Received(b2)], Received(b3));
      assert [Received(b1), Received(b2)] == [Received(b1)] + [Received(b2)];
      DeliveredAppend([Received(b1)], Received(b2));
      assert [Received(b1)] == [] + [Received(b1)];
      DeliveredAppend([], Received(b1));
    }
    assert Continues(rs, 3);
    assert Capped(expected.requests, queueUrl);
    assert IsPollRun(queueUrl, rs, expected);
    PollRunUnique(queueUrl, rs, Poll(queueUrl, rs), expected);
  }
}
