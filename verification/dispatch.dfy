/** `send_single_message` and `send_batch_message`: the two entry points that
    check the credential, build the provider payloads and send them through
    `send_with_retry`.

    A run is described by its outcome together with every POST it made (the
    envelope of each attempt, in order) and every sleep it performed. */
module Dispatch {
  import opened Outcomes
  import opened Text
  import opened Chunking
  import opened Recipients
  import opened Retry

  /** `ZEPTO_BATCH_LIMIT`. */
  const BatchLimit: nat := 500
  const TeamKey: string := "team"

  /** The network seen by a batch run: for each batch index (from 1), the
      outcomes of that batch request's attempts. */
  type Network = nat -> Responder

  /** The JSON body of a POST, without the constant template key and
      from-address. */
  datatype Envelope =
    | SingleEnvelope(fromName: string, addressees: seq<Address>, mergeInfo: map<string, string>)
    | BatchEnvelope(fromName: string, recipients: seq<Recipient>)

  /** The dictionary `send_batch_message` returns. */
  datatype BatchResult = BatchResult(total: nat, sent: nat, failedBatches: seq<nat>)

  /** What an entry point returns or raises, with the POSTs and sleeps it
      performed on the way. */
  datatype Run<T> = Run(outcome: Result<T>, posts: seq<Envelope>, sleeps: seq<nat>)

  /** The running totals of the batch loop. */
  datatype Tally = Tally(sent: nat, failedBatches: seq<nat>, posts: seq<Envelope>, sleeps: seq<nat>)

  /** `not API_KEY`: the variable is unset or empty. */
  predicate CredentialMissing(apiKey: Option<string>)
  {
    apiKey.None? || apiKey.value == ""
  }

  function Repeat<T>(x: T, n: nat): (r: seq<T>)
    ensures |r| == n
    ensures forall i :: 0 <= i < n ==> r[i] == x
  {
    seq(n, _ => x)
  }

  /** Batch `b`'s request returned a response instead of raising. */
  predicate BatchDelivered(net: Network, b: nat)
  {
    SendWithRetry(net(b)).delivered
  }

  predicate StrictlyIncreasing(xs: seq<nat>)
  {
    forall i, j :: 0 <= i < j < |xs| ==> xs[i] < xs[j]
  }

  /** Putting a smaller element in front keeps a sequence increasing. */
  lemma PrependIncreasing(put: bool, x: nat, xs: seq<nat>)
    requires StrictlyIncreasing(xs)
    requires forall i :: 0 <= i < |xs| ==> x < xs[i]
    ensures StrictlyIncreasing((if put then [x] else []) + xs)
  {
    var ys := (if put then [x] else []) + xs;
    if !put {
      assert ys == xs;
      return;
    }
    forall i, j | 0 <= i < j < |ys|
      ensures ys[i] < ys[j]
    {
      assert ys[j] == xs[j - 1];
      if i > 0 {
        assert ys[i] == xs[i - 1];
      }
    }
  }

  /** An increasing sequence holds a value at most once. */
  lemma IncreasingNoRepeat(xs: seq<nat>, c: nat)
    requires StrictlyIncreasing(xs)
    ensures (forall i :: 0 <= i < |xs| ==> xs[i] == c) ==> |xs| <= 1
  {
    if |xs| >= 2 {
      assert xs[0] < xs[1];
    }
  }

  /** Total size of the chunks whose batch index is not listed in `failed`,
      the first chunk having index `first`. */
  function SizeOutside(chunks: seq<seq<Recipient>>, failed: seq<nat>, first: nat): nat
    decreases |chunks|
  {
    if chunks == [] then 0
    else (if first in failed then 0 else |chunks[0]|) + SizeOutside(chunks[1..], failed, first + 1)
  }

  /** The sizes counted depend only on which indices from `first` on are
      listed. */
  lemma {:induction false} SizeOutsideAgree(chunks: seq<seq<Recipient>>, f: seq<nat>, g: seq<nat>, first: nat)
    requires forall j :: first <= j ==> (j in f <==> j in g)
    ensures SizeOutside(chunks, f, first) == SizeOutside(chunks, g, first)
    decreases |chunks|
  {
    if chunks != [] {
      SizeOutsideAgree(chunks[1..], f, g, first + 1);
    }
  }

  /** The loop of `send_batch_message` over the chunks, the first of which has
      batch index `index`: every chunk is sent, a chunk whose retries are
      exhausted is recorded by index and does not stop the loop, and `sent`
      counts exactly the recipients of the chunks not recorded as failed. */
  function SendChunks(net: Network, team: string, chunks: seq<seq<Recipient>>, index: nat): (t: Tally)
    ensures StrictlyIncreasing(t.failedBatches)
    ensures forall i :: 0 <= i < |t.failedBatches| ==> index <= t.failedBatches[i] < index + |chunks|
    ensures t.sent == SizeOutside(chunks, t.failedBatches, index)
    decreases |chunks|
  {
    if chunks == [] then Tally(0, [], [], [])
    else
      var run := SendWithRetry(net(index));
      var rest := SendChunks(net, team, chunks[1..], index + 1);
      var failed := (if run.delivered then [] else [index]) + rest.failedBatches;
      var sent := (if run.delivered then |chunks[0]| else 0) + rest.sent;
      PrependIncreasing(!run.delivered, index, rest.failedBatches);
      SizeOutsideAgree(chunks[1..], failed, rest.failedBatches, index + 1);
      assert sent == SizeOutside(chunks, failed, index);
      Tally(
        sent,
        failed,
        Repeat(BatchEnvelope(team, chunks[0]), run.attempts) + rest.posts,
        run.sleeps + rest.sleeps)
  }

  /** A batch is listed as failed exactly when its request raised. */
  lemma {:induction false} SendChunksFailures(net: Network, team: string, chunks: seq<seq<Recipient>>, index: nat)
    ensures forall b :: index <= b < index + |chunks| ==>
      (b in SendChunks(net, team, chunks, index).failedBatches <==> !BatchDelivered(net, b))
    decreases |chunks|
  {
    if chunks != [] {
      SendChunksFailures(net, team, chunks[1..], index + 1);
      var t, rest := SendChunks(net, team, chunks, index), SendChunks(net, team, chunks[1..], index + 1);
      var own: seq<nat> := if BatchDelivered(net, index) then [] else [index];
      assert t.failedBatches == own + rest.failedBatches;
      assert index !in rest.failedBatches;
      forall b | index <= b < index + |chunks|
        ensures b in t.failedBatches <==> !BatchDelivered(net, b)
      {
        assert b in t.failedBatches <==> b in own || b in rest.failedBatches;
      }
    }
  }

  /** The POSTs of each batch, the first having batch index `index`: the
      batch's envelope, once per attempt its retry loop makes. */
  function BatchPosts(net: Network, team: string, chunks: seq<seq<Recipient>>, index: nat): (posts: seq<seq<Envelope>>)
    ensures |posts| == |chunks|
    ensures forall k :: 0 <= k < |chunks| ==>
      && |posts[k]| == SendWithRetry(net(index + k)).attempts
      && 1 <= |posts[k]| <= MaxRetries
      && (forall p :: p in posts[k] ==> p == BatchEnvelope(team, chunks[k]))
  {
    seq(|chunks|, k requires 0 <= k < |chunks| =>
      Repeat(BatchEnvelope(team, chunks[k]), SendWithRetry(net(index + k)).attempts))
  }

  /** The sleeps of each batch's retry loop. */
  function BatchSleeps(net: Network, chunks: seq<seq<Recipient>>, index: nat): (sleeps: seq<seq<nat>>)
    ensures |sleeps| == |chunks|
    ensures forall k :: 0 <= k < |chunks| ==>
      && |sleeps[k]| == SendWithRetry(net(index + k)).attempts - 1
      && (forall i :: 0 <= i < |sleeps[k]| ==> sleeps[k][i] == Pow(RetryBackoff, i + 1))
  {
    seq(|chunks|, k requires 0 <= k < |chunks| => SendWithRetry(net(index + k)).sleeps)
  }

  /** Dropping the first batch shifts the per-batch POSTs by one index. */
  lemma BatchPostsTail(net: Network, team: string, chunks: seq<seq<Recipient>>, index: nat)
    requires chunks != []
    ensures BatchPosts(net, team, chunks, index)[1..] == BatchPosts(net, team, chunks[1..], index + 1)
  {
    var p, q := BatchPosts(net, team, chunks, index), BatchPosts(net, team, chunks[1..], index + 1);
    forall k | 0 <= k < |q|
      ensures p[1..][k] == q[k]
    {
      var e := Repeat(BatchEnvelope(team, chunks[k + 1]), SendWithRetry(net(index + 1 + k)).attempts);
      BatchPostsAt(net, team, chunks, index, k + 1, e);
      BatchPostsAt(net, team, chunks[1..], index + 1, k, e);
    }
  }

  lemma BatchPostsAt(net: Network, team: string, chunks: seq<seq<Recipient>>, index: nat, k: nat, e: seq<Envelope>)
    requires k < |chunks|
    requires e == Repeat(BatchEnvelope(team, chunks[k]), SendWithRetry(net(index + k)).attempts)
    ensures BatchPosts(net, team, chunks, index)[k] == e
  {
  }

  /** Dropping the first batch shifts the per-batch sleeps by one index. */
  lemma BatchSleepsTail(net: Network, chunks: seq<seq<Recipient>>, index: nat)
    requires chunks != []
    ensures BatchSleeps(net, chunks, index)[1..] == BatchSleeps(net, chunks[1..], index + 1)
  {
    var s, z := BatchSleeps(net, chunks, index), BatchSleeps(net, chunks[1..], index + 1);
    forall k | 0 <= k < |z|
      ensures s[1..][k] == z[k]
    {
      assert index + 1 + k == index + (k + 1);
    }
  }

  /** The loop posts the batches in order, each batch through its own retry
      loop: the POST trace is the per-batch traces one after the other. */
  lemma {:induction false} SendChunksPosts(net: Network, team: string, chunks: seq<seq<Recipient>>, index: nat)
    ensures SendChunks(net, team, chunks, index).posts == Flatten(BatchPosts(net, team, chunks, index))
    decreases |chunks|
  {
    if chunks != [] {
      var t, rest := SendChunks(net, team, chunks, index), SendChunks(net, team, chunks[1..], index + 1);
      var p := BatchPosts(net, team, chunks, index);
      assert t.posts == p[0] + rest.posts;
      SendChunksPosts(net, team, chunks[1..], index + 1);
      BatchPostsTail(net, team, chunks, index);
    }
  }

  /** The run sleeps only inside the batches' retry loops: the sleep trace is
      the per-batch sleeps one after the other. */
  lemma {:induction false} SendChunksSleeps(net: Network, team: string, chunks: seq<seq<Recipient>>, index: nat)
    ensures SendChunks(net, team, chunks, index).sleeps == Flatten(BatchSleeps(net, chunks, index))
    decreases |chunks|
  {
    if chunks != [] {
      var t, rest := SendChunks(net, team, chunks, index), SendChunks(net, team, chunks[1..], index + 1);
      var s := BatchSleeps(net, chunks, index);
      assert t.sleeps == s[0] + rest.sleeps;
      SendChunksSleeps(net, team, chunks[1..], index + 1);
      BatchSleepsTail(net, chunks, index);
    }
  }

  /** Every chunk is posted at least once, and the run sleeps once per attempt
      that is followed by a retry of the same chunk. */
  lemma {:induction false} SendChunksTraffic(net: Network, team: string, chunks: seq<seq<Recipient>>, index: nat)
    ensures var t := SendChunks(net, team, chunks, index);
      && |chunks| <= |t.posts| <= MaxRetries * |chunks|
      && |t.sleeps| + |chunks| == |t.posts|
      && forall k :: 0 <= k < |chunks| ==> BatchEnvelope(team, chunks[k]) in t.posts
    decreases |chunks|
  {
    if chunks != [] {
      SendChunksTraffic(net, team, chunks[1..], index + 1);
      var t := SendChunks(net, team, chunks, index);
      var run := SendWithRetry(net(index));
      var rest := SendChunks(net, team, chunks[1..], index + 1);
      var head := Repeat(BatchEnvelope(team, chunks[0]), run.attempts);
      assert t.posts == head + rest.posts;
      assert head[0] == BatchEnvelope(team, chunks[0]);
      forall k | 1 <= k < |chunks|
        ensures BatchEnvelope(team, chunks[k]) in t.posts
      {
        assert chunks[k] == chunks[1..][k - 1];
        assert BatchEnvelope(team, chunks[1..][k - 1]) in rest.posts;
      }
    }
  }

  /** Counting only some chunks never exceeds counting all of them. */
  lemma {:induction false} SizeOutsideBound(chunks: seq<seq<Recipient>>, failed: seq<nat>, first: nat)
    ensures SizeOutside(chunks, failed, first) <= |Flatten(chunks)|
    ensures (forall i :: 0 <= i < |failed| ==> failed[i] < first)
      ==> SizeOutside(chunks, failed, first) == |Flatten(chunks)|
    decreases |chunks|
  {
    if chunks != [] {
      SizeOutsideBound(chunks[1..], failed, first + 1);
    }
  }

  /** `send_single_message`: credential check, the payload's read of
      `merge_info["team"]`, then one request addressed to `email` under the
      part of it before the first `@`. Retry exhaustion propagates. */
  function SendSingleMessage(apiKey: Option<string>, email: string, merge: map<string, string>, answer: Responder): (run: Run<()>)
    ensures CredentialMissing(apiKey) ==> run == Run(Failure(MissingCredential), [], [])
    ensures !CredentialMissing(apiKey) && TeamKey !in merge ==>
      run == Run(Failure(MissingMergeKey(TeamKey)), [], [])
    ensures !CredentialMissing(apiKey) && TeamKey in merge ==>
      && 1 <= |run.posts| <= MaxRetries
      && |run.sleeps| == |run.posts| - 1
      && (forall p :: p in run.posts ==>
            p == SingleEnvelope(merge[TeamKey], [Address(email, BeforeFirst(email, '@'))], merge))
      && (run.outcome.Success? <==> exists a :: 1 <= a <= MaxRetries && Accepted(answer(a)))
      && (run.outcome.Success? ==> Accepted(answer(|run.posts|)))
      && (forall a :: 1 <= a < |run.posts| ==> !Accepted(answer(a)))
      && (forall i :: 0 <= i < |run.sleeps| ==> run.sleeps[i] == Pow(RetryBackoff, i + 1))
      && (run.outcome.Failure? ==> run.outcome.error == MaxRetriesExceeded)
      && |run.posts| == SendWithRetry(answer).attempts
      && run.sleeps == SendWithRetry(answer).sleeps
      && (run.outcome.Success? <==> SendWithRetry(answer).delivered)
      && (run.outcome.Failure? ==> |run.posts| == MaxRetries && |run.sleeps| == MaxRetries - 1)
  {
    if CredentialMissing(apiKey) then Run(Failure(MissingCredential), [], [])
    else if TeamKey !in merge then Run(Failure(MissingMergeKey(TeamKey)), [], [])
    else
      var envelope := SingleEnvelope(merge[TeamKey], [Address(email, BeforeFirst(email, '@'))], merge);
      var retry := SendWithRetry(answer);
      var outcome := if retry.delivered then Success(()) else Failure(MaxRetriesExceeded);
      Run(outcome, Repeat(envelope, retry.attempts), retry.sleeps)
  }

  /** The part of `send_batch_message` after the recipients are built: the
      recipients go out in chunks of `BatchLimit`, numbered from 1; `total`
      counts the recipients, `failed_batches` lists in increasing order
      exactly the batches whose retries were exhausted, and `sent` adds up
      the sizes of all the other batches. */
  function SendInBatches(net: Network, team: string, recipients: seq<Recipient>): (run: Run<BatchResult>)
    ensures run.outcome.Success?
    ensures var r := run.outcome.value;
      && r.total == |recipients|
      && r.sent <= r.total
      && StrictlyIncreasing(r.failedBatches)
      && (forall i :: 0 <= i < |r.failedBatches| ==>
            1 <= r.failedBatches[i] <= CeilDiv(r.total, BatchLimit))
      && (forall b :: 1 <= b <= CeilDiv(r.total, BatchLimit) ==>
            (b in r.failedBatches <==> !BatchDelivered(net, b)))
      && r.sent == SizeOutside(ChunkList(recipients, BatchLimit), r.failedBatches, 1)
  {
    var chunks := ChunkList(recipients, BatchLimit);
    var t := SendChunks(net, team, chunks, 1);
    SizeOutsideBound(chunks, t.failedBatches, 1);
    SendChunksFailures(net, team, chunks, 1);
    ChunkListRoundTrip(recipients, BatchLimit);
    Run(Success(BatchResult(|recipients|, t.sent, t.failedBatches)), t.posts, t.sleeps)
  }

  /** `send_batch_message`: credential check, recipient building, then the
      batches. The payload of the first batch reads `merge_info["team"]`
      before anything is sent. Every failure happens before the first POST;
      once the recipients are built and the payload can be formed, the call
      returns a result whatever the network does. */
  function SendBatchMessage(apiKey: Option<string>, merge: map<string, string>, rows: seq<Row>, net: Network): (run: Run<BatchResult>)
    ensures run.outcome.Failure? ==> run.posts == [] && run.sleeps == []
    ensures CredentialMissing(apiKey) ==> run.outcome == Failure(MissingCredential)
    ensures !CredentialMissing(apiKey) && BuildRecipients(rows, merge).Failure? ==>
      run.outcome == Failure(NoValidRecipients)
    ensures !CredentialMissing(apiKey) && BuildRecipients(rows, merge).Success? && TeamKey !in merge ==>
      run.outcome == Failure(MissingMergeKey(TeamKey))
    ensures run.outcome.Success? <==>
      !CredentialMissing(apiKey) && BuildRecipients(rows, merge).Success? && TeamKey in merge
    ensures run.outcome.Success? ==>
      run == SendInBatches(net, merge[TeamKey], Kept(rows, merge))
  {
    var built := BuildRecipients(rows, merge);
    if CredentialMissing(apiKey) then Run(Failure(MissingCredential), [], [])
    else if built.Failure? then Run(Failure(built.error), [], [])
    else if TeamKey !in merge then Run(Failure(MissingMergeKey(TeamKey)), [], [])
    else SendInBatches(net, merge[TeamKey], built.value)
  }

  /** A batch run attempts every recipient at least once: a failing batch
      never keeps a later one from being sent. */
  lemma EveryRecipientAttempted(net: Network, team: string, recipients: seq<Recipient>)
    ensures forall r :: r in recipients ==>
      exists p :: p in SendInBatches(net, team, recipients).posts && p.BatchEnvelope? && r in p.recipients
  {
    var chunks := ChunkList(recipients, BatchLimit);
    var posts := SendInBatches(net, team, recipients).posts;
    SendChunksTraffic(net, team, chunks, 1);
    ChunkListRoundTrip(recipients, BatchLimit);
    forall r | r in recipients
      ensures exists p :: p in posts && p.BatchEnvelope? && r in p.recipients
    {
      FlattenMembership(chunks, r);
      var k :| 0 <= k < |chunks| && r in chunks[k];
      assert BatchEnvelope(team, chunks[k]) in posts;
    }
  }

  /** A batch run posts batch after batch, in order, each through its own
      retry loop (one to `MaxRetries` POSTs of that batch's envelope), and
      sleeps only between two attempts of the same batch. */
  lemma BatchTraffic(net: Network, team: string, recipients: seq<Recipient>)
    ensures var run := SendInBatches(net, team, recipients);
      var chunks := ChunkList(recipients, BatchLimit);
      && run.posts == Flatten(BatchPosts(net, team, chunks, 1))
      && run.sleeps == Flatten(BatchSleeps(net, chunks, 1))
      && |chunks| == CeilDiv(|recipients|, BatchLimit)
  {
    var chunks := ChunkList(recipients, BatchLimit);
    SendChunksPosts(net, team, chunks, 1);
    SendChunksSleeps(net, team, chunks, 1);
  }

  /** With no batch listed as failed, every recipient counts as sent. */
  lemma NoFailedBatchMeansAllSent(net: Network, team: string, recipients: seq<Recipient>)
    requires SendInBatches(net, team, recipients).outcome.value.failedBatches == []
    ensures SendInBatches(net, team, recipients).outcome.value.sent == |recipients|
  {
    var chunks := ChunkList(recipients, BatchLimit);
    SizeOutsideBound(chunks, [], 1);
    ChunkListRoundTrip(recipients, BatchLimit);
  }

  /** 1200 recipients go out as batches of 500, 500 and 200; when only the
      second batch's three attempts all fail, the result is 1200 recipients,
      700 sent, batch 2 failed. */
  lemma SecondOfThreeBatchesFails(net: Network, team: string, recipients: seq<Recipient>)
    requires |recipients| == 1200
    requires Accepted(net(1)(1)) && Accepted(net(3)(1))
    requires forall a :: 1 <= a <= MaxRetries ==> !Accepted(net(2)(a))
    ensures SendInBatches(net, team, recipients).outcome == Success(BatchResult(1200, 700, [2]))
  {
    var chunks := ChunkList(recipients, BatchLimit);
    TwelveHundredByFiveHundred(recipients);
    var r := SendInBatches(net, team, recipients).outcome.value;
    var failed := r.failedBatches;
    assert BatchDelivered(net, 1) && !BatchDelivered(net, 2) && BatchDelivered(net, 3);
    assert 2 in failed;
    forall i | 0 <= i < |failed|
      ensures failed[i] == 2
    {
      assert failed[i] in failed;
    }
    IncreasingNoRepeat(failed, 2);
    assert failed == [2];
    SecondOfThreeLeftOut(chunks);
  }

  lemma SecondOfThreeLeftOut(chunks: seq<seq<Recipient>>)
    requires |chunks| == 3
    ensures SizeOutside(chunks, [2], 1) == |chunks[0]| + |chunks[2]|
  {
    var c1, c2 := chunks[1..], chunks[2..];
    assert c1[1..] == c2 && c1[0] == chunks[1];
    assert c2[1..] == [] && c2[0] == chunks[2];
    assert SizeOutside(c2, [2], 3) == |chunks[2]|;
    assert SizeOutside(c1, [2], 2) == |chunks[2]|;
  }
}
