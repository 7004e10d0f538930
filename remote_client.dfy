/**
 * The client side of the quote server (fetchQuotes.js): the availability
 * flag, the queue of requests that could not be delivered, the drain that
 * replays them, the three write operations and the offline fallback of
 * fetchQuotesFromServer.
 *
 * fetch, AbortController and the five-second timeout are replaced by oracle
 * parameters: `ok` says whether a request came back with a 2xx status and a
 * JSON body, `now` is the reading of Date.now().
 */
module RemoteClient {
  import opened Wrappers
  import opened QuoteModel
  import opened MergeEngine

  /** The built-in quotes served while offline. */
  const FallbackQuotes: seq<Quote> := [
    Quote(Some("1"), Some("The only thing we have to fear is fear itself."), Some("Courage"), Some("Franklin D. Roosevelt"), None),
    Quote(Some("2"), Some("To love and be loved is to feel the sun from both sides."), Some("Love"), Some("David Viscott"), None),
    Quote(Some("3"), Some("I think, therefore I am."), Some("Philosophy"), Some("Ren\U{00E9} Descartes"), None),
    Quote(Some("4"), Some("In the middle of every difficulty lies opportunity."), Some("Wisdom"), Some("Albert Einstein"), None),
    Quote(Some("5"), Some("The unexamined life is not worth living."), Some("Philosophy"), Some("Socrates"), None)
  ]

  /** The updatedFields object an update carries. */
  datatype Fields = Fields(text: Option<string>, category: Option<string>, author: Option<string>, editable: Option<Flag>)

  /** A write operation with its arguments: what a queue entry replays. */
  datatype Operation =
    | CreateQuote(quoteObj: Quote)
    | UpdateQuote(id: Option<string>, updatedFields: Fields)
    | DeleteQuote(id: Option<string>)

  /** `{ operation, args, timestamp }`. */
  datatype QueuedRequest = QueuedRequest(operation: Operation, timestamp: int)

  /** The HTTP request a write operation sends: POST to the collection, PATCH or DELETE to `/<id>`. */
  datatype Request =
    | Post(body: Quote)
    | Patch(id: Option<string>, patch: Fields)
    | Delete(id: Option<string>)

  /** The request for an operation: the body is the argument with `author || "Unknown"`. */
  function RequestFor(op: Operation): Request {
    match op
    case CreateQuote(q) => Post(q.(author := Some(AuthorOrUnknown(q.author))))
    case UpdateQuote(id, f) => Patch(id, f.(author := Some(AuthorOrUnknown(f.author))))
    case DeleteQuote(id) => Delete(id)
  }

  /**
   * A sent body always names an author: the argument's own when it is a
   * non-empty string, "Unknown" otherwise; every other field and the target
   * id are those of the operation.
   */
  lemma RequestBodies(op: Operation)
    ensures op.CreateQuote? ==> var r := RequestFor(op);
      && r.Post? && r.body.id == op.quoteObj.id && r.body.text == op.quoteObj.text
      && r.body.category == op.quoteObj.category && r.body.editable == op.quoteObj.editable
      && r.body.author.Some? && r.body.author.value != ""
      && (op.quoteObj.author.Some? && op.quoteObj.author.value != "" ==> r.body.author == op.quoteObj.author)
    ensures op.UpdateQuote? ==> var r := RequestFor(op);
      && r.Patch? && r.id == op.id && r.patch.text == op.updatedFields.text
      && r.patch.category == op.updatedFields.category && r.patch.editable == op.updatedFields.editable
      && r.patch.author.Some? && r.patch.author.value != ""
      && (op.updatedFields.author.Some? && op.updatedFields.author.value != "" ==> r.patch.author == op.updatedFields.author)
    ensures op.DeleteQuote? ==> RequestFor(op) == Delete(op.id)
  {
  }

  /** The part of the client state the write operations and the drain act on. */
  datatype Link = Link(isServerAvailable: bool, requestQueue: seq<QueuedRequest>)

  /** What one write operation does: the new state, whether it resolved, and the request it sent, if any. */
  datatype Submission = Submission(link: Link, success: bool, sent: Option<Request>)

  /**
   * The common body of createQuoteOnServer, updateQuoteOnServer and
   * deleteQuoteFromServer. With the server marked unavailable the operation
   * is queued and rejected without a request; otherwise the request is sent,
   * and a failure marks the server unavailable, queues the operation and
   * rejects.
   */
  function Submitted(link: Link, op: Operation, ok: bool, now: int): Submission {
    if !link.isServerAvailable then
      Submission(Link(false, link.requestQueue + [QueuedRequest(op, now)]), false, None)
    else if ok then
      Submission(link, true, Some(RequestFor(op)))
    else
      Submission(Link(false, link.requestQueue + [QueuedRequest(op, now)]), false, Some(RequestFor(op)))
  }

  /**
   * A write resolves exactly when the server is marked available and the
   * request succeeds; a request is sent exactly when the server is marked
   * available; a resolved write changes nothing, a rejected one leaves the
   * server marked unavailable and the queue extended by exactly one entry
   * for the operation.
   */
  lemma SubmittedOutcome(link: Link, op: Operation, ok: bool, now: int)
    ensures var s := Submitted(link, op, ok, now);
      && (s.success <==> link.isServerAvailable && ok)
      && (s.sent.Some? <==> link.isServerAvailable)
      && (s.sent.Some? ==> s.sent.value == RequestFor(op))
      && (s.success ==> s.link == link)
      && (!s.success ==> !s.link.isServerAvailable && s.link.requestQueue == link.requestQueue + [QueuedRequest(op, now)])
  {
  }

  /** While the server is marked unavailable the outcome does not depend on the network at all. */
  lemma FailFastIgnoresNetwork(link: Link, op: Operation, now: int)
    requires !link.isServerAvailable
    ensures Submitted(link, op, true, now) == Submitted(link, op, false, now)
    ensures Submitted(link, op, true, now).sent == None
  {
  }

  /** The queue only ever grows at its end: earlier entries are untouched. */
  lemma SubmittedKeepsQueuePrefix(link: Link, op: Operation, ok: bool, now: int)
    ensures var q := Submitted(link, op, ok, now).link.requestQueue;
      |link.requestQueue| <= |q| <= |link.requestQueue| + 1 && q[..|link.requestQueue|] == link.requestQueue
  {
  }

  /** The result of replaying the entries of a snapshot in order: the state reached and the per-entry success flags. */
  datatype Replayed = Replayed(link: Link, succeeded: seq<bool>)

  /**
   * Replays the entries of snap one after the other from state link; entry
   * k uses network answer oks(k). A failed replay appends its copy to the
   * live queue.
   */
  function Replay(link: Link, snap: seq<QueuedRequest>, oks: nat -> bool, now: int): (r: Replayed)
    ensures |r.succeeded| == |snap|
    decreases |snap|
  {
    if snap == [] then Replayed(link, [])
    else
      var k := |snap| - 1;
      var before := Replay(link, snap[..k], oks, now);
      var s := Submitted(before.link, snap[k].operation, oks(k), now);
      Replayed(s.link, before.succeeded + [s.success])
  }

  /** The entries of q whose position is not flagged in marks, in order; positions past marks are kept. */
  function Unmarked(q: seq<QueuedRequest>, marks: seq<bool>): seq<QueuedRequest>
    decreases |q|
  {
    if q == [] then []
    else
      var i := |q| - 1;
      Unmarked(q[..i], marks) + (if i < |marks| && marks[i] then [] else [q[i]])
  }

  /**
   * processQueuedRequests over the queue as it stands when the drain starts:
   * an empty queue is left alone; otherwise every entry is replayed, and the
   * entries that succeeded are then removed from the live queue.
   */
  function Drained(link: Link, oks: nat -> bool, now: int): Link {
    if link.requestQueue == [] then link
    else
      var r := Replay(link, link.requestQueue, oks, now);
      Link(r.link.isServerAvailable, Unmarked(r.link.requestQueue, r.succeeded))
  }

  /** Number of leading true answers among oks(0), ..., oks(n - 1). */
  function LeadingOks(oks: nat -> bool, n: nat): (c: nat)
    ensures c <= n
    ensures forall i :: 0 <= i < c ==> oks(i)
    ensures c < n ==> !oks(c)
  {
    if n == 0 then 0
    else
      var c := LeadingOks(oks, n - 1);
      if c == n - 1 && oks(n - 1) then n else c
  }

  /**
   * How many snapshot entries succeed: replays succeed until the first
   * failure, which marks the server unavailable so that every later entry
   * fails fast; none succeeds when the server is unavailable at the start.
   */
  function SucceededCount(available: bool, snap: seq<QueuedRequest>, oks: nat -> bool): (p: nat)
    ensures p <= |snap|
  {
    if available then LeadingOks(oks, |snap|) else 0
  }

  /** The copy a failed replay appends: the same operation, stamped at the time of the replay. */
  function Requeued(entries: seq<QueuedRequest>, now: int): (r: seq<QueuedRequest>)
    ensures |r| == |entries|
    ensures forall i :: 0 <= i < |entries| ==> r[i] == QueuedRequest(entries[i].operation, now)
  {
    seq(|entries|, i requires 0 <= i < |entries| => QueuedRequest(entries[i].operation, now))
  }

  function PrefixFlags(p: nat, n: nat): (r: seq<bool>)
    ensures |r| == n
    ensures forall i :: 0 <= i < n ==> (r[i] <==> i < p)
  {
    seq(n, i => i < p)
  }

  /** The state after replaying the first k entries: the first min(p, k) succeed, every later one fails and leaves a copy. */
  ghost predicate ReplayedPrefix(link: Link, oks: nat -> bool, now: int, k: nat)
    requires k <= |link.requestQueue|
  {
    var snap := link.requestQueue;
    var p := SucceededCount(link.isServerAvailable, snap, oks);
    var pk := if p < k then p else k;
    var r := Replay(link, snap[..k], oks, now);
    && r.succeeded == PrefixFlags(p, k)
    && r.link.isServerAvailable == (link.isServerAvailable && pk == k)
    && r.link.requestQueue == snap + Requeued(snap[pk..k], now)
  }

  lemma {:induction false} ReplayPrefix(link: Link, oks: nat -> bool, now: int, k: nat)
    requires k <= |link.requestQueue|
    ensures ReplayedPrefix(link, oks, now, k)
  {
    var snap := link.requestQueue;
    if k == 0 {
      assert snap + Requeued(snap[0..0], now) == snap;
    } else {
      ReplayPrefix(link, oks, now, k - 1);
      ReplayStep(link, oks, now, k - 1);
    }
  }

  lemma ReplayStep(link: Link, oks: nat -> bool, now: int, j: nat)
    requires j < |link.requestQueue|
    requires ReplayedPrefix(link, oks, now, j)
    ensures ReplayedPrefix(link, oks, now, j + 1)
  {
    var snap := link.requestQueue;
    var p := SucceededCount(link.isServerAvailable, snap, oks);
    var k := j + 1;
    assert snap[..k][..j] == snap[..j];
    var before := Replay(link, snap[..j], oks, now);
    var s := Submitted(before.link, snap[j].operation, oks(j), now);
    assert Replay(link, snap[..k], oks, now) == Replayed(s.link, before.succeeded + [s.success]);
    if j < p {
      ReplayStepOk(link, oks, now, j);
    } else {
      ReplayStepFails(link, oks, now, j);
    }
    assert before.succeeded + [s.success] == PrefixFlags(p, k);
  }

  lemma ReplayStepOk(link: Link, oks: nat -> bool, now: int, j: nat)
    requires j < |link.requestQueue|
    requires j < SucceededCount(link.isServerAvailable, link.requestQueue, oks)
    requires ReplayedPrefix(link, oks, now, j)
    ensures var before := Replay(link, link.requestQueue[..j], oks, now);
      var s := Submitted(before.link, link.requestQueue[j].operation, oks(j), now);
      s.success && s.link == before.link && before.link == Link(true, link.requestQueue)
  {
    var snap := link.requestQueue;
    assert oks(j);
    assert snap[j..j] == [];
  }

  lemma ReplayStepFails(link: Link, oks: nat -> bool, now: int, j: nat)
    requires j < |link.requestQueue|
    requires SucceededCount(link.isServerAvailable, link.requestQueue, oks) <= j
    requires ReplayedPrefix(link, oks, now, j)
    ensures var snap := link.requestQueue;
      var p := SucceededCount(link.isServerAvailable, snap, oks);
      var before := Replay(link, snap[..j], oks, now);
      var s := Submitted(before.link, snap[j].operation, oks(j), now);
      && !s.success && !s.link.isServerAvailable
      && s.link.requestQueue == snap + Requeued(snap[p..j + 1], now)
  {
    var snap := link.requestQueue;
    var p := SucceededCount(link.isServerAvailable, snap, oks);
    var before := Replay(link, snap[..j], oks, now);
    assert before.link.requestQueue == snap + Requeued(snap[p..j], now);
    ReplayFailsFrom(link.isServerAvailable, snap, oks, j);
    assert !(before.link.isServerAvailable && oks(j));
    var entry := QueuedRequest(snap[j].operation, now);
    assert Submitted(before.link, snap[j].operation, oks(j), now).link == Link(false, before.link.requestQueue + [entry]);
    RequeuedSnoc(snap, p, j, now);
  }

  lemma RequeuedSnoc(snap: seq<QueuedRequest>, p: nat, j: nat, now: int)
    requires p <= j < |snap|
    ensures Requeued(snap[p..j + 1], now) == Requeued(snap[p..j], now) + [QueuedRequest(snap[j].operation, now)]
  {
    assert snap[p..j + 1] == snap[p..j] + [snap[j]];
  }

  /** At or after position p, a replay fails: either the server was already marked down or this is the first failing answer. */
  lemma ReplayFailsFrom(available: bool, snap: seq<QueuedRequest>, oks: nat -> bool, j: nat)
    requires SucceededCount(available, snap, oks) <= j < |snap|
    ensures var p := SucceededCount(available, snap, oks);
      !(available && (if p < j then p else j) == j && oks(j))
  {
  }

  lemma UnmarkedSnoc(q: seq<QueuedRequest>, marks: seq<bool>, i: nat)
    requires i < |q|
    ensures Unmarked(q[..i + 1], marks) == Unmarked(q[..i], marks) + (if i < |marks| && marks[i] then [] else [q[i]])
  {
    assert q[..i + 1][..i] == q[..i];
  }

  lemma {:induction false} UnmarkedAppend(a: seq<QueuedRequest>, b: seq<QueuedRequest>, marks: seq<bool>)
    requires |marks| == |a|
    ensures Unmarked(a + b, marks) == Unmarked(a, marks) + b
    decreases |b|
  {
    if b == [] {
      assert a + b == a;
    } else {
      var i := |b| - 1;
      assert (a + b)[..|a + b| - 1] == a + b[..i];
      assert (a + b)[|a + b| - 1] == b[i];
      UnmarkedAppend(a, b[..i], marks);
      assert b == b[..i] + [b[i]];
    }
  }

  lemma {:induction false} UnmarkedPrefixFlags(q: seq<QueuedRequest>, p: nat)
    requires p <= |q|
    ensures Unmarked(q, PrefixFlags(p, |q|)) == q[p..]
    decreases |q|
  {
    if q != [] {
      var i := |q| - 1;
      var marks := PrefixFlags(p, |q|);
      var shorter := PrefixFlags(p, i);
      if p <= i {
        UnmarkedPrefixFlags(q[..i], p);
        UnmarkedSameFlags(q[..i], marks, shorter);
        assert q[p..] == q[..i][p..] + [q[i]];
      } else {
        UnmarkedAllFlagged(q, marks);
      }
    }
  }

  lemma {:induction false} UnmarkedSameFlags(q: seq<QueuedRequest>, m1: seq<bool>, m2: seq<bool>)
    requires |q| <= |m1| && |q| <= |m2|
    requires forall i :: 0 <= i < |q| ==> m1[i] == m2[i]
    ensures Unmarked(q, m1) == Unmarked(q, m2)
    decreases |q|
  {
    if q != [] {
      UnmarkedSameFlags(q[..|q| - 1], m1, m2);
    }
  }

  lemma {:induction false} UnmarkedAllFlagged(q: seq<QueuedRequest>, marks: seq<bool>)
    requires |q| <= |marks| && forall i :: 0 <= i < |q| ==> marks[i]
    ensures Unmarked(q, marks) == []
    decreases |q|
  {
    if q != [] {
      UnmarkedAllFlagged(q[..|q| - 1], marks);
    }
  }

  /**
   * The drain over a non-empty queue: the first p entries succeed and are
   * removed, where p counts the replays before the first failure; the
   * failed entries stay in their order, and each of them is followed, at
   * the end of the queue, by the copy its replay re-queued. The server ends
   * up marked available exactly when every replay succeeded.
   */
  lemma DrainedShape(link: Link, oks: nat -> bool, now: int)
    requires link.requestQueue != []
    ensures var snap := link.requestQueue;
      var p := SucceededCount(link.isServerAvailable, snap, oks);
      && Drained(link, oks, now).requestQueue == snap[p..] + Requeued(snap[p..], now)
      && Drained(link, oks, now).isServerAvailable == (link.isServerAvailable && p == |snap|)
  {
    var snap := link.requestQueue;
    var p := SucceededCount(link.isServerAvailable, snap, oks);
    ReplayPrefix(link, oks, now, |snap|);
    assert snap[..|snap|] == snap;
    assert ReplayedPrefix(link, oks, now, |snap|);
    UnmarkedAppend(snap, Requeued(snap[p..], now), PrefixFlags(p, |snap|));
    UnmarkedPrefixFlags(snap, p);
  }

  /**
   * Draining removes exactly the entries whose replay succeeded and keeps
   * the failed ones in their relative order; with every replay succeeding
   * the queue ends empty, and with the server unavailable nothing is
   * removed.
   */
  lemma DrainKeepsFailedInOrder(link: Link, oks: nat -> bool, now: int)
    requires link.requestQueue != []
    ensures var snap := link.requestQueue;
      var p := SucceededCount(link.isServerAvailable, snap, oks);
      var after := Drained(link, oks, now).requestQueue;
      && |after| == 2 * (|snap| - p)
      && after[..|snap| - p] == snap[p..]
      && (p == |snap| <==> after == [])
      && (!link.isServerAvailable ==> after[..|snap|] == snap)
  {
    DrainedShape(link, oks, now);
  }

  /** A drain with the server available and every replay succeeding empties the queue. */
  lemma DrainAllSucceed(link: Link, oks: nat -> bool, now: int)
    requires link.isServerAvailable
    requires forall i :: 0 <= i < |link.requestQueue| ==> oks(i)
    ensures Drained(link, oks, now) == Link(true, [])
  {
    if link.requestQueue != [] {
      DrainedShape(link, oks, now);
      assert SucceededCount(true, link.requestQueue, oks) == |link.requestQueue|;
    }
  }

  /** One queued create, server back and the replay succeeding: the queue ends empty. */
  lemma OneQueuedCreateReplayed(q: Quote, stamp: int, now: int)
    ensures Drained(Link(true, [QueuedRequest(CreateQuote(q), stamp)]), _ => true, now) == Link(true, [])
  {
    DrainAllSucceed(Link(true, [QueuedRequest(CreateQuote(q), stamp)]), _ => true, now);
  }

  /** What `fetchQuotesFromServer` receives: a JSON body that is or is not an array. */
  datatype Payload = NotAnArray | QuoteArray(items: seq<Quote>)

  /** The offline answer: the cached array when the cache parses as one, the built-in quotes otherwise. */
  function OfflineQuotes(cache: Storage): seq<Quote> {
    if cache.Array? then cache.items else FallbackQuotes
  }

  /**
   * Offline, a cached array is returned as it is; a missing, unparsable or
   * non-array cache gives the five built-in quotes, with ids "1" to "5".
   */
  lemma OfflineChoice(cache: Storage)
    ensures cache.Array? ==> OfflineQuotes(cache) == cache.items
    ensures !cache.Array? ==> |OfflineQuotes(cache)| == 5
    ensures !cache.Array? ==> forall i :: 0 <= i < 5 ==> OfflineQuotes(cache)[i].id == Some([('1' as int + i) as char])
  {
  }

  /**
   * The creates that a batch of concurrent pushes leaves queued: every push
   * is dispatched before any request completes, so each sees the
   * availability flag as it was at dispatch; push i fails when that flag was
   * false or its request fails (oks(i) false), and each failure queues its
   * create once.
   */
  function FailedCreates(available: bool, quotes: seq<Quote>, oks: nat -> bool, now: int): (r: seq<QueuedRequest>)
    ensures |r| <= |quotes|
    decreases |quotes|
  {
    if quotes == [] then []
    else
      var i := |quotes| - 1;
      FailedCreates(available, quotes[..i], oks, now)
        + (if available && oks(i) then [] else [QueuedRequest(CreateQuote(quotes[i]), now)])
  }

  /** The state after a batch of concurrent pushes: any failure leaves the server marked unavailable. */
  function Pushed(link: Link, quotes: seq<Quote>, oks: nat -> bool, now: int): Link {
    var failed := FailedCreates(link.isServerAvailable, quotes, oks, now);
    Link(link.isServerAvailable && failed == [], link.requestQueue + failed)
  }

  /**
   * With the server marked unavailable every push fails and queues its
   * create, in order; with it available and every request succeeding
   * nothing is queued; in every case each queued entry creates one of the
   * pushed quotes.
   */
  lemma {:induction false} FailedCreatesBounds(available: bool, quotes: seq<Quote>, oks: nat -> bool, now: int)
    ensures !available ==> FailedCreates(available, quotes, oks, now) == seq(|quotes|, i requires 0 <= i < |quotes| => QueuedRequest(CreateQuote(quotes[i]), now))
    ensures available && (forall i :: 0 <= i < |quotes| ==> oks(i)) ==> FailedCreates(available, quotes, oks, now) == []
    ensures forall e :: e in FailedCreates(available, quotes, oks, now) ==> e.operation.CreateQuote? && e.operation.quoteObj in quotes && e.timestamp == now
    decreases |quotes|
  {
    if quotes != [] {
      var i := |quotes| - 1;
      FailedCreatesBounds(available, quotes[..i], oks, now);
    }
  }

  /**
   * `requestQueue.filter((req) => !successfulRequests.includes(req))`, with
   * an entry's identity being its position: the entries of live whose
   * position is not flagged as succeeded.
   */
  method WithoutSucceeded(live: seq<QueuedRequest>, succeeded: seq<bool>) returns (remaining: seq<QueuedRequest>)
    ensures remaining == Unmarked(live, succeeded)
  {
    remaining := [];
    var i := 0;
    while i < |live|
      invariant 0 <= i <= |live|
      invariant remaining == Unmarked(live[..i], succeeded)
    {
      UnmarkedSnoc(live, succeeded, i);
      if !(i < |succeeded| && succeeded[i]) {
        remaining := remaining + [live[i]];
      }
      i := i + 1;
    }
    assert live[..i] == live;
  }

  /**
   * The module-level state of fetchQuotes.js: whether the server is
   * believed reachable, the queue of undelivered writes, and the
   * single-flight flag of the drain.
   */
  class Client {
    var isServerAvailable: bool
    var requestQueue: seq<QueuedRequest>
    var isProcessingQueue: bool

    function State(): Link
      reads this
    {
      Link(isServerAvailable, requestQueue)
    }

    constructor ()
      ensures isServerAvailable && requestQueue == [] && !isProcessingQueue
    {
      isServerAvailable := true;
      requestQueue := [];
      isProcessingQueue := false;
    }

    /** checkServerHealth: the HEAD request's outcome is returned and becomes the availability flag. */
    method CheckServerHealth(headOk: bool) returns (healthy: bool)
      modifies this
      ensures healthy == headOk && isServerAvailable == headOk
      ensures requestQueue == old(requestQueue) && isProcessingQueue == old(isProcessingQueue)
    {
      if headOk {
        isServerAvailable := true;
        healthy := true;
      } else {
        isServerAvailable := false;
        healthy := false;
      }
    }

    /** queueRequest: one entry at the end, nothing else touched. */
    method QueueRequest(operation: Operation, now: int)
      modifies this
      ensures requestQueue == old(requestQueue) + [QueuedRequest(operation, now)]
      ensures isServerAvailable == old(isServerAvailable) && isProcessingQueue == old(isProcessingQueue)
    {
      requestQueue := requestQueue + [QueuedRequest(operation, now)];
    }

    /** The shared body of the three write operations; success false stands for the rejected promise. */
    method Submit(op: Operation, ok: bool, now: int) returns (success: bool, sent: Option<Request>)
      modifies this
      ensures var s := Submitted(old(State()), op, ok, now);
        State() == s.link && success == s.success && sent == s.sent
      ensures isProcessingQueue == old(isProcessingQueue)
    {
      if !isServerAvailable {
        QueueRequest(op, now);
        return false, None;
      }
      sent := Some(RequestFor(op));
      if ok {
        success := true;
      } else {
        isServerAvailable := false;
        QueueRequest(op, now);
        success := false;
      }
    }

    /** createQuoteOnServer; reply is the server's answer, None when the request fails. */
    method CreateQuoteOnServer(quoteObj: Quote, reply: Option<Quote>, now: int) returns (created: Option<Quote>, sent: Option<Request>)
      modifies this
      ensures var s := Submitted(old(State()), CreateQuote(quoteObj), reply.Some?, now);
        State() == s.link && sent == s.sent && created == (if s.success then reply else None)
      ensures isProcessingQueue == old(isProcessingQueue)
    {
      var success;
      success, sent := Submit(CreateQuote(quoteObj), reply.Some?, now);
      created := if success then reply else None;
    }

    /** updateQuoteOnServer. */
    method UpdateQuoteOnServer(id: Option<string>, updatedFields: Fields, ok: bool, now: int) returns (success: bool, sent: Option<Request>)
      modifies this
      ensures var s := Submitted(old(State()), UpdateQuote(id, updatedFields), ok, now);
        State() == s.link && success == s.success && sent == s.sent
      ensures isProcessingQueue == old(isProcessingQueue)
    {
      success, sent := Submit(UpdateQuote(id, updatedFields), ok, now);
    }

    /** deleteQuoteFromServer. */
    method DeleteQuoteFromServer(id: Option<string>, ok: bool, now: int) returns (success: bool, sent: Option<Request>)
      modifies this
      ensures var s := Submitted(old(State()), DeleteQuote(id), ok, now);
        State() == s.link && success == s.success && sent == s.sent
      ensures isProcessingQueue == old(isProcessingQueue)
    {
      success, sent := Submit(DeleteQuote(id), ok, now);
    }

    /**
     * The pushes of syncQuotes, `Promise.allSettled(localOnlyQuotes.map(createQuoteOnServer))`;
     * failed counts the rejected pushes.
     */
    method PushAll(quotes: seq<Quote>, oks: nat -> bool, now: int) returns (failed: nat)
      modifies this
      ensures State() == Pushed(old(State()), quotes, oks, now)
      ensures failed == |FailedCreates(old(isServerAvailable), quotes, oks, now)|
      ensures isProcessingQueue == old(isProcessingQueue)
    {
      var availableAtDispatch := isServerAvailable;
      failed := 0;
      var i := 0;
      while i < |quotes|
        invariant 0 <= i <= |quotes|
        invariant requestQueue == old(requestQueue) + FailedCreates(availableAtDispatch, quotes[..i], oks, now)
        invariant isServerAvailable == (availableAtDispatch && FailedCreates(availableAtDispatch, quotes[..i], oks, now) == [])
        invariant failed == |FailedCreates(availableAtDispatch, quotes[..i], oks, now)|
        invariant isProcessingQueue == old(isProcessingQueue)
      {
        assert quotes[..i + 1][..i] == quotes[..i];
        if !availableAtDispatch || !oks(i) {
          isServerAvailable := false;
          QueueRequest(CreateQuote(quotes[i]), now);
          failed := failed + 1;
        }
        i := i + 1;
      }
      assert quotes[..i] == quotes;
    }

    /**
     * processQueuedRequests, over the queue as it stands when the loop
     * starts (entry k of it gets network answer oks(k)). The source's
     * for...of also visits the copies that failed replays append behind its
     * cursor, and so never reaches the end once a replay has failed (see
     * LiveDrainNeverEnds); this drain stops after the entries present at
     * the start. An entry is identified by its position in the queue, as
     * the source's filter compares objects by identity.
     */
    method ProcessQueuedRequests(oks: nat -> bool, now: int)
      modifies this
      ensures old(isProcessingQueue) ==> State() == old(State())
      ensures !old(isProcessingQueue) ==> State() == Drained(old(State()), oks, now)
      ensures isProcessingQueue == old(isProcessingQueue)
    {
      if isProcessingQueue || |requestQueue| == 0 {
        return;
      }
      isProcessingQueue := true;
      var start := State();
      var snapshot := requestQueue;
      var successfulRequests: seq<bool> := [];
      var k := 0;
      while k < |snapshot|
        invariant 0 <= k <= |snapshot|
        invariant Replay(start, snapshot[..k], oks, now) == Replayed(State(), successfulRequests)
        invariant isProcessingQueue
      {
        assert snapshot[..k + 1][..k] == snapshot[..k];
        var success, sent := Submit(snapshot[k].operation, oks(k), now);
        successfulRequests := successfulRequests + [success];
        k := k + 1;
      }
      assert snapshot[..k] == snapshot;
      var replayed := Replayed(State(), successfulRequests);
      assert Replay(start, start.requestQueue, oks, now) == replayed;

      var remaining := WithoutSucceeded(requestQueue, successfulRequests);
      assert Drained(start, oks, now) == Link(isServerAvailable, remaining);
      requestQueue := remaining;
      isProcessingQueue := false;
    }

    /**
     * fetchQuotesFromServer; reply is the GET's parsed body, None when the
     * request fails or the body is not JSON. An array marks the server
     * available, starts a drain of a non-empty queue and is returned;
     * anything else marks the server unavailable and falls back to the
     * cache or the built-in quotes.
     */
    method FetchQuotesFromServer(reply: Option<Payload>, cache: Storage, oks: nat -> bool, now: int) returns (quotes: seq<Quote>)
      modifies this
      ensures reply.Some? && reply.value.QuoteArray? ==> quotes == reply.value.items
      ensures reply.Some? && reply.value.QuoteArray? && !old(isProcessingQueue) ==>
        State() == Drained(Link(true, old(requestQueue)), oks, now)
      ensures reply.Some? && reply.value.QuoteArray? && old(isProcessingQueue) ==>
        State() == Link(true, old(requestQueue))
      ensures !(reply.Some? && reply.value.QuoteArray?) ==>
        quotes == OfflineQuotes(cache) && State() == Link(false, old(requestQueue))
      ensures isProcessingQueue == old(isProcessingQueue)
    {
      if reply.Some? && reply.value.QuoteArray? {
        isServerAvailable := true;
        if |requestQueue| > 0 {
          ProcessQueuedRequests(oks, now);
        }
        quotes := reply.value.items;
      } else {
        isServerAvailable := false;
        quotes := OfflineQuotes(cache);
      }
    }

    /** The 30-second poll: only while the server is marked unavailable, a health check and, if healthy, a drain. */
    method HealthPoll(headOk: bool, oks: nat -> bool, now: int)
      modifies this
      ensures old(isServerAvailable) ==> State() == old(State())
      ensures !old(isServerAvailable) && !headOk ==> State() == Link(false, old(requestQueue))
      ensures !old(isServerAvailable) && headOk && !old(isProcessingQueue) ==>
        State() == Drained(Link(true, old(requestQueue)), oks, now)
      ensures !old(isServerAvailable) && headOk && old(isProcessingQueue) ==> State() == Link(true, old(requestQueue))
      ensures isProcessingQueue == old(isProcessingQueue)
    {
      if !isServerAvailable {
        var isHealthy := CheckServerHealth(headOk);
        if isHealthy && |requestQueue| > 0 {
          ProcessQueuedRequests(oks, now);
        }
      }
    }
  }

  /**
   * The drain loop as written: `for (const request of requestQueue)` walks
   * the live array, so a copy appended by a failed replay is visited too.
   */
  datatype LiveLoop = LiveLoop(queue: seq<QueuedRequest>, cursor: nat, available: bool)

  predicate Running(s: LiveLoop) {
    s.cursor < |s.queue|
  }

  /** One iteration of the live loop: replay the entry under the cursor and advance. */
  function LiveStep(s: LiveLoop, ok: bool, now: int): LiveLoop
    requires Running(s)
  {
    var r := Submitted(Link(s.available, s.queue), s.queue[s.cursor].operation, ok, now);
    LiveLoop(r.link.requestQueue, s.cursor + 1, r.link.isServerAvailable)
  }

  /** Up to |oks| iterations of the live loop (fewer if it reaches the end of the array). */
  function LiveRun(s: LiveLoop, oks: seq<bool>, now: int): LiveLoop
    decreases |oks|
  {
    if oks == [] then s
    else
      var t := LiveRun(s, oks[..|oks| - 1], now);
      if Running(t) then LiveStep(t, oks[|oks| - 1], now) else t
  }

  /**
   * Once a replay has failed, the server is marked unavailable, and every
   * later iteration fails fast and appends one more copy: however many
   * iterations run, the cursor never catches up with the end of the array.
   */
  lemma {:induction false} LiveDrainNeverEnds(s: LiveLoop, oks: seq<bool>, now: int)
    requires !s.available && Running(s)
    ensures var t := LiveRun(s, oks, now);
      && Running(t) && !t.available
      && t.cursor == s.cursor + |oks| && |t.queue| == |s.queue| + |oks|
    decreases |oks|
  {
    if oks != [] {
      LiveDrainNeverEnds(s, oks[..|oks| - 1], now);
    }
  }

  /**
   * With the server available and every replay succeeding, the live loop
   * ends after the original entries, having appended nothing: the literal
   * loop and the snapshot drain agree exactly when no replay fails.
   */
  lemma {:induction false} LiveDrainAllSucceed(q: seq<QueuedRequest>, oks: seq<bool>, now: int)
    requires |q| <= |oks| && forall i :: 0 <= i < |oks| ==> oks[i]
    ensures LiveRun(LiveLoop(q, 0, true), oks[..|q|], now) == LiveLoop(q, |q|, true)
  {
    LiveAllSucceedPrefix(q, oks, now, |q|);
  }

  lemma {:induction false} LiveAllSucceedPrefix(q: seq<QueuedRequest>, oks: seq<bool>, now: int, k: nat)
    requires k <= |q| <= |oks| && forall i :: 0 <= i < |oks| ==> oks[i]
    ensures LiveRun(LiveLoop(q, 0, true), oks[..k], now) == LiveLoop(q, k, true)
  {
    if k > 0 {
      LiveAllSucceedPrefix(q, oks, now, k - 1);
      assert oks[..k][..k - 1] == oks[..k - 1];
    }
  }

  /**
   * The input that shows it: one queued delete replayed while the server is
   * down. After any number n of iterations the loop is still running, with
   * n + 1 entries in the array.
   */
  lemma LiveDrainOneFailedDelete(oks: seq<bool>, now: int)
    ensures var t := LiveRun(LiveLoop([QueuedRequest(DeleteQuote(Some("1")), 0)], 0, false), oks, now);
      Running(t) && |t.queue| == 1 + |oks|
  {
    LiveDrainNeverEnds(LiveLoop([QueuedRequest(DeleteQuote(Some("1")), 0)], 0, false), oks, now);
  }
}
