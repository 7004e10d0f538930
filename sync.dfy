/**
 * The sync orchestrator of syncQuotes.js: reading the stored quotes, the
 * reentrancy flag, the retry counter with its backoff, and one sync round
 * (health check, fetch, merge, save, push of local-only quotes, drain).
 *
 * The network is an oracle (Network below); the retry timer is not run:
 * a failed round reports the delay after which the source re-enters
 * syncQuotes, and that re-entry is a later call.
 */
module SyncOrchestrator {
  import opened Wrappers
  import opened QuoteModel
  import opened MergeEngine
  import opened RemoteClient

  const MAX_RETRIES: nat := 3
  const BASE_RETRY_DELAY: nat := 1000

  function Pow2(n: nat): (r: nat)
    ensures r >= 1
  {
    if n == 0 then 1 else 2 * Pow2(n - 1)
  }

  /** exponentialBackoff(attempt) waits BASE_RETRY_DELAY * 2^attempt milliseconds. */
  function BackoffDelay(attempt: nat): nat {
    BASE_RETRY_DELAY * Pow2(attempt)
  }

  /**
   * The wait before the retry after failure number retryCount (1 to 3): the
   * timer's own BASE_RETRY_DELAY, then exponentialBackoff(retryCount - 1).
   */
  function RetryWait(retryCount: nat): nat
    requires 1 <= retryCount
  {
    BASE_RETRY_DELAY + BackoffDelay(retryCount - 1)
  }

  /** The wait the warning announces: "Retrying in 2^retryCount seconds", in milliseconds. */
  function AnnouncedWait(retryCount: nat): nat {
    1000 * Pow2(retryCount)
  }

  /**
   * Each backoff doubles the previous one; the three retries wait 2, 3 and
   * 5 seconds, while the warnings announce 2, 4 and 8: the announcement is
   * right only for the first retry.
   */
  lemma {:induction false} RetryWaits(attempt: nat)
    ensures BackoffDelay(attempt + 1) == 2 * BackoffDelay(attempt)
    ensures RetryWait(1) == 2000 && RetryWait(2) == 3000 && RetryWait(3) == 5000
    ensures AnnouncedWait(1) == 2000 && AnnouncedWait(2) == 4000 && AnnouncedWait(3) == 8000
    ensures 1 <= attempt ==> (RetryWait(attempt) == AnnouncedWait(attempt) <==> attempt == 1)
  {
    assert Pow2(attempt + 1) == 2 * Pow2(attempt);
    if attempt >= 2 {
      Pow2AtLeastTwo(attempt - 1);
    }
  }

  lemma {:induction false} Pow2AtLeastTwo(n: nat)
    requires n >= 1
    ensures Pow2(n) >= 2
  {
  }

  /** What a failed round does to the counter, and the retry it schedules, if any. */
  datatype RetryDecision = RetryDecision(retryCount: nat, retryAfter: Option<nat>)

  function AfterFailure(retryCount: nat): RetryDecision {
    var n := retryCount + 1;
    if n <= MAX_RETRIES then RetryDecision(n, Some(RetryWait(n)))
    else RetryDecision(0, None)
  }

  /**
   * A failure schedules a retry exactly when the incremented counter is at
   * most MAX_RETRIES, and then keeps that counter; otherwise it is terminal
   * and resets the counter to 0. The counter never exceeds MAX_RETRIES.
   */
  lemma AfterFailureRule(retryCount: nat)
    ensures var d := AfterFailure(retryCount);
      && d.retryCount <= MAX_RETRIES
      && (d.retryAfter.Some? <==> retryCount + 1 <= MAX_RETRIES)
      && (d.retryAfter.Some? ==> d.retryCount == retryCount + 1 && d.retryAfter.value == RetryWait(retryCount + 1))
      && (d.retryAfter.None? ==> d.retryCount == 0)
  {
  }

  /** The counter after k consecutive failed rounds that start from counter c. */
  function CounterAfterFailures(c: nat, k: nat): nat
    decreases k
  {
    if k == 0 then c else AfterFailure(CounterAfterFailures(c, k - 1)).retryCount
  }

  /**
   * From a fresh counter, k consecutive failures leave it at k mod 4, and
   * failure number k is terminal exactly when k is a multiple of 4: the
   * first three failures schedule retries and the fourth gives up.
   */
  lemma {:induction false} ConsecutiveFailures(k: nat)
    ensures CounterAfterFailures(0, k) == k % (MAX_RETRIES + 1)
    ensures k >= 1 ==> (AfterFailure(CounterAfterFailures(0, k - 1)).retryAfter.None? <==> k % (MAX_RETRIES + 1) == 0)
  {
    if k >= 1 {
      ConsecutiveFailures(k - 1);
    }
  }

  /** Four failures from a fresh counter: retries after 2, 3 and 5 seconds, then a terminal failure with the counter back at 0. */
  lemma FourFailures()
    ensures AfterFailure(0) == RetryDecision(1, Some(2000))
    ensures AfterFailure(1) == RetryDecision(2, Some(3000))
    ensures AfterFailure(2) == RetryDecision(3, Some(5000))
    ensures AfterFailure(3) == RetryDecision(0, None)
  {
    RetryWaits(1);
  }

  /** getLocalQuotes: the quotes it returns and whether it rewrites storage to "[]". */
  datatype Loaded = Loaded(quotes: seq<Quote>, rewrite: bool)

  function LoadLocal(stored: Storage): Loaded {
    match stored
    case Missing => Loaded([], false)
    case Unparsable => Loaded([], true)
    case NonArray(truthy) => Loaded([], truthy)
    case Array(items) => Loaded(items, false)
  }

  /** The entry after getLocalQuotes. */
  function AfterLoad(stored: Storage): Storage {
    if LoadLocal(stored).rewrite then Array([]) else stored
  }

  /**
   * A stored array is returned as it is and left alone; unparsable content
   * and a truthy non-array give [] and are reset to "[]"; a missing entry
   * and a falsy parse (null, false, 0) give [] through `|| []` and are left
   * alone.
   */
  lemma LoadLocalCases(stored: Storage)
    ensures stored.Array? ==> LoadLocal(stored) == Loaded(stored.items, false)
    ensures stored.Unparsable? || stored == NonArray(true) ==> LoadLocal(stored) == Loaded([], true) && AfterLoad(stored) == Array([])
    ensures stored.Missing? || stored == NonArray(false) ==> LoadLocal(stored) == Loaded([], false) && AfterLoad(stored) == stored
  {
  }

  /**
   * Reading again after a read returns the same quotes and rewrites
   * nothing; what a sync saves reads back unchanged.
   */
  lemma LoadLocalSettles(stored: Storage, saved: seq<Quote>)
    ensures LoadLocal(AfterLoad(stored)) == Loaded(LoadLocal(stored).quotes, false)
    ensures AfterLoad(AfterLoad(stored)) == AfterLoad(stored)
    ensures LoadLocal(Array(saved)).quotes == saved
  {
  }

  /**
   * The network during one sync round: the HEAD answer, the GET body (None
   * when the request fails), the answers to the replays of the drain the
   * fetch starts, to the pushes, and to the replays of the final drain, and
   * the clock.
   */
  datatype Network = Network(
    headOk: bool,
    reply: Option<Payload>,
    fetchReplays: nat -> bool,
    pushOks: nat -> bool,
    replays: nat -> bool,
    now: int)

  /** What syncQuotes resolves to. */
  datatype SyncResult =
    | AlreadyInProgress
    | Synced(mergedCount: nat, conflictCount: nat, pushedCount: nat)
    | Failed(retryAfter: Option<nat>)

  /** The list the fetch yields: the server's array, or offline the cache or the built-in quotes. */
  function FetchedQuotes(reply: Option<Payload>, cache: Storage): seq<Quote> {
    if reply.Some? && reply.value.QuoteArray? then reply.value.items else OfflineQuotes(cache)
  }

  /** The client state after the fetch of a round whose health check passed. */
  function FetchedLink(queue: seq<QueuedRequest>, net: Network): Link {
    if net.reply.Some? && net.reply.value.QuoteArray? then Drained(Link(true, queue), net.fetchReplays, net.now)
    else Link(false, queue)
  }

  /** `localQuotes.filter((l) => !serverQuotes.some((s) => s.id === l.id))`, over the raw lists. */
  function LocalOnlyQuotes(localQuotes: seq<Quote>, serverQuotes: seq<Quote>): seq<Quote> {
    LocalOnly(localQuotes, RawIds(serverQuotes))
  }

  /** The outcome of a round whose health check passed: the saved entry, the client state and the result. */
  datatype Round = Round(saved: Storage, link: Link, result: SyncResult)

  function SyncedRound(stored: Storage, queue: seq<QueuedRequest>, net: Network): Round {
    var serverQuotes := FetchedQuotes(net.reply, stored);
    var afterFetch := FetchedLink(queue, net);
    var localQuotes := LoadLocal(stored).quotes;
    var merged := MergedQuotes(localQuotes, serverQuotes);
    var conflicts := MergeConflicts(localQuotes, serverQuotes);
    var localOnlyQuotes := LocalOnlyQuotes(localQuotes, serverQuotes);
    var afterPush := Pushed(afterFetch, localOnlyQuotes, net.pushOks, net.now);
    Round(Array(merged), Drained(afterPush, net.replays, net.now), Synced(|merged|, |conflicts|, |localOnlyQuotes|))
  }

  /**
   * The pushed quotes are exactly the raw local records whose id no raw
   * server record carries, in local order, whether or not they are valid;
   * pushedCount is their number, whatever the pushes' outcome.
   */
  lemma PushedAreRawLocalOnly(stored: Storage, queue: seq<QueuedRequest>, net: Network)
    ensures var serverQuotes := FetchedQuotes(net.reply, stored);
      var localQuotes := LoadLocal(stored).quotes;
      var pushed := LocalOnlyQuotes(localQuotes, serverQuotes);
      && SyncedRound(stored, queue, net).result.pushedCount == |pushed|
      && (forall x :: x in pushed <==> x in localQuotes && x.id !in RawIds(serverQuotes))
      && IsSubsequence(pushed, localQuotes)
  {
    var serverQuotes := FetchedQuotes(net.reply, stored);
    var localQuotes := LoadLocal(stored).quotes;
    LocalOnlyMembers(localQuotes, RawIds(serverQuotes));
    LocalOnlyIsSubsequence(localQuotes, RawIds(serverQuotes));
  }

  /**
   * An invalid local record whose id the server lacks is pushed but not
   * kept: the merge drops it from storage.
   */
  lemma InvalidLocalOnlyPushedNotSaved(localQuotes: seq<Quote>, serverQuotes: seq<Quote>, q: Quote)
    requires q in localQuotes && !ValidateQuote(q) && q.id !in RawIds(serverQuotes)
    ensures q in LocalOnlyQuotes(localQuotes, serverQuotes)
    ensures q !in MergedQuotes(localQuotes, serverQuotes)
  {
    LocalOnlyMembers(localQuotes, RawIds(serverQuotes));
    InvalidNeverMerged(localQuotes, serverQuotes, q);
  }

  /**
   * A local record whose id the server list holds only on invalid records
   * is lost: it is neither saved by the merge nor pushed.
   */
  lemma ShadowedLocalLost(localQuotes: seq<Quote>, serverQuotes: seq<Quote>, q: Quote)
    requires q in localQuotes
    requires exists s :: s in serverQuotes && s.id == q.id
    requires forall s :: s in serverQuotes && s.id == q.id ==> !ValidateQuote(s)
    ensures q !in LocalOnlyQuotes(localQuotes, serverQuotes)
    ensures forall x :: x in MergedQuotes(localQuotes, serverQuotes) ==> x.id != q.id
  {
    LocalOnlyMembers(localQuotes, RawIds(serverQuotes));
    ShadowedLocalDropped(localQuotes, serverQuotes, q.id);
  }

  /** Syncing against a server that holds exactly the local list pushes nothing. */
  lemma SelfSyncPushesNothing(quotes: seq<Quote>)
    ensures LocalOnlyQuotes(quotes, quotes) == []
  {
    LocalOnlyDropsAll(quotes, RawIds(quotes));
  }

  /** A local-only valid quote against an empty server list: it is kept, with no conflict, and pushed. */
  lemma LocalOnlyQuoteKeptAndPushed()
    ensures var l := [Quote(Some("1"), Some("A"), Some("X"), Some("Bob"), Some(Bool(true)))];
      && MergedQuotes(l, []) == l
      && MergeConflicts(l, []) == []
      && LocalOnlyQuotes(l, []) == l
  {
    var q := Quote(Some("1"), Some("A"), Some("X"), Some("Bob"), Some(Bool(true)));
    JsString.TrimFixedPoint("A");
    JsString.TrimFixedPoint("X");
    JsString.TrimFixedPoint("Bob");
    NormalFixedPoint(q);
    assert ValidNormalized([q]) == [q] by {
      assert [q][..0] == [];
    }
    LocalOnlyKeepsAll([q], RawIds([]));
  }

  /**
   * The same id with different texts on both sides: the merge keeps the
   * server's record and reports one conflict, on the text only.
   */
  lemma TextConflictServerWins()
    ensures var l := [Quote(Some("1"), Some("A"), Some("X"), Some("Bob"), Some(Bool(true)))];
      var s := [Quote(Some("1"), Some("B"), Some("X"), Some("Bob"), Some(Bool(true)))];
      && MergedQuotes(l, s) == s
      && MergeConflicts(l, s) == [Conflict(Some("1"), l[0], s[0], ConflictFields(true, false, false))]
  {
    var lq := Quote(Some("1"), Some("A"), Some("X"), Some("Bob"), Some(Bool(true)));
    var sq := Quote(Some("1"), Some("B"), Some("X"), Some("Bob"), Some(Bool(true)));
    assert ValidateQuote(lq) && IsNormal(lq) by {
      JsString.TrimFixedPoint("A");
      JsString.TrimFixedPoint("X");
      JsString.TrimFixedPoint("Bob");
    }
    assert ValidateQuote(sq) && IsNormal(sq) by {
      JsString.TrimFixedPoint("B");
      JsString.TrimFixedPoint("X");
      JsString.TrimFixedPoint("Bob");
    }
    assert MergedQuotes([lq], [sq]) == [sq] && MergeConflicts([lq], [sq]) == ConflictFor([lq], sq) by {
      SharedIdSingletons(lq, sq);
    }
    assert ConflictFor([lq], sq) == [ConflictBetween(lq, sq)] by {
      assert FirstWithId([lq], sq.id) == Some(lq);
    }
    assert FieldsInConflict(lq, sq) == ConflictFields(true, false, false);
  }

  /**
   * One valid, normal record on each side with the same id: the server's
   * record is the whole merge, and the conflict report is the one for that
   * pair.
   */
  lemma SharedIdSingletons(lq: Quote, sq: Quote)
    requires ValidateQuote(lq) && IsNormal(lq) && lq.author != Some("")
    requires ValidateQuote(sq) && IsNormal(sq) && sq.author != Some("")
    requires lq.id == sq.id
    ensures MergedQuotes([lq], [sq]) == [sq]
    ensures MergeConflicts([lq], [sq]) == ConflictFor([lq], sq)
  {
    SingleNormalKept(lq);
    SingleNormalKept(sq);
    LocalOnlyDropsAll([lq], RawIds([sq]));
    assert [sq][..0] == [];
    assert Conflicts([lq], [sq]) == Conflicts([lq], []) + ConflictFor([lq], sq);
  }

  /** A one-record list whose record is valid, already normal and has a non-empty author passes validation unchanged. */
  lemma SingleNormalKept(q: Quote)
    requires ValidateQuote(q) && IsNormal(q) && q.author != Some("")
    ensures ValidNormalized([q]) == [q]
  {
    NormalFixedPoint(q);
    assert [q][..0] == [];
  }

  /**
   * The module-level state of syncQuotes.js, with the localStorage entry it
   * reads and writes and the client of fetchQuotes.js it drives.
   */
  class Synchronizer {
    var syncInProgress: bool
    var retryCount: nat
    const store: LocalStore
    const client: Client

    /** The counter stays within MAX_RETRIES, and no drain is left half-way between calls. */
    predicate Valid()
      reads this, client
    {
      retryCount <= MAX_RETRIES && !client.isProcessingQueue
    }

    constructor (store: LocalStore, client: Client)
      requires !client.isProcessingQueue
      ensures Valid() && !syncInProgress && retryCount == 0
      ensures this.store == store && this.client == client
    {
      syncInProgress := false;
      retryCount := 0;
      this.store := store;
      this.client := client;
    }

    /** getLocalQuotes. */
    method GetLocalQuotes() returns (quotes: seq<Quote>)
      modifies store
      ensures quotes == LoadLocal(old(store.savedQuotes)).quotes
      ensures store.savedQuotes == AfterLoad(old(store.savedQuotes))
    {
      match store.savedQuotes
      case Missing =>
        quotes := [];
      case Unparsable =>
        store.savedQuotes := Array([]);
        quotes := [];
      case NonArray(truthy) =>
        if truthy {
          store.savedQuotes := Array([]);
        }
        quotes := [];
      case Array(items) =>
        quotes := items;
    }

    /**
     * syncQuotes. A call while a round runs is turned away and changes
     * nothing. Otherwise the flag is set for the round and cleared on every
     * exit; a failed health check is the round's only failure, and it
     * counts towards the retry limit; a completed round saves the merge,
     * pushes the local-only quotes, drains the queue and resets the counter.
     */
    method SyncQuotes(net: Network) returns (result: SyncResult)
      requires Valid()
      modifies this, store, client
      ensures Valid()
      ensures old(syncInProgress) ==>
        && result == AlreadyInProgress && syncInProgress && retryCount == old(retryCount)
        && store.savedQuotes == old(store.savedQuotes) && client.State() == old(client.State())
      ensures !old(syncInProgress) ==> !syncInProgress
      ensures !old(syncInProgress) && !net.headOk ==>
        && retryCount == AfterFailure(old(retryCount)).retryCount
        && result == Failed(AfterFailure(old(retryCount)).retryAfter)
        && store.savedQuotes == old(store.savedQuotes)
        && client.State() == Link(false, old(client.requestQueue))
      ensures !old(syncInProgress) && net.headOk ==>
        var round := SyncedRound(old(store.savedQuotes), old(client.requestQueue), net);
        && retryCount == 0 && result == round.result
        && store.savedQuotes == round.saved && client.State() == round.link
    {
      if syncInProgress {
        return AlreadyInProgress;
      }
      syncInProgress := true;

      var serverHealthy := client.CheckServerHealth(net.headOk);
      if !serverHealthy {
        var decision := AfterFailure(retryCount);
        retryCount := retryCount + 1;
        var retryAfter := None;
        if retryCount <= MAX_RETRIES {
          retryAfter := Some(RetryWait(retryCount));
        } else {
          retryCount := 0;
        }
        assert retryCount == decision.retryCount && retryAfter == decision.retryAfter;
        syncInProgress := false;
        return Failed(retryAfter);
      }

      var stored := store.savedQuotes;
      var serverQuotes := client.FetchQuotesFromServer(net.reply, store.savedQuotes, net.fetchReplays, net.now);
      var localQuotes := GetLocalQuotes();
      var mergedQuotes, conflicts := MergeQuotes(localQuotes, serverQuotes);
      store.savedQuotes := Array(mergedQuotes);

      var localOnlyQuotes := LocalOnlyQuotes(localQuotes, serverQuotes);
      if |localOnlyQuotes| > 0 {
        var failedPushes := client.PushAll(localOnlyQuotes, net.pushOks, net.now);
      }
      assert localOnlyQuotes == [] ==> Pushed(client.State(), localOnlyQuotes, net.pushOks, net.now) == client.State();
      client.ProcessQueuedRequests(net.replays, net.now);

      retryCount := 0;
      syncInProgress := false;
      result := Synced(|mergedQuotes|, |conflicts|, |localOnlyQuotes|);
    }
  }
}
