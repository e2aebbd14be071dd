/**
 * The lease-based rate limiter.
 *
 * A worker leases blocks of permits for one window key from a shared counter and
 * spends them locally.  Here are the bucket and one worker's `take`, as code, and
 * what requests one after another come to.  If the store does not answer, a whole
 * lease is granted; whether it was counted is then unknown.
 */
module Limiter {

  // ---- the bucket ----

  datatype Bucket = Bucket(remaining: nat, expiresAt: int, refreshing: bool)

  /** The permits still usable at `now`: an expired lease is not carried forward. */
  function Live(b: Bucket, now: int): nat {
    if now > b.expiresAt then 0 else b.remaining
  }

  function AfterTake(b: Bucket, now: int): Bucket {
    b.(remaining := if Live(b, now) > 0 then Live(b, now) - 1 else 0)
  }

  function Takes(b: Bucket, now: int): bool {
    Live(b, now) > 0
  }

  function WantsRefill(b: Bucket, now: int): bool {
    !b.refreshing && AfterTake(b, now).remaining == 0
  }

  function AfterGrant(b: Bucket, permits: nat, expiresAt: int): Bucket {
    if permits > 0 then Bucket(b.remaining + permits, expiresAt, false) else b.(refreshing := false)
  }

  class LocalBucket {
    var remaining: nat
    var expiresAt: int
    var refreshing: bool

    function Value(): Bucket
      reads this
    {
      Bucket(remaining, expiresAt, refreshing)
    }

    constructor (expiresAt: int)
      ensures Value() == Bucket(0, expiresAt, false)
    {
      remaining, this.expiresAt, refreshing := 0, expiresAt, false;
    }

    method Take(now: int) returns (taken: bool, shouldRefill: bool)
      modifies this
      ensures Value() == AfterTake(old(Value()), now)
      ensures taken == Takes(old(Value()), now)
      ensures shouldRefill == WantsRefill(old(Value()), now)
    {
      if now > expiresAt {
        remaining := 0;
      }
      if remaining > 0 {
        remaining := remaining - 1;
        return true, !refreshing && remaining == 0;
      }
      return false, !refreshing;
    }

    method BeginRefill() returns (won: bool)
      modifies this
      ensures won == !old(refreshing)
      ensures Value() == old(Value()).(refreshing := true)
    {
      if refreshing {
        return false;
      }
      refreshing := true;
      return true;
    }

    method Grant(permits: nat, expiresAt: int)
      modifies this
      ensures Value() == AfterGrant(old(Value()), permits, expiresAt)
    {
      if permits > 0 {
        remaining := remaining + permits;
        this.expiresAt := expiresAt;
      }
      refreshing := false;
    }
  }

  // ---- the lease ----

  function Min(a: int, b: int): int {
    if a <= b then a else b
  }

  /** The permits of a lease that fall inside the limit, given the counter after adding it. */
  function Granted(used: nat, limit: nat, lease: nat): nat {
    var overshoot := used - limit;
    if overshoot >= lease then 0
    else if overshoot > 0 then lease - overshoot
    else lease
  }

  /** A lease grants exactly the part of the counter's advance that lies below the limit. */
  lemma GrantedIsTheAdvance(used: nat, limit: nat, lease: nat)
    requires lease <= used
    ensures Granted(used, limit, lease) == Min(used, limit) - Min(used - lease, limit)
  {
  }

  // ---- one worker, one request at a time ----

  /** A worker's bucket for one key, and the store's counter for it. */
  datatype Window = Window(bucket: Bucket, counter: nat)

  /** The store answers, or it does not and may have counted the lease all the same. */
  datatype Store = Up | Down(counted: bool)

  /** What `take` reads from outside: the clock at first Take, window end and second Take, and the store. */
  datatype Outside = Outside(first: int, end: int, second: int, store: Store)

  function CounterAfter(counter: nat, lease: nat, store: Store): nat {
    counter + if store.Up? || store.counted then lease else 0
  }

  function Leased(counter: nat, limit: nat, lease: nat, store: Store): nat {
    if store.Up? then Granted(counter + lease, limit, lease) else lease
  }

  function AfterRequest(w: Window, limit: nat, lease: nat, at: Outside): Window {
    var b := AfterTake(w.bucket, at.first);
    if !WantsRefill(w.bucket, at.first) then w.(bucket := b)
    else
      var filled := AfterGrant(b, Leased(w.counter, limit, lease, at.store), at.end);
      Window(if Takes(w.bucket, at.first) then filled else AfterTake(filled, at.second),
             CounterAfter(w.counter, lease, at.store))
  }

  function Admits(w: Window, limit: nat, lease: nat, at: Outside): bool {
    var b := AfterTake(w.bucket, at.first);
    if Takes(w.bucket, at.first) then true
    else if !WantsRefill(w.bucket, at.first) then false
    else Takes(AfterGrant(b, Leased(w.counter, limit, lease, at.store), at.end), at.second)
  }

  class Worker {
    const lease: nat
    const bucket: LocalBucket
    var counter: nat
    var failedOpen: nat

    constructor (lease: nat)
      ensures this.lease == lease && counter == 0 && failedOpen == 0 && bucket.Value() == Bucket(0, 0, false)
      ensures fresh(bucket)
    {
      this.lease := lease;
      bucket := new LocalBucket(0);
      counter, failedOpen := 0, 0;
    }

    function Value(): Window
      reads this, bucket
    {
      Window(bucket.Value(), counter)
    }

    /** Adds a lease to the store's counter and says how much of it may be spent; fails open. */
    method LeaseFrom(limit: nat, store: Store) returns (permits: nat)
      modifies this`counter, this`failedOpen
      ensures counter == CounterAfter(old(counter), lease, store)
      ensures permits == Leased(old(counter), limit, lease, store)
      ensures store.Up? ==> permits == Min(counter, limit) - Min(old(counter), limit)
      ensures failedOpen == old(failedOpen) + if store.Up? then 0 else 1
    {
      if store.Down? {
        if store.counted {
          counter := counter + lease;
        }
        failedOpen := failedOpen + 1;
        return lease;
      }
      counter := counter + lease;
      GrantedIsTheAdvance(counter, limit, lease);
      permits := Granted(counter, limit, lease);
    }

    method TakePermit(limit: nat, at: Outside) returns (ok: bool)
      modifies this`counter, this`failedOpen, bucket
      ensures Value() == AfterRequest(old(Value()), limit, lease, at)
      ensures ok == Admits(old(Value()), limit, lease, at)
    {
      var taken, shouldRefill := bucket.Take(at.first);
      if !shouldRefill {
        return taken;
      }
      var won := bucket.BeginRefill();
      if !won {
        return taken;
      }
      var permits := LeaseFrom(limit, at.store);
      bucket.Grant(permits, at.end);
      if taken {
        return true;
      }
      ok, shouldRefill := bucket.Take(at.second);
    }
  }

  /** All clock readings of a request lie in the window that ends at `end`, and the store answers. */
  predicate InWindow(at: Outside, end: int) {
    at.end == end && at.first <= end && at.second <= end && at.store.Up?
  }

  /** What a request finds after `n` earlier ones: the permits leased so far, less those spent. */
  ghost predicate Accounts(w: Window, n: nat, limit: nat, end: int) {
    && !w.bucket.refreshing
    && w.bucket.remaining == Min(w.counter, limit) - Min(n, limit)
    && (w.bucket.remaining > 0 ==> w.bucket.expiresAt == end)
  }

  lemma RequestKeepsAccounts(w: Window, n: nat, limit: nat, lease: nat, at: Outside, end: int)
    requires Accounts(w, n, limit, end) && InWindow(at, end) && lease > 0
    ensures Accounts(AfterRequest(w, limit, lease, at), n + 1, limit, end)
    ensures Admits(w, limit, lease, at) <==> n < limit
  {
    GrantedIsTheAdvance(w.counter + lease, limit, lease);
  }

  function AfterRequests(w: Window, ats: seq<Outside>, limit: nat, lease: nat): Window {
    if ats == [] then w
    else AfterRequest(AfterRequests(w, ats[..|ats| - 1], limit, lease), limit, lease, ats[|ats| - 1])
  }

  lemma {:induction false} AccountsHold(ats: seq<Outside>, limit: nat, lease: nat, end: int)
    requires lease > 0 && forall i :: 0 <= i < |ats| ==> InWindow(ats[i], end)
    ensures Accounts(AfterRequests(Window(Bucket(0, 0, false), 0), ats, limit, lease), |ats|, limit, end)
  {
    hide AfterRequest, Accounts;
    if ats == [] {
      EmptyAccounts(limit, end);
    } else {
      var front := ats[..|ats| - 1];
      AccountsHold(front, limit, lease, end);
      RequestKeepsAccounts(AfterRequests(Window(Bucket(0, 0, false), 0), front, limit, lease),
                           |front|, limit, lease, ats[|ats| - 1], end);
    }
  }

  lemma EmptyAccounts(limit: nat, end: int)
    ensures Accounts(Window(Bucket(0, 0, false), 0), 0, limit, end)
  {
  }

  /**
   * One worker, requests one after another in one window, the store up: whatever the lease size,
   * the limiter admits exactly the first `limit` requests.
   */
  lemma RefinesPlainCounter(ats: seq<Outside>, limit: nat, lease: nat, end: int, k: nat)
    requires lease > 0 && k < |ats| && forall i :: 0 <= i < |ats| ==> InWindow(ats[i], end)
    ensures var before := AfterRequests(Window(Bucket(0, 0, false), 0), ats[..k], limit, lease);
            Admits(before, limit, lease, ats[k]) <==> k < limit
  {
    hide AfterRequest, Accounts, Admits;
    AccountsHold(ats[..k], limit, lease, end);
    RequestKeepsAccounts(AfterRequests(Window(Bucket(0, 0, false), 0), ats[..k], limit, lease),
                         k, limit, lease, ats[k], end);
  }

  // ---- windows, outages and how far ahead a worker leases ----

  /** A permit is spent only within its window: past its expiry a lease is worth nothing. */
  lemma NothingSpentAfterExpiry(b: Bucket, now: int)
    ensures Takes(b, now) ==> now <= b.expiresAt && b.remaining > 0
    ensures Takes(b, now) <==> AfterTake(b, now).remaining < b.remaining && now <= b.expiresAt
    ensures now > b.expiresAt ==> AfterTake(b, now).remaining == 0
  {
  }

  /** A grant can be spent down to nothing until its window ends; a grant of nothing only ends the refill. */
  lemma GrantLastsItsWindow(b: Bucket, permits: nat, expiresAt: int, now: int)
    ensures AfterGrant(b, 0, expiresAt) == b.(refreshing := false)
    ensures permits > 0 ==> (Takes(AfterGrant(b, permits, expiresAt), now) <==> now <= expiresAt)
    ensures permits > 0 ==> AfterGrant(b, permits, expiresAt).remaining == b.remaining + permits
  {
  }

  /** Without the store a request that finds nothing is admitted on a whole lease all the same. */
  lemma FailsOpen(w: Window, limit: nat, lease: nat, at: Outside)
    requires at.store.Down? && !w.bucket.refreshing && lease > 0 && at.second <= at.end
    ensures Admits(w, limit, lease, at)
  {
  }

  /** A refill is wanted exactly when none is under way and the request leaves nothing behind. */
  lemma RefillsOnlyWhenEmpty(w: Window, limit: nat, lease: nat, at: Outside)
    requires at.store.Up? && lease > 0
    ensures AfterRequest(w, limit, lease, at).counter != w.counter <==>
            !w.bucket.refreshing && (at.first > w.bucket.expiresAt || w.bucket.remaining <= 1)
  {
  }

  /** Until the limit is reached a worker is never more than one lease ahead of its requests. */
  lemma {:induction false} AtMostOneLeaseAhead(ats: seq<Outside>, limit: nat, lease: nat, end: int)
    requires lease > 0 && |ats| < limit && forall i :: 0 <= i < |ats| ==> InWindow(ats[i], end)
    ensures AfterRequests(Window(Bucket(0, 0, false), 0), ats, limit, lease).counter <= |ats| + lease
  {
    hide AfterRequest, Accounts, Admits;
    if ats != [] {
      var front := ats[..|ats| - 1];
      AtMostOneLeaseAhead(front, limit, lease, end);
      AccountsHold(front, limit, lease, end);
      LeaseAheadStep(AfterRequests(Window(Bucket(0, 0, false), 0), front, limit, lease),
                     |front|, limit, lease, ats[|ats| - 1], end);
    }
  }

  lemma LeaseAheadStep(w: Window, n: nat, limit: nat, lease: nat, at: Outside, end: int)
    requires Accounts(w, n, limit, end) && InWindow(at, end) && lease > 0 && n + 1 < limit && w.counter <= n + lease
    ensures AfterRequest(w, limit, lease, at).counter <= n + 1 + lease
  {
    hide Granted;
  }
}
