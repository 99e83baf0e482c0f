/** What the token bucket owes a thread: it is served whenever its tokens and its refill cover a slice. */
module BucketLaw {
  import opened Arithmetic
  import opened Machine
  import opened Samples
  import opened TokenBucket

  /** What a call finds in a bucket last refilled for its own link: the tokens left and one token per divisor elapsed, up to the capacity. */
  ghost function Funds(b: Bucket, now: nat, k: Knobs): u64
    requires b.lastRefill <= now
  {
    Min(b.tokens + (now - b.lastRefill) / k.divisor, k.capacity)
  }

  /** The bucket belongs to the link and has been refilled before. */
  ghost predicate Runs(b: Bucket, link: nat, now: nat) { b.link == Some(link) && 0 < b.lastRefill <= now }

  /** A call is served from its funds exactly when they cover a slice, and keeps the rest; else it waits, or the watchdog serves it. */
  ghost predicate Serves(b: Bucket, c: Call, k: Knobs, funds: u64, first: u64) {
    var (after, a) := Handled(b, c, k);
    && after.link == c.villain && after.lastRefill == c.now
    && (funds >= k.slice ==> a == Some(Reslice(k.slice, funds - k.slice)) && after.tokens == funds - k.slice && after.deferStarted == 0)
    && (funds < k.slice && c.now - first < DEFER_UPPER_BOUND_NS ==> a == Some(Defer(funds)) && after.tokens == funds && after.deferStarted == first)
    && (funds < k.slice && c.now - first >= DEFER_UPPER_BOUND_NS ==> a == Some(Reslice(k.slice, 0)) && after.tokens == 0 && after.deferStarted == 0)
  }

  /** The first deferral of the streak that a call on the same link would continue. */
  ghost function FirstWait(b: Bucket, now: u64): u64 { if b.deferStarted == 0 then now else b.deferStarted }

  lemma FundsDecide(b: Bucket, c: Call, k: Knobs, link: nat)
    requires Acts(c, k) && c.villain == Some(link) && Runs(b, link, c.now) && b.deferStarted <= c.now
    ensures Serves(b, c, k, Funds(b, c.now, k), FirstWait(b, c.now))
    ensures Pays(b, c, k) <==> b.tokens + (c.now - b.lastRefill) / k.divisor >= k.slice
  {
    DivisionGrows(0, c.now - b.lastRefill, k.divisor);
  }

  /** A bucket of another link, or a new one, has a full bucket's funds. */
  lemma NewLinkHasCapacity(b: Bucket, c: Call, k: Knobs, link: nat)
    requires Acts(c, k) && c.villain == Some(link) && (b.link != Some(link) || b.lastRefill == 0)
    ensures Serves(b, c, k, k.capacity, c.now)
  {
  }

  /** Over a run on one link: a call a slice's worth of refill after the run's last one never waits. */
  lemma WaitingBuysASlice(b: Bucket, calls: seq<Call>, c: Call, k: Knobs, link: nat)
    requires calls != [] && OnLink(calls, link) && Monotone(calls) && Acts(c, k) && c.villain == Some(link)
    requires c.now >= calls[|calls| - 1].now + Product(k.slice, k.divisor)
    requires SomeActs(calls, k)
    ensures Pays(After(b, calls, k), c, k)
  {
    var s := After(b, calls, k);
    TokensAreConserved(b, calls, k, link);
    QuotientOf(k.slice, k.divisor, 0);
    DivisionGrows(Product(k.slice, k.divisor), c.now - s.lastRefill, k.divisor);
  }

  ghost function Product(a: nat, b: nat): nat { a * b }

  ghost predicate AllAct(calls: seq<Call>, k: Knobs) { forall i :: 0 <= i < |calls| ==> Acts(calls[i], k) }

  /** A full bucket pays for a burst of calls in a row, as many slices as its capacity holds, however fast they come. */
  lemma {:induction false} BurstIsServed(b: Bucket, calls: seq<Call>, k: Knobs, link: nat)
    requires calls != [] && OnLink(calls, link) && Monotone(calls) && AllAct(calls, k) && b.link != Some(link)
    requires Product(|calls|, k.slice) <= k.capacity
    ensures Paid(b, calls, k) == Product(|calls|, k.slice)
    ensures Runs(After(b, calls, k), link, calls[|calls| - 1].now)
    ensures After(b, calls, k).tokens >= k.capacity - Product(|calls|, k.slice)
  {
    var init, c := calls[..|calls| - 1], calls[|calls| - 1];
    assert Acts(c, k) && c.villain == Some(link);
    assert Product(|calls|, k.slice) == Product(|init|, k.slice) + k.slice;
    if init == [] {
      assert Paid(b, init, k) == 0;
      NewLinkHasCapacity(b, c, k, link);
    } else {
      BurstIsServed(b, init, k, link);
      NextOfBurst(After(b, init, k), c, k, link, k.capacity - Product(|init|, k.slice));
    }
  }

  lemma NextOfBurst(b: Bucket, c: Call, k: Knobs, link: nat, atLeast: nat)
    requires Acts(c, k) && c.villain == Some(link) && Runs(b, link, c.now) && k.slice <= atLeast <= b.tokens && atLeast <= k.capacity
    ensures Pays(b, c, k) && Runs(Handled(b, c, k).0, link, c.now) && Handled(b, c, k).0.tokens >= atLeast - k.slice
  {
    DivisionGrows(0, c.now - b.lastRefill, k.divisor);
  }
}
