/** When an account's quota is read next (internal/app/quota_schedule.go, display.go, quota.go). */
module Schedule {
  import opened Numbers
  import opened Model

  // Times and durations are nanoseconds; the zero time is 0 and stands for "none".
  const SECOND: nat := 1_000_000_000
  const ACTIVE_EVERY: nat := 20 * SECOND
  const OTHER_EVERY: nat := 120 * SECOND
  const RESET_SLACK: nat := 3 * SECOND
  const BACKOFF_MAX: nat := 600 * SECOND

  // ----- back-off -----

  /** The wait after one more refusal. */
  function NextWait(wait: nat): nat {
    if wait == 0 then ACTIVE_EVERY else if wait < BACKOFF_MAX then Min(2 * wait, BACKOFF_MAX) else wait
  }

  /** The wait after n refusals in a row. */
  function WaitAfter(n: nat): nat { if n == 0 then 0 else NextWait(WaitAfter(n - 1)) }

  function Pow2(n: nat): (r: nat)
    ensures r >= 1
  {
    if n == 0 then 1 else 2 * Pow2(n - 1)
  }

  /** The wait doubles from twenty seconds up to ten minutes. */
  lemma {:induction false} WaitDoubles(n: nat)
    requires n >= 1
    ensures WaitAfter(n) == Min(20_000_000_000 * Pow2(n - 1), 600_000_000_000)
  {
    if n == 1 {
      assert WaitAfter(0) == 0;
    } else {
      WaitDoubles(n - 1);
      assert Pow2(n - 1) == 2 * Pow2(n - 2);
    }
  }

  /** Up to `most`, as the fraction says. */
  function Jitter(most: nat, random: real): (j: nat)
    requires 0.0 <= random < 1.0
    ensures j <= most
  {
    JitterFits(most as real, random);
    (most as real * random).Floor
  }

  class QuotaBackoff {
    var wait: nat

    constructor ()
      ensures wait == 0
    {
      wait := 0;
    }

    /** When to try again; `random` is in [0, 1). Jitter takes up to a quarter off, and nothing at the cap. */
    method Fail(now: nat, random: real) returns (until: nat)
      requires 0.0 <= random < 1.0
      modifies this
      ensures wait == NextWait(old(wait))
      ensures old(wait) == 0 ==> wait == 20_000_000_000
      ensures 0 < old(wait) < 600_000_000_000 ==> wait == Min(2 * old(wait), 600_000_000_000)
      ensures old(wait) >= 600_000_000_000 ==> wait == old(wait)
      ensures now + wait - wait / 4 <= until <= now + wait
      ensures wait == 600_000_000_000 ==> until == now + wait
    {
      if wait == 0 {
        wait := ACTIVE_EVERY;
      } else if wait < BACKOFF_MAX {
        wait := Min(2 * wait, BACKOFF_MAX);
      }
      var jitter := Jitter(wait / 4, random);
      if wait == BACKOFF_MAX {
        jitter := 0;
      }
      return now + (wait - jitter);
    }
  }

  lemma JitterFits(most: real, random: real)
    requires most >= 0.0 && 0.0 <= random < 1.0
    ensures 0.0 <= most * random <= most
  {
  }

  // ----- one account's refusals -----

  /** How a read ended: the status of a Cloud error, or some other failure. */
  datatype Outcome = Good | Cloud(status: int) | OtherFailure

  predicate BacksOff(o: Outcome) { o.Cloud? && (o.status == 429 || o.status >= 500) }

  datatype Backoff = Backoff(wait: nat, until: nat)

  ghost predicate SameForOthers(before: map<Email, Backoff>, after: map<Email, Backoff>, e: Email) {
    before - {e} == after - {e}
  }

  class QuotaService {
    var backoffs: map<Email, Backoff>

    constructor ()
      ensures backoffs == map[]
    {
      backoffs := map[];
    }

    function BackoffUntil(e: Email): nat
      reads this
    {
      if e in backoffs then backoffs[e].until else 0
    }

    /** noteRead: a good read clears the back-off, a refusal extends it, any other failure leaves it. */
    method NoteRead(e: Email, o: Outcome, now: nat, random: real)
      requires 0.0 <= random < 1.0
      modifies this
      ensures o.Cloud? && (o.status == 429 || o.status >= 500) ==>
                && backoffs.Keys == old(backoffs).Keys + {e}
                && backoffs[e].wait == NextWait(if e in old(backoffs) then old(backoffs)[e].wait else 0)
                && now + backoffs[e].wait - backoffs[e].wait / 4 <= backoffs[e].until <= now + backoffs[e].wait
                && (backoffs[e].wait == 600_000_000_000 ==> backoffs[e].until == now + 600_000_000_000)
      ensures o == Good ==> backoffs == old(backoffs) - {e} && BackoffUntil(e) == 0
      ensures o != Good && (o.Cloud? ==> o.status != 429 && o.status < 500) ==> backoffs == old(backoffs)
      ensures SameForOthers(old(backoffs), backoffs, e)
    {
      if o == Good {
        backoffs := backoffs - {e};
      } else if BacksOff(o) {
        var state := new QuotaBackoff();
        state.wait := if e in backoffs then backoffs[e].wait else 0;
        var until := state.Fail(now, random);
        backoffs := backoffs[e := Backoff(state.wait, until)];
      }
    }
  }

  /** Refusals since the last good read; other failures do not count and do not clear. */
  function Refusals(history: seq<Outcome>): nat {
    if history == [] then 0
    else
      var last, before := history[|history| - 1], history[..|history| - 1];
      if last == Good then 0 else if BacksOff(last) then Refusals(before) + 1 else Refusals(before)
  }

  /** The wait kept for an account after a history of reads: 0 where nothing is kept. */
  function KeptWait(history: seq<Outcome>): nat {
    if history == [] then 0
    else
      var last, before := history[|history| - 1], history[..|history| - 1];
      if last == Good then 0 else if BacksOff(last) then NextWait(KeptWait(before)) else KeptWait(before)
  }

  /** The wait depends on the refusals since the last good read alone. */
  lemma {:induction false} WaitCountsRefusals(history: seq<Outcome>)
    ensures KeptWait(history) == WaitAfter(Refusals(history))
    ensures Refusals(history) > 0 ==>
              KeptWait(history) == Min(20_000_000_000 * Pow2(Refusals(history) - 1), 600_000_000_000)
  {
    if history != [] {
      WaitCountsRefusals(history[..|history| - 1]);
    }
    if Refusals(history) > 0 {
      WaitDoubles(Refusals(history));
    }
  }

  /** Feeding a history of one account's reads to the service keeps exactly that wait. */
  method NoteReads(q: QuotaService, e: Email, history: seq<Outcome>, times: seq<nat>, randoms: seq<real>)
    requires |times| == |randoms| == |history| && e !in q.backoffs
    requires forall i | 0 <= i < |randoms| :: 0.0 <= randoms[i] < 1.0
    modifies q
    ensures (if e in q.backoffs then q.backoffs[e].wait else 0) == WaitAfter(Refusals(history))
    ensures SameForOthers(old(q.backoffs), q.backoffs, e)
  {
    for i := 0 to |history|
      invariant (if e in q.backoffs then q.backoffs[e].wait else 0) == KeptWait(history[..i])
      invariant SameForOthers(old(q.backoffs), q.backoffs, e)
    {
      assert history[..i + 1][..i] == history[..i];
      q.NoteRead(e, history[i], times[i], randoms[i]);
    }
    assert history[..|history|] == history;
    WaitCountsRefusals(history);
  }

  // ----- due times -----

  /** A bucket counts as used up when its fraction is missing or not positive. */
  datatype Bucket = Bucket(remaining: Option<real>, resetAt: Option<nat>)

  /** `shared` says whether the pool is Gemini or Claude/GPT, which judge the account as a whole. */
  datatype Group = Group(shared: bool, buckets: seq<Bucket>)

  predicate UsedUp(b: Bucket) { b.remaining == None || b.remaining.value <= 0.0 }

  ghost predicate HasBucket(groups: seq<Group>, g: Group, b: Bucket) { g in groups && b in g.buckets }

  predicate ResetsAfter(b: Bucket, now: nat) { b.resetAt.Some? && b.resetAt.value > now }

  /** The longest wait of a used-up bucket among some buckets. */
  ghost predicate LongestWait(buckets: seq<Bucket>, now: nat, wait: nat) {
    && (forall b | b in buckets && UsedUp(b) && ResetsAfter(b, now) :: b.resetAt.value - now <= wait)
    && (wait > 0 ==> exists b :: b in buckets && UsedUp(b) && ResetsAfter(b, now) && b.resetAt.value - now == wait)
  }

  function SharedBuckets(groups: seq<Group>): seq<Bucket> {
    if groups == [] then [] else (if groups[0].shared then groups[0].buckets else []) + SharedBuckets(groups[1..])
  }

  function AllBuckets(groups: seq<Group>): seq<Bucket> {
    if groups == [] then [] else groups[0].buckets + AllBuckets(groups[1..])
  }

  lemma {:induction false} BucketsOf(groups: seq<Group>, b: Bucket)
    ensures b in AllBuckets(groups) <==> exists g :: HasBucket(groups, g, b)
    ensures b in SharedBuckets(groups) <==> exists g: Group :: g.shared && HasBucket(groups, g, b)
  {
    if groups != [] {
      BucketsOf(groups[1..], b);
      if g :| HasBucket(groups[1..], g, b) {
        assert HasBucket(groups, g, b);
      }
      if g: Group :| g.shared && HasBucket(groups[1..], g, b) {
        assert HasBucket(groups, g, b);
      }
      assert b in groups[0].buckets ==> HasBucket(groups, groups[0], b);
      assert forall g | HasBucket(groups, g, b) :: g == groups[0] || HasBucket(groups[1..], g, b);
    }
  }

  predicate SomeShared(groups: seq<Group>) {
    groups != [] && (groups[0].shared || SomeShared(groups[1..]))
  }

  /** quotaWait for no particular family. */
  method QuotaWait(groups: seq<Group>, now: nat) returns (wait: nat, known: bool)
    ensures known <==> SomeShared(groups)
    ensures LongestWait(SharedBuckets(groups), now, wait)
  {
    wait, known := 0, false;
    ghost var seen := [];
    for i := 0 to |groups|
      invariant SomeShared(groups) <==> known || SomeShared(groups[i..])
      invariant LongestWait(seen, now, wait)
      invariant SharedBuckets(groups) == seen + SharedBuckets(groups[i..])
    {
      var group := groups[i];
      assert groups[i..][1..] == groups[i + 1..];
      ghost var rest := SharedBuckets(groups[i + 1..]);
      assert SharedBuckets(groups[i..]) == if group.shared then group.buckets + rest else rest;
      assert seen + (group.buckets + rest) == (seen + group.buckets) + rest;
      if group.shared {
        known := true;
        wait := GroupWait(group.buckets, now, wait, seen);
        seen := seen + group.buckets;
      }
    }
    assert groups[|groups|..] == [] && seen + SharedBuckets([]) == seen;
  }

  /** The inner loop of quotaWait. */
  method GroupWait(buckets: seq<Bucket>, now: nat, longest: nat, ghost seen: seq<Bucket>) returns (wait: nat)
    requires LongestWait(seen, now, longest)
    ensures LongestWait(seen + buckets, now, wait)
  {
    wait := longest;
    assert seen + buckets[..0] == seen;
    for j := 0 to |buckets|
      invariant LongestWait(seen + buckets[..j], now, wait)
    {
      var b := buckets[j];
      assert seen + buckets[..j + 1] == (seen + buckets[..j]) + [b];
      LongestWaitNext(seen + buckets[..j], now, wait, b);
      if UsedUp(b) && b.resetAt.Some? && (b.resetAt.value as int) - now > wait {
        wait := b.resetAt.value - now;
      }
    }
    assert buckets[..|buckets|] == buckets;
  }

  lemma LongestWaitNext(seen: seq<Bucket>, now: nat, wait: nat, b: Bucket)
    requires LongestWait(seen, now, wait)
    ensures LongestWait(seen + [b], now, if UsedUp(b) && b.resetAt.Some?
            && (b.resetAt.value as int) - now > wait then b.resetAt.value - now else wait)
  {
    var next := if UsedUp(b) && b.resetAt.Some? && (b.resetAt.value as int) - now > wait then b.resetAt.value - now
        else wait;
    assert forall x :: x in seen + [b] <==> x in seen || x == b;
    if next > 0 && next == wait {
      var x :| x in seen && UsedUp(x) && ResetsAfter(x, now) && x.resetAt.value - now == wait;
      assert x in seen + [b];
    }
  }

  /** The earliest reset after a time, 0 for none. */
  ghost predicate EarliestReset(buckets: seq<Bucket>, after: nat, earliest: nat) {
    && (earliest == 0 ==> forall b | b in buckets :: !ResetsAfter(b, after))
    && (earliest != 0 ==> forall b | b in buckets && ResetsAfter(b, after) :: earliest <= b.resetAt.value)
    && (earliest != 0 ==> exists b :: b in buckets && ResetsAfter(b, after) && b.resetAt.value == earliest)
  }

  method NextQuotaReset(groups: seq<Group>, observed: nat) returns (earliest: nat)
    ensures EarliestReset(AllBuckets(groups), observed, earliest)
  {
    earliest := 0;
    ghost var seen := [];
    for i := 0 to |groups|
      invariant EarliestReset(seen, observed, earliest)
      invariant AllBuckets(groups) == seen + AllBuckets(groups[i..])
    {
      assert groups[i..][1..] == groups[i + 1..];
      earliest := GroupReset(groups[i].buckets, observed, earliest, seen);
      seen := seen + groups[i].buckets;
    }
    assert seen + AllBuckets([]) == seen;
  }

  /** The inner loop of nextQuotaReset. */
  method GroupReset(buckets: seq<Bucket>, observed: nat, soonest: nat, ghost seen: seq<Bucket>) returns (earliest: nat)
    requires EarliestReset(seen, observed, soonest)
    ensures EarliestReset(seen + buckets, observed, earliest)
  {
    earliest := soonest;
    assert seen + buckets[..0] == seen;
    for j := 0 to |buckets|
      invariant EarliestReset(seen + buckets[..j], observed, earliest)
    {
      var b := buckets[j];
      assert seen + buckets[..j + 1] == (seen + buckets[..j]) + [b];
      EarliestResetNext(seen + buckets[..j], observed, earliest, b);
      if ResetsAfter(b, observed) && (earliest == 0 || b.resetAt.value < earliest) {
        earliest := b.resetAt.value;
      }
    }
    assert buckets[..|buckets|] == buckets;
  }

  lemma EarliestResetNext(seen: seq<Bucket>, observed: nat, earliest: nat, b: Bucket)
    requires EarliestReset(seen, observed, earliest)
    ensures EarliestReset(seen + [b], observed, if ResetsAfter(b, observed)
            && (earliest == 0 || b.resetAt.value < earliest) then b.resetAt.value else earliest)
  {
    assert forall x :: x in seen + [b] <==> x in seen || x == b;
    if earliest != 0 {
      var x :| x in seen && ResetsAfter(x, observed) && x.resetAt.value == earliest;
      assert x in seen + [b];
    }
  }

  /** What the snapshot alone asks for: the interval, cut short by the first reset; all used up, that reset. */
  ghost predicate SnapshotDue(groups: seq<Group>, observed: nat, every: nat, due: nat) {
    exists wait: nat, earliest: nat :: SnapshotDueBy(groups, observed, every, due, wait, earliest)
  }

  ghost predicate SnapshotDueBy(groups: seq<Group>, observed: nat, every: nat, due: nat, wait: nat, earliest: nat) {
    && LongestWait(SharedBuckets(groups), observed, wait)
    && EarliestReset(AllBuckets(groups), observed, earliest)
    && due == if earliest != 0 && (wait > 0 || earliest + RESET_SLACK < observed + every) then earliest + RESET_SLACK
       else observed + every
  }

  function Every(active: bool): nat { if active then ACTIVE_EVERY else OTHER_EVERY }

  /** A used-up bucket's reset is one of the resets. */
  lemma WaitHasReset(groups: seq<Group>, observed: nat, wait: nat, earliest: nat)
    requires LongestWait(SharedBuckets(groups), observed, wait) && EarliestReset(AllBuckets(groups), observed, earliest)
    ensures wait > 0 ==> earliest != 0 && earliest <= observed + wait
  {
    if wait > 0 {
      var b :| b in SharedBuckets(groups) && UsedUp(b) && ResetsAfter(b, observed)
          && b.resetAt.value - observed == wait;
      BucketsOf(groups, b);
      var g: Group :| g.shared && HasBucket(groups, g, b);
      assert b in AllBuckets(groups);
    }
  }

  /** The latest of what the snapshot asks for, the last failed try plus the interval, and the end of the back-off. */
  ghost predicate Due(observed: nat, groups: seq<Group>, active: bool, tried: nat, backoffUntil: nat, due: nat) {
    exists base: nat :: SnapshotDue(groups, observed, Every(active), base)
        && due == Latest(base, active, tried, backoffUntil)
  }

  function Latest(base: nat, active: bool, tried: nat, backoffUntil: nat): int {
    Max(Max(base, if tried != 0 then tried + Every(active) else 0), backoffUntil)
  }

  /** The active account is read every twenty seconds, any other every two minutes. */
  ghost predicate IsEvery(active: bool, every: nat) {
    every == if active then 20_000_000_000 else 120_000_000_000
  }

  /**
   What a snapshot asks for: the interval, if no bucket of any pool resets after it; otherwise
   three seconds after the earliest reset, or the interval if that is earlier and no shared pool
   is used up.
   */
  ghost predicate Asks(observed: nat, groups: seq<Group>, active: bool, base: nat) {
    exists every: nat :: IsEvery(active, every) &&
      if forall b | b in AllBuckets(groups) :: !ResetsAfter(b, observed) then base == observed + every
      else exists b :: b in AllBuckets(groups) && AsksAt(observed, groups, every, base, b)
  }

  /** Without a snapshot an account is asked for at once. */
  ghost predicate IsAsked(observed: Option<nat>, groups: seq<Group>, active: bool, base: nat) {
    match observed case Some(o) => Asks(o, groups, active, base) case None => base == 0
  }

  ghost predicate AsksAt(observed: nat, groups: seq<Group>, every: nat, base: nat, b: Bucket) {
    && ResetsAfter(b, observed)
    && (forall x | x in AllBuckets(groups) && ResetsAfter(x, observed) :: b.resetAt.value <= x.resetAt.value)
    && base == if (exists u :: u in SharedBuckets(groups) && ResetsAfter(u, observed)
                               && (u.remaining == None || u.remaining.value <= 0.0))
                  || b.resetAt.value + 3_000_000_000 < observed + every
               then b.resetAt.value + 3_000_000_000 else observed + every
  }

  /**
   No earlier than what is asked for, than the interval after a failed try, or than the back-off
   ends; and no later.
   */
  ghost predicate LatestOf(base: nat, active: bool, tried: nat, backoffUntil: nat, due: nat) {
    exists every: nat :: IsEvery(active, every)
      && base <= due && backoffUntil <= due && (tried != 0 ==> tried + every <= due)
      && (due == base || due == backoffUntil || (tried != 0 && due == tried + every))
  }

  lemma DueAsks(groups: seq<Group>, observed: nat, active: bool, base: nat, wait: nat, earliest: nat)
    requires SnapshotDueBy(groups, observed, Every(active), base, wait, earliest)
    ensures Asks(observed, groups, active, base)
  {
    assert IsEvery(active, Every(active));
    if earliest != 0 {
      var b :| b in AllBuckets(groups) && ResetsAfter(b, observed) && b.resetAt.value == earliest;
      if wait > 0 {
        var u :| u in SharedBuckets(groups) && UsedUp(u) && ResetsAfter(u, observed)
                 && u.resetAt.value - observed == wait;
      }
      assert AsksAt(observed, groups, Every(active), base, b);
    }
  }

  /** quotaDueAt; an account without a snapshot is due at once, unless a failure holds it back. */
  method QuotaDueAt(observed: Option<nat>, groups: seq<Group>, active: bool, tried: nat, backoffUntil: nat)
    returns (due: nat)
    ensures if observed.Some? then Due(observed.value, groups, active, tried, backoffUntil, due)
            else due == Latest(0, active, tried, backoffUntil)
    ensures exists base: nat ::
              LatestOf(base, active, tried, backoffUntil, due) && IsAsked(observed, groups, active, base)
  {
    var every := Every(active);
    due := 0;
    ghost var base := 0;
    if observed.Some? {
      due := observed.value + every;
      var wait, _ := QuotaWait(groups, observed.value);
      if wait > 0 {
        due := observed.value + (wait + RESET_SLACK);
      }
      var reset := NextQuotaReset(groups, observed.value);
      WaitHasReset(groups, observed.value, wait, reset);
      if reset != 0 && reset + RESET_SLACK < due {
        due := reset + RESET_SLACK;
      }
      base := due;
      DueAsks(groups, observed.value, active, base, wait, reset);
      assert SnapshotDueBy(groups, observed.value, every, base, wait, reset);
    }
    if tried != 0 && tried + every > due {
      due := tried + every;
    }
    if backoffUntil > due {
      due := backoffUntil;
    }
    assert due == Latest(base, active, tried, backoffUntil);
    DueIsLatest(base, active, tried, backoffUntil, due);
    assert IsAsked(observed, groups, active, base);
  }

  lemma DueIsLatest(base: nat, active: bool, tried: nat, backoffUntil: nat, due: nat)
    requires due == Latest(base, active, tried, backoffUntil)
    ensures LatestOf(base, active, tried, backoffUntil, due)
  {
    assert IsEvery(active, Every(active));
  }

  /**
   A due time is never before the back-off ends nor before the last failed try plus the
   interval. With neither it is at most three seconds after any reset, and if the shared
   pools are used up exactly three seconds after the earliest reset of any pool.
   */
  lemma DueIsBounded(observed: nat, groups: seq<Group>, active: bool, tried: nat, backoffUntil: nat, due: nat,
                     b: Bucket)
    requires Due(observed, groups, active, tried, backoffUntil, due)
    ensures due >= backoffUntil && (tried != 0 ==> due >= tried + Every(active))
    ensures tried == 0 && backoffUntil == 0 && b in AllBuckets(groups) && ResetsAfter(b, observed) ==>
            due <= b.resetAt.value + RESET_SLACK
    ensures tried == 0 && backoffUntil == 0 && (exists u ::
            u in SharedBuckets(groups) && UsedUp(u) && ResetsAfter(u, observed)) ==>
              exists e: nat :: EarliestReset(AllBuckets(groups), observed, e) && due == e + RESET_SLACK
    ensures tried == 0 && backoffUntil == 0 ==> due <= observed + Every(active) || exists u ::
            u in SharedBuckets(groups) && UsedUp(u)
  {
    var base: nat :| SnapshotDue(groups, observed, Every(active), base)
        && due == Latest(base, active, tried, backoffUntil);
    var wait: nat, earliest: nat :| SnapshotDueBy(groups, observed, Every(active), base, wait, earliest);
    WaitHasReset(groups, observed, wait, earliest);
    if u :| u in SharedBuckets(groups) && UsedUp(u) && ResetsAfter(u, observed) {
      assert u.resetAt.value - observed <= wait && EarliestReset(AllBuckets(groups), observed, earliest);
    }
  }

  /** No bucket of any pool resets while the used-up pools wait. */
  ghost predicate QuietWait(groups: seq<Group>, observed: nat, wait: nat) {
    forall b | b in AllBuckets(groups) && ResetsAfter(b, observed) :: observed + wait <= b.resetAt.value
  }

  /**
   With shared pools used up for another `wait`, an account is left alone until they are back,
   and three seconds more, exactly when no bucket of any pool resets before that, or the retry
   interval or the back-off holds it back.
   */
  lemma WaitsItOutIff(observed: nat, groups: seq<Group>, active: bool, tried: nat, backoffUntil: nat, due: nat,
                      wait: nat)
    requires LongestWait(SharedBuckets(groups), observed, wait) && wait > 0
    requires Due(observed, groups, active, tried, backoffUntil, due)
    ensures due >= observed + wait + RESET_SLACK
            <==> || QuietWait(groups, observed, wait)
                 || (tried != 0 && tried + Every(active) >= observed + wait + RESET_SLACK)
                 || backoffUntil >= observed + wait + RESET_SLACK
    ensures tried == 0 && backoffUntil == 0 ==>
              (due == observed + wait + RESET_SLACK <==> QuietWait(groups, observed, wait))
  {
    var base: nat :| SnapshotDue(groups, observed, Every(active), base)
        && due == Latest(base, active, tried, backoffUntil);
    var same: nat, earliest: nat :| SnapshotDueBy(groups, observed, Every(active), base, same, earliest);
    OneLongestWait(SharedBuckets(groups), observed, wait, same);
    WaitHasReset(groups, observed, wait, earliest);
    assert base == earliest + RESET_SLACK;
    assert QuietWait(groups, observed, wait) <==> earliest == observed + wait by {
      var b :| b in AllBuckets(groups) && ResetsAfter(b, observed) && b.resetAt.value == earliest;
    }
  }

  lemma OneLongestWait(buckets: seq<Bucket>, now: nat, a: nat, b: nat)
    requires LongestWait(buckets, now, a) && LongestWait(buckets, now, b)
    ensures a == b
  {
  }

  const SPENT := Bucket(Some(0.0), Some(7200 * SECOND))
  const RENEWED := Bucket(Some(0.5), Some(3600 * SECOND))

  /** Another pool's reset an hour before: the account is read an hour early, and finds its quota still used up. */
  lemma ReadTooEarly(active: bool, due: nat)
    requires Due(0, [Group(true, [SPENT]), Group(false, [RENEWED])], active, 0, 0, due)
    ensures LongestWait(SharedBuckets([Group(true, [SPENT]), Group(false, [RENEWED])]), 0, 7200 * SECOND)
    ensures due < 7200 * SECOND
  {
    var groups := [Group(true, [SPENT]), Group(false, [RENEWED])];
    assert groups[1..] == [Group(false, [RENEWED])] && groups[1..][1..] == [];
    assert AllBuckets(groups[1..]) == [RENEWED] + AllBuckets([]) == [RENEWED];
    assert SharedBuckets(groups[1..]) == SharedBuckets([]) == [];
    assert SharedBuckets(groups) == [SPENT] && AllBuckets(groups) == [SPENT] + [RENEWED];
    assert RENEWED in AllBuckets(groups) && ResetsAfter(RENEWED, 0);
    DueIsBounded(0, groups, active, 0, 0, due, RENEWED);
  }
}
