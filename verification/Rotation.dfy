/** Ranking accounts and rotating through them (internal/app/extended.go, cli.go). */
module Rotation {
  import opened Model

  /** One quota pool of an account's snapshot; `families` are those it is counted in. */
  datatype Pool = Pool(id: string, fraction: real, families: set<string>)

  /** What ranking reads of an account: durations in nanoseconds, None for unknown. */
  datatype Facts = Facts(pools: seq<Pool>, age: Option<int>, cooldown: string -> Option<int>, needsVerify: bool)

  datatype Policy = Policy(name: string, preferFamily: string, minRemainingPct: int)

  datatype Recommendation = Recommendation(email: Email, score: int, ready: bool, remaining: real, family: string)

  const TWO_MINUTES := 120_000_000_000

  // ----- accountRemaining -----

  /** The pool that limits a family: a lowest one, and the first of those. */
  ghost predicate Limits(pools: seq<Pool>, family: string, i: nat) {
    && i < |pools| && family in pools[i].families
    && (forall k | 0 <= k < |pools| && family in pools[k].families :: pools[i].fraction <= pools[k].fraction)
    && (forall k | 0 <= k < i && family in pools[k].families :: pools[i].fraction < pools[k].fraction)
  }

  function Limiting(pools: seq<Pool>, family: string): (r: Option<nat>)
    ensures r.Some? ==> Limits(pools, family, r.value)
    ensures r.None? ==> forall k | 0 <= k < |pools| :: family !in pools[k].families
  {
    if pools == [] then None
    else
      var n := |pools| - 1;
      var r := Limiting(pools[..n], family);
      if family in pools[n].families && (r == None || pools[n].fraction < pools[r.value].fraction) then Some(n) else r
  }

  /** The percentage, if known, and the id of the limiting pool. */
  function Remaining(pools: seq<Pool>, family: string): (real, bool, string) {
    match Limiting(pools, family)
    case Some(i) => (pools[i].fraction * 100.0, true, pools[i].id)
    case None => (0.0, false, "")
  }

  method AccountRemaining(pools: seq<Pool>, family: string) returns (remaining: real, known: bool, id: string)
    ensures (remaining, known, id) == Remaining(pools, family)
  {
    var limiting: Option<nat> := None;
    for i := 0 to |pools|
      invariant limiting == Limiting(pools[..i], family)
    {
      assert pools[..i + 1][..i] == pools[..i];
      if family in pools[i].families && (limiting == None || pools[i].fraction < pools[limiting.value].fraction) {
        limiting := Some(i);
      }
    }
    assert pools[..|pools|] == pools;
    match limiting {
      case Some(i) => return pools[i].fraction * 100.0, true, pools[i].id;
      case None => return 0.0, false, "";
    }
  }

  // ----- scores -----

  /** How many places after the active account an account comes up, the active one being last. */
  function Distance(n: nat, active: int, index: int): int {
    if index > active then index - active - 1 else index - active - 1 + n
  }

  /** The round-robin score, as computed with a remainder. */
  function RotationScore(n: nat, active: int, index: int): int
    requires n > 0
  {
    n - (index - active - 1 + n) % n
  }

  lemma ScoreIsDistance(n: nat, active: int, index: int)
    requires -1 <= active < n && 0 <= index < n
    ensures RotationScore(n, active, index) == n - Distance(n, active, index)
    ensures 0 <= Distance(n, active, index) < n
  {
    var d := Distance(n, active, index);
    RemainderIs(if index > active then 1 else 0, d, n);
  }

  lemma RemainderIs(q: nat, d: int, n: nat)
    requires 0 <= d < n && q <= 1
    ensures (q * n + d) % n == d
  {
  }

  /** The scores of n accounts are the numbers 1 to n, each once. */
  lemma ScoresAreOneToN(n: nat, active: int, score: int)
    requires -1 <= active < n && 1 <= score <= n
    ensures exists index :: 0 <= index < n && RotationScore(n, active, index) == score
    ensures forall i, j | 0 <= i < n && 0 <= j < n && RotationScore(n, active, i) == RotationScore(n, active, j) ::
            i == j
    ensures forall i | 0 <= i < n :: 1 <= RotationScore(n, active, i) <= n
  {
    forall i | 0 <= i < n ensures RotationScore(n, active, i) == n - Distance(n, active, i)
        && 0 <= Distance(n, active, i) < n {
      ScoreIsDistance(n, active, i);
    }
    var back := active + 1 + n - score;
    var index := if back < n then back else back - n;
    assert Distance(n, active, index) == n - score;
    assert RotationScore(n, active, index) == score;
  }

  // ----- rankAccounts -----

  /** Everything a ranking depends on besides the accounts. */
  datatype Query = Query(policy: Policy, tags: map<Email, seq<string>>, profile: Option<Profile>,
                         active: Option<Email>, family: string, tag: string)

  function FamilyOf(q: Query): string {
    if q.family != "" then q.family
    else if q.profile.Some? && q.profile.value.family != "" then q.profile.value.family
    else q.policy.preferFamily
  }

  function PolicyOf(q: Query): string {
    if q.profile.Some? && q.profile.value.policy != "" then q.profile.value.policy else q.policy.name
  }

  /** int() of a float truncates toward zero. */
  function Truncated(x: real): int { if x >= 0.0 then x.Floor else -((-x).Floor) }

  predicate Included(q: Query, e: Email) {
    && (q.tag == "" || (e in q.tags && q.tag in q.tags[e]))
    && (q.profile.Some? && q.profile.value.reserves != [] ==>
       e == q.profile.value.account || e in q.profile.value.reserves)
  }

  predicate IsReady(f: Facts, family: string, minPct: int) {
    var (remaining, known, _) := Remaining(f.pools, family);
    && !f.needsVerify && known
    && f.age.Some? && f.age.value <= TWO_MINUTES
    && (f.cooldown(family).Some? ==> f.cooldown(family).value <= 0)
    && remaining > 0.0 && remaining >= minPct as real
  }

  function Preferred(q: Query): Option<Email> {
    if q.profile.Some? then Some(q.profile.value.account) else q.active
  }

  function ScoreOf(q: Query, n: nat, active: int, index: int, e: Email, f: Facts): int
    requires n > 0
  {
    var base := Truncated(Remaining(f.pools, FamilyOf(q)).0) - (if f.needsVerify then 1000 else 0);
    if PolicyOf(q) == "sticky" then base + (if Preferred(q) == Some(e) then 200 else 0)
    else if PolicyOf(q) == "round-robin" then RotationScore(n, active, index)
    else base
  }

  function ItemFor(q: Query, n: nat, active: int, index: int, e: Email, f: Facts): Recommendation
    requires n > 0
  {
    var (remaining, _, group) := Remaining(f.pools, FamilyOf(q));
    Recommendation(e, ScoreOf(q, n, active, index, e, f), IsReady(f, FamilyOf(q), q.policy.minRemainingPct),
                   remaining, group)
  }

  /** The place of the active account, or -1. */
  function ActiveIndex(order: seq<Email>, active: Option<Email>): (r: int)
    ensures -1 <= r < |order|
    ensures r >= 0 ==> active == Some(order[r])
    ensures r < 0 ==> forall i | 0 <= i < |order| :: active != Some(order[i])
  {
    if order == [] then -1
    else if active == Some(order[|order| - 1]) then |order| - 1
    else ActiveIndex(order[..|order| - 1], active)
  }

  /** The candidates among the first k accounts, in account order. */
  function Candidates(q: Query, order: seq<Email>, facts: map<Email, Facts>, k: nat): seq<Recommendation>
    requires k <= |order| && forall e | e in order :: e in facts
  {
    if k == 0 then []
    else
      var e := order[k - 1];
      var before := Candidates(q, order, facts, k - 1);
      if Included(q, e) then before + [ItemAt(q, order, facts, k - 1)] else before
  }

  function ItemAt(q: Query, order: seq<Email>, facts: map<Email, Facts>, i: nat): Recommendation
    requires i < |order| && order[i] in facts
  {
    ItemFor(q, |order|, ActiveIndex(order, q.active), i, order[i], facts[order[i]])
  }

  predicate Reserve(q: Query, e: Email) { q.profile.Some? && e in q.profile.value.reserves }

  /** Ready accounts first, then a profile's other accounts before its reserves, then by score. */
  predicate Precedes(q: Query, a: Recommendation, b: Recommendation) {
    if a.ready != b.ready then a.ready
    else if Reserve(q, a.email) != Reserve(q, b.email) then !Reserve(q, a.email)
    else a.score > b.score
  }

  predicate Tied(q: Query, a: Recommendation, b: Recommendation) { !Precedes(q, a, b) && !Precedes(q, b, a) }

  /** sort.SliceStable, as an insertion sort. */
  function StablySorted(q: Query, s: seq<Recommendation>): seq<Recommendation> {
    if s == [] then [] else Inserted(q, s[0], StablySorted(q, s[1..]))
  }

  function Inserted(q: Query, x: Recommendation, s: seq<Recommendation>): seq<Recommendation> {
    if s == [] || !Precedes(q, s[0], x) then [x] + s else [s[0]] + Inserted(q, x, s[1..])
  }

  ghost predicate Ranked(q: Query, s: seq<Recommendation>) {
    forall i, j | 0 <= i < j < |s| :: !Precedes(q, s[j], s[i])
  }

  /** The items tied with x, in the order they stand in. */
  ghost function TiedWith(q: Query, s: seq<Recommendation>, x: Recommendation): seq<Recommendation> {
    if s == [] then [] else (if Tied(q, s[0], x) then [s[0]] else []) + TiedWith(q, s[1..], x)
  }

  lemma {:induction false} InsertedMembers(q: Query, x: Recommendation, s: seq<Recommendation>)
    ensures multiset(Inserted(q, x, s)) == multiset(s) + multiset{x}
    ensures forall y | y in Inserted(q, x, s) :: y == x || y in s
  {
    if s != [] && Precedes(q, s[0], x) {
      InsertedMembers(q, x, s[1..]);
      assert s == [s[0]] + s[1..];
    }
  }

  lemma PrependRanked(q: Query, x: Recommendation, s: seq<Recommendation>)
    requires Ranked(q, s) && forall y | y in s :: !Precedes(q, y, x)
    ensures Ranked(q, [x] + s)
  {
  }

  lemma TailRanked(q: Query, s: seq<Recommendation>)
    requires Ranked(q, s) && s != []
    ensures Ranked(q, s[1..]) && forall y | y in s[1..] :: !Precedes(q, y, s[0])
  {
  }

  lemma {:induction false} InsertedIsRanked(q: Query, x: Recommendation, s: seq<Recommendation>)
    requires Ranked(q, s)
    ensures Ranked(q, Inserted(q, x, s))
  {
    if s == [] {
    } else if Precedes(q, s[0], x) {
      TailRanked(q, s);
      InsertedIsRanked(q, x, s[1..]);
      InsertedMembers(q, x, s[1..]);
      PrependRanked(q, s[0], Inserted(q, x, s[1..]));
    } else {
      TailRanked(q, s);
      forall y | y in s ensures !Precedes(q, y, x) {
        assert y == s[0] || y in s[1..];
      }
      PrependRanked(q, x, s);
    }
  }

  lemma {:induction false} InsertedIsStable(q: Query, x: Recommendation, s: seq<Recommendation>, y: Recommendation)
    ensures TiedWith(q, Inserted(q, x, s), y) == TiedWith(q, [x] + s, y)
  {
    assert ([x] + s)[1..] == s;
    if s != [] && Precedes(q, s[0], x) {
      InsertedIsStable(q, x, s[1..], y);
      var r := Inserted(q, x, s);
      assert r[1..] == Inserted(q, x, s[1..]);
      assert ([x] + s[1..])[1..] == s[1..];
      assert !(Tied(q, x, y) && Tied(q, s[0], y));
    }
  }

  /** The ranking is a stable sort: a permutation, in order, ties kept as they were. */
  lemma {:induction false} RankingIsStableSort(q: Query, s: seq<Recommendation>, y: Recommendation)
    ensures Ranked(q, StablySorted(q, s)) && multiset(StablySorted(q, s)) == multiset(s)
    ensures TiedWith(q, StablySorted(q, s), y) == TiedWith(q, s, y)
  {
    if s != [] {
      var t := StablySorted(q, s[1..]);
      RankingIsStableSort(q, s[1..], y);
      InsertedIsRanked(q, s[0], t);
      InsertedMembers(q, s[0], t);
      InsertedIsStable(q, s[0], t, y);
      assert s == [s[0]] + s[1..];
      assert ([s[0]] + t)[1..] == t;
    }
  }

  // ----- what the items say -----

  /**
   An account can be rotated to: it needs no verification, its snapshot is at most two minutes
   old, no cooldown of the family is running, it has a pool of the family, and every such pool
   holds something and at least the minimum.
   */
  ghost predicate Fit(f: Facts, family: string, minPct: int) {
    && !f.needsVerify
    && f.age.Some? && f.age.value <= 120_000_000_000
    && (f.cooldown(family).Some? ==> f.cooldown(family).value <= 0)
    && (exists k :: 0 <= k < |f.pools| && family in f.pools[k].families)
    && forall k | 0 <= k < |f.pools| && family in f.pools[k].families ::
         f.pools[k].fraction > 0.0 && f.pools[k].fraction * 100.0 >= minPct as real
  }

  lemma ReadyIsFit(f: Facts, family: string, minPct: int)
    ensures IsReady(f, family, minPct) <==> Fit(f, family, minPct)
  {
  }

  /** The family asked for, else the profile's, else the policy's. */
  ghost predicate IsFamily(q: Query, family: string) {
    family == if q.family != "" then q.family
              else if q.profile.Some? && q.profile.value.family != "" then q.profile.value.family
              else q.policy.preferFamily
  }

  /** Without the tag asked for, or outside a profile with reserves, an account is left out. */
  ghost predicate Admitted(q: Query, e: Email) {
    && (q.tag != "" ==> e in q.tags && q.tag in q.tags[e])
    && match q.profile
       case Some(p) => p.reserves == [] || e == p.account || e in p.reserves
       case None => true
  }

  /** The item of the i-th account is ready exactly if the account can be rotated to. */
  ghost predicate Describes(q: Query, order: seq<Email>, facts: map<Email, Facts>, i: nat, x: Recommendation) {
    && i < |order| && order[i] in facts && x.email == order[i]
    && IsFamily(q, FamilyOf(q)) && (x.ready <==> Fit(facts[order[i]], FamilyOf(q), q.policy.minRemainingPct))
  }

  /** It shows the limiting pool, and its score is by policy. */
  ghost predicate ScoredAt(q: Query, order: seq<Email>, facts: map<Email, Facts>, i: nat, x: Recommendation) {
    && i < |order| && order[i] in facts && x.email == order[i]
    && ShowsLimiting(facts[order[i]].pools, FamilyOf(q), x) && Scores(q, order, facts[order[i]], i, x)
  }

  ghost predicate AllScored(q: Query, order: seq<Email>, facts: map<Email, Facts>, s: seq<Recommendation>) {
    forall x | x in s :: exists i: nat :: ScoredAt(q, order, facts, i, x)
  }

  /** The percentage and the id of a lowest pool of the family; nothing without one. */
  ghost predicate ShowsLimiting(pools: seq<Pool>, family: string, x: Recommendation) {
    || (exists k: nat ::
          Limits(pools, family, k) && x.remaining == pools[k].fraction * 100.0 && x.family == pools[k].id)
    || ((forall k | 0 <= k < |pools| :: family !in pools[k].families) && x.remaining == 0.0 && x.family == "")
  }

  /**
   Round-robin scores an account by its distance from the active one; any other policy by the
   whole percents of its limiting pool, a thousand less if it needs verification, and sticky
   with two hundred more for the preferred account.
   */
  ghost predicate Scores(q: Query, order: seq<Email>, f: Facts, i: nat, x: Recommendation)
    requires i < |order|
  {
    var name := if q.profile.Some? && q.profile.value.policy != "" then q.profile.value.policy else q.policy.name;
    var preferred := if q.profile.Some? then Some(q.profile.value.account) else q.active;
    if name == "round-robin" then x.score == |order| - Distance(|order|, ActiveIndex(order, q.active), i)
    else
      var whole := x.score + (if f.needsVerify then 1000 else 0)
                   - if name == "sticky" && preferred == Some(order[i]) then 200 else 0;
      whole == if x.remaining >= 0.0 then x.remaining.Floor else -((-x.remaining).Floor)
  }

  lemma ItemDescribed(q: Query, order: seq<Email>, facts: map<Email, Facts>, i: nat)
    requires i < |order| && order[i] in facts
    ensures Describes(q, order, facts, i, ItemAt(q, order, facts, i))
  {
    ReadyIsFit(facts[order[i]], FamilyOf(q), q.policy.minRemainingPct);
  }

  lemma ItemScored(q: Query, order: seq<Email>, facts: map<Email, Facts>, i: nat)
    requires i < |order| && order[i] in facts
    ensures ScoredAt(q, order, facts, i, ItemAt(q, order, facts, i))
  {
    var f, family := facts[order[i]], FamilyOf(q);
    ScoreIsDistance(|order|, ActiveIndex(order, q.active), i);
    var k := Limiting(f.pools, family);
    assert k.Some? ==> Limits(f.pools, family, k.value);
  }

  lemma {:induction false} CandidatesScored(q: Query, order: seq<Email>, facts: map<Email, Facts>, k: nat)
    requires k <= |order| && forall e | e in order :: e in facts
    ensures AllScored(q, order, facts, Candidates(q, order, facts, k))
  {
    if k > 0 {
      CandidatesScored(q, order, facts, k - 1);
      ItemScored(q, order, facts, k - 1);
    }
  }

  /** The item is that of an admitted account among the first k. */
  ghost predicate Belongs(q: Query, order: seq<Email>, facts: map<Email, Facts>, k: nat, x: Recommendation)
  {
    exists i: nat :: i < k && Describes(q, order, facts, i, x) && Admitted(q, x.email)
  }

  ghost predicate HasItem(q: Query, order: seq<Email>, facts: map<Email, Facts>, i: nat, s: seq<Recommendation>)
  {
    exists x :: x in s && Describes(q, order, facts, i, x)
  }

  /** The items are those of the admitted accounts among the first k. */
  ghost predicate ItemsOf(q: Query, order: seq<Email>, facts: map<Email, Facts>, k: nat, s: seq<Recommendation>)
    requires k <= |order|
  {
    && (forall x | x in s :: Belongs(q, order, facts, k, x))
    && forall i: nat | i < k && Admitted(q, order[i]) :: HasItem(q, order, facts, i, s)
  }

  lemma ItemsNext(q: Query, order: seq<Email>, facts: map<Email, Facts>, k: nat, s: seq<Recommendation>,
                  x: Recommendation)
    requires k < |order| && (forall e | e in order :: e in facts) && ItemsOf(q, order, facts, k, s)
    requires Describes(q, order, facts, k, x)
    ensures ItemsOf(q, order, facts, k + 1, if Admitted(q, order[k]) then s + [x] else s)
  {
    var t := if Admitted(q, order[k]) then s + [x] else s;
    forall y | y in t ensures Belongs(q, order, facts, k + 1, y) {
      if y in s {
        assert Belongs(q, order, facts, k, y);
      }
    }
    forall i: nat | i < k + 1 && Admitted(q, order[i]) ensures HasItem(q, order, facts, i, t) {
      if i < k {
        assert HasItem(q, order, facts, i, s);
      } else {
        assert x in t;
      }
    }
  }

  /** Each admitted account has its item among the candidates, and nobody else has one. */
  lemma {:induction false} CandidatesDescribed(q: Query, order: seq<Email>, facts: map<Email, Facts>, k: nat)
    requires k <= |order| && forall e | e in order :: e in facts
    ensures ItemsOf(q, order, facts, k, Candidates(q, order, facts, k))
  {
    if k > 0 {
      CandidatesDescribed(q, order, facts, k - 1);
      ItemDescribed(q, order, facts, k - 1);
      assert Included(q, order[k - 1]) <==> Admitted(q, order[k - 1]);
      ItemsNext(q, order, facts, k - 1, Candidates(q, order, facts, k - 1), ItemAt(q, order, facts, k - 1));
    }
  }

  ghost predicate InOrder(q: Query, s: seq<Recommendation>) {
    forall i, j | 0 <= i < j < |s| :: Earlier(q, s[i], s[j])
  }

  /** The first of two items: ready before not ready, then no reserve before a reserve, then no lower score. */
  ghost predicate Earlier(q: Query, a: Recommendation, b: Recommendation) {
    var reserves := if q.profile.Some? then q.profile.value.reserves else [];
    && (b.ready ==> a.ready)
    && (a.ready == b.ready ==>
          && (a.email in reserves ==> b.email in reserves)
          && ((a.email in reserves <==> b.email in reserves) ==> a.score >= b.score))
  }

  lemma RankedIsEarlier(q: Query, s: seq<Recommendation>)
    requires Ranked(q, s)
    ensures InOrder(q, s)
  {
  }

  /** rankAccounts. */
  method RankAccounts(q: Query, order: seq<Email>, facts: map<Email, Facts>) returns (r: seq<Recommendation>)
    requires forall e | e in order :: e in facts
    ensures r == StablySorted(q, Candidates(q, order, facts, |order|))
    ensures ItemsOf(q, order, facts, |order|, r) && AllScored(q, order, facts, r) && InOrder(q, r)
  {
    var result := [];
    var activeIndex := -1;
    for i := 0 to |order|
      invariant activeIndex == ActiveIndex(order[..i], q.active)
    {
      assert order[..i + 1][..i] == order[..i];
      if q.active == Some(order[i]) {
        activeIndex := i;
      }
    }
    assert order[..|order|] == order;
    for index := 0 to |order|
      invariant result == Candidates(q, order, facts, index)
    {
      var e := order[index];
      if Included(q, e) {
        var f := facts[e];
        var remaining, known, group := AccountRemaining(f.pools, FamilyOf(q));
        var wait := f.cooldown(FamilyOf(q));
        var ready := !f.needsVerify && known && f.age.Some? && f.age.value <= TWO_MINUTES
                     && (wait == None || wait.value <= 0) && remaining > 0.0
                        && remaining >= q.policy.minRemainingPct as real;
        var score := Truncated(remaining);
        if f.needsVerify {
          score := score - 1000;
        }
        if PolicyOf(q) == "sticky" {
          if Preferred(q) == Some(e) {
            score := score + 200;
          }
        } else if PolicyOf(q) == "round-robin" {
          score := RotationScore(|order|, activeIndex, index);
        }
        result := result + [Recommendation(e, score, ready, remaining, group)];
      }
    }
    RankingDescribed(q, order, facts);
    return StablySorted(q, result);
  }

  lemma RankingDescribed(q: Query, order: seq<Email>, facts: map<Email, Facts>)
    requires forall e | e in order :: e in facts
    ensures var r := StablySorted(q, Candidates(q, order, facts, |order|));
            && Ranked(q, r) && InOrder(q, r)
            && ItemsOf(q, order, facts, |order|, r) && AllScored(q, order, facts, r)
  {
    var s := Candidates(q, order, facts, |order|);
    var r := StablySorted(q, s);
    CandidatesDescribed(q, order, facts, |order|);
    CandidatesScored(q, order, facts, |order|);
    RankingIsStableSort(q, s, Recommendation(Email(""), 0, false, 0.0, ""));
    RankedIsEarlier(q, r);
    SameMembers(r, s);
    SameItems(q, order, facts, r, s);
  }

  lemma SameItems(q: Query, order: seq<Email>, facts: map<Email, Facts>, r: seq<Recommendation>,
                  s: seq<Recommendation>)
    requires (forall e | e in order :: e in facts) && ItemsOf(q, order, facts, |order|, s)
    requires forall x :: x in r <==> x in s
    ensures ItemsOf(q, order, facts, |order|, r)
  {
    forall i: nat | i < |order| && Admitted(q, order[i]) ensures HasItem(q, order, facts, i, r) {
      assert HasItem(q, order, facts, i, s);
    }
  }

  lemma SameMembers(r: seq<Recommendation>, s: seq<Recommendation>)
    requires multiset(r) == multiset(s)
    ensures forall x :: x in r <==> x in s
  {
    forall x ensures x in r <==> x in s {
      assert x in r <==> x in multiset(r);
      assert x in s <==> x in multiset(s);
    }
  }

  // ----- next -----

  /** nextEligible. */
  method NextEligible(ranked: seq<Recommendation>, active: Option<Email>) returns (r: Option<Recommendation>)
    ensures r == Chosen(ranked, active)
  {
    for i := 0 to |ranked|
      invariant Chosen(ranked, active) == ChosenFrom(ranked, active, i)
    {
      if ranked[i].ready && Some(ranked[i].email) != active {
        return Some(ranked[i]);
      }
    }
    if |ranked| > 0 && ranked[0].ready {
      return Some(ranked[0]);
    }
    return None;
  }

  function ChosenFrom(ranked: seq<Recommendation>, active: Option<Email>, i: nat): Option<Recommendation>
    requires i <= |ranked|
    decreases |ranked| - i
  {
    if i == |ranked| then (if |ranked| > 0 && ranked[0].ready then Some(ranked[0]) else None)
    else if ranked[i].ready && Some(ranked[i].email) != active then Some(ranked[i])
    else ChosenFrom(ranked, active, i + 1)
  }

  function Chosen(ranked: seq<Recommendation>, active: Option<Email>): Option<Recommendation> {
    ChosenFrom(ranked, active, 0)
  }

  /** The choice: the first ready account that is not the active one, else the active one if it is ready. */
  lemma {:induction false} ChosenFromIsFirst(ranked: seq<Recommendation>, active: Option<Email>, i: nat)
    requires i <= |ranked|
    requires forall k | 0 <= k < i :: !(ranked[k].ready && Some(ranked[k].email) != active)
    ensures var r := ChosenFrom(ranked, active, i);
            && (r.Some? ==> r.value.ready && r.value in ranked)
            && (r.Some? && Some(r.value.email) != active ==>
                  exists k :: 0 <= k < |ranked| && ranked[k] == r.value
                              && forall j | 0 <= j < k :: !(ranked[j].ready && Some(ranked[j].email) != active))
            && (r == None || Some(r.value.email) == active ==>
                  forall k | 0 <= k < |ranked| :: !(ranked[k].ready && Some(ranked[k].email) != active))
            && (r == None ==> |ranked| == 0 || !ranked[0].ready)
    decreases |ranked| - i
  {
    if i < |ranked| && !(ranked[i].ready && Some(ranked[i].email) != active) {
      ChosenFromIsFirst(ranked, active, i + 1);
    }
  }

  /**
   With a sorted ranking, `next` finds an account if any is ready, and stays on the active one
   only if no other is.
   */
  lemma NextMovesAwayIff(q: Query, ranked: seq<Recommendation>)
    requires Ranked(q, ranked)
    ensures var r := Chosen(ranked, q.active);
            && (r.Some? <==> exists x :: x in ranked && x.ready)
            && (r.Some? ==> r.value.ready && r.value in ranked)
            && (r.Some? && Some(r.value.email) == q.active <==>
                  (exists x :: x in ranked && x.ready) && forall x | x in ranked && x.ready ::
                      Some(x.email) == q.active)
  {
    ChosenFromIsFirst(ranked, q.active, 0);
    forall x | x in ranked && x.ready ensures ranked[0].ready {
      var k :| 0 <= k < |ranked| && ranked[k] == x;
      assert k == 0 || !Precedes(q, ranked[k], ranked[0]);
    }
  }

  /** What cmdNext ranks with: next always moves on, so a sticky policy becomes round-robin. */
  function NextQuery(policy: Policy, family: string, active: Option<Email>): Query {
    Query(if policy.name == "sticky" then policy.(name := "round-robin") else policy, map[], None, active, family, "")
  }

  predicate Rotates(policy: Policy) { policy.name == "sticky" || policy.name == "round-robin" }

  /** Everything that stays the same between calls of `next`. */
  datatype Setup = Setup(order: seq<Email>, facts: map<Email, Facts>, policy: Policy, family: string)

  ghost predicate Usable(u: Setup) {
    Distinct(u.order) && (forall e | e in u.order :: e in u.facts) && Rotates(u.policy)
  }

  predicate ReadyAt(u: Setup, i: nat)
    requires i < |u.order| && u.order[i] in u.facts
  {
    IsReady(u.facts[u.order[i]], FamilyOf(NextQuery(u.policy, u.family, None)), u.policy.minRemainingPct)
  }

  /** The account `next` switches to. */
  function NextAccount(u: Setup, active: Option<Email>): Option<Email>
    requires forall e | e in u.order :: e in u.facts
  {
    var q := NextQuery(u.policy, u.family, active);
    match Chosen(StablySorted(q, Candidates(q, u.order, u.facts, |u.order|)), active)
    case Some(x) => Some(x.email)
    case None => None
  }

  /** cmdNext, up to the switch itself. */
  method CmdNext(u: Setup, active: Option<Email>) returns (choice: Option<Email>)
    requires forall e | e in u.order :: e in u.facts
    ensures choice == NextAccount(u, active)
    ensures choice.Some? ==> choice.value in u.order && NextFit(u, choice.value)
    ensures choice == None ==> forall e | e in u.order :: !NextFit(u, e)
    ensures choice.Some? && choice == active ==> forall e | e in u.order && Some(e) != active :: !NextFit(u, e)
  {
    NextIsFit(u, active);
    if |u.order| == 0 {
      return None;
    }
    var policy := u.policy;
    if policy.name == "sticky" {
      policy := policy.(name := "round-robin");
    }
    var ranked := RankAccounts(Query(policy, map[], None, active, u.family, ""), u.order, u.facts);
    var r := NextEligible(ranked, active);
    return match r case Some(x) => Some(x.email) case None => None;
  }

  /** The family `next` looks at. */
  function NextFamily(u: Setup): (r: string)
    ensures r == if u.family != "" then u.family else u.policy.preferFamily
  {
    FamilyOf(NextQuery(u.policy, u.family, None))
  }

  /** The account can be rotated to by `next`. */
  ghost predicate NextFit(u: Setup, e: Email) {
    e in u.facts && Fit(u.facts[e], NextFamily(u), u.policy.minRemainingPct)
  }

  /** What `next` switches to can be used, and it moves to another account if any can. */
  lemma NextIsFit(u: Setup, active: Option<Email>)
    requires forall e | e in u.order :: e in u.facts
    ensures var choice := NextAccount(u, active);
            && (choice.Some? ==> choice.value in u.order && NextFit(u, choice.value))
            && (choice == None ==> forall e | e in u.order :: !NextFit(u, e))
            && (choice.Some? && choice == active ==> forall e | e in u.order && Some(e) != active :: !NextFit(u, e))
  {
    var q := NextQuery(u.policy, u.family, active);
    var ranked := StablySorted(q, Candidates(q, u.order, u.facts, |u.order|));
    RankedDescribed(q, u.order, u.facts, ranked);
    RankedIsFit(u, q, ranked, active);
    assert NextAccount(u, active) == match Chosen(ranked, active) case Some(x) => Some(x.email) case None => None;
  }

  lemma RankedDescribed(q: Query, order: seq<Email>, facts: map<Email, Facts>, ranked: seq<Recommendation>)
    requires forall e | e in order :: e in facts
    requires ranked == StablySorted(q, Candidates(q, order, facts, |order|))
    ensures Ranked(q, ranked) && ItemsOf(q, order, facts, |order|, ranked) && AllScored(q, order, facts, ranked)
  {
    RankingDescribed(q, order, facts);
  }

  lemma RankedIsFit(u: Setup, q: Query, ranked: seq<Recommendation>, active: Option<Email>)
    requires Ranked(q, ranked) && ItemsOf(q, u.order, u.facts, |u.order|, ranked) && ForNext(u, q) && q.active == active
    ensures var r := Chosen(ranked, active);
            && (r.Some? ==> r.value.email in u.order && NextFit(u, r.value.email))
            && forall e | e in u.order && NextFit(u, e) ::
                 r.Some? && (Some(r.value.email) == active ==> Some(e) == active)
  {
    var r := Chosen(ranked, active);
    ChosenFromIsFirst(ranked, active, 0);
    if r.Some? {
      ItemIsFit(u, q, ranked, r.value);
    }
    forall e | e in u.order && NextFit(u, e) ensures r.Some? && (Some(r.value.email) == active ==> Some(e) == active) {
      HasFitItem(u, q, ranked, e);
      var x :| x in ranked && x.email == e && (x.ready <==> NextFit(u, e));
      ReadyIsChosen(q, ranked, x);
    }
  }

  lemma ReadyIsChosen(q: Query, ranked: seq<Recommendation>, x: Recommendation)
    requires Ranked(q, ranked) && x in ranked && x.ready
    ensures var r := Chosen(ranked, q.active);
            r.Some? && (Some(r.value.email) == q.active ==> Some(x.email) == q.active)
  {
    NextMovesAwayIff(q, ranked);
  }

  /** The account has an item, which is ready exactly if it can be used. */
  ghost predicate FitItem(u: Setup, s: seq<Recommendation>, e: Email) {
    exists x :: x in s && x.email == e && (x.ready <==> NextFit(u, e))
  }

  predicate ForNext(u: Setup, q: Query) {
    && q.tag == "" && q.profile == None && q.policy.minRemainingPct == u.policy.minRemainingPct
    && FamilyOf(q) == NextFamily(u)
  }

  lemma HasFitItem(u: Setup, q: Query, s: seq<Recommendation>, e: Email)
    requires e in u.order && ItemsOf(q, u.order, u.facts, |u.order|, s) && ForNext(u, q)
    ensures FitItem(u, s, e)
  {
    var i: nat :| i < |u.order| && u.order[i] == e;
    assert Admitted(q, u.order[i]);
    assert HasItem(q, u.order, u.facts, i, s);
    var x :| x in s && Describes(q, u.order, u.facts, i, x);
    assert x.email == e;
  }

  lemma ItemIsFit(u: Setup, q: Query, s: seq<Recommendation>, x: Recommendation)
    requires ItemsOf(q, u.order, u.facts, |u.order|, s) && x in s && ForNext(u, q)
    ensures x.email in u.order && (x.ready <==> NextFit(u, x.email))
  {
    assert Belongs(q, u.order, u.facts, |u.order|, x);
    var i: nat :| i < |u.order| && Describes(q, u.order, u.facts, i, x);
  }

  /** Under any other policy it picks, among the accounts that can be used, one with the most whole percents. */
  lemma NextIsFullest(u: Setup, active: Option<Email>, ranked: seq<Recommendation>, x: Recommendation)
    requires (forall e | e in u.order :: e in u.facts) && !Rotates(u.policy) && ranked == NextRanking(u, active)
    requires x in ranked && x.ready && Some(x.email) != active
    ensures NextAccount(u, active).Some? && FullestIn(ranked, NextAccount(u, active).value, x)
  {
    var q := NextQuery(u.policy, u.family, active);
    RankedDescribed(q, u.order, u.facts, ranked);
    ChosenIsFullest(q, u.order, u.facts, ranked, x);
    assert NextAccount(u, active) == Some(Chosen(ranked, active).value.email);
  }

  /** The account is ready, with no fewer whole percents than x. */
  ghost predicate FullestIn(s: seq<Recommendation>, e: Email, x: Recommendation) {
    exists y :: y in s && y.email == e && y.ready && x.remaining.Floor <= y.remaining.Floor
  }

  lemma ChosenIsFullest(q: Query, order: seq<Email>, facts: map<Email, Facts>, ranked: seq<Recommendation>,
                        x: Recommendation)
    requires q.profile == None && q.policy.name !in {"sticky", "round-robin"}
    requires Ranked(q, ranked) && ItemsOf(q, order, facts, |order|, ranked) && AllScored(q, order, facts, ranked)
    requires x in ranked && x.ready && Some(x.email) != q.active
    ensures Chosen(ranked, q.active).Some? && FullestIn(ranked, Chosen(ranked, q.active).value.email, x)
  {
    ReadyIsChosen(q, ranked, x);
    ChosenFromIsFirst(ranked, q.active, 0);
    var y := Chosen(ranked, q.active).value;
    NotBehind(q, ranked, y, x);
    FitIsPositive(q, order, facts, ranked, x);
    FitIsPositive(q, order, facts, ranked, y);
  }

  /** A ready item's score under such a policy is its whole percents. */
  lemma FitIsPositive(q: Query, order: seq<Email>, facts: map<Email, Facts>, s: seq<Recommendation>,
                      x: Recommendation)
    requires q.profile == None && q.policy.name !in {"sticky", "round-robin"} && x in s && x.ready
    requires ItemsOf(q, order, facts, |order|, s) && AllScored(q, order, facts, s)
    ensures x.score == x.remaining.Floor
  {
    assert Belongs(q, order, facts, |order|, x);
    var i: nat :| i < |order| && Describes(q, order, facts, i, x);
    var k: nat :| ScoredAt(q, order, facts, k, x);
    ScoreOfFit(q, order, facts[x.email], k, x);
  }

  lemma ScoreOfFit(q: Query, order: seq<Email>, f: Facts, k: nat, x: Recommendation)
    requires q.profile == None && q.policy.name !in {"sticky", "round-robin"} && k < |order|
    requires Fit(f, FamilyOf(q), q.policy.minRemainingPct) && ShowsLimiting(f.pools, FamilyOf(q), x)
    requires Scores(q, order, f, k, x)
    ensures x.score == x.remaining.Floor
  {
  }

  /** The first ready place after the active one, cyclically. */
  ghost predicate ComesNext(u: Setup, active: int, i: nat)
    requires forall e | e in u.order :: e in u.facts
  {
    && i < |u.order| && ReadyAt(u, i)
    && forall j: nat | j < |u.order| && ReadyAt(u, j) ::
       Distance(|u.order|, active, i) <= Distance(|u.order|, active, j)
  }

  lemma {:induction false} AllAreCandidates(q: Query, order: seq<Email>, facts: map<Email, Facts>, k: nat, i: nat)
    requires i < k <= |order| && forall e | e in order :: e in facts
    requires q.tag == "" && q.profile == None
    ensures |Candidates(q, order, facts, k)| == k
    ensures Candidates(q, order, facts, k)[i] == ItemAt(q, order, facts, i)
  {
    assert Included(q, order[k - 1]);
    if i < k - 1 {
      AllAreCandidates(q, order, facts, k - 1, i);
    } else if k > 1 {
      AllAreCandidates(q, order, facts, k - 1, 0);
    }
  }

  /** An item of the ranking `next` uses. */
  function NextItem(u: Setup, active: Option<Email>, i: nat): Recommendation
    requires i < |u.order| && u.order[i] in u.facts
  {
    ItemAt(NextQuery(u.policy, u.family, active), u.order, u.facts, i)
  }

  /** Its readiness, and its distance from the active account. */
  lemma NextItemIs(u: Setup, active: Option<Email>, i: nat)
    requires Usable(u) && i < |u.order|
    ensures var n, a, x := |u.order|, ActiveIndex(u.order, active), NextItem(u, active, i);
            x.email == u.order[i] && x.score == n - Distance(n, a, i) && (x.ready <==> ReadyAt(u, i))
  {
    ScoreIsDistance(|u.order|, ActiveIndex(u.order, active), i);
  }

  function NextRanking(u: Setup, active: Option<Email>): seq<Recommendation>
    requires forall e | e in u.order :: e in u.facts
  {
    var q := NextQuery(u.policy, u.family, active);
    StablySorted(q, Candidates(q, u.order, u.facts, |u.order|))
  }

  lemma NextRankingIsSorted(u: Setup, active: Option<Email>)
    requires Usable(u)
    ensures Ranked(NextQuery(u.policy, u.family, active), NextRanking(u, active))
  {
    var q := NextQuery(u.policy, u.family, active);
    RankingIsStableSort(q, Candidates(q, u.order, u.facts, |u.order|), Recommendation(Email(""), 0, false, 0.0, ""));
  }

  lemma NextRankingHas(u: Setup, active: Option<Email>, i: nat)
    requires Usable(u) && i < |u.order|
    ensures NextItem(u, active, i) in NextRanking(u, active)
  {
    var q := NextQuery(u.policy, u.family, active);
    var s := Candidates(q, u.order, u.facts, |u.order|);
    RankingIsStableSort(q, s, Recommendation(Email(""), 0, false, 0.0, ""));
    AllAreCandidates(q, u.order, u.facts, |u.order|, i);
    assert s[i] in multiset(StablySorted(q, s));
  }

  lemma NextRankingOnlyHas(u: Setup, active: Option<Email>, x: Recommendation) returns (i: nat)
    requires Usable(u) && x in NextRanking(u, active)
    ensures i < |u.order| && NextItem(u, active, i) == x
  {
    var q := NextQuery(u.policy, u.family, active);
    var s := Candidates(q, u.order, u.facts, |u.order|);
    RankingIsStableSort(q, s, Recommendation(Email(""), 0, false, 0.0, ""));
    assert x in multiset(s);
    i :| 0 <= i < |s| && s[i] == x;
    assert |u.order| > 0;
    AllAreCandidates(q, u.order, u.facts, |u.order|, 0);
    AllAreCandidates(q, u.order, u.facts, |u.order|, i);
  }

  /** `next` fails only if no account is ready. */
  lemma NextExistsIff(u: Setup, active: Option<Email>)
    requires Usable(u)
    ensures NextAccount(u, active).Some? <==> exists i: nat :: i < |u.order| && ReadyAt(u, i)
  {
    var ranked := NextRanking(u, active);
    NextRankingIsSorted(u, active);
    NextMovesAwayIff(NextQuery(u.policy, u.family, active), ranked);
    if i: nat :| i < |u.order| && ReadyAt(u, i) {
      NextItemIs(u, active, i);
      NextRankingHas(u, active, i);
      assert NextItem(u, active, i).ready;
    }
    if Chosen(ranked, active).Some? {
      var i := NextRankingOnlyHas(u, active, Chosen(ranked, active).value);
      NextItemIs(u, active, i);
    }
  }

  /** `next` picks the first ready account after the active one. */
  lemma NextIsCyclic(u: Setup, active: Option<Email>)
    requires Usable(u) && NextAccount(u, active).Some?
    ensures exists i: nat ::
              && i < |u.order| && u.order[i] == NextAccount(u, active).value
              && ComesNext(u, ActiveIndex(u.order, active), i)
  {
    var ranked, n, a := NextRanking(u, active), |u.order|, ActiveIndex(u.order, active);
    var r := Chosen(ranked, active).value;
    NextRankingIsSorted(u, active);
    NextMovesAwayIff(NextQuery(u.policy, u.family, active), ranked);
    var i := NextRankingOnlyHas(u, active, r);
    NextItemIs(u, active, i);
    forall j: nat | j < n && ReadyAt(u, j) ensures Distance(n, a, i) <= Distance(n, a, j) {
      NextItemIs(u, active, j);
      NextRankingHas(u, active, j);
      if Some(u.order[j]) != active {
        NotBehind(NextQuery(u.policy, u.family, active), ranked, r, NextItem(u, active, j));
      } else {
        // The active account is the farthest.
        assert a >= 0 && u.order[a] == u.order[j] && j == a;
      }
    }
    assert ComesNext(u, a, i);
  }

  /** No ready item but the active one scores better than the choice. */
  lemma NotBehind(q: Query, ranked: seq<Recommendation>, r: Recommendation, x: Recommendation)
    requires Ranked(q, ranked) && q.profile == None && Chosen(ranked, q.active) == Some(r)
    requires x in ranked && x.ready && Some(x.email) != q.active
    ensures x.score <= r.score
  {
    ChosenFromIsFirst(ranked, q.active, 0);
    var k :| 0 <= k < |ranked| && ranked[k] == x;
    if Some(r.email) != q.active {
      var i :| 0 <= i < |ranked| && ranked[i] == r && forall j | 0 <= j < i ::
          !(ranked[j].ready && Some(ranked[j].email) != q.active);
      assert i <= k;
      assert i == k || !Precedes(q, ranked[k], ranked[i]);
    }
  }

  // ----- fairness -----

  /** The ready places among the first k, in ascending order. */
  function ReadyRing(u: Setup, k: nat): (r: seq<nat>)
    requires k <= |u.order| && forall e | e in u.order :: e in u.facts
    ensures forall i | 0 <= i < |r| :: r[i] < k && ReadyAt(u, r[i])
    ensures forall i, j | 0 <= i < j < |r| :: r[i] < r[j]
    ensures forall p: nat | p < k && ReadyAt(u, p) :: p in r
  {
    if k == 0 then [] else if ReadyAt(u, k - 1) then ReadyRing(u, k - 1) + [k - 1] else ReadyRing(u, k - 1)
  }

  function Ring(u: Setup): seq<nat>
    requires forall e | e in u.order :: e in u.facts
  {
    ReadyRing(u, |u.order|)
  }

  lemma RingHolds(u: Setup, i: nat)
    requires Usable(u) && i < |Ring(u)|
    ensures Ring(u)[i] < |u.order| && ReadyAt(u, Ring(u)[i])
    ensures ActiveIndex(u.order, Some(u.order[Ring(u)[i]])) == Ring(u)[i]
  {
  }

  lemma RingOrder(u: Setup, a: nat, b: nat)
    requires Usable(u) && a < |Ring(u)| && b < |Ring(u)|
    ensures (a < b <==> Ring(u)[a] < Ring(u)[b]) && (a == b <==> Ring(u)[a] == Ring(u)[b])
  {
  }

  /** From the i-th ready account the nearest ready one is the next in the ring. */
  lemma NextInRing(u: Setup, i: nat, p: nat)
    requires Usable(u) && i < |Ring(u)| && ComesNext(u, Ring(u)[i], p)
    ensures p == Ring(u)[if i + 1 < |Ring(u)| then i + 1 else 0]
  {
    var ring, n := Ring(u), |u.order|;
    var next := if i + 1 < |ring| then i + 1 else 0;
    assert p in ring;
    var k: nat :| k < |ring| && ring[k] == p;
    assert Distance(n, ring[i], p) <= Distance(n, ring[i], ring[next]);
    RingOrder(u, k, next);
    RingOrder(u, k, i);
  }

  /** The i-th ready account. */
  function ReadyAccount(u: Setup, i: nat): Email
    requires (forall e | e in u.order :: e in u.facts) && i < |Ring(u)|
  {
    u.order[Ring(u)[i]]
  }

  /** Place i of a ring of m, counted on past its end. */
  function Wrapped(m: nat, i: nat): (r: nat)
    requires i < 2 * m
    ensures r < m
  {
    if i < m then i else i - m
  }

  /** One call of `next`, when the active account is the i-th ready one. */
  lemma NextStepsThroughRing(u: Setup, i: nat)
    requires Usable(u) && i < |Ring(u)|
    ensures NextAccount(u, Some(ReadyAccount(u, i))) == Some(ReadyAccount(u, Wrapped(|Ring(u)|, i + 1)))
  {
    var active := Some(ReadyAccount(u, i));
    RingHolds(u, i);
    NextExistsIff(u, active);
    NextIsCyclic(u, active);
    var p: nat :| p < |u.order| && u.order[p] == NextAccount(u, active).value && ComesNext(u, Ring(u)[i], p);
    NextInRing(u, i, p);
  }

  /** The active account after k successful calls of `next`. */
  function Rotated(u: Setup, start: Option<Email>, k: nat): Option<Email>
    requires forall e | e in u.order :: e in u.facts
  {
    if k == 0 then start else NextAccount(u, Rotated(u, start, k - 1))
  }

  /** A call of `next` on any of these accounts leads to the one after it, and from the last to the first. */
  ghost predicate Circles(u: Setup, accounts: seq<Email>)
    requires forall e | e in u.order :: e in u.facts
  {
    forall i: nat | i < |accounts| :: NextAccount(u, Some(accounts[i])) == Some(accounts[Wrapped(|accounts|, i + 1)])
  }

  lemma {:induction false} RotatedIs(u: Setup, accounts: seq<Email>, i: nat, k: nat)
    requires (forall e | e in u.order :: e in u.facts) && Circles(u, accounts) && i < |accounts| && k <= |accounts|
    ensures Rotated(u, Some(accounts[i]), k) == Some(accounts[Wrapped(|accounts|, i + k)])
    decreases k
  {
    if k > 0 {
      RotatedIs(u, accounts, i, k - 1);
    }
  }

  function ReadyAccounts(u: Setup): (r: seq<Email>)
    requires forall e | e in u.order :: e in u.facts
    ensures |r| == |Ring(u)|
  {
    seq(|Ring(u)|, i requires 0 <= i < |Ring(u)| => ReadyAccount(u, i))
  }

  lemma ReadyAccountsCircle(u: Setup)
    requires Usable(u)
    ensures Circles(u, ReadyAccounts(u))
  {
    forall i: nat | i < |Ring(u)|
      ensures NextAccount(u, Some(ReadyAccounts(u)[i])) == Some(ReadyAccounts(u)[Wrapped(|Ring(u)|, i + 1)])
    {
      NextStepsThroughRing(u, i);
    }
  }

  /** The number of calls from the i-th ready account to the one at `to`. */
  function Calls(m: nat, i: nat, to: nat): (k: nat)
    requires i < m && to < m
    ensures 1 <= k <= m && (i == to ==> k == m)
  {
    if to > i then to - i else to - i + m
  }

  lemma ReachedOnlyAt(u: Setup, i: nat, to: nat, j: nat)
    requires Usable(u) && i < |Ring(u)| && to < |Ring(u)| && 1 <= j <= |Ring(u)|
    ensures Rotated(u, Some(ReadyAccount(u, i)), j) == Some(ReadyAccount(u, to)) <==> j == Calls(|Ring(u)|, i, to)
  {
    ReadyAccountsCircle(u);
    RotatedIs(u, ReadyAccounts(u), i, j);
    var at := Wrapped(|Ring(u)|, i + j);
    RingHolds(u, at);
    RingHolds(u, to);
    RingOrder(u, at, to);
  }

  /** The place in the ring of a ready account. */
  lemma InRing(u: Setup, e: Email) returns (i: nat)
    requires Usable(u) && IsReadyAccount(u, e)
    ensures i < |Ring(u)| && ReadyAccount(u, i) == e
  {
    var p: nat :| p < |u.order| && u.order[p] == e && ReadyAt(u, p);
    assert p in Ring(u);
    i :| 0 <= i < |Ring(u)| && Ring(u)[i] == p;
  }

  ghost predicate IsReadyAccount(u: Setup, e: Email)
    requires forall x | x in u.order :: x in u.facts
  {
    exists p: nat :: p < |u.order| && u.order[p] == e && ReadyAt(u, p)
  }

  /**
   Rotation is fair: with a fixed ready set of m accounts and a ready start, m successive
   calls come back to the start and reach every ready account at exactly one call.
   */
  lemma RotationIsFair(u: Setup, start: Email, e: Email)
    requires Usable(u) && IsReadyAccount(u, start) && IsReadyAccount(u, e)
    ensures var m := |Ring(u)|;
            && Rotated(u, Some(start), m) == Some(start)
            && exists k :: ReachedOnceAt(u, start, e, m, k)
  {
    var i := InRing(u, start);
    var to := InRing(u, e);
    ReachedOnce(u, i, to);
    ReachedOnce(u, i, i);
  }

  /** Among the first m calls only the k-th reaches e. */
  ghost predicate ReachedOnceAt(u: Setup, start: Email, e: Email, m: nat, k: nat)
    requires forall x | x in u.order :: x in u.facts
  {
    1 <= k <= m && forall j: nat | 1 <= j <= m :: Rotated(u, Some(start), j) == Some(e) <==> j == k
  }

  lemma ReachedOnce(u: Setup, i: nat, to: nat)
    requires Usable(u) && i < |Ring(u)| && to < |Ring(u)|
    ensures ReachedOnceAt(u, ReadyAccount(u, i), ReadyAccount(u, to), |Ring(u)|, Calls(|Ring(u)|, i, to))
  {
    forall j: nat | 1 <= j <= |Ring(u)|
      ensures Rotated(u, Some(ReadyAccount(u, i)), j) == Some(ReadyAccount(u, to)) <==> j == Calls(|Ring(u)|, i, to)
    {
      ReachedOnlyAt(u, i, to, j);
    }
  }

  function Members(s: seq<nat>): (r: set<nat>)
    ensures forall x :: x in r <==> x in s
  {
    if s == [] then {} else Members(s[1..]) + {s[0]}
  }

  lemma {:induction false} MemberCount(s: seq<nat>)
    requires forall i, j | 0 <= i < j < |s| :: s[i] < s[j]
    ensures |Members(s)| == |s|
  {
    if s != [] {
      MemberCount(s[1..]);
      assert s[0] !in s[1..];
    }
  }

  /** The ring has one place per ready account. */
  lemma RingCountsReady(u: Setup)
    requires Usable(u)
    ensures |Ring(u)| == |set p: nat | p < |u.order| && ReadyAt(u, p)|
  {
    MemberCount(Ring(u));
    assert (set p: nat | p < |u.order| && ReadyAt(u, p)) == Members(Ring(u));
  }
}
