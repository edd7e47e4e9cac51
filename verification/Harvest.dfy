/**
 Whose token is it, and is it worth keeping: the decisions of session reconciliation
 (internal/app/session_guard.go, credentials.go, cli.go).
 */
module Harvest {
  import opened Model
  import opened Secrets

  // ----- recognising a token -----

  /**
   What matching looks at in one account: the token it resolves to, the tokens its
   token_data and token_hash stand for, and the refresh tokens it records.
   */
  datatype Saved = Saved(stored: Option<Token>, texts: set<Token>, refreshes: set<string>)

  type Known = map<Email, Saved>

  function AsSet<T(==)>(o: Option<T>): set<T> {
    match o case Some(x) => {x} case None => {}
  }

  function Sight(a: Account, vault: Vault): Saved {
    Saved(Resolve(a, vault), AsSet(a.tokenData) + AsSet(a.tokenHash),
          (AsSet(a.refreshHash) + (if a.tokenData.Some? then {RefreshOf(a.tokenData.value)} else {})) - {""})
  }

  function View(d: Doc, vault: Vault): Known {
    map e | e in d.byEmail :: Sight(d.byEmail[e], vault)
  }

  /** The entry of an account that has just been given token t. */
  function Fresh(t: Token): Saved {
    Saved(Some(t), {t}, {RefreshOf(t)} - {""})
  }

  /** hasOAuthSession. */
  predicate HasSession(t: Token) { t.access != "" || t.refresh != "" }

  /** A token from which a session can be written. */
  predicate Usable(t: Token) { t.wrapped && t.access != "" }

  /** The first address that satisfies p. */
  function First(order: seq<Email>, p: Email -> bool): (r: Option<Email>)
    ensures r.Some? ==> r.value in order && p(r.value)
    ensures r.None? <==> forall e | e in order :: !p(e)
  {
    if order == [] then None
    else
      assert forall e | e in order :: e == order[0] || e in order[1..];
      if p(order[0]) then Some(order[0]) else First(order[1..], p)
  }

  /** The only address that satisfies p; None also if there are two. */
  function Only(order: seq<Email>, p: Email -> bool): (r: Option<Email>)
    ensures r.Some? ==> r.value in order && p(r.value) && forall e | e in order && p(e) :: e == r.value
    ensures r.None? ==> (forall e | e in order :: !p(e)) || exists e, f ::
            e in order && f in order && p(e) && p(f) && e != f
  {
    match First(order, p)
    case None => None
    case Some(e) => if First(order, f => p(f) && f != e) == None then Some(e) else None
  }

  predicate HasText(k: Known, e: Email, t: Token) { e in k && t in k[e].texts }

  predicate RecordsRefresh(k: Known, e: Email, refresh: string) { e in k && refresh in k[e].refreshes }

  predicate Stores(k: Known, e: Email, t: Token) { e in k && k[e].stored == Some(t) }

  predicate StoresRefresh(k: Known, e: Email, refresh: string) {
    e in k && k[e].stored.Some? && RefreshOf(k[e].stored.value) == refresh
  }

  /** localActiveEmail: what the accounts' own metadata says about a token. */
  function LocalOwner(order: seq<Email>, k: Known, t: Token): Option<Email> {
    var byText := First(order, e => HasText(k, e, t));
    if byText.Some? then byText
    else if t.hint.Some? then t.hint
    else if RefreshOf(t) != "" then Only(order, e => RecordsRefresh(k, e, RefreshOf(t)))
    else None
  }

  /** matchAccountByToken. */
  function Owner(order: seq<Email>, k: Known, t: Token): (r: Option<Email>)
    ensures r.Some? ==> r.value in order
  {
    var local := LocalOwner(order, k, t);
    if local.Some? && local.value in order then local
    else
      var byStored := First(order, e => Stores(k, e, t));
      if byStored.Some? then byStored
      else if RefreshOf(t) != "" then Only(order, e => StoresRefresh(k, e, RefreshOf(t)))
      else None
  }

  /** What of an account on disk the recognition goes by. */
  lemma SightShows(a: Account, vault: Vault, t: Token, refresh: string)
    ensures Sight(a, vault).stored == Resolve(a, vault)
    ensures t in Sight(a, vault).texts <==> a.tokenData == Some(t) || a.tokenHash == Some(t)
    ensures refresh in Sight(a, vault).refreshes
            <==> refresh != "" && (a.refreshHash == Some(refresh)
                                   || (a.tokenData.Some? && a.tokenData.value.wrapped
                                       && a.tokenData.value.refresh == refresh))
  {
  }

  /** e is the first account with the property. */
  ghost predicate IsFirst(order: seq<Email>, p: Email -> bool, e: Email) {
    exists i :: 0 <= i < |order| && order[i] == e && p(e) && forall j | 0 <= j < i :: !p(order[j])
  }

  /** e is the only account with the property. */
  ghost predicate IsOnly(order: seq<Email>, p: Email -> bool, e: Email) {
    e in order && p(e) && forall f | f in order && p(f) :: f == e
  }

  lemma {:induction false} FirstAt(order: seq<Email>, p: Email -> bool) returns (i: nat)
    requires First(order, p).Some?
    ensures i < |order| && First(order, p) == Some(order[i]) && p(order[i]) && forall j | 0 <= j < i :: !p(order[j])
  {
    if p(order[0]) {
      i := 0;
    } else {
      var k := FirstAt(order[1..], p);
      assert forall j | 1 <= j < k + 1 :: order[j] == order[1..][j - 1];
      i := k + 1;
    }
  }

  lemma FirstIsFirst(order: seq<Email>, p: Email -> bool, e: Email)
    ensures First(order, p) == Some(e) <==> IsFirst(order, p, e)
  {
    if First(order, p).Some? {
      var i := FirstAt(order, p);
      if IsFirst(order, p, e) {
        var k :| 0 <= k < |order| && order[k] == e && p(e) && forall j | 0 <= j < k :: !p(order[j]);
        assert i == k;
      }
    }
  }

  lemma OnlyIsOnly(order: seq<Email>, p: Email -> bool, e: Email)
    ensures Only(order, p) == Some(e) <==> IsOnly(order, p, e)
  {
  }

  /**
   The recognitions of any token, in their order: the first account whose token text or hash it
   is; the saved account its id_token names; if it names none, the only one that records its
   refresh token; the first that stores it; the only one that stores its refresh token.
   */
  lemma OwnerInTurn(order: seq<Email>, k: Known, t: Token, e: Email)
    ensures Owner(order, k, t) == Some(e) <==>
              var refresh := if t.wrapped then t.refresh else "";
              var text, records := x => x in k && t in k[x].texts, x => x in k && refresh in k[x].refreshes;
              var stores := x => x in k && k[x].stored == Some(t);
              var session := x => x in k && k[x].stored.Some? && RefreshOf(k[x].stored.value) == refresh;
              if exists x :: x in order && text(x) then IsFirst(order, text, e)
              else if t.hint.Some? && t.hint.value in order then t.hint == Some(e)
              else if t.hint.None? && refresh != "" && exists x :: IsOnly(order, records, x)
              then IsOnly(order, records, e)
              else if exists x :: x in order && stores(x) then IsFirst(order, stores, e)
              else refresh != "" && IsOnly(order, session, e)
  {
    var refresh := RefreshOf(t);
    FirstAlike(order, x => HasText(k, x, t), x => x in k && t in k[x].texts, e);
    FirstAlike(order, x => Stores(k, x, t), x => x in k && k[x].stored == Some(t), e);
    OnlyAlike(order, x => RecordsRefresh(k, x, refresh), x => x in k && refresh in k[x].refreshes);
    OnlyAlike(order, x => StoresRefresh(k, x, refresh),
              x => x in k && k[x].stored.Some? && RefreshOf(k[x].stored.value) == refresh);
  }

  lemma FirstAlike(order: seq<Email>, p: Email -> bool, q: Email -> bool, e: Email)
    requires forall x :: p(x) == q(x)
    ensures First(order, p) == Some(e) <==> IsFirst(order, q, e)
    ensures First(order, p).None? <==> !exists x :: x in order && q(x)
  {
    FirstIsFirst(order, p, e);
    assert IsFirst(order, p, e) <==> IsFirst(order, q, e);
  }

  lemma OnlyAlike(order: seq<Email>, p: Email -> bool, q: Email -> bool)
    requires forall x :: p(x) == q(x)
    ensures forall e :: Only(order, p) == Some(e) <==> IsOnly(order, q, e)
  {
    forall e ensures Only(order, p) == Some(e) <==> IsOnly(order, q, e) {
      OnlyIsOnly(order, p, e);
      assert IsOnly(order, p, e) <==> IsOnly(order, q, e);
    }
  }

  // ----- harvesting -----

  /** shouldHarvestToken; None is an account whose stored token cannot be read. */
  predicate ShouldHarvest(existing: Option<Token>, candidate: Token) {
    match existing
    case None => true
    case Some(s) =>
      && s != candidate && Usable(candidate)
      && !(s.wrapped && s.expiry.Some? && candidate.expiry.Some? && candidate.expiry.value < s.expiry.value)
  }

  /** The state of the loop over the surfaces' tokens. */
  datatype Tally = Tally(k: Known, owners: seq<Email>, unsaved: bool)

  function HarvestOne(order: seq<Email>, s: Tally, t: Token): Tally {
    match Owner(order, s.k, t)
    case None => s.(unsaved := s.unsaved || HasSession(t))
    case Some(e) =>
      var stored := if e in s.k then s.k[e].stored else None;
      Tally(if ShouldHarvest(stored, t) then s.k[e := Fresh(t)] else s.k, s.owners + [e], s.unsaved)
  }

  function HarvestAll(order: seq<Email>, k: Known, tokens: seq<Token>): Tally {
    if tokens == [] then Tally(k, [], false)
    else HarvestOne(order, HarvestAll(order, k, tokens[..|tokens| - 1]), tokens[|tokens| - 1])
  }

  /**
   One token: without an owner it changes nothing but the note that a session is unsaved; with
   one it becomes what the owner stores, unless the owner stores it already, or stores a token
   while this one is not usable or known to be older. Nobody else's entry changes.
   */
  lemma OneTokenHarvested(order: seq<Email>, s: Tally, t: Token, f: Email)
    ensures var s', owner := HarvestOne(order, s, t), Owner(order, s.k, t);
            && s'.owners == (if owner.Some? then s.owners + [owner.value] else s.owners)
            && (s'.unsaved <==> s.unsaved || (owner == None && (t.access != "" || t.refresh != "")))
            && StoredOf(s'.k, f) ==
               if owner == Some(f)
                  && (StoredOf(s.k, f) == None
                      || (var was := StoredOf(s.k, f).value;
                          was != t && t.wrapped && t.access != ""
                          && !(was.wrapped && was.expiry.Some? && t.expiry.Some? && t.expiry.value < was.expiry.value)))
               then Some(t) else StoredOf(s.k, f)
  {
  }

  /** The owners are noted in the order of their tokens. */
  lemma {:induction false} FirstOwnerNoted(order: seq<Email>, k: Known, tokens: seq<Token>)
    ensures var owners := HarvestAll(order, k, tokens).owners;
            if owners == [] then forall i: nat | i < |tokens| :: OwnerAt(order, k, tokens, i) == None
            else exists i: nat :: i < |tokens| && FirstOwnedAt(order, k, tokens, i, owners[0])
  {
    if tokens != [] {
      var n := |tokens| - 1;
      var before := HarvestAll(order, k, tokens[..n]).owners;
      FirstOwnerNoted(order, k, tokens[..n]);
      forall i: nat | i < n ensures OwnerAt(order, k, tokens[..n], i) == OwnerAt(order, k, tokens, i) {
        OwnerAtPrefix(order, k, tokens, n, i);
      }
      var last := OwnerAt(order, k, tokens, n);
      var owners := HarvestAll(order, k, tokens).owners;
      assert owners == if last == None then before else before + [last.value];
      if before != [] {
        var i: nat :| i < n && FirstOwnedAt(order, k, tokens[..n], i, before[0]);
        assert owners[0] == before[0];
        OwnedFirstStill(order, k, tokens, n, i, before[0]);
      } else if last.Some? {
        assert owners[0] == last.value && FirstOwnedAt(order, k, tokens, n, last.value);
      }
    }
  }

  lemma OwnedFirstStill(order: seq<Email>, k: Known, tokens: seq<Token>, n: nat, i: nat, e: Email)
    requires i < n <= |tokens| && FirstOwnedAt(order, k, tokens[..n], i, e)
    ensures FirstOwnedAt(order, k, tokens, i, e)
  {
    OwnerAtPrefix(order, k, tokens, n, i);
    forall j: nat | j < i ensures OwnerAt(order, k, tokens, j) == None {
      OwnerAtPrefix(order, k, tokens, n, j);
    }
  }

  /** Of the tokens that have an owner, this is the first, and it is e's. */
  ghost predicate FirstOwnedAt(order: seq<Email>, k: Known, tokens: seq<Token>, i: nat, e: Email)
    requires i < |tokens|
  {
    OwnerAt(order, k, tokens, i) == Some(e) && forall j: nat | j < i :: OwnerAt(order, k, tokens, j) == None
  }

  // ----- the freshest copy -----

  /** The owner of the i-th token when its turn comes. */
  function OwnerAt(order: seq<Email>, k: Known, tokens: seq<Token>, i: nat): Option<Email>
    requires i < |tokens|
  {
    Owner(order, HarvestAll(order, k, tokens[..i]).k, tokens[i])
  }

  lemma OwnerAtPrefix(order: seq<Email>, k: Known, tokens: seq<Token>, n: nat, i: nat)
    requires i < n <= |tokens|
    ensures OwnerAt(order, k, tokens[..n], i) == OwnerAt(order, k, tokens, i)
  {
    assert tokens[..n][..i] == tokens[..i];
  }

  /** A token whose expiry is known. */
  predicate Dated(t: Token) { t.wrapped && t.expiry.Some? }

  function Expiry(t: Token): int { if t.expiry.Some? then t.expiry.value else 0 }

  function StoredOf(k: Known, e: Email): Option<Token> { if e in k then k[e].stored else None }

  /** What counts for the account e has a known expiry: its stored token, and the tokens that are its own. */
  ghost predicate DatedFor(order: seq<Email>, k: Known, tokens: seq<Token>, e: Email) {
    && (StoredOf(k, e).Some? ==> Dated(StoredOf(k, e).value))
    && forall i: nat | i < |tokens| && OwnerAt(order, k, tokens, i) == Some(e) :: Dated(tokens[i])
  }

  ghost predicate OwnCopy(order: seq<Email>, k: Known, tokens: seq<Token>, e: Email, i: nat) {
    i < |tokens| && OwnerAt(order, k, tokens, i) == Some(e) && Usable(tokens[i])
  }

  /** `last` is one of the first n tokens, and e's own. */
  ghost predicate Taken(order: seq<Email>, k: Known, tokens: seq<Token>, n: nat, e: Email, last: Token) {
    exists i: nat :: i < n && i < |tokens| && OwnerAt(order, k, tokens, i) == Some(e) && tokens[i] == last
  }

  /** Of what e stored and its usable copies among the first n tokens, `last` is the freshest, and one of them. */
  ghost predicate Freshest(order: seq<Email>, k: Known, tokens: seq<Token>, n: nat, e: Email, last: Token) {
    && Dated(last)
    && (StoredOf(k, e).Some? ==> Expiry(StoredOf(k, e).value) <= Expiry(last))
    && (forall i: nat | i < n && OwnCopy(order, k, tokens, e, i) :: Expiry(tokens[i]) <= Expiry(last))
    && (StoredOf(k, e) == Some(last) || Taken(order, k, tokens, n, e, last))
    && (StoredOf(k, e).Some? && StoredOf(k, e).value != last ==> Usable(last))
  }

  /** What e stores after the first n tokens. */
  ghost predicate FreshSoFar(order: seq<Email>, k: Known, tokens: seq<Token>, n: nat, e: Email, last: Option<Token>) {
    if last.Some? then Freshest(order, k, tokens, n, e, last.value)
    else StoredOf(k, e).None? && forall i: nat | i < n && i < |tokens| :: OwnerAt(order, k, tokens, i) != Some(e)
  }

  /**
   Harvesting keeps the freshest copy, account by account: if the expiries that matter for e
   are known, e ends up storing the token with the latest expiry among its stored token and
   its usable copies on the surfaces. What the other accounts store plays no part.
   */
  lemma HarvestKeepsFreshest(order: seq<Email>, k: Known, tokens: seq<Token>, e: Email)
    requires DatedFor(order, k, tokens, e)
    ensures FreshSoFar(order, k, tokens, |tokens|, e, StoredOf(HarvestAll(order, k, tokens).k, e))
  {
    FreshestOfFirst(order, k, tokens, |tokens|, e);
    assert tokens[..|tokens|] == tokens;
  }

  lemma {:induction false} FreshestOfFirst(order: seq<Email>, k: Known, tokens: seq<Token>, n: nat, e: Email)
    requires DatedFor(order, k, tokens, e) && n <= |tokens|
    ensures FreshSoFar(order, k, tokens, n, e, StoredOf(HarvestAll(order, k, tokens[..n]).k, e))
  {
    if n > 0 {
      FreshestOfFirst(order, k, tokens, n - 1, e);
      assert tokens[..n][..n - 1] == tokens[..n - 1];
      FreshestStep(order, k, tokens, n - 1, e, HarvestAll(order, k, tokens[..n - 1]));
    }
  }

  lemma FreshestStep(order: seq<Email>, k: Known, tokens: seq<Token>, n: nat, e: Email, s: Tally)
    requires n < |tokens| && DatedFor(order, k, tokens, e) && s == HarvestAll(order, k, tokens[..n])
    requires FreshSoFar(order, k, tokens, n, e, StoredOf(s.k, e))
    ensures FreshSoFar(order, k, tokens, n + 1, e, StoredOf(HarvestOne(order, s, tokens[n]).k, e))
  {
    var was := StoredOf(s.k, e);
    assert OwnerAt(order, k, tokens, n) == Owner(order, s.k, tokens[n]);
    if OwnerAt(order, k, tokens, n) == Some(e) && ShouldHarvest(was, tokens[n]) {
      TakenStep(order, k, tokens, n, e, was);
    } else {
      KeptStep(order, k, tokens, n, e, was);
    }
  }

  lemma KeptStep(order: seq<Email>, k: Known, tokens: seq<Token>, n: nat, e: Email, was: Option<Token>)
    requires n < |tokens| && DatedFor(order, k, tokens, e) && FreshSoFar(order, k, tokens, n, e, was)
    requires OwnerAt(order, k, tokens, n) == Some(e) ==> !ShouldHarvest(was, tokens[n])
    ensures FreshSoFar(order, k, tokens, n + 1, e, was)
  {
  }

  lemma TakenStep(order: seq<Email>, k: Known, tokens: seq<Token>, n: nat, e: Email, was: Option<Token>)
    requires n < |tokens| && DatedFor(order, k, tokens, e) && FreshSoFar(order, k, tokens, n, e, was)
    requires OwnerAt(order, k, tokens, n) == Some(e) && ShouldHarvest(was, tokens[n])
    ensures FreshSoFar(order, k, tokens, n + 1, e, Some(tokens[n]))
  {
    assert Taken(order, k, tokens, n + 1, e, tokens[n]);
    assert was.Some? ==> Expiry(was.value) <= Expiry(tokens[n]);
  }

  /** The i-th token is a session of no saved account. */
  predicate Unowned(order: seq<Email>, k: Known, tokens: seq<Token>, i: nat) {
    && i < |tokens| && (tokens[i].access != "" || tokens[i].refresh != "")
    && OwnerAt(order, k, tokens, i) == None
  }

  lemma UnownedPrefix(order: seq<Email>, k: Known, tokens: seq<Token>, n: nat, i: nat)
    requires i < n <= |tokens|
    ensures Unowned(order, k, tokens[..n], i) <==> Unowned(order, k, tokens, i)
  {
    OwnerAtPrefix(order, k, tokens, n, i);
  }

  /** A session of no saved account is noticed, wherever it stands among the surfaces. */
  lemma {:induction false} UnsavedIsNoticed(order: seq<Email>, k: Known, tokens: seq<Token>)
    ensures HarvestAll(order, k, tokens).unsaved <==> exists i: nat :: Unowned(order, k, tokens, i)
  {
    if tokens != [] {
      var n := |tokens| - 1;
      UnsavedIsNoticed(order, k, tokens[..n]);
      forall i: nat | i < n ensures Unowned(order, k, tokens[..n], i) <==> Unowned(order, k, tokens, i) {
        UnownedPrefix(order, k, tokens, n, i);
      }
      assert HarvestAll(order, k, tokens).unsaved
             <==> HarvestAll(order, k, tokens[..n]).unsaved || Unowned(order, k, tokens, n);
    }
  }

  // ----- whose token it is, before and during the harvest -----

  /** The account stores a token of the same session. */
  predicate OwnsSession(k: Known, e: Email, t: Token) { RefreshOf(t) != "" && StoresRefresh(k, e, RefreshOf(t)) }

  /** Something about the account points to the token. */
  predicate Claims(k: Known, e: Email, t: Token) {
    HasText(k, e, t) || RecordsRefresh(k, e, RefreshOf(t)) || Stores(k, e, t) || t.hint == Some(e)
  }

  /**
   The token can be told apart: whatever points to it belongs to an account that stores its
   session, and no two accounts do. Nothing is asked of accounts it does not concern.
   */
  ghost predicate Attributable(order: seq<Email>, k: Known, t: Token) {
    && (forall e | e in order && Claims(k, e, t) :: OwnsSession(k, e, t))
    && (forall e, f | e in order && f in order && OwnsSession(k, e, t) && OwnsSession(k, f, t) :: e == f)
  }

  ghost predicate AllAttributable(order: seq<Email>, k: Known, tokens: seq<Token>) {
    forall t | t in tokens :: Attributable(order, k, t)
  }

  /** Such a token belongs to the account that stores its session, and to nobody else. */
  lemma OwnerByRefresh(order: seq<Email>, k: Known, t: Token)
    requires Attributable(order, k, t)
    ensures forall e :: Owner(order, k, t) == Some(e) <==> e in order && OwnsSession(k, e, t)
  {
    assert forall e | e in order && HasText(k, e, t) :: Claims(k, e, t);
    assert forall e | e in order && Stores(k, e, t) :: Claims(k, e, t);
    assert forall e | e in order && RecordsRefresh(k, e, RefreshOf(t)) :: Claims(k, e, t);
    assert forall e | e in order && t.hint == Some(e) :: Claims(k, e, t);
  }

  /** Harvesting changes neither whose sessions the accounts store nor which tokens can be told apart. */
  ghost predicate SameSessions(order: seq<Email>, k: Known, now: Known, tokens: seq<Token>) {
    && AllAttributable(order, now, tokens)
    && forall e, t | t in tokens :: OwnsSession(now, e, t) <==> OwnsSession(k, e, t)
  }

  lemma SessionsAfterOne(order: seq<Email>, k: Known, s: Tally, tokens: seq<Token>, u: Token)
    requires SameSessions(order, k, s.k, tokens) && u in tokens
    ensures SameSessions(order, k, HarvestOne(order, s, u).k, tokens)
  {
    OwnerByRefresh(order, s.k, u);
    var k' := HarvestOne(order, s, u).k;
    match Owner(order, s.k, u)
    case None =>
    case Some(f) =>
      assert OwnsSession(s.k, f, u);
      forall e, t | t in tokens ensures OwnsSession(k', e, t) <==> OwnsSession(s.k, e, t) {
      }
      forall t | t in tokens ensures Attributable(order, k', t) {
        assert Attributable(order, s.k, t);
        forall e | e in order && Claims(k', e, t) ensures OwnsSession(k', e, t) {
          if k' != s.k && e == f {
            ClaimsOfFresh(k', f, t, u);
          } else {
            assert Claims(s.k, e, t);
          }
        }
      }
  }

  /** What points from a freshly harvested entry to a token: its own session, or a hint. */
  lemma ClaimsOfFresh(k: Known, e: Email, t: Token, u: Token)
    requires e in k && k[e] == Fresh(u) && RefreshOf(u) != "" && Claims(k, e, t)
    ensures RefreshOf(t) == RefreshOf(u) || t.hint == Some(e)
  {
  }

  lemma {:induction false} SessionsAfterAll(order: seq<Email>, k: Known, all: seq<Token>, n: nat)
    requires AllAttributable(order, k, all) && n <= |all|
    ensures SameSessions(order, k, HarvestAll(order, k, all[..n]).k, all)
  {
    if n > 0 {
      SessionsAfterAll(order, k, all, n - 1);
      assert all[..n][..n - 1] == all[..n - 1] && all[..n][n - 1] == all[n - 1];
      SessionsAfterOne(order, k, HarvestAll(order, k, all[..n - 1]), all, all[n - 1]);
    } else {
      assert all[..0] == [];
    }
  }

  /** So the owner of a token at its turn is the account that stored its session at the start. */
  lemma OwnerAtIs(order: seq<Email>, k: Known, tokens: seq<Token>, i: nat)
    requires AllAttributable(order, k, tokens) && i < |tokens|
    ensures forall e :: OwnerAt(order, k, tokens, i) == Some(e) <==> e in order && OwnsSession(k, e, tokens[i])
  {
    SessionsAfterAll(order, k, tokens, i);
    OwnerByRefresh(order, HarvestAll(order, k, tokens[..i]).k, tokens[i]);
  }

  /** The expiry kept for an account, and whether something is unsaved, do not depend on the order of the surfaces. */
  lemma FreshnessIgnoresOrder(order: seq<Email>, k: Known, tokens: seq<Token>, shuffled: seq<Token>, e: Email)
    requires AllAttributable(order, k, tokens) && StoredOf(k, e).Some? && Dated(StoredOf(k, e).value)
    requires forall t | t in tokens && OwnsSession(k, e, t) :: Dated(t)
    requires multiset(tokens) == multiset(shuffled)
    ensures var a, b := HarvestAll(order, k, tokens), HarvestAll(order, k, shuffled);
            && StoredOf(a.k, e).Some? && StoredOf(b.k, e).Some?
            && Expiry(StoredOf(a.k, e).value) == Expiry(StoredOf(b.k, e).value) && a.unsaved == b.unsaved
  {
    SameElements(tokens, shuffled);
    var a, b := HarvestAll(order, k, tokens), HarvestAll(order, k, shuffled);
    KeptIsNoOlder(order, k, tokens, shuffled, e);
    KeptIsNoOlder(order, k, shuffled, tokens, e);
    UnsavedEither(order, k, tokens, shuffled);
    UnsavedEither(order, k, shuffled, tokens);
  }

  lemma SameElements(a: seq<Token>, b: seq<Token>)
    requires multiset(a) == multiset(b)
    ensures forall t :: t in a <==> t in b
  {
    forall t ensures t in a <==> t in b {
      assert t in a <==> t in multiset(a);
      assert t in b <==> t in multiset(b);
    }
  }

  lemma KeptIsNoOlder(order: seq<Email>, k: Known, a: seq<Token>, b: seq<Token>, e: Email)
    requires AllAttributable(order, k, a) && AllAttributable(order, k, b) && forall t :: t in a <==> t in b
    requires StoredOf(k, e).Some? && Dated(StoredOf(k, e).value) && forall t | t in a && OwnsSession(k, e, t) ::
             Dated(t)
    ensures var x, y := StoredOf(HarvestAll(order, k, a).k, e), StoredOf(HarvestAll(order, k, b).k, e);
            x.Some? && y.Some? && Expiry(x.value) <= Expiry(y.value)
  {
    forall i: nat | i < |a| ensures OwnerAt(order, k, a, i) == Some(e) <==> e in order && OwnsSession(k, e, a[i]) {
      OwnerAtIs(order, k, a, i);
    }
    forall i: nat | i < |b| ensures OwnerAt(order, k, b, i) == Some(e) <==> e in order && OwnsSession(k, e, b[i]) {
      OwnerAtIs(order, k, b, i);
    }
    assert forall i: nat | i < |a| :: a[i] in a;
    assert forall i: nat | i < |b| :: b[i] in b;
    HarvestKeepsFreshest(order, k, a, e);
    HarvestKeepsFreshest(order, k, b, e);
    var x, y := StoredOf(HarvestAll(order, k, a).k, e).value, StoredOf(HarvestAll(order, k, b).k, e).value;
    if x != StoredOf(k, e).value {
      assert Taken(order, k, a, |a|, e, x) && x in b;
      var j: nat :| j < |b| && b[j] == x;
      assert OwnCopy(order, k, b, e, j);
    }
  }

  lemma UnsavedEither(order: seq<Email>, k: Known, a: seq<Token>, b: seq<Token>)
    requires AllAttributable(order, k, a) && AllAttributable(order, k, b) && forall t :: t in a <==> t in b
    ensures HarvestAll(order, k, a).unsaved ==> HarvestAll(order, k, b).unsaved
  {
    UnsavedIsNoticed(order, k, a);
    UnsavedIsNoticed(order, k, b);
    if i: nat :| Unowned(order, k, a, i) {
      assert a[i] in a && a[i] in b;
      var j: nat :| j < |b| && b[j] == a[i];
      OwnerAtIs(order, k, a, i);
      OwnerAtIs(order, k, b, j);
      assert Unowned(order, k, b, j);
    }
  }

  // ----- the fixpoint -----

  /** What a token reads back as once agy-swap has written it to a token file. */
  function Canonical(t: Token): Token { t.(form := 0) }

  /**
   Whether a run that finds token c on each of n surfaces and e as the active account goes
   on to write the surfaces: nothing unsaved, and e's token is not what they hold.
   */
  predicate WouldWrite(order: seq<Email>, k: Known, e: Email, c: Token, n: nat) {
    var s := HarvestAll(order, k, seq(n, _ => c));
    !s.unsaved && e in s.k && s.k[e].stored.Some? && s.k[e].stored != Some(c)
  }

  lemma {:induction false} CopiesSettle(order: seq<Email>, k: Known, c: Token, n: nat)
    requires n > 0
    ensures var s := HarvestAll(order, k, seq(n, _ => c));
            match Owner(order, k, c)
            case None => s.k == k && s.unsaved == HasSession(c)
            case Some(f) =>
              && !s.unsaved
              && s.k == (if ShouldHarvest(if f in k then k[f].stored else None, c) then k[f := Fresh(c)] else k)
  {
    var tokens := seq(n, _ => c);
    assert tokens[..n - 1] == seq(n - 1, _ => c);
    if n == 1 {
      assert tokens[..n - 1] == [];
    } else {
      CopiesSettle(order, k, c, n - 1);
      var s := HarvestAll(order, k, tokens[..n - 1]);
      match Owner(order, k, c)
      case None =>
      case Some(f) => OwnerKept(order, k, c, f);
    }
  }

  /** Once its owner has been given a token, the token is still that owner's, and not harvested again. */
  lemma OwnerKept(order: seq<Email>, k: Known, c: Token, f: Email)
    requires Owner(order, k, c) == Some(f)
    ensures Owner(order, k[f := Fresh(c)], c) == Some(f)
    ensures !ShouldHarvest(Some(c), c)
  {
    var k' := k[f := Fresh(c)];
    FirstAfter(order, e => HasText(k, e, c), e => HasText(k', e, c), f);
  }

  /** Making p true of f, before which it was true of no one, makes f the first. */
  lemma {:induction false} FirstAfter(order: seq<Email>, p: Email -> bool, q: Email -> bool, f: Email)
    requires f in order && q(f) && forall e | e != f :: q(e) <==> p(e)
    requires First(order, p) in {None, Some(f)}
    ensures First(order, q) == Some(f)
  {
    if order[0] != f {
      assert !p(order[0]);
      FirstAfter(order[1..], p, q, f);
    }
  }

  /**
   When every surface holds c and e is the active account, the run writes the surfaces
   exactly if c is a saved account's (or no session at all), and e stores another token that
   c does not replace.
   */
  lemma ReconcileFixpointIff(order: seq<Email>, k: Known, e: Email, c: Token, n: nat)
    requires n > 0
    ensures WouldWrite(order, k, e, c, n) <==>
            && (Owner(order, k, c).Some? || !HasSession(c))
            && StoredOf(k, e).Some? && StoredOf(k, e) != Some(c)
            && !(Owner(order, k, c) == Some(e) && ShouldHarvest(StoredOf(k, e), c))
  {
    CopiesSettle(order, k, c, n);
  }
}
