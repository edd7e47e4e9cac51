/** reconcileActiveSession: harvest refreshed tokens, then align the surfaces (internal/app/session_guard.go). */
module Reconcile {
  import opened Model
  import opened Durable
  import opened Store
  import opened Secrets
  import opened Harvest
  import opened Session
  import opened RestoreProtocol
  import Import

  /** Images that hold the same session: token and identity files, and the OS entry. */
  ghost predicate SameSurfaces(a: Image, b: Image) {
    SameSession(a, b) && Lookup(a, Keyring) == Lookup(b, Keyring)
  }

  /** What matching sees of the accounts once e has been given a token. */
  lemma ViewOfPut(d: Doc, e: Email, a: Account, t: Token, v: Vault, w: Vault)
    requires e in d.byEmail && a in {InFile(d.byEmail[e], t), InVault(d.byEmail[e], t)}
    requires forall f :: Held(Put(d, e, a), f, w) == if f == e then Some(t) else Held(d, f, v)
    ensures Put(d, e, a).order == d.order && View(Put(d, e, a), w) == View(d, v)[e := Fresh(t)]
  {
    var d' := Put(d, e, a);
    assert Held(d', e, w) == Some(t);
    assert Sight(a, w) == Fresh(t);
    forall f | f in d.byEmail && f != e ensures Sight(d'.byEmail[f], w) == Sight(d.byEmail[f], v) {
      assert Held(d', f, w) == Held(d, f, v);
    }
  }

  predicate SameJournal(a: Image, b: Image) { Lookup(a, JournalFile) == Lookup(b, JournalFile) }

  /** Account e has been given the token: the others look as before, and so do the surfaces. */
  ghost predicate Given(d: Doc, mid: Image, d': Doc, img: Image, e: Email, t: Token, saved: bool) {
    && WellFormed(d') && OwnRefs(d') && OwnRefsOnDisk(img) && d'.order == d.order
    && SameSurfaces(mid, img) && SameJournal(mid, img)
    && View(d', VaultOf(img)) == View(d, VaultOf(mid))[e := Fresh(t)]
    && (saved ==> Decoded(Lookup(img, AccountsFile)) == Some(d'))
  }

  /** One turn that gives account e the token: save it, and forget the entry it replaces if the save worked. */
  method HarvestToken(m: Machine, accounts: Accounts, e: Email, t: Token, hasVault: bool) returns (ok: bool)
    requires m.Valid() && WellFormed(accounts.Contents()) && OwnRefs(accounts.Contents()) && e in accounts.ByEmail
    requires OwnRefsOnDisk(m.files)
    modifies m, accounts
    ensures m.Valid() && Given(old(accounts.Contents()), old(m.files), accounts.Contents(), m.files, e, t, ok)
    ensures old(m.log) <= m.log && old(m.trail) <= m.trail
    ensures AlwaysKept(old(m.files), m.trail, |old(m.trail)|, map[e := t], old(accounts.Contents()), false)
    ensures AllWorked(m.log, |old(m.log)|) && hasVault && old(Smooth(accounts, m)) ==> ok && Smooth(accounts, m)
  {
    ghost var d, base := accounts.Contents(), m.files;
    ghost var n, l := |m.trail|, |m.log|;
    ghost var current := FromLoad(base, m.mtime, accounts.revision, accounts.revisionHash, d);
    var r := ReplaceSecret(m, accounts, e, t, hasVault);
    ViewOfPut(d, e, accounts.ByEmail[e], t, VaultOf(base), VaultOf(m.files));
    StoreOnly(base, m.files);
    KeptAtLeast(base, m.trail, n, map[e := t], d, current);
    ok := r == SaveResult.Saved;
    if AllWorked(m.log, l) && hasVault {
      assert Worked(m.log[l]);
      AcceptableInVault(d, e, t);
    }
  }

  /** Nothing but a failure keeps the accounts from being saved. */
  ghost predicate Smooth(accounts: Accounts, m: Machine)
    reads accounts, m
  {
    SaveStands(accounts, m) && Acceptable(accounts.Contents())
  }

  lemma AcceptableInVault(d: Doc, e: Email, t: Token)
    requires e in d.byEmail
    ensures Acceptable(d) ==> Acceptable(Put(d, e, InVault(d.byEmail[e], t)))
  {
  }

  lemma StoreOnly(base: Image, img: Image)
    requires forall p | p !in {AccountsFile, BackupFile, Secrets} :: Lookup(img, p) == Lookup(base, p)
    ensures SameSurfaces(base, img) && SameJournal(base, img)
  {
  }

  lemma KeptAtLeast(base: Image, trail: seq<Image>, from: nat, plan: Plan, d: Doc, current: bool)
    requires AlwaysKept(base, trail, from, plan, d, current)
    ensures AlwaysKept(base, trail, from, plan, d, false)
  {
    forall i | from <= i < |trail| ensures TokensKept(base, trail[i], plan, d, false) {
      assert TokensKept(base, trail[i], plan, d, current);
    }
  }

  /** What f stored before the harvest, or one of the tokens, recognised as its own at its turn. */
  ghost predicate OwnToken(order: seq<Email>, k: Known, tokens: seq<Token>, f: Email, now: Option<Token>) {
    now == StoredOf(k, f) || (now.Some? && Taken(order, k, tokens, |tokens|, f, now.value))
  }

  /** Each account on disk has a token of its own, in each image from `from` on. */
  ghost predicate OnlyOwnTokens(order: seq<Email>, k: Known, tokens: seq<Token>, trail: seq<Image>, from: nat) {
    forall i | from <= i < |trail| :: OwnTokens(order, k, tokens, trail[i])
  }

  ghost predicate OwnTokens(order: seq<Email>, k: Known, tokens: seq<Token>, img: Image) {
    forall f {:trigger OnDisk(img, f)} :: OwnToken(order, k, tokens, f, OnDisk(img, f))
  }

  lemma {:induction false} HarvestedIsOwn(order: seq<Email>, k: Known, tokens: seq<Token>, n: nat, f: Email)
    requires n <= |tokens|
    ensures OwnToken(order, k, tokens, f, StoredOf(HarvestAll(order, k, tokens[..n]).k, f))
  {
    if n > 0 {
      HarvestedIsOwn(order, k, tokens, n - 1, f);
      assert tokens[..n][..n - 1] == tokens[..n - 1];
      if OwnerAt(order, k, tokens, n - 1) == Some(f) {
        assert Taken(order, k, tokens, |tokens|, f, tokens[n - 1]);
      }
    }
  }

  /** A turn that gives e a token of its own leaves the other accounts on disk theirs. */
  lemma TurnKeepsOwn(order: seq<Email>, k: Known, tokens: seq<Token>, n: nat, e: Email, d: Doc, mid: Image,
                     trail: seq<Image>, longer: seq<Image>, from: nat)
    requires n < |tokens| && OwnerAt(order, k, tokens, n) == Some(e)
    requires View(d, VaultOf(mid)) == HarvestAll(order, k, tokens[..n]).k && OwnTokens(order, k, tokens, mid)
    requires OnlyOwnTokens(order, k, tokens, trail, from) && trail <= longer
    requires AlwaysKept(mid, longer, |trail|, map[e := tokens[n]], d, false)
    ensures OnlyOwnTokens(order, k, tokens, longer, from)
  {
    assert Taken(order, k, tokens, |tokens|, e, tokens[n]);
    forall i | from <= i < |longer| ensures OwnTokens(order, k, tokens, longer[i]) {
      if i < |trail| {
        assert longer[i] == trail[i];
      } else {
        assert TokensKept(mid, longer[i], map[e := tokens[n]], d, false);
        forall f ensures OwnToken(order, k, tokens, f, OnDisk(longer[i], f)) {
          HarvestedIsOwn(order, k, tokens, n, f);
          assert Held(d, f, VaultOf(mid)) == StoredOf(View(d, VaultOf(mid)), f);
        }
      }
    }
  }

  lemma StartsWithOwn(d: AccountsDoc, img: Image, tokens: seq<Token>)
    requires Decoded(Lookup(img, AccountsFile)) == Some(d)
    ensures OwnTokens(d.order, View(d, VaultOf(img)), tokens, img)
  {
  }

  /**
   The loop over the surfaces' tokens: it does to the accounts what HarvestAll does to their
   view. At every write on the way each account on disk has the token it had, or a surface's
   token that was recognised as its own: never another account's, and never none instead of
   one. `saved` says that accounts.json holds the result: nothing was harvested, or the last
   save went through.
   */
  method HarvestSurfaces(m: Machine, accounts: Accounts, tokens: seq<Token>, hasVault: bool)
    returns (owners: seq<Email>, unsaved: bool, saved: bool)
    requires m.Valid() && WellFormed(accounts.Contents()) && OwnRefs(accounts.Contents())
    requires Decoded(Lookup(m.files, AccountsFile)) == Some(accounts.Contents())
    modifies m, accounts
    ensures m.Valid() && SameSurfaces(old(m.files), m.files) && SameJournal(old(m.files), m.files)
    ensures WellFormed(accounts.Contents()) && OwnRefs(accounts.Contents()) && accounts.Order == old(accounts.Order)
    ensures HarvestAll(accounts.Order, View(old(accounts.Contents()), VaultOf(old(m.files))), tokens)
         == Tally(View(accounts.Contents(), VaultOf(m.files)), owners, unsaved)
    ensures OnlyOwnTokens(accounts.Order, View(old(accounts.Contents()), VaultOf(old(m.files))), tokens, m.trail,
                          |old(m.trail)|)
    ensures saved ==> Decoded(Lookup(m.files, AccountsFile)) == Some(accounts.Contents())
    ensures old(m.log) <= m.log && old(m.trail) <= m.trail
    ensures AllWorked(m.log, |old(m.log)|) && hasVault && old(Smooth(accounts, m)) ==> saved
  {
    owners, unsaved, saved := [], false, true;
    ghost var l, smooth := |m.log|, hasVault && Smooth(accounts, m);
    ghost var base, k := m.files, View(accounts.Contents(), VaultOf(m.files));
    ghost var from, order := |m.trail|, accounts.Order;
    HarvestStarts(m.files, accounts.Contents(), tokens, m.trail);
    for i := 0 to |tokens|
      invariant m.Valid() && old(m.log) <= m.log && old(m.trail) <= m.trail
      invariant Harvesting(base, order, k, tokens, i, from,
                           Stand(accounts.Contents(), m.files, m.trail, owners, unsaved, saved))
      invariant AllWorked(m.log, l) && smooth ==> saved && Smooth(accounts, m)
    {
      owners, unsaved, saved := HarvestAt(m, accounts, tokens, i, hasVault, owners, unsaved, saved, base, order, k,
                                          from, l, smooth);
    }
    HarvestEnds(base, order, k, tokens, from, Stand(accounts.Contents(), m.files, m.trail, owners, unsaved, saved));
  }

  /** The body of the loop. */
  method HarvestAt(m: Machine, accounts: Accounts, tokens: seq<Token>, i: nat, hasVault: bool, former: seq<Email>,
                   left: bool, before: bool, ghost base: Image, ghost order: seq<Email>, ghost k: Known,
                   ghost from: nat, ghost l: nat, ghost smooth: bool)
    returns (owners: seq<Email>, unsaved: bool, saved: bool)
    requires m.Valid() && i < |tokens| && l <= |m.log| && (smooth ==> hasVault)
    requires Harvesting(base, order, k, tokens, i, from,
                        Stand(accounts.Contents(), m.files, m.trail, former, left, before))
    requires AllWorked(m.log, l) && smooth ==> before && Smooth(accounts, m)
    modifies m, accounts
    ensures m.Valid() && old(m.log) <= m.log && old(m.trail) <= m.trail
    ensures Harvesting(base, order, k, tokens, i + 1, from,
                       Stand(accounts.Contents(), m.files, m.trail, owners, unsaved, saved))
    ensures AllWorked(m.log, l) && smooth ==> saved && Smooth(accounts, m)
  {
    ghost var log := m.log;
    ghost var h := Stand(accounts.Contents(), m.files, m.trail, former, left, before);
    owners, unsaved, saved := HarvestTurn(m, accounts, tokens[i], hasVault, former, left, before);
    WorkedBefore(log, m.log, l, |log|);
    TurnKeepsHarvest(base, order, k, tokens, i, from, h,
                     Stand(accounts.Contents(), m.files, m.trail, owners, unsaved, saved));
  }

  lemma HarvestStarts(base: Image, d: AccountsDoc, tokens: seq<Token>, trail: seq<Image>)
    requires OwnRefs(d) && Decoded(Lookup(base, AccountsFile)) == Some(d) && trail != [] && base == trail[|trail| - 1]
    ensures Harvesting(base, d.order, View(d, VaultOf(base)), tokens, 0, |trail|,
                       Stand(d, base, trail, [], false, true))
  {
    StartsWithOwn(d, base, tokens);
  }

  lemma HarvestEnds(base: Image, order: seq<Email>, k: Known, tokens: seq<Token>, from: nat, h: Stand)
    requires Harvesting(base, order, k, tokens, |tokens|, from, h)
    ensures HarvestAll(order, k, tokens) == Tally(View(h.d, VaultOf(h.files)), h.owners, h.unsaved)
  {
    assert tokens[..|tokens|] == tokens;
  }

  /** The state of the loop, on disk and in memory. */
  datatype Stand = Stand(d: Doc, files: Image, trail: seq<Image>, owners: seq<Email>, unsaved: bool, saved: bool)

  /** Where the loop stands after i tokens. */
  ghost predicate Harvesting(base: Image, order: seq<Email>, k: Known, tokens: seq<Token>, i: nat, from: nat,
                             h: Stand) {
    i <= |tokens| && Sound(base, order, h) && Tallied(order, k, tokens, i, h) && Owned(order, k, tokens, from, h)
  }

  ghost predicate Sound(base: Image, order: seq<Email>, h: Stand) {
    && SameSurfaces(base, h.files) && SameJournal(base, h.files)
    && WellFormed(h.d) && OwnRefs(h.d) && OwnRefsOnDisk(h.files) && h.d.order == order
    && (h.saved ==> Decoded(Lookup(h.files, AccountsFile)) == Some(h.d))
  }

  /** The loop has done to the accounts what HarvestAll does to their view. */
  ghost predicate Tallied(order: seq<Email>, k: Known, tokens: seq<Token>, i: nat, h: Stand)
    requires i <= |tokens|
  {
    HarvestAll(order, k, tokens[..i]) == Tally(View(h.d, VaultOf(h.files)), h.owners, h.unsaved)
  }

  /** At every write so far the accounts on disk had tokens of their own. */
  ghost predicate Owned(order: seq<Email>, k: Known, tokens: seq<Token>, from: nat, h: Stand) {
    && OwnTokens(order, k, tokens, h.files) && OnlyOwnTokens(order, k, tokens, h.trail, from)
    && from <= |h.trail| && h.trail != [] && h.files == h.trail[|h.trail| - 1]
  }

  /** The account a token is given to, if it has an owner and is worth keeping. */
  function Taker(d: Doc, v: Vault, t: Token): Option<Email> {
    match Owner(d.order, View(d, v), t)
    case None => None
    case Some(e) => if ShouldHarvest(Held(d, e, v), t) then Some(e) else None
  }

  /** What one turn does with a token. */
  ghost predicate Turned(t: Token, h: Stand, h': Stand) {
    var owner, taker := Owner(h.d.order, View(h.d, VaultOf(h.files)), t), Taker(h.d, VaultOf(h.files), t);
    && h'.owners == (if owner.Some? then h.owners + [owner.value] else h.owners)
    && (h'.unsaved <==> h.unsaved || (owner == None && HasSession(t)))
    && h.trail <= h'.trail && h'.trail != [] && h'.files == h'.trail[|h'.trail| - 1]
    && match taker
       case None => h'.d == h.d && h'.files == h.files && h'.trail == h.trail && h'.saved == h.saved
       case Some(e) =>
         && Given(h.d, h.files, h'.d, h'.files, e, t, h'.saved)
         && AlwaysKept(h.files, h'.trail, |h.trail|, map[e := t], h.d, false)
  }

  /** One turn of the loop. */
  method HarvestTurn(m: Machine, accounts: Accounts, t: Token, hasVault: bool, before: seq<Email>, unsavedSoFar: bool,
                     savedSoFar: bool)
    returns (owners: seq<Email>, unsaved: bool, saved: bool)
    requires m.Valid() && WellFormed(accounts.Contents()) && OwnRefs(accounts.Contents()) && OwnRefsOnDisk(m.files)
    modifies m, accounts
    ensures m.Valid() && old(m.log) <= m.log && old(m.trail) <= m.trail
    ensures Turned(t, old(Stand(accounts.Contents(), m.files, m.trail, before, unsavedSoFar, savedSoFar)),
                   Stand(accounts.Contents(), m.files, m.trail, owners, unsaved, saved))
    ensures AllWorked(m.log, |old(m.log)|) && hasVault && old(Smooth(accounts, m)) && savedSoFar ==>
              saved && Smooth(accounts, m)
  {
    owners, unsaved, saved := before, unsavedSoFar, savedSoFar;
    var owner := Owner(accounts.Order, View(accounts.Contents(), VaultOf(m.files)), t);
    if owner == None {
      unsaved := unsaved || HasSession(t);
      return;
    }
    owners := owners + [owner.value];
    assert owner.value in accounts.ByEmail;
    if ShouldHarvest(Resolve(accounts.ByEmail[owner.value], VaultOf(m.files)), t) {
      saved := HarvestToken(m, accounts, owner.value, t, hasVault);
    }
  }

  lemma TurnKeepsHarvest(base: Image, order: seq<Email>, k: Known, tokens: seq<Token>, i: nat, from: nat, h: Stand,
                         h': Stand)
    requires i < |tokens| && Harvesting(base, order, k, tokens, i, from, h) && Turned(tokens[i], h, h')
    ensures Harvesting(base, order, k, tokens, i + 1, from, h')
  {
    TurnTallies(order, k, tokens, i, h, h');
    TurnIsSound(base, order, tokens[i], h, h');
    TurnKeepsOwned(order, k, tokens, i, from, h, h');
  }

  lemma TurnIsSound(base: Image, order: seq<Email>, t: Token, h: Stand, h': Stand)
    requires Sound(base, order, h) && Turned(t, h, h')
    ensures Sound(base, order, h')
  {
    if Taker(h.d, VaultOf(h.files), t).Some? {
      SurfacesChain(base, h.files, h'.files);
    }
  }

  lemma TurnKeepsOwned(order: seq<Email>, k: Known, tokens: seq<Token>, i: nat, from: nat, h: Stand, h': Stand)
    requires i < |tokens| && Tallied(order, k, tokens, i, h) && Owned(order, k, tokens, from, h)
    requires h.d.order == order && Turned(tokens[i], h, h')
    ensures Owned(order, k, tokens, from, h')
  {
    var taker := Taker(h.d, VaultOf(h.files), tokens[i]);
    if taker.Some? {
      assert OwnerAt(order, k, tokens, i) == taker;
      TurnKeepsOwn(order, k, tokens, i, taker.value, h.d, h.files, h.trail, h'.trail, from);
      LastOwn(order, k, tokens, h.files, h'.files, h.trail, h'.trail, from);
    }
  }

  /** A turn does to the view what HarvestOne does to it. */
  lemma TurnTallies(order: seq<Email>, k: Known, tokens: seq<Token>, i: nat, h: Stand, h': Stand)
    requires i < |tokens| && Turned(tokens[i], h, h') && h.d.order == order
    requires Tallied(order, k, tokens, i, h)
    ensures Tallied(order, k, tokens, i + 1, h')
  {
    assert tokens[..i + 1][..i] == tokens[..i] && tokens[..i + 1][i] == tokens[i];
    TurnIsHarvest(h, h', tokens[i]);
  }

  lemma TurnIsHarvest(h: Stand, h': Stand, t: Token)
    requires Turned(t, h, h')
    ensures HarvestOne(h.d.order, Tally(View(h.d, VaultOf(h.files)), h.owners, h.unsaved), t)
            == Tally(View(h'.d, VaultOf(h'.files)), h'.owners, h'.unsaved)
  {
    var k, owner := View(h.d, VaultOf(h.files)), Owner(h.d.order, View(h.d, VaultOf(h.files)), t);
    if owner.Some? {
      assert Held(h.d, owner.value, VaultOf(h.files)) == if owner.value in k then k[owner.value].stored else None;
    }
  }

  lemma LastOwn(order: seq<Email>, k: Known, tokens: seq<Token>, mid: Image, img: Image, trail: seq<Image>,
                longer: seq<Image>, from: nat)
    requires OwnTokens(order, k, tokens, mid) && OnlyOwnTokens(order, k, tokens, longer, from)
    requires trail <= longer && longer != [] && img == longer[|longer| - 1]
    requires trail != [] && mid == trail[|trail| - 1] && from <= |trail|
    ensures OwnTokens(order, k, tokens, img)
  {
  }

  lemma SurfacesChain(a: Image, b: Image, c: Image)
    requires SameSurfaces(a, b) && SameJournal(a, b) && SameSurfaces(b, c) && SameJournal(b, c)
    ensures SameSurfaces(a, c) && SameJournal(a, c)
  {
    forall p | IsSessionFile(p) ensures Lookup(a, p) == Lookup(c, p) {
      assert Lookup(a, p) == Lookup(b, p);
    }
  }

  datatype Outcome =
    | Busy        // another process holds the session lock
    | SignedOut   // no token file is left
    | NoAccounts
    | Unsaved     // some surface holds a session of no saved account
    | NoIntent    // no active account, or none with a token
    | InSync
    | Synced(e: Email)
    | SyncFailed(e: Email)

  /** StoredActiveEmail. */
  function StoredActive(img: Image): Option<Email> {
    match Lookup(img, GoogleAccounts)
    case Some(ActiveJson(active, _)) => Some(active)
    case _ => None
  }

  /** The account a run means to be active. */
  function Intended(img: Image, owners: seq<Email>): Option<Email> {
    if StoredActive(img).Some? then StoredActive(img) else if owners != [] then Some(owners[0]) else None
  }

  /** The account the identity file names, or if it names none the first owner of a token. */
  predicate IsIntended(img: Image, owners: seq<Email>, e: Email) {
    match Lookup(img, GoogleAccounts)
    case Some(ActiveJson(active, _)) => e == active
    case _ => |owners| > 0 && e == owners[0]
  }

  /** Load without the log scan: recover an interrupted import, then read. */
  method Load(m: Machine) returns (r: Option<Accounts>)
    requires m.Valid()
    modifies m
    ensures m.Valid() && SameSurfaces(old(m.files), m.files) && VaultOf(m.files) == VaultOf(old(m.files))
    ensures r.Some? ==>
              && fresh(r.value) && WellFormed(r.value.Contents()) && Quiet(m.files)
              && Decoded(Recovered(old(m.files)).accounts) == Some(r.value.Contents())
              && Decoded(Lookup(m.files, AccountsFile)) == Some(r.value.Contents())
    ensures old(m.log) <= m.log
    ensures AllWorked(m.log, |old(m.log)|) ==>
              (r.Some? <==> Loadable(old(m.files))) && (r.Some? ==> SaveStands(r.value, m))
  {
    ghost var base, l := m.files, |m.log|;
    var recovered := Import.RecoverRestoreUnlocked(m);
    if !recovered {
      return None;
    }
    ghost var log := m.log;
    r := ReadAccountsUnlocked(m);
    WorkedBefore(log, m.log, l, |log|);
    assert r.Some? ==> WellFormed(r.value.Contents());
  }

  /** The journal, if there is one, can be read, and so can the accounts it leaves. */
  ghost predicate Loadable(img: Image) {
    (Quiet(img) || JournalOf(img).Some?) && Decoded(Recovered(img).accounts).Some?
  }

  /** What these tokens do to the accounts on disk. */
  ghost function HarvestOf(img: Image, tokens: seq<Token>): Tally
    requires Decoded(Recovered(img).accounts).Some?
  {
    var d := Decoded(Recovered(img).accounts).value;
    HarvestAll(d.order, View(d, VaultOf(img)), tokens)
  }

  /** The tokens of the surfaces, those that could not be read left out. */
  function TokensRead(img: Image, missed: set<Path>): seq<Token> {
    DiskTokens(img, Seen(SURFACES, missed))
  }

  /** The harvest a run starts with: what the tokens it read do to the accounts on disk. */
  ghost function Harvest0(img: Image, missed: set<Path>): Tally
    requires Decoded(Recovered(img).accounts).Some?
  {
    HarvestOf(img, TokensRead(img, missed))
  }

  /** Whether every surface holds exactly this token. */
  predicate AllHold(img: Image, t: Token) {
    TokenAt(img, CliToken) == Some(t) && TokenAt(img, IdeToken) == Some(t) && TokenAt(img, JetskiToken) == Some(t)
  }

  /** Write the session to every surface, and to the OS entry if it is mirrored there. */
  method Spread(m: Machine, token: Token, e: Email, mirror: bool) returns (ok: bool)
    requires m.Valid()
    modifies m
    ensures m.Valid() && SameStore(old(m.files), m.files)
    ensures ok ==> Usable(token) && AllHold(m.files, Canonical(token)) && StoredActive(m.files) == Some(e)
    ensures old(m.log) <= m.log
    ensures WroteSurfaces(old(m.files), m.files, m.log, |old(m.log)|, mirror, token, ok)
  {
    ghost var base, l := m.files, |m.log|;
    ok := WriteOAuthFiles(m, token, Some(e));
    if ok {
      WrittenHoldsAll(base, m.files, token, e);
    }
    ghost var written, log := m.files, m.log;
    assert Lookup(written, Keyring) == Lookup(base, Keyring);
    if mirror {
      var mirrored := SetKeyring(m, token);
      MirroredHoldsAll(written, m.files);
      WorkedBefore(log, m.log, l, |log|);
      assert m.log[|log|] == Op(Keyring, KeyringContent(Some(token)), mirrored);
    }
    if !ok {
      PutBackLater(base, base, written, m.files, log, m.log, l);
    }
  }

  /**
   How the surfaces were written: the OS entry is the token if it is mirrored there, unless that
   write failed; and if the files could not be written, which takes an unusable token or a
   failure, each is put back unless its own roll-back write failed.
   */
  ghost predicate WroteSurfaces(base: Image, after: Image, log: seq<Op>, from: nat, mirror: bool, token: Token,
                                ok: bool) {
    && (if mirror then
          TokenAt(after, Keyring) == Some(token) || WriteFailed(log, from, Keyring, KeyringContent(Some(token)))
        else Lookup(after, Keyring) == Lookup(base, Keyring))
    && (!ok ==> PutBack(base, after, log, from) && (token.wrapped && token.access != "" ==> !AllWorked(log, from)))
  }

  lemma WroteLater(base: Image, mid: Image, after: Image, log: seq<Op>, from: nat, since: nat, mirror: bool,
                   token: Token, ok: bool)
    requires WroteSurfaces(mid, after, log, since, mirror, token, ok) && SameSurfaces(base, mid) && from <= since
    ensures WroteSurfaces(base, after, log, from, mirror, token, ok)
  {
    WorkedBefore(log, log, from, since);
    if !ok {
      forall p | IsSessionFile(p) ensures Lookup(after, p) == Lookup(base, p)
          || WriteFailed(log, from, p, Lookup(base, p)) {
        assert Lookup(mid, p) == Lookup(base, p);
      }
    }
  }

  /** The same of a run that writes. */
  ghost predicate WroteAsAimed(base: Image, after: Image, log: seq<Op>, from: nat, mirror: bool, aim: Option<Token>,
                               r: Outcome) {
    Writes(r) ==> aim.Some? && WroteSurfaces(base, after, log, from, mirror, aim.value, r.Synced?)
  }

  lemma WrittenHoldsAll(base: Image, img: Image, token: Token, e: Email)
    requires SessionWritten(base, img, token, Some(e))
    ensures AllHold(img, Canonical(token)) && StoredActive(img) == Some(e)
  {
    assert forall p | IsSurface(p) :: TokenAt(img, p) == Some(Canonical(token));
  }

  lemma MirroredHoldsAll(written: Image, img: Image)
    requires SameBut(written, img, Keyring)
    ensures SameStore(written, img) && StoredActive(img) == StoredActive(written)
    ensures forall t :: AllHold(written, t) ==> AllHold(img, t)
  {
    assert forall p | p != Keyring :: Lookup(img, p) == Lookup(written, p);
  }

  /** Images with the same accounts, vault and journal. */
  predicate SameStore(a: Image, b: Image) {
    Lookup(a, AccountsFile) == Lookup(b, AccountsFile) && Lookup(a, Secrets) == Lookup(b, Secrets) && SameJournal(a, b)
  }

  /** The intended account and the token it resolves to, if there is one. */
  function Aim(img: Image, owners: seq<Email>, k: Known): Option<Token> {
    if Intended(img, owners).Some? then StoredOf(k, Intended(img, owners).value) else None
  }

  /** The last part: bring the surfaces in line with the intended account, if they are not. */
  method Align(m: Machine, accounts: Accounts, owners: seq<Email>, mirror: bool) returns (r: Outcome)
    requires m.Valid() && WellFormed(accounts.Contents())
    modifies m
    ensures m.Valid() && SameStore(old(m.files), m.files) && (r in {NoIntent, InSync} || r.Synced? || r.SyncFailed?)
    ensures r in {NoIntent, InSync} ==> m.files == old(m.files)
    ensures Aligned(old(m.files), m.files, owners, View(accounts.Contents(), VaultOf(old(m.files))), r)
    ensures old(m.log) <= m.log
    ensures WroteAsAimed(old(m.files), m.files, m.log, |old(m.log)|, mirror,
                         Aim(old(m.files), owners, View(accounts.Contents(), VaultOf(old(m.files)))), r)
  {
    var intended := Intended(m.files, owners);
    if intended == None || intended.value !in accounts.ByEmail {
      return NoIntent;
    }
    var e := intended.value;
    var token := Resolve(accounts.ByEmail[e], VaultOf(m.files));
    if token == None {
      return NoIntent;
    }
    if StoredActive(m.files) == intended && AllHold(m.files, token.value) {
      return InSync;
    }
    var ok := Spread(m, token.value, e, mirror);
    return if ok then Synced(e) else SyncFailed(e);
  }

  /**
   What the last part does: nothing without a token to aim at, or if the surfaces hold it
   already; otherwise it writes them, and on success they all hold it.
   */
  ghost predicate Aligned(base: Image, after: Image, owners: seq<Email>, k: Known, r: Outcome) {
    var aim := Aim(base, owners, k);
    && (r == NoIntent <==> aim == None)
    && (r == InSync <==> aim.Some? && StoredActive(base) == Intended(base, owners) && AllHold(base, aim.value))
    && (r.Synced? ==>
          && aim.Some? && Some(r.e) == Intended(base, owners) && Usable(aim.value)
          && AllHold(after, Canonical(aim.value)) && StoredActive(after) == Some(r.e))
    && (Writes(r) ==> IsIntended(base, owners, r.e))
  }

  /** Everything after the accounts are loaded. */
  method HarvestAndAlign(m: Machine, accounts: Accounts, tokens: seq<Token>, hasVault: bool, mirror: bool)
    returns (r: Outcome, saved: bool, ghost s: Tally)
    requires m.Valid() && WellFormed(accounts.Contents()) && OwnRefs(accounts.Contents())
    requires Decoded(Lookup(m.files, AccountsFile)) == Some(accounts.Contents()) && Quiet(m.files)
    modifies m, accounts
    ensures m.Valid() && r !in {Busy, SignedOut, NoAccounts}
    ensures s == old(HarvestAll(accounts.Order, View(accounts.Contents(), VaultOf(m.files)), tokens))
    ensures !r.Synced? && !r.SyncFailed? ==> SameSurfaces(old(m.files), m.files)
    ensures Concluded(old(m.files), m.files, s, r)
    ensures saved ==> HarvestOnDisk(m.files, old(accounts.Order), s)
    ensures old(m.log) <= m.log
    ensures WroteAsAimed(old(m.files), m.files, m.log, |old(m.log)|, mirror, Aim(old(m.files), s.owners, s.k), r)
    ensures AllWorked(m.log, |old(m.log)|) && hasVault && old(Smooth(accounts, m)) ==> saved
  {
    ghost var base, order, l := m.files, accounts.Order, |m.log|;
    s := HarvestAll(accounts.Order, View(accounts.Contents(), VaultOf(m.files)), tokens);
    var owners, unsaved;
    owners, unsaved, saved := HarvestSurfaces(m, accounts, tokens, hasVault);
    assert saved ==> HarvestOnDisk(m.files, order, s);
    if unsaved {
      return Unsaved, saved, s;
    }
    ghost var log := m.log;
    r := AlignHarvested(m, accounts, owners, saved, mirror, base, order, s, l);
    WorkedBefore(log, m.log, l, |log|);
  }

  /** The last part, after the harvest. */
  method AlignHarvested(m: Machine, accounts: Accounts, owners: seq<Email>, ghost saved: bool, mirror: bool,
                        ghost base: Image, ghost order: seq<Email>, ghost s: Tally, ghost l: nat) returns (r: Outcome)
    requires m.Valid() && WellFormed(accounts.Contents()) && SameSurfaces(base, m.files) && Quiet(m.files)
    requires s == Tally(View(accounts.Contents(), VaultOf(m.files)), owners, false) && l <= |m.log|
    requires saved ==> HarvestOnDisk(m.files, order, s)
    modifies m
    ensures m.Valid() && old(m.log) <= m.log && r !in {Busy, SignedOut, NoAccounts, Unsaved}
    ensures !Writes(r) ==> SameSurfaces(base, m.files)
    ensures Concluded(base, m.files, s, r) && (saved ==> HarvestOnDisk(m.files, order, s))
    ensures WroteAsAimed(base, m.files, m.log, l, mirror, Aim(base, s.owners, s.k), r)
  {
    ghost var mid, log := m.files, m.log;
    SameSurfacesRead(base, mid, owners);
    r := Align(m, accounts, owners, mirror);
    if Writes(r) {
      WroteLater(base, mid, m.files, m.log, l, |log|, mirror, Aim(mid, s.owners, s.k).value, r.Synced?);
    }
    if saved {
      HarvestStays(mid, m.files, order, s);
    }
  }

  lemma HarvestStays(mid: Image, img: Image, order: seq<Email>, s: Tally)
    requires HarvestOnDisk(mid, order, s) && Quiet(mid) && SameStore(mid, img)
    ensures HarvestOnDisk(img, order, s)
  {
    assert Lookup(img, JournalFile) == None;
  }

  /** accounts.json and the vault hold what the harvest made of the accounts. */
  ghost predicate HarvestOnDisk(img: Image, order: seq<Email>, s: Tally) {
    && Decoded(Recovered(img).accounts).Some?
    && Decoded(Recovered(img).accounts).value.order == order
    && View(Decoded(Recovered(img).accounts).value, VaultOf(img)) == s.k
  }

  /** What a run does once it has harvested to `s`. */
  ghost predicate Concluded(base: Image, after: Image, s: Tally, r: Outcome) {
    if s.unsaved then r == Unsaved else r != Unsaved && Aligned(base, after, s.owners, s.k, r)
  }

  /** What a run does that got past the session lock and the accounts, and could not read the missed surfaces. */
  ghost predicate Reconciled(base: Image, after: Image, missed: set<Path>, r: Outcome) {
    && TokensRead(base, missed) != [] && Decoded(Recovered(base).accounts).Some?
    && Concluded(base, after, Harvest0(base, missed), r)
  }

  /** A run from the tokens it read on. */
  method ReconcileTokens(m: Machine, tokens: seq<Token>, hasVault: bool, mirror: bool) returns (r: Outcome, saved: bool)
    requires m.Valid()
    requires Decoded(Recovered(m.files).accounts).Some? ==> OwnRefs(Decoded(Recovered(m.files).accounts).value)
    modifies m
    ensures m.Valid() && old(m.log) <= m.log && r !in {Busy, SignedOut}
    ensures !r.Synced? && !r.SyncFailed? ==> SameSurfaces(old(m.files), m.files)
    ensures r != NoAccounts ==>
              && Decoded(Recovered(old(m.files)).accounts).Some?
              && Concluded(old(m.files), m.files, HarvestOf(old(m.files), tokens), r)
              && (saved ==> HarvestOnDisk(m.files, Decoded(Recovered(old(m.files)).accounts).value.order,
                                          HarvestOf(old(m.files), tokens)))
              && WroteAsAimed(old(m.files), m.files, m.log, |old(m.log)|, mirror,
                              AimOf(old(m.files), HarvestOf(old(m.files), tokens)), r)
    ensures WentThrough(m.log, |old(m.log)|, old(m.files), hasVault, r, saved)
  {
    ghost var base, l := m.files, |m.log|;
    saved := false;
    var accounts := Load(m);
    ghost var log := m.log;
    if accounts == None || accounts.value.Order == [] {
      return NoAccounts, saved;
    }
    ghost var loaded, s := m.files, HarvestOf(base, tokens);
    r, saved, s := HarvestAndAlign(m, accounts.value, tokens, hasVault, mirror);
    SameSurfacesRead(base, loaded, s.owners);
    WorkedBefore(log, m.log, l, |log|);
    if Writes(r) {
      WroteLater(base, loaded, m.files, m.log, l, |log|, mirror, Aim(loaded, s.owners, s.k).value, r.Synced?);
    }
  }

  ghost function AimOf(img: Image, s: Tally): Option<Token> { Aim(img, s.owners, s.k) }

  /**
   With nothing failing, a run ends for want of accounts only if there are none to be loaded, and
   with a vault and acceptable accounts its harvest is saved.
   */
  ghost predicate WentThrough(log: seq<Op>, from: nat, base: Image, hasVault: bool, r: Outcome, saved: bool) {
    AllWorked(log, from) ==>
      && (r == NoAccounts <==> !Loadable(base) || Decoded(Recovered(base).accounts).value.order == [])
      && (r != NoAccounts && hasVault && Acceptable(Decoded(Recovered(base).accounts).value) ==> saved)
  }

  /**
   reconcileActiveSession. Signed out, it writes nothing at all; with a session of no saved
   account on a surface it could read it changes no surface; and when it writes, every surface
   ends up with the token the intended account stores after the harvest of what was read.
   `free` says that nobody else holds the session lock, `saved` that the harvest is on disk, and
   `missed` names the unreadable surfaces.
   */
  method ReconcileActiveSession(m: Machine, free: bool, hasVault: bool, mirror: bool)
    returns (r: Outcome, saved: bool, ghost missed: set<Path>)
    requires m.Valid()
    requires Decoded(Recovered(m.files).accounts).Some? ==> OwnRefs(Decoded(Recovered(m.files).accounts).value)
    modifies m
    ensures m.Valid() && old(m.log) <= m.log
    ensures r in {Busy, SignedOut} ==> m.files == old(m.files) && m.trail == old(m.trail)
    ensures (r == Busy <==> !free) && (r == SignedOut <==> free && TokensRead(old(m.files), missed) == [])
    ensures DiskTokens(old(m.files), SURFACES) == [] ==> r in {Busy, SignedOut}
    ensures !r.Synced? && !r.SyncFailed? ==> SameSurfaces(old(m.files), m.files)
    ensures Missed(m.log, |old(m.log)|, missed) && (AllRead(m.log, |old(m.log)|) ==> missed == {})
    ensures r !in {Busy, SignedOut, NoAccounts} ==>
              && Reconciled(old(m.files), m.files, missed, r)
              && (saved ==> HarvestOnDisk(m.files, Decoded(Recovered(old(m.files)).accounts).value.order,
                                          Harvest0(old(m.files), missed)))
              && WroteAsAimed(old(m.files), m.files, m.log, |old(m.log)|, mirror,
                              AimOf(old(m.files), Harvest0(old(m.files), missed)), r)
    ensures r !in {Busy, SignedOut} ==> WentThrough(m.log, |old(m.log)|, old(m.files), hasVault, r, saved)
  {
    if !free {
      return Busy, false, {};
    }
    ghost var n, start := |m.log|, m.files;
    var tokens;
    tokens, missed := ReadSurfaces(m);
    ghost var log := m.log;
    SeenAreOnDisk(m.files, SURFACES, missed);
    if tokens == [] {
      return SignedOut, false, missed;
    }
    assert tokens[0] in tokens;
    r, saved := ReconcileTokens(m, tokens, hasVault, mirror);
    WorkedBefore(log, m.log, n, |log|);
    if Writes(r) {
      WroteLater(start, start, m.files, m.log, n, |log|, mirror, AimOf(start, HarvestOf(start, tokens)).value,
                 r.Synced?);
    }
    MissedStill(log, m.log, n, n, missed);
    NoneMissed(m.log, n, missed);
  }

  lemma SameSurfacesRead(a: Image, b: Image, owners: seq<Email>)
    requires SameSurfaces(a, b)
    ensures StoredActive(a) == StoredActive(b) && Intended(a, owners) == Intended(b, owners)
    ensures forall p | IsSurface(p) :: TokenAt(a, p) == TokenAt(b, p)
  {
    assert Lookup(a, GoogleAccounts) == Lookup(b, GoogleAccounts);
  }

  /** A run leaves the surfaces alone for a session of no saved account exactly when it has read such a session. */
  lemma UnsavedIff(base: Image, after: Image, missed: set<Path>, r: Outcome)
    requires Reconciled(base, after, missed, r)
    ensures var d := Decoded(Recovered(base).accounts).value;
            r == Unsaved <==> exists i: nat :: Unowned(d.order, View(d, VaultOf(base)), TokensRead(base, missed), i)
  {
    var d := Decoded(Recovered(base).accounts).value;
    UnsavedIsNoticed(d.order, View(d, VaultOf(base)), TokensRead(base, missed));
  }

  /**
   A run that writes never replaces a copy it has read by an older one: what every surface ends
   up with is at least as fresh as each usable copy of that account's session it read, and as
   what the account stored, if those expiries are known.
   */
  lemma SyncKeepsFreshest(base: Image, after: Image, missed: set<Path>, e: Email, i: nat)
    requires Reconciled(base, after, missed, Synced(e))
    requires var d, tokens := Decoded(Recovered(base).accounts).value, TokensRead(base, missed);
             var k := View(d, VaultOf(base));
             DatedFor(d.order, k, tokens, e) && OwnCopy(d.order, k, tokens, e, i)
    ensures var d, tokens := Decoded(Recovered(base).accounts).value, TokensRead(base, missed);
            var stored := StoredOf(View(d, VaultOf(base)), e);
            forall p | IsSurface(p) ::
              && TokenAt(after, p).Some?
              && Expiry(tokens[i]) <= Expiry(TokenAt(after, p).value)
              && (stored.Some? ==> Expiry(stored.value) <= Expiry(TokenAt(after, p).value))
  {
    var d, tokens := Decoded(Recovered(base).accounts).value, TokensRead(base, missed);
    HarvestKeepsFreshest(d.order, View(d, VaultOf(base)), tokens, e);
  }

  // ----- the next run -----

  /** The run goes on to write the surfaces. */
  predicate Writes(r: Outcome) { r.Synced? || r.SyncFailed? }

  lemma {:induction false} CopiesRead(img: Image, c: Token, paths: seq<Path>, missed: set<Path>)
    requires AllHold(img, c) && forall p | p in paths :: IsSurface(p)
    ensures DiskTokens(img, Seen(paths, missed)) == seq(|Seen(paths, missed)|, _ => c)
  {
    if paths != [] {
      var n, p := |paths| - 1, paths[|paths| - 1];
      CopiesRead(img, c, paths[..n], missed);
      assert IsSurface(p) && TokenAt(img, p) == Some(c);
      DiskTokensAppend(img, Seen(paths[..n], missed), p);
      if p in missed {
        assert Seen(paths, missed) == Seen(paths[..n], missed);
      }
    }
  }

  /**
   Two runs in a row, with nobody in between, whatever surfaces each could read. The first
   wrote the surfaces for account e. Whatever became of its saves, the second writes them again
   exactly if e stores another token on disk than the one written, and that one is a saved
   account's but does not replace it.
   */
  lemma NextRunWritesIff(base: Image, mid: Image, after: Image, missed: set<Path>, missed': set<Path>, e: Email,
                         r: Outcome)
    requires Reconciled(base, mid, missed, Synced(e)) && Reconciled(mid, after, missed', r)
             && r !in {Busy, SignedOut, NoAccounts}
    ensures StoredOf(Harvest0(base, missed).k, e).Some?
    ensures var c := Canonical(StoredOf(Harvest0(base, missed).k, e).value);
            var d := Decoded(Recovered(mid).accounts).value;
            var k := View(d, VaultOf(mid));
            Writes(r) <==>
              && Owner(d.order, k, c).Some? && StoredOf(k, e).Some? && StoredOf(k, e) != Some(c)
              && !(Owner(d.order, k, c) == Some(e) && ShouldHarvest(StoredOf(k, e), c))
  {
    var c := Canonical(StoredOf(Harvest0(base, missed).k, e).value);
    var d := Decoded(Recovered(mid).accounts).value;
    WritesIs(mid, after, missed', e, c, r);
    ReconcileFixpointIff(d.order, View(d, VaultOf(mid)), e, c, |Seen(SURFACES, missed')|);
  }

  /** A run that finds the same token everywhere it looks, and e as the active account. */
  lemma WritesIs(img: Image, after: Image, missed: set<Path>, e: Email, c: Token, r: Outcome)
    requires Reconciled(img, after, missed, r) && r !in {Busy, SignedOut, NoAccounts}
    requires AllHold(img, c) && StoredActive(img) == Some(e)
    ensures |Seen(SURFACES, missed)| > 0
    ensures var d := Decoded(Recovered(img).accounts).value;
            Writes(r) <==> WouldWrite(d.order, View(d, VaultOf(img)), e, c, |Seen(SURFACES, missed)|)
  {
    CopiesRead(img, c, SURFACES, missed);
    var s := Harvest0(img, missed);
    var aim := Aim(img, s.owners, s.k);
    assert Intended(img, s.owners) == Some(e) && aim == StoredOf(s.k, e);
    assert aim.Some? ==> (AllHold(img, aim.value) <==> aim.value == c);
    assert Writes(r) <==> !s.unsaved && aim.Some? && aim != Some(c);
  }

  /**
   If the first run's harvest is on disk, the second writes nothing, unless the token was not
   in canonical form and its canonical form is recognised as another account's.
   */
  lemma SavedRunIsFixpointIff(base: Image, mid: Image, after: Image, missed: set<Path>, missed': set<Path>, e: Email,
                              r: Outcome)
    requires Reconciled(base, mid, missed, Synced(e)) && Reconciled(mid, after, missed', r)
             && r !in {Busy, SignedOut, NoAccounts}
    requires HarvestOnDisk(mid, Decoded(Recovered(base).accounts).value.order, Harvest0(base, missed))
    ensures StoredOf(Harvest0(base, missed).k, e).Some?
    ensures var i, owner := StoredOf(Harvest0(base, missed).k, e).value,
                            Owner(Decoded(Recovered(base).accounts).value.order, Harvest0(base, missed).k,
                                  Canonical(StoredOf(Harvest0(base, missed).k, e).value));
            Writes(r) <==> i != Canonical(i) && owner.Some? && owner != Some(e)
  {
    NextRunWritesIff(base, mid, after, missed, missed', e, r);
  }

  // ----- two runs that go wrong -----

  const ANN := Email("a@x.io")
  const BEA := Email("b@x.io")
  const KEPT := Token(true, "a", "r", None, None, 0)
  const STRANGER := Token(true, "s", "q", None, None, 0)
  const NOTHING := Account(ANN, None, None, None, None, None, Notes(None, None, NoTier, 0))
  const ONE: AccountsDoc := Doc([ANN], map[ANN := NOTHING.(tokenData := Some(KEPT))])

  /** Ann is active and saved, and a session of nobody's is on the second surface. */
  const SIGNED_IN: Image :=
    map[AccountsFile := AccountsJson(ONE), GoogleAccounts := ActiveJson(ANN, []), CliToken := TokenJson(KEPT),
        IdeToken := TokenJson(STRANGER), JetskiToken := TokenJson(KEPT)]

  lemma ReadOfThree(img: Image)
    ensures SURFACES[..2] == [CliToken, IdeToken] && SURFACES[..2][..1] == [CliToken]
    ensures TokensRead(img, {}) == DiskTokens(img, SURFACES) == DiskTokens(img, [CliToken, IdeToken])
            + match TokenAt(img, JetskiToken) case Some(t) => [t] case None => []
    ensures DiskTokens(img, [CliToken, IdeToken]) == DiskTokens(img, [CliToken])
            + match TokenAt(img, IdeToken) case Some(t) => [t] case None => []
    ensures DiskTokens(img, [CliToken]) == match TokenAt(img, CliToken) case Some(t) => [t] case None => []
    ensures Seen(SURFACES, {IdeToken}) == [CliToken, JetskiToken]
  {
    AllSeen(SURFACES);
    assert [CliToken, IdeToken][..1] == [CliToken] && [CliToken][..0] == [];
    assert Seen([CliToken], {IdeToken}) == [CliToken];
    assert Seen([CliToken, IdeToken], {IdeToken}) == [CliToken];
  }

  lemma ReadSignedIn()
    ensures TokensRead(SIGNED_IN, {IdeToken}) == [KEPT, KEPT]
    ensures TokensRead(SIGNED_IN, {}) == [KEPT, STRANGER, KEPT]
  {
    ReadOfThree(SIGNED_IN);
    assert [CliToken, JetskiToken][..1] == [CliToken];
    assert TokenAt(SIGNED_IN, CliToken) == TokenAt(SIGNED_IN, JetskiToken) == Some(KEPT);
  }

  lemma HarvestSignedIn()
    ensures var k := View(ONE, map[]);
            && StoredOf(k, ANN) == Some(KEPT)
            && HarvestAll([ANN], k, [KEPT, KEPT]) == Tally(k, [ANN, ANN], false)
            && HarvestAll([ANN], k, [KEPT, STRANGER, KEPT]).unsaved
  {
    var k := View(ONE, map[]);
    assert HasText(k, ANN, KEPT) && Owner([ANN], k, KEPT) == Some(ANN);
    NobodysSession();
    assert [KEPT, KEPT][..1] == [KEPT] && [KEPT, STRANGER, KEPT][..2] == [KEPT, STRANGER];
    assert [KEPT, STRANGER][..1] == [KEPT] && [KEPT][..0] == [];
    assert HarvestAll([ANN], k, [KEPT]) == Tally(k, [ANN], false);
  }

  lemma NobodysSession()
    ensures Owner([ANN], View(ONE, map[]), STRANGER) == None
  {
    var k := View(ONE, map[]);
    assert k[ANN] == Fresh(KEPT) == Harvest.Saved.Saved(Some(KEPT), {KEPT}, {"r"});
    assert RefreshOf(STRANGER) == "q" && RefreshOf(KEPT) == "r";
    assert "q"[0] != "r"[0];
  }

  /** What a synced run comes down to, without recovery and vault. */
  lemma SyncedRun(base: Image, after: Image, missed: set<Path>, d: AccountsDoc, s: Tally, e: Email, t: Token)
    requires Lookup(base, AccountsFile) == Some(AccountsJson(d)) && Lookup(base, JournalFile) == None
    requires TokensRead(base, missed) != []
             && s == HarvestAll(d.order, View(d, VaultOf(base)), TokensRead(base, missed))
    requires !s.unsaved && StoredOf(s.k, e) == Some(t) && Usable(t)
    requires StoredActive(base) == StoredActive(after) == Some(e) && !AllHold(base, t) && AllHold(after, Canonical(t))
    ensures Reconciled(base, after, missed, Synced(e)) && Harvest0(base, missed) == s
  {
  }

  lemma UnsavedRun(base: Image, missed: set<Path>, d: AccountsDoc, after: Image, r: Outcome)
    requires Lookup(base, AccountsFile) == Some(AccountsJson(d)) && Lookup(base, JournalFile) == None
    requires HarvestAll(d.order, View(d, VaultOf(base)), TokensRead(base, missed)).unsaved
    requires Reconciled(base, after, missed, r)
    ensures r == Unsaved
  {
  }

  lemma SignedInCells(after: Image)
    requires after == SIGNED_IN[IdeToken := TokenJson(KEPT)]
    ensures Lookup(SIGNED_IN, AccountsFile) == Some(AccountsJson(ONE)) && Lookup(SIGNED_IN, JournalFile) == None
    ensures VaultOf(SIGNED_IN) == map[] && StoredActive(SIGNED_IN) == StoredActive(after) == Some(ANN)
    ensures !AllHold(SIGNED_IN, KEPT) && AllHold(after, KEPT)
  {
    assert STRANGER.access[0] != KEPT.access[0];
  }

  /**
   A run that cannot read the surface with that session overwrites it, and a run that can read
   every surface does not.
   */
  lemma UnreadSessionIsOverwritten(after: Image)
    requires after == SIGNED_IN[IdeToken := TokenJson(KEPT)]
    ensures Reconciled(SIGNED_IN, after, {IdeToken}, Synced(ANN))
    ensures forall other, r | Reconciled(SIGNED_IN, other, {}, r) :: r == Unsaved
  {
    ReadSignedIn();
    HarvestSignedIn();
    SignedInCells(after);
    SyncedRun(SIGNED_IN, after, {IdeToken}, ONE, Tally(View(ONE, map[]), [ANN, ANN], false), ANN, KEPT);
    forall other, r | Reconciled(SIGNED_IN, other, {}, r) ensures r == Unsaved {
      UnsavedRun(SIGNED_IN, {}, ONE, other, r);
    }
  }

  const SPACED := KEPT.(form := 1)
  const TWO: AccountsDoc :=
    Doc([ANN, BEA], map[ANN := NOTHING.(tokenData := Some(SPACED)),
                        BEA := NOTHING.(email := BEA, tokenHash := Some(KEPT))])

  const BEFORE_SYNC: Image :=
    map[AccountsFile := AccountsJson(TWO), GoogleAccounts := ActiveJson(ANN, []), CliToken := TokenJson(SPACED)]

  const AFTER_SYNC: Image := BEFORE_SYNC[CliToken := TokenJson(KEPT)][IdeToken := TokenJson(KEPT)]
                                        [JetskiToken := TokenJson(KEPT)]

  lemma OwnersOfTwo()
    ensures var k := View(TWO, map[]);
            && Owner(TWO.order, k, SPACED) == Some(ANN) && Owner(TWO.order, k, KEPT) == Some(BEA)
            && HarvestAll(TWO.order, k, [SPACED]) == Tally(k, [ANN], false) && StoredOf(k, ANN) == Some(SPACED)
  {
    var k := View(TWO, map[]);
    ViewOfTwo();
    assert HasText(k, ANN, SPACED) && !HasText(k, ANN, KEPT) && HasText(k, BEA, KEPT);
    assert TWO.order[1..] == [BEA];
    assert [SPACED][..0] == [];
  }

  lemma ViewOfTwo()
    ensures var k := View(TWO, map[]);
            k.Keys == {ANN, BEA} && k[ANN].stored == Some(SPACED) && k[ANN].texts == {SPACED} && k[BEA].texts == {KEPT}
  {
    assert ANN.text[0] != BEA.text[0];
  }

  lemma SyncCells()
    ensures Lookup(BEFORE_SYNC, AccountsFile) == Lookup(AFTER_SYNC, AccountsFile) == Some(AccountsJson(TWO))
    ensures Lookup(BEFORE_SYNC, JournalFile) == Lookup(AFTER_SYNC, JournalFile) == None
    ensures VaultOf(BEFORE_SYNC) == VaultOf(AFTER_SYNC) == map[]
    ensures StoredActive(BEFORE_SYNC) == StoredActive(AFTER_SYNC) == Some(ANN)
    ensures TokenAt(BEFORE_SYNC, CliToken) == Some(SPACED) && TokenAt(BEFORE_SYNC, IdeToken) == None
            && TokenAt(BEFORE_SYNC, JetskiToken) == None && AllHold(AFTER_SYNC, KEPT)
  {
  }

  /**
   Ann's token is saved with other white space than agy-swap writes, and Bea, who has no token,
   has the hash of the text it writes: Bea is taken for the owner of what the first run wrote,
   so the second run writes the surfaces again, although the first run's harvest is on disk.
   */
  lemma SecondRunWrites(after: Image, missed: set<Path>, r: Outcome)
    requires Reconciled(AFTER_SYNC, after, missed, r) && r !in {Busy, SignedOut, NoAccounts}
    ensures Reconciled(BEFORE_SYNC, AFTER_SYNC, {}, Synced(ANN))
    ensures HarvestOnDisk(AFTER_SYNC, TWO.order, Harvest0(BEFORE_SYNC, {}))
    ensures Writes(r)
  {
    FirstRun();
    OwnersOfTwo();
    SyncCells();
    SavedRunIsFixpointIff(BEFORE_SYNC, AFTER_SYNC, after, {}, missed, ANN, r);
  }

  lemma FirstRun()
    ensures Reconciled(BEFORE_SYNC, AFTER_SYNC, {}, Synced(ANN))
    ensures Harvest0(BEFORE_SYNC, {}) == Tally(View(TWO, map[]), [ANN], false)
    ensures HarvestOnDisk(AFTER_SYNC, TWO.order, Harvest0(BEFORE_SYNC, {}))
  {
    OwnersOfTwo();
    SyncCells();
    ReadOfThree(BEFORE_SYNC);
    assert TokensRead(BEFORE_SYNC, {}) == [SPACED];
    var s := Tally(View(TWO, map[]), [ANN], false);
    SyncedRun(BEFORE_SYNC, AFTER_SYNC, {}, TWO, s, ANN, SPACED);
    SavedHarvest(AFTER_SYNC, TWO, s);
  }

  lemma SavedHarvest(img: Image, d: AccountsDoc, s: Tally)
    requires Lookup(img, AccountsFile) == Some(AccountsJson(d)) && Lookup(img, JournalFile) == None
    requires View(d, VaultOf(img)) == s.k
    ensures HarvestOnDisk(img, d.order, s)
  {
  }
}
