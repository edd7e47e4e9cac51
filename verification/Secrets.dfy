/**
 Moving account tokens into the vault: the new entry first, then accounts.json, and only
 then the entry it replaces (internal/app/vault.go).
 */
module Secrets {
  import opened Model
  import opened Durable
  import opened Store

  /** tokenRefreshToken. */
  function RefreshOf(t: Token): string { if t.wrapped then t.refresh else "" }

  /** token_hash, and what rememberTokenExpiry records about a token. */
  function Remembering(a: Account, t: Token): Account {
    a.(tokenHash := Some(t),
       refreshHash := if RefreshOf(t) != "" then Some(RefreshOf(t)) else None,
       expiresAt := if t.wrapped then t.expiry else None)
  }

  /** The account with its token in the vault, and with its token in the file. */
  function InVault(a: Account, t: Token): Account {
    Remembering(a, t).(secretRef := Some(Det(a.email)), tokenData := None)
  }

  function InFile(a: Account, t: Token): Account {
    Remembering(a, t).(secretRef := None, tokenData := Some(t))
  }

  /** No account uses a vault entry named after another one. */
  ghost predicate OwnRefs(d: Doc) {
    forall e | e in d.byEmail && d.byEmail[e].secretRef.Some? :: d.byEmail[e].secretRef.value.email == e
  }

  /** What the account of e in d resolves to. */
  function Held(d: Doc, e: Email, v: Vault): Option<Token> {
    if e in d.byEmail then Resolve(d.byEmail[e], v) else None
  }

  /** What the account of e on disk resolves to. */
  function OnDisk(img: Image, e: Email): Option<Token> {
    match Decoded(Lookup(img, AccountsFile))
    case Some(d) => Held(d, e, VaultOf(img))
    case None => None
  }

  /**
   saveAccountSecret: put the token under the account's own reference. The reference that
   comes back is for the caller to delete once accounts.json is saved; false means the
   token stayed in the account and nothing is to be deleted.
   */
  method SaveAccountSecret(m: Machine, account: Account, token: Option<Token>, hasVault: bool)
    returns (a: Account, replaced: Option<Ref>, ok: bool)
    requires m.Valid()
    modifies m`files, m`trail, m`log
    ensures m.log == if hasVault && token.Some? then old(m.log) + [PutSecret(Det(account.email), token.value, ok)]
                     else old(m.log)
    ensures !hasVault ==> !ok && m.files == old(m.files) && m.trail == old(m.trail)
    ensures token.Some? ==>
              && a.tokenHash == token && a.email == account.email && a.notes == account.notes
              && a.refreshHash == (if token.value.wrapped && token.value.refresh != "" then Some(token.value.refresh)
                                   else None)
              && a.expiresAt == (if token.value.wrapped then token.value.expiry else None)
              && a.secretRef == (if ok then Some(Det(account.email)) else None)
              && a.tokenData == (if ok then None else token)
    ensures m.Valid() && m.trail in {old(m.trail), old(m.trail) + [m.files]} && SameBut(old(m.files), m.files, Secrets)
    ensures m.trail == old(m.trail) ==> m.files == old(m.files)
    ensures VaultOf(m.files) == VaultOf(old(m.files))
            || (token.Some? && VaultOf(m.files) == VaultOf(old(m.files))[Det(account.email) := token.value])
    ensures ok <==> token.Some? && hasVault && a == InVault(account, token.value)
    ensures ok ==> VaultOf(m.files) == VaultOf(old(m.files))[Det(account.email) := token.value]
    ensures !ok ==> a == if token.Some? then InFile(account, token.value) else account.(secretRef := None)
    ensures replaced == if ok && account.secretRef.Some?
            && account.secretRef.value != Det(account.email) then account.secretRef else None
  {
    a, replaced, ok := account, None, false;
    if !hasVault || token == None {
      if token.Some? {
        a := Remembering(a.(tokenData := token), token.value);
      }
      a := a.(secretRef := None);
      return;
    }
    var oldRef := account.secretRef;
    var ref := Det(account.email);
    ok := m.SetSecret(ref, token.value);
    if !ok {
      a := Remembering(a.(tokenData := token), token.value).(secretRef := None);
      return;
    }
    a := Remembering(a.(secretRef := Some(ref)), token.value).(tokenData := None);
    if oldRef.Some? && oldRef.value != ref {
      replaced := oldRef;
    }
  }

  /** Whatever became of the vault write, the account in memory has the token it was given, or lost its reference. */
  lemma SavedSecretResolves(account: Account, token: Token, vault: Vault, a: Account)
    requires a == InFile(account, token) || (a == InVault(account, token) && Det(account.email) in vault
             && vault[Det(account.email)] == token)
    ensures Resolve(a, vault) == Some(token)
  {
  }

  /** deleteReplacedSecrets. */
  method DeleteReplacedSecrets(m: Machine, refs: seq<Ref>)
    requires m.Valid()
    modifies m`files, m`trail, m`log
    ensures m.Valid() && old(m.trail) <= m.trail && old(m.log) <= m.log && SameBut(old(m.files), m.files, Secrets)
    ensures forall i | |old(m.trail)| <= i < |m.trail| :: OnlyDropped(old(m.files), m.trail[i], refs)
    ensures Forgotten(VaultOf(m.files), refs, m.stale, m.log, |old(m.log)|)
  {
    ghost var n, l, base := |m.trail|, |m.log|, m.files;
    for k := 0 to |refs|
      invariant m.Valid() && old(m.trail) <= m.trail && old(m.log) <= m.log && OnlyDropped(base, m.files, refs)
      invariant forall i | n <= i < |m.trail| :: OnlyDropped(base, m.trail[i], refs)
      invariant Forgotten(VaultOf(m.files), refs[..k], m.stale, m.log, l)
    {
      ghost var before, log := m.files, m.log;
      var dropped := m.DropSecret(refs[k]);
      DropOne(base, before, m.files, refs, refs[k]);
      assert m.log[|log|] == CutSecret(refs[k], dropped);
      ForgetOne(VaultOf(before), VaultOf(m.files), refs[..k], refs[k], m.stale, log, m.log, l);
      assert refs[..k + 1] == refs[..k] + [refs[k]];
    }
    assert refs[..|refs|] == refs;
  }

  /** Images that agree but for the vault entries of `refs`. */
  ghost predicate OnlyDropped(base: Image, img: Image, refs: seq<Ref>) {
    && SameBut(base, img, Secrets)
    && forall r | r !in refs ::
         && (r in VaultOf(base) <==> r in VaultOf(img))
         && (r in VaultOf(base) ==> VaultOf(base)[r] == VaultOf(img)[r])
  }

  lemma DropOne(base: Image, before: Image, after: Image, refs: seq<Ref>, ref: Ref)
    requires OnlyDropped(base, before, refs) && ref in refs
    requires SameBut(before, after, Secrets) && VaultOf(after) - {ref} == VaultOf(before) - {ref}
    ensures OnlyDropped(base, after, refs)
  {
    forall p | p != Secrets ensures Lookup(base, p) == Lookup(after, p) {
      assert Lookup(base, p) == Lookup(before, p);
    }
    forall r | r !in refs
      ensures (r in VaultOf(base) <==> r in VaultOf(after))
              && (r in VaultOf(base) ==> VaultOf(base)[r] == VaultOf(after)[r])
    {
      assert r in VaultOf(before) <==> r in VaultOf(before) - {ref};
      assert r in VaultOf(after) <==> r in VaultOf(after) - {ref};
      assert r in VaultOf(before) ==> VaultOf(before)[r] == (VaultOf(before) - {ref})[r];
      assert r in VaultOf(after) ==> VaultOf(after)[r] == (VaultOf(after) - {ref})[r];
    }
  }

  // ----- writes under the accounts' own references -----

  /** Tokens to be written to the vault, by account. */
  type Plan = map<Email, Token>

  predicate PlannedEntry(plan: Plan, v: Vault, w: Vault, ref: Ref) {
    || Entry(w, ref) == Entry(v, ref)
    || (ref.Det? && ref.email in plan && Entry(w, ref) == Some(plan[ref.email]))
  }

  /** The vault w is v with some of the planned tokens written, each under its account's own reference. */
  ghost predicate Written(plan: Plan, v: Vault, w: Vault) {
    forall ref :: PlannedEntry(plan, v, w, ref)
  }

  lemma NothingWritten(plan: Plan, v: Vault)
    ensures Written(plan, v, v)
  {
    assert forall ref :: PlannedEntry(plan, v, v, ref);
  }

  lemma WrittenOn(plan: Plan, v: Vault, w: Vault, w': Vault, e: Email)
    requires Written(plan, v, w) && (w' == w || (e in plan && w' == w[Det(e) := plan[e]]))
    ensures Written(plan, v, w')
  {
    forall ref ensures PlannedEntry(plan, v, w', ref) {
      assert PlannedEntry(plan, v, w, ref);
    }
  }

  /** Such writes leave an account the token it had, or the one planned for it. */
  lemma PlanDecides(now: Account, plan: Plan, v: Vault, w: Vault)
    requires Written(plan, v, w) && (now.secretRef.Some? ==> now.secretRef.value.email == now.email)
    ensures Resolve(now, w) == Resolve(now, v) || (now.email in plan && Resolve(now, w) == Some(plan[now.email]))
  {
    assert PlannedEntry(plan, v, w, Det(now.email));
    assert now.secretRef.Some? ==> PlannedEntry(plan, v, w, now.secretRef.value);
  }

  /** A token `now` is the one it was, or the one planned for f. */
  predicate WasOrPlanned(plan: Plan, f: Email, was: Option<Token>, now: Option<Token>) {
    now == was || (f in plan && now == Some(plan[f]))
  }

  lemma HeldAfterWrites(d: Doc, plan: Plan, v: Vault, w: Vault, f: Email)
    requires WellFormed(d) && OwnRefs(d) && Written(plan, v, w)
    ensures WasOrPlanned(plan, f, Held(d, f, v), Held(d, f, w))
  {
    if f in d.byEmail {
      PlanDecides(d.byEmail[f], plan, v, w);
    }
  }

  ghost predicate OwnRefsOnDisk(files: Image) {
    Decoded(Lookup(files, AccountsFile)).Some? ==> OwnRefs(Decoded(Lookup(files, AccountsFile)).value)
  }

  /** An image in which some of the plan is in the vault, and nothing else has changed since `base`. */
  ghost predicate PlanImage(base: Image, plan: Plan, img: Image) {
    SameBut(base, img, Secrets) && Written(plan, VaultOf(base), VaultOf(img))
  }

  lemma PlanImageNext(base: Image, plan: Plan, before: Image, img: Image, e: Email)
    requires PlanImage(base, plan, before) && SameBut(before, img, Secrets)
    requires VaultOf(img) == VaultOf(before) || (e in plan && VaultOf(img) == VaultOf(before)[Det(e) := plan[e]])
    ensures PlanImage(base, plan, img)
  {
    WrittenOn(plan, VaultOf(base), VaultOf(before), VaultOf(img), e);
    forall p | p != Secrets ensures Lookup(base, p) == Lookup(img, p) {
      assert Lookup(base, p) == Lookup(before, p);
    }
  }

  /**
   Whose token is what on disk, at some point after `base` of a command that plans these writes
   and holds d in memory: each account has its token of `base`, or the one planned for it, or,
   unless memory is `current`, the one d held for it.
   */
  ghost predicate TokensKept(base: Image, img: Image, plan: Plan, d: Doc, current: bool) {
    forall f {:trigger OnDisk(img, f)} ::
      || WasOrPlanned(plan, f, OnDisk(base, f), OnDisk(img, f))
      || (!current && OnDisk(img, f) == Held(d, f, VaultOf(base)))
  }

  /** It holds of every image from `from` on. */
  ghost predicate AlwaysKept(base: Image, trail: seq<Image>, from: nat, plan: Plan, d: Doc, current: bool) {
    forall i | from <= i < |trail| :: TokensKept(base, trail[i], plan, d, current)
  }

  lemma AlwaysKeptOn(base: Image, trail: seq<Image>, longer: seq<Image>, from: nat, plan: Plan, d: Doc, current: bool)
    requires trail <= longer && AlwaysKept(base, trail, from, plan, d, current)
    requires AlwaysKept(base, longer, |trail|, plan, d, current)
    ensures AlwaysKept(base, longer, from, plan, d, current)
  {
    forall i | from <= i < |longer| ensures TokensKept(base, longer[i], plan, d, current) {
      if i < |trail| {
        assert longer[i] == trail[i];
      }
    }
  }

  /** So much the vault writes alone guarantee, whoever has saved what in the meantime. */
  lemma PlanImageResolves(base: Image, plan: Plan, img: Image, d: Doc)
    requires PlanImage(base, plan, img) && OwnRefsOnDisk(base)
    ensures TokensKept(base, img, plan, d, true)
  {
    assert Lookup(img, AccountsFile) == Lookup(base, AccountsFile);
    forall f ensures WasOrPlanned(plan, f, OnDisk(base, f), OnDisk(img, f)) {
      if Decoded(Lookup(base, AccountsFile)).Some? {
        HeldAfterWrites(Decoded(Lookup(base, AccountsFile)).value, plan, VaultOf(base), VaultOf(img), f);
      }
    }
  }

  // ----- save, then forget -----

  /** Save, and only if that worked forget the entries that were replaced. */
  method SaveThenForget(m: Machine, accounts: Accounts, replaced: seq<Ref>) returns (r: SaveResult)
    requires m.Valid() && WellFormed(accounts.Contents())
    modifies m, accounts`revision, accounts`revisionHash
    ensures m.Valid() && old(m.trail) <= m.trail
    ensures forall i | |old(m.trail)| <= i < |m.trail| ::
              SavedOrForgot(old(m.files), old(m.mtime), accounts.Contents(), replaced, m.trail[i])
    ensures r == Saved ==> OnlyDropped(SavedImage(old(m.files), old(m.mtime), accounts.Contents()), m.files, replaced)
    ensures r != Saved ==> VaultOf(m.files) == VaultOf(old(m.files))
    ensures !old(SaveAllowed(accounts.revision, accounts.revisionHash, Lookup(m.files, AccountsFile), m.mtime)) ==>
              r != Saved && m.files == old(m.files) && m.trail == old(m.trail)
    ensures old(m.log) <= m.log
    ensures r == Saved ==> Forgotten(VaultOf(m.files), replaced, m.stale, m.log, |old(m.log)|)
    ensures AllWorked(m.log, |old(m.log)|) ==>
              r == SaveOutcome(accounts.Contents(), old(SaveAllowed(accounts.revision, accounts.revisionHash,
                                                                    Lookup(m.files, AccountsFile), m.mtime)))
    ensures r == Saved ==> SaveStands(accounts, m)
  {
    ghost var n, l, base, time := |m.trail|, |m.log|, m.files, m.mtime;
    r := SaveUnlocked(m, accounts);
    if r == Saved {
      ghost var trail, log := m.trail, m.log;
      DeleteReplacedSecrets(m, replaced);
      WorkedBefore(log, m.log, l, |log|);
      ForgottenLater(VaultOf(m.files), replaced, m.stale, m.log, m.log, l, |log|);
      forall i | n <= i < |m.trail|
        ensures SavedOrForgot(base, time, accounts.Contents(), replaced, m.trail[i])
      {
        if i < |trail| {
          assert m.trail[i] == trail[i];
        }
      }
    }
  }

  /** The next save of these accounts is let through, if nobody saves in between. */
  ghost predicate SaveStands(accounts: Accounts, m: Machine)
    reads accounts, m
  {
    SaveAllowed(accounts.revision, accounts.revisionHash, Lookup(m.files, AccountsFile), m.mtime)
  }

  ghost predicate SavedOrForgot(base: Image, mtime: int, payload: AccountsDoc, replaced: seq<Ref>, img: Image) {
    SaveStage(base, mtime, payload, img) || OnlyDropped(SavedImage(base, mtime, payload), img, replaced)
  }

  /** Entries no account of d uses any more: its accounts have moved to their own reference. */
  ghost predicate Unused(d: Doc, replaced: seq<Ref>) {
    forall r | r in replaced :: r != Det(r.email) && r.email in d.byEmail
        && d.byEmail[r.email].secretRef == Some(Det(r.email))
  }

  /** At any point of SaveThenForget an account resolves as before it, or as the accounts being saved say. */
  lemma SavedOrForgotResolves(base: Image, mtime: int, d: AccountsDoc, replaced: seq<Ref>, img: Image, f: Email)
    requires SavedOrForgot(base, mtime, d, replaced, img) && OwnRefs(d) && Unused(d, replaced)
    ensures OnDisk(img, f) == OnDisk(base, f)
            || OnDisk(img, f) == (if f in d.byEmail then Resolve(d.byEmail[f], VaultOf(base)) else None)
    ensures OnlyDropped(SavedImage(base, mtime, d), img, replaced) ==>
              OnDisk(img, f) == (if f in d.byEmail then Resolve(d.byEmail[f], VaultOf(base)) else None)
  {
    if OnlyDropped(SavedImage(base, mtime, d), img, replaced) {
      assert Lookup(img, AccountsFile) == Some(AccountsJson(d));
      assert VaultOf(SavedImage(base, mtime, d)) == VaultOf(base);
      if f in d.byEmail && d.byEmail[f].secretRef.Some? {
        var r := d.byEmail[f].secretRef.value;
        assert r !in replaced && Det(f) !in replaced;
      }
    }
  }

  /** Saving d', and forgetting what it no longer uses, touches no other cell and no token d' holds. */
  lemma SavedOrForgotKeeps(base: Image, mtime: int, d': AccountsDoc, replaced: seq<Ref>, img: Image)
    requires SavedOrForgot(base, mtime, d', replaced, img) && OwnRefs(d') && Unused(d', replaced)
    ensures forall p | p !in {AccountsFile, BackupFile, Secrets} :: Lookup(img, p) == Lookup(base, p)
    ensures Lookup(img, AccountsFile) in {Lookup(base, AccountsFile), Some(AccountsJson(d'))}
    ensures forall f :: Held(d', f, VaultOf(img)) == Held(d', f, VaultOf(base))
  {
    if !SaveStage(base, mtime, d', img) {
      var saved := SavedImage(base, mtime, d');
      assert forall p | p != AccountsFile && p != BackupFile :: Lookup(saved, p) == Lookup(base, p);
      forall f ensures Held(d', f, VaultOf(img)) == Held(d', f, VaultOf(base)) {
        if f in d'.byEmail && d'.byEmail[f].secretRef.Some? {
          assert d'.byEmail[f].secretRef.value !in replaced && Det(f) !in replaced;
        }
      }
    } else {
      assert Lookup(img, Secrets) == Lookup(base, Secrets);
    }
  }

  /** If the accounts in memory may be saved, the file is still the one they were loaded from. */
  ghost predicate FromLoad(files: Image, mtime: int, revision: int, hash: Option<Content>, loaded: Doc) {
    SaveAllowed(revision, hash, Lookup(files, AccountsFile), mtime) ==>
        Decoded(Lookup(files, AccountsFile)) == Some(loaded)
  }

  /** The accounts d' to be saved hold what d held, or what was planned. */
  ghost predicate Recorded(d: Doc, v: Vault, plan: Plan, d': Doc, w: Vault) {
    forall f :: WasOrPlanned(plan, f, Held(d, f, v), Held(d', f, w))
  }

  lemma SaveKeepsTokens(base: Image, mid: Image, mtime: int, plan: Plan, d: Doc, d': AccountsDoc, refs: seq<Ref>,
                        img: Image, current: bool)
    requires TokensKept(base, mid, plan, d, true) && SavedOrForgot(mid, mtime, d', refs, img)
    requires OwnRefs(d') && Unused(d', refs) && Recorded(d, VaultOf(base), plan, d', VaultOf(mid))
    requires current ==> Decoded(Lookup(base, AccountsFile)) == Some(d)
    ensures TokensKept(base, img, plan, d, current)
  {
    forall f ensures
        || WasOrPlanned(plan, f, OnDisk(base, f), OnDisk(img, f))
        || (!current && OnDisk(img, f) == Held(d, f, VaultOf(base))) {
      SavedOrForgotResolves(mid, mtime, d', refs, img, f);
      assert WasOrPlanned(plan, f, OnDisk(base, f), OnDisk(mid, f));
      assert WasOrPlanned(plan, f, Held(d, f, VaultOf(base)), Held(d', f, VaultOf(mid)));
    }
  }

  /**
   The save and what follows it, once the planned entries are written and recorded in memory.
   At every point of it the tokens are kept. A save that is refused leaves the files alone.
   */
  method SaveWritten(m: Machine, accounts: Accounts, refs: seq<Ref>, ghost base: Image, ghost d: AccountsDoc,
                     ghost plan: Plan)
    returns (r: SaveResult)
    requires m.Valid() && WellFormed(accounts.Contents()) && OwnRefs(accounts.Contents())
             && Unused(accounts.Contents(), refs)
    requires OwnRefsOnDisk(base) && PlanImage(base, plan, m.files)
    requires Recorded(d, VaultOf(base), plan, accounts.Contents(), VaultOf(m.files))
    modifies m, accounts`revision, accounts`revisionHash
    ensures m.Valid() && old(m.trail) <= m.trail && old(m.log) <= m.log
    ensures AlwaysKept(base, m.trail, |old(m.trail)|, plan, d,
                       old(FromLoad(m.files, m.mtime, accounts.revision, accounts.revisionHash, d)))
    ensures SavedOrForgot(old(m.files), old(m.mtime), accounts.Contents(), refs, m.files)
    ensures forall p | p !in {AccountsFile, BackupFile, Secrets} :: Lookup(m.files, p) == Lookup(old(m.files), p)
    ensures Lookup(m.files, AccountsFile)
            in {Lookup(old(m.files), AccountsFile), Some(AccountsJson(accounts.Contents()))}
    ensures forall f :: Held(accounts.Contents(), f, VaultOf(m.files))
                        == Held(accounts.Contents(), f, VaultOf(old(m.files)))
    ensures r == Saved ==> Lookup(m.files, AccountsFile) == Some(AccountsJson(accounts.Contents()))
    ensures r == Saved ==> Forgotten(VaultOf(m.files), refs, m.stale, m.log, |old(m.log)|) && SaveStands(accounts, m)
    ensures AllWorked(m.log, |old(m.log)|) ==>
              r == SaveOutcome(accounts.Contents(), old(SaveAllowed(accounts.revision, accounts.revisionHash,
                                                                    Lookup(m.files, AccountsFile), m.mtime)))
    ensures !old(SaveAllowed(accounts.revision, accounts.revisionHash, Lookup(m.files, AccountsFile), m.mtime)) ==>
              r != Saved && m.files == old(m.files) && m.trail == old(m.trail)
  {
    ghost var mid, time, n, d' := m.files, m.mtime, |m.trail|, accounts.Contents();
    ghost var current := FromLoad(mid, time, accounts.revision, accounts.revisionHash, d);
    ghost var allowed := SaveAllowed(accounts.revision, accounts.revisionHash, Lookup(mid, AccountsFile), time);
    PlanImageResolves(base, plan, mid, d);
    assert Lookup(mid, AccountsFile) == Lookup(base, AccountsFile);
    r := SaveThenForget(m, accounts, refs);
    forall i | n <= i < |m.trail| ensures TokensKept(base, m.trail[i], plan, d, current) {
      assert allowed;
      SaveKeepsTokens(base, mid, time, plan, d, d', refs, m.trail[i], current);
    }
    assert |m.trail| > n ==> m.files == m.trail[|m.trail| - 1];
    SavedOrForgotKeeps(mid, time, d', refs, m.files);
  }

  // ----- replacing one account's token -----

  /**
   The order every caller follows: saveAccountSecret, Save, deleteReplacedSecrets. At every
   point of it the account on disk resolves to its old or to its new token, and no other
   account is touched, whatever other processes have saved since these accounts were loaded;
   but a save of accounts that carry earlier edits, or that is let through over a file other
   than the one they came from, brings every account to what memory held for it. A save that
   is refused leaves the files alone. In memory the account has its new token in any case.
   */
  method ReplaceSecret(m: Machine, accounts: Accounts, e: Email, token: Token, hasVault: bool) returns (r: SaveResult)
    requires m.Valid() && WellFormed(accounts.Contents()) && OwnRefs(accounts.Contents()) && e in accounts.ByEmail
    requires OwnRefsOnDisk(m.files)
    modifies m, accounts
    ensures m.Valid() && old(m.trail) <= m.trail && old(m.log) <= m.log
    ensures AlwaysKept(old(m.files), m.trail, |old(m.trail)|, map[e := token], old(accounts.Contents()),
                       old(FromLoad(m.files, m.mtime, accounts.revision, accounts.revisionHash, accounts.Contents())))
    ensures r == Saved ==>
              Decoded(Lookup(m.files, AccountsFile)) == Some(accounts.Contents()) && OnDisk(m.files, e) == Some(token)
    ensures !old(SaveAllowed(accounts.revision, accounts.revisionHash, Lookup(m.files, AccountsFile), m.mtime)) ==>
              r != Saved && SameBut(old(m.files), m.files, Secrets)
    ensures WellFormed(accounts.Contents()) && OwnRefs(accounts.Contents())
    ensures hasVault ==> Tried(m.log, |old(m.log)|, e, token)
    ensures accounts.Contents()
            == Put(old(accounts.Contents()), e,
                   WithToken(old(accounts.ByEmail)[e], token, Vaulted(m.log, |old(m.log)|, e, token, hasVault)))
    ensures r == Saved ==>
              && Forgotten(VaultOf(m.files),
                           ReplacedBy(old(accounts.ByEmail)[e], Vaulted(m.log, |old(m.log)|, e, token, hasVault)),
                           m.stale, m.log, |old(m.log)|)
              && SaveStands(accounts, m)
    ensures AllWorked(m.log, |old(m.log)|) ==>
              r == SaveOutcome(accounts.Contents(), old(SaveAllowed(accounts.revision, accounts.revisionHash,
                                                                    Lookup(m.files, AccountsFile), m.mtime)))
    ensures forall f :: Held(accounts.Contents(), f, VaultOf(m.files))
                        == if f == e then Some(token) else Held(old(accounts.Contents()), f, VaultOf(old(m.files)))
    ensures OwnRefsOnDisk(m.files)
    ensures forall p | p !in {AccountsFile, BackupFile, Secrets} :: Lookup(m.files, p) == Lookup(old(m.files), p)
  {
    ghost var d, base, n, l, plan: Plan := accounts.Contents(), m.files, |m.trail|, |m.log|, map[e := token];
    ghost var current := FromLoad(base, m.mtime, accounts.revision, accounts.revisionHash, d);
    var refs := StoreSecret(m, accounts, e, token, hasVault);
    assert Lookup(m.files, AccountsFile) == Lookup(base, AccountsFile);
    ghost var trail, log := m.trail, m.log;
    r := SaveWritten(m, accounts, refs, base, d, plan);
    assert AlwaysKept(base, trail, n, plan, d, current);
    AlwaysKeptOn(base, trail, m.trail, n, plan, d, current);
    TriedLater(log, m.log, l, e, token, hasVault);
    WorkedBefore(log, m.log, l, |log|);
    if r == Saved {
      ForgottenLater(VaultOf(m.files), refs, m.stale, m.log, m.log, l, |log|);
    }
  }

  /** The vault write of the token is the entry of the log at this place. */
  ghost predicate Tried(log: seq<Op>, at: nat, e: Email, token: Token) {
    at < |log| && log[at] in {PutSecret(Det(e), token, true), PutSecret(Det(e), token, false)}
  }

  /** That vault write was made, and worked. */
  ghost predicate Vaulted(log: seq<Op>, at: nat, e: Email, token: Token, hasVault: bool) {
    hasVault && at < |log| && log[at] == PutSecret(Det(e), token, true)
  }

  lemma TriedLater(log: seq<Op>, longer: seq<Op>, at: nat, e: Email, token: Token, hasVault: bool)
    requires log <= longer && (hasVault ==> Tried(log, at, e, token))
    ensures hasVault ==> Tried(longer, at, e, token)
    ensures Vaulted(longer, at, e, token, hasVault) == Vaulted(log, at, e, token, hasVault)
  {
    assert at < |log| ==> longer[at] == log[at];
  }

  /** The account with its new token, in the vault or in the file. */
  function WithToken(a: Account, token: Token, vaulted: bool): Account {
    if vaulted then InVault(a, token) else InFile(a, token)
  }

  /** The vault entry that is replaced when the account moves to its own reference. */
  function ReplacedBy(a: Account, vaulted: bool): seq<Ref> {
    if vaulted && a.secretRef.Some? && a.secretRef.value != Det(a.email) then [a.secretRef.value] else []
  }

  /** saveAccountSecret, and the account recorded among the others; the replaced entry is for the caller to delete. */
  method StoreSecret(m: Machine, accounts: Accounts, e: Email, token: Token, hasVault: bool) returns (refs: seq<Ref>)
    requires m.Valid() && WellFormed(accounts.Contents()) && OwnRefs(accounts.Contents()) && e in accounts.ByEmail
    modifies m`files, m`trail, m`log, accounts`Order, accounts`ByEmail
    ensures m.Valid() && PlanImage(old(m.files), map[e := token], m.files)
    ensures old(m.trail) <= m.trail && old(m.log) <= m.log
    ensures OwnRefsOnDisk(old(m.files)) ==>
              forall current :: AlwaysKept(old(m.files), m.trail, |old(m.trail)|, map[e := token],
                                           old(accounts.Contents()), current)
    ensures WellFormed(accounts.Contents()) && OwnRefs(accounts.Contents()) && Unused(accounts.Contents(), refs)
    ensures hasVault ==> Tried(m.log, |old(m.log)|, e, token)
    ensures accounts.Contents()
            == Put(old(accounts.Contents()), e,
                   WithToken(old(accounts.ByEmail)[e], token, Vaulted(m.log, |old(m.log)|, e, token, hasVault)))
    ensures refs == ReplacedBy(old(accounts.ByEmail)[e], Vaulted(m.log, |old(m.log)|, e, token, hasVault))
    ensures Recorded(old(accounts.Contents()), VaultOf(old(m.files)), map[e := token], accounts.Contents(),
                     VaultOf(m.files))
    ensures forall f :: Held(accounts.Contents(), f, VaultOf(m.files))
                        == if f == e then Some(token) else Held(old(accounts.Contents()), f, VaultOf(old(m.files)))
  {
    ghost var d, base, plan: Plan := accounts.Contents(), m.files, map[e := token];
    var a, replaced, ok := SaveAccountSecret(m, accounts.ByEmail[e], Some(token), hasVault);
    accounts.Set(e, a);
    refs := if replaced == None then [] else [replaced.value];
    RecordedSecret(d, e, a, token, refs);
    NothingWritten(plan, VaultOf(base));
    PlanImageNext(base, plan, base, m.files, e);
    HeldAfterSet(d, e, a, token, VaultOf(base), VaultOf(m.files));
    if OwnRefsOnDisk(base) {
      PlanImageResolves(base, plan, m.files, d);
    }
  }

  lemma RecordedSecret(d: Doc, e: Email, a: Account, token: Token, refs: seq<Ref>)
    requires WellFormed(d) && OwnRefs(d) && e in d.byEmail
    requires a == InFile(d.byEmail[e], token) || a == InVault(d.byEmail[e], token)
    requires forall r | r in refs ::
               a == InVault(d.byEmail[e], token) && Some(r) == d.byEmail[e].secretRef && r != Det(e)
    ensures WellFormed(Put(d, e, a)) && OwnRefs(Put(d, e, a)) && Unused(Put(d, e, a), refs)
    ensures Put(d, e, a).byEmail == d.byEmail[e := a]
  {
  }

  /** After the new entry is written and recorded, e holds the token and the others what they held. */
  lemma HeldAfterSet(d: Doc, e: Email, a: Account, token: Token, v: Vault, w: Vault)
    requires WellFormed(d) && OwnRefs(d) && e in d.byEmail
    requires a == InFile(d.byEmail[e], token) || (a == InVault(d.byEmail[e], token) && w == v[Det(e) := token])
    requires w == v || w == v[Det(e) := token]
    ensures forall f :: Held(Put(d, e, a), f, w) == if f == e then Some(token) else Held(d, f, v)
    ensures Recorded(d, v, map[e := token], Put(d, e, a), w)
  {
    forall f ensures Held(Put(d, e, a), f, w) == if f == e then Some(token) else Held(d, f, v) {
      if f != e && f in d.byEmail {
        OwnEntry(d.byEmail[f], e, token, v);
      }
    }
  }

  /** An entry under e's own reference concerns e alone. */
  lemma OwnEntry(a: Account, e: Email, token: Token, v: Vault)
    requires a.secretRef.Some? ==> a.secretRef.value.email == a.email
    ensures a.email != e ==> Resolve(a, v[Det(e) := token]) == Resolve(a, v)
    ensures a.email == e && (a.secretRef.None? || Resolve(a, v) == Some(token)) ==>
              Resolve(a, v[Det(e) := token]) == Resolve(a, v)
  {
  }

  // ----- migration -----

  datatype SecretFields = SecretFields(secretRef: Option<Ref>, tokenHash: Option<Token>, refreshHash: Option<string>,
                                       tokenData: Option<Token>, expiresAt: Option<int>)

  /** captureSecretFields and restoreSecretFields. */
  function CaptureSecretFields(a: Account): SecretFields {
    SecretFields(a.secretRef, a.tokenHash, a.refreshHash, a.tokenData, a.expiresAt)
  }

  function RestoreSecretFields(a: Account, saved: SecretFields): Account {
    a.(secretRef := saved.secretRef, tokenHash := saved.tokenHash, refreshHash := saved.refreshHash,
       tokenData := saved.tokenData, expiresAt := saved.expiresAt)
  }

  /** The account as migration leaves it: where it was, or under its own reference with the same token. */
  predicate Migrated(a: Account, b: Account, vault: Vault) {
    Resolve(a, vault).Some? && b == InVault(a, Resolve(a, vault).value)
  }

  predicate MovedFrom(a: Account, b: Account, vault: Vault) {
    NeedsMigration(a) && Migrated(a, b, vault)
  }

  /** The accounts migration moves: a plaintext token, another reference, or a missing hash. */
  predicate NeedsMigration(a: Account) {
    if a.secretRef.Some? then a.secretRef.value != Det(a.email) || a.tokenHash == None else a.tokenData.Some?
  }

  ghost predicate SameTokens(d: Doc, v: Vault, w: Vault) {
    forall f | f in d.byEmail :: Resolve(d.byEmail[f], w) == Resolve(d.byEmail[f], v)
  }

  /** The accounts the migration of d writes a vault entry for. */
  predicate Moves(d: Doc, v: Vault, e: Email) {
    e in d.byEmail && NeedsMigration(d.byEmail[e]) && Resolve(d.byEmail[e], v).Some?
  }

  /** The tokens a migration of d writes. */
  function MigrationPlan(d: Doc, v: Vault): Plan {
    map e | e in d.byEmail && Moves(d, v, e) :: Resolve(d.byEmail[e], v).value
  }

  /** One account of the migration loop; `moved` says it now uses its own reference. */
  method MigrateAccount(m: Machine, acc: Account, e: Email, ghost d: Doc, ghost v: Vault)
    returns (a: Account, moved: bool, replaced: Option<Ref>)
    requires m.Valid() && WellFormed(d) && OwnRefs(d) && e in d.byEmail && acc == d.byEmail[e]
             && SameTokens(d, v, VaultOf(m.files))
    modifies m`files, m`trail, m`log
    ensures if Moves(d, v, e) then m.log == old(m.log) + [PutSecret(Det(e), Resolve(d.byEmail[e], v).value, moved)]
            else !moved && m.log == old(m.log)
    ensures m.Valid() && m.trail in {old(m.trail), old(m.trail) + [m.files]} && SameBut(old(m.files), m.files, Secrets)
    ensures m.trail == old(m.trail) ==> m.files == old(m.files)
    ensures SameTokens(d, v, VaultOf(m.files))
    ensures VaultOf(m.files) - {Det(e)} == VaultOf(old(m.files)) - {Det(e)}
    ensures VaultOf(m.files) == VaultOf(old(m.files))
            || (Moves(d, v, e) && VaultOf(m.files) == VaultOf(old(m.files))[Det(e) := Resolve(d.byEmail[e], v).value])
    ensures !moved ==> a == d.byEmail[e] && replaced == None
    ensures moved ==>
              && NeedsMigration(d.byEmail[e]) && Migrated(d.byEmail[e], a, v)
              && Det(e) in VaultOf(m.files) && Some(VaultOf(m.files)[Det(e)]) == Resolve(d.byEmail[e], v)
    ensures replaced == if moved && d.byEmail[e].secretRef != Some(Det(e)) then d.byEmail[e].secretRef else None
  {
    a, moved, replaced := acc, false, None;
    var oldRef := acc.secretRef;
    if oldRef.Some? && (oldRef.value != Det(e) || acc.tokenHash == None) {
      var token := Resolve(acc, VaultOf(m.files));
      if token == None {
        return;
      }
      ghost var w := VaultOf(m.files);
      var stored := m.SetSecret(Det(e), token.value);
      assert SameTokens(d, v, VaultOf(m.files)) by {
        forall f | f in d.byEmail ensures Resolve(d.byEmail[f], VaultOf(m.files)) == Resolve(d.byEmail[f], v) {
          OwnEntry(d.byEmail[f], e, token.value, w);
        }
      }
      if !stored {
        return;
      }
      a := Remembering(acc.(secretRef := Some(Det(e))), token.value).(tokenData := None);
      moved := true;
      if oldRef.value != Det(e) {
        replaced := oldRef;
      }
      return;
    }
    if oldRef == None && acc.tokenData.Some? {
      var token := acc.tokenData.value;
      ghost var w := VaultOf(m.files);
      a, replaced, moved := SaveAccountSecret(m, acc, Some(token), true);
      assert SameTokens(d, v, VaultOf(m.files)) by {
        forall f | f in d.byEmail ensures Resolve(d.byEmail[f], VaultOf(m.files)) == Resolve(d.byEmail[f], v) {
          OwnEntry(d.byEmail[f], e, token, w);
        }
      }
      if !moved {
        a := RestoreSecretFields(a, CaptureSecretFields(acc));
      }
    }
  }

  /** How far the migration loop has come: `previous` holds the fields of the accounts it moved. */
  ghost predicate Migrating(d: Doc, mem: Doc, previous: map<Email, SecretFields>, replaced: seq<Ref>, v: Vault,
                            w: Vault) {
    && mem.order == d.order && mem.byEmail.Keys == d.byEmail.Keys && previous.Keys <= d.byEmail.Keys
    && (forall e | e in d.byEmail ::
          if e in previous then
            && previous[e] == CaptureSecretFields(d.byEmail[e])
            && NeedsMigration(d.byEmail[e]) && Migrated(d.byEmail[e], mem.byEmail[e], v)
            && Det(e) in w && Some(w[Det(e)]) == Resolve(d.byEmail[e], v)
          else mem.byEmail[e] == d.byEmail[e])
    && (forall r | r in replaced :: r.email in previous && r != Det(r.email))
    && (forall e | e in previous && d.byEmail[e].secretRef.Some? && d.byEmail[e].secretRef.value != Det(e) ::
          d.byEmail[e].secretRef.value in replaced)
  }

  /** Each of these accounts that is to be moved has been, unless the vault write for it failed. */
  ghost predicate Attempted(d: Doc, v: Vault, previous: set<Email>, done: seq<Email>, log: seq<Op>, from: nat) {
    forall e | e in done && Moves(d, v, e) :: e in previous || PutFailed(log, from, Det(e))
  }

  lemma AttemptedNext(d: Doc, v: Vault, previous: set<Email>, done: seq<Email>, log: seq<Op>, from: nat, e: Email,
                      moved: bool, longer: seq<Op>)
    requires Attempted(d, v, previous, done, log, from) && from <= |log|
    requires if Moves(d, v, e) then longer == log + [PutSecret(Det(e), Resolve(d.byEmail[e], v).value, moved)]
             else longer == log
    ensures Attempted(d, v, if moved then previous + {e} else previous, done + [e], longer, from)
  {
    forall f | f in done + [e] && Moves(d, v, f)
      ensures f in (if moved then previous + {e} else previous) || PutFailed(longer, from, Det(f))
    {
      PutFailedLater(log, longer, from, from, Det(f));
      if f == e && !moved {
        assert longer[|log|] == PutSecret(Det(e), Resolve(d.byEmail[e], v).value, false);
      }
    }
  }

  lemma MigratingStep(d: Doc, mem: Doc, previous: map<Email, SecretFields>, replaced: seq<Ref>, v: Vault, w: Vault,
                      e: Email, a: Account, w': Vault, more: seq<Ref>)
    requires WellFormed(d) && Migrating(d, mem, previous, replaced, v, w) && e in d.byEmail
    requires w - {Det(e)} == w' - {Det(e)} && e !in previous
    requires NeedsMigration(d.byEmail[e]) && Migrated(d.byEmail[e], a, v) && Det(e) in w'
             && Some(w'[Det(e)]) == Resolve(d.byEmail[e], v)
    requires forall r | r in more :: r.email == e && r != Det(e)
    requires d.byEmail[e].secretRef.Some? && d.byEmail[e].secretRef.value != Det(e) ==>
               d.byEmail[e].secretRef.value in more
    ensures Migrating(d, Put(mem, e, a), previous[e := CaptureSecretFields(d.byEmail[e])], replaced + more, v, w')
  {
    forall f | f in previous ensures Det(f) in w' && w'[Det(f)] == w[Det(f)] {
      assert Det(f) in w - {Det(e)};
      assert Det(f) in w' - {Det(e)};
    }
    assert mem.order == d.order;
  }

  lemma NotMoved(d: Doc, mem: Doc, previous: map<Email, SecretFields>, replaced: seq<Ref>, v: Vault, w: Vault,
                 e: Email, w': Vault)
    requires Migrating(d, mem, previous, replaced, v, w)
    requires w - {Det(e)} == w' - {Det(e)} && e !in previous
    ensures Migrating(d, mem, previous, replaced, v, w')
  {
    forall f | f in previous ensures Det(f) in w' && w'[Det(f)] == w[Det(f)] {
      assert Det(f) in w - {Det(e)};
      assert Det(f) in w' - {Det(e)};
    }
  }

  /** An image of the migration loop that started on `base` with the accounts d in memory. */
  ghost predicate MoveImage(base: Image, d: Doc, img: Image) {
    PlanImage(base, MigrationPlan(d, VaultOf(base)), img) && SameTokens(d, VaultOf(base), VaultOf(img))
  }

  /** The migration loop: it changes the vault and the accounts in memory, not accounts.json. */
  method MoveAccounts(m: Machine, accounts: Accounts) returns (previous: map<Email, SecretFields>, replaced: seq<Ref>)
    requires m.Valid() && WellFormed(accounts.Contents()) && OwnRefs(accounts.Contents())
    modifies m`files, m`trail, m`log, accounts`Order, accounts`ByEmail
    ensures m.Valid() && old(m.trail) <= m.trail && old(m.log) <= m.log
    ensures Attempted(old(accounts.Contents()), VaultOf(old(m.files)), previous.Keys, old(accounts.Order), m.log,
                      |old(m.log)|)
    ensures Migrating(old(accounts.Contents()), accounts.Contents(), previous, replaced, VaultOf(old(m.files)),
                      VaultOf(m.files))
    ensures MoveImages(old(m.files), old(accounts.Contents()), m.trail, |old(m.trail)|)
    ensures MoveImage(old(m.files), old(accounts.Contents()), m.files)
  {
    previous, replaced := map[], [];
    ghost var d: AccountsDoc, base, n, l := accounts.Contents(), m.files, |m.trail|, |m.log|;
    MoveStart(base, d);
    var order := accounts.Order;
    for i := 0 to |order|
      invariant m.Valid() && old(m.trail) <= m.trail && old(m.log) <= m.log
      invariant Attempted(d, VaultOf(base), previous.Keys, order[..i], m.log, l)
      invariant Moved(base, d, m.files, accounts.Contents(), previous, replaced)
      invariant forall e | e in previous :: e in order[..i]
      invariant MoveImages(base, d, m.trail, n)
    {
      var e := order[i];
      NotYet(order, i, previous);
      ghost var trail := m.trail;
      previous, replaced := MoveOne(m, accounts, e, previous, replaced, d, base, order[..i], l);
      MoveImagesNext(base, d, trail, m.trail, n, m.files);
    }
    assert order[..|order|] == order;
  }

  ghost predicate MoveImages(base: Image, d: Doc, trail: seq<Image>, from: nat) {
    forall i | from <= i < |trail| :: MoveImage(base, d, trail[i])
  }

  lemma MoveImagesNext(base: Image, d: Doc, trail: seq<Image>, longer: seq<Image>, from: nat, img: Image)
    requires MoveImages(base, d, trail, from) && longer in {trail, trail + [img]} && MoveImage(base, d, img)
    ensures MoveImages(base, d, longer, from)
  {
  }

  /** Where the migration loop stands, on disk and in memory. */
  ghost predicate Moved(base: Image, d: Doc, files: Image, mem: Doc, previous: map<Email, SecretFields>,
                        replaced: seq<Ref>) {
    MoveImage(base, d, files) && Migrating(d, mem, previous, replaced, VaultOf(base), VaultOf(files))
  }

  lemma NotYet(order: seq<Email>, i: nat, previous: map<Email, SecretFields>)
    requires Distinct(order) && i < |order| && forall e | e in previous :: e in order[..i]
    ensures order[i] !in previous && order[..i + 1] == order[..i] + [order[i]]
  {
  }

  /** One turn of the migration loop. */
  method MoveOne(m: Machine, accounts: Accounts, e: Email, before: map<Email, SecretFields>, former: seq<Ref>,
                 ghost d: AccountsDoc, ghost base: Image, ghost done: seq<Email>, ghost from: nat)
    returns (previous: map<Email, SecretFields>, replaced: seq<Ref>)
    requires from <= |m.log| && Attempted(d, VaultOf(base), before.Keys, done, m.log, from)
    requires m.Valid() && OwnRefs(d) && e in d.byEmail && e !in before
    requires Moved(base, d, m.files, accounts.Contents(), before, former)
    modifies m`files, m`trail, m`log, accounts`Order, accounts`ByEmail
    ensures old(m.log) <= m.log && Attempted(d, VaultOf(base), previous.Keys, done + [e], m.log, from)
    ensures m.Valid() && m.trail in {old(m.trail), old(m.trail) + [m.files]}
    ensures Moved(base, d, m.files, accounts.Contents(), previous, replaced)
    ensures previous.Keys <= before.Keys + {e}
  {
    previous, replaced := before, former;
    ghost var v, mid := VaultOf(base), m.files;
    assert accounts.ByEmail[e] == d.byEmail[e];
    ghost var log := m.log;
    var a, moved, ref := MigrateAccount(m, accounts.ByEmail[e], e, d, v);
    AttemptedNext(d, v, before.Keys, done, log, from, e, moved, m.log);
    MoveImageNext(base, d, mid, m.files, e);
    var more := if ref == None then [] else [ref.value];
    if moved {
      MigratingStep(d, accounts.Contents(), previous, replaced, v, VaultOf(mid), e, a, VaultOf(m.files), more);
      previous := previous[e := CaptureSecretFields(accounts.ByEmail[e])];
      accounts.Set(e, a);
      replaced := replaced + more;
    } else {
      NotMoved(d, accounts.Contents(), previous, replaced, v, VaultOf(mid), e, VaultOf(m.files));
    }
  }

  lemma MoveStart(base: Image, d: Doc)
    ensures MoveImage(base, d, base) && Migrating(d, d, map[], [], VaultOf(base), VaultOf(base))
  {
    NothingWritten(MigrationPlan(d, VaultOf(base)), VaultOf(base));
  }

  lemma MoveImageNext(base: Image, d: Doc, before: Image, img: Image, e: Email)
    requires MoveImage(base, d, before) && SameBut(before, img, Secrets) && SameTokens(d, VaultOf(base), VaultOf(img))
    requires VaultOf(img) == VaultOf(before)
             || (Moves(d, VaultOf(base), e) && VaultOf(img)
                == VaultOf(before)[Det(e) := Resolve(d.byEmail[e], VaultOf(base)).value])
    ensures MoveImage(base, d, img)
  {
    PlanImageNext(base, MigrationPlan(d, VaultOf(base)), before, img, e);
  }

  /** captureSecretFields and restoreSecretFields are inverse across a migrated account. */
  lemma RestoreUndoesMigration(a: Account, b: Account, v: Vault)
    requires Migrated(a, b, v)
    ensures RestoreSecretFields(b, CaptureSecretFields(a)) == a
  {
  }

  ghost predicate RestoredOrMoved(a: Account, b: Account, moved: bool, v: Vault) {
    if moved then Migrated(a, b, v) else b == a
  }

  /** The accounts of d, those of `todo` still moved. */
  ghost predicate Restoring(d: Doc, mem: Doc, todo: set<Email>, v: Vault) {
    && mem.order == d.order && mem.byEmail.Keys == d.byEmail.Keys && todo <= d.byEmail.Keys
    && forall e | e in d.byEmail :: RestoredOrMoved(d.byEmail[e], mem.byEmail[e], e in todo, v)
  }

  lemma RestoringStep(d: Doc, mem: Doc, todo: set<Email>, v: Vault, e: Email)
    requires Restoring(d, mem, todo, v) && e in todo
    ensures Restoring(d, Put(mem, e, RestoreSecretFields(mem.byEmail[e], CaptureSecretFields(d.byEmail[e]))),
                      todo - {e}, v)
  {
    assert RestoredOrMoved(d.byEmail[e], mem.byEmail[e], true, v);
    RestoreUndoesMigration(d.byEmail[e], mem.byEmail[e], v);
  }

  lemma RestoringDone(d: Doc, mem: Doc, v: Vault)
    requires Restoring(d, mem, {}, v)
    ensures mem == d
  {
    assert forall e | e in d.byEmail :: RestoredOrMoved(d.byEmail[e], mem.byEmail[e], false, v);
    assert mem.byEmail == d.byEmail;
  }

  /** Undo the in-memory changes of a migration whose save failed. */
  method RestoreAccounts(accounts: Accounts, previous: map<Email, SecretFields>, ghost d: Doc, ghost v: Vault,
                         ghost replaced: seq<Ref>, ghost w: Vault)
    requires Migrating(d, accounts.Contents(), previous, replaced, v, w)
    modifies accounts`Order, accounts`ByEmail
    ensures accounts.Contents() == d
  {
    MigratingMoved(d, accounts.Contents(), previous, replaced, v, w);
    var todo := previous.Keys;
    while todo != {}
      invariant todo <= previous.Keys && Restoring(d, accounts.Contents(), todo, v)
    {
      var e :| e in todo;
      RestoringStep(d, accounts.Contents(), todo, v, e);
      todo := todo - {e};
      accounts.Set(e, RestoreSecretFields(accounts.ByEmail[e], previous[e]));
    }
    RestoringDone(d, accounts.Contents(), v);
  }

  lemma MigratingMoved(d: Doc, mem: Doc, previous: map<Email, SecretFields>, replaced: seq<Ref>, v: Vault, w: Vault)
    requires Migrating(d, mem, previous, replaced, v, w)
    ensures Restoring(d, mem, previous.Keys, v)
    ensures forall e | e in previous :: previous[e] == CaptureSecretFields(d.byEmail[e])
  {
  }

  /** Every account on disk resolves as in base. */
  ghost predicate SameOnDisk(base: Image, img: Image) {
    forall f :: OnDisk(img, f) == OnDisk(base, f)
  }

  /** What holds at every point of a migration; more if nobody has saved since the load. */
  ghost predicate NothingLost(base: Image, img: Image, d: Doc, current: bool) {
    && TokensKept(base, img, MigrationPlan(d, VaultOf(base)), d, current)
    && (Decoded(Lookup(base, AccountsFile)) == Some(d) ==> SameOnDisk(base, img))
  }

  /** A migration plans for every account the token it holds. */
  lemma KeptIsSame(base: Image, trail: seq<Image>, from: nat, d: Doc, current: bool)
    requires AlwaysKept(base, trail, from, MigrationPlan(d, VaultOf(base)), d, current)
    ensures NeverLost(base, trail, from, d, current)
  {
  }

  ghost predicate NeverLost(base: Image, trail: seq<Image>, from: nat, d: Doc, current: bool) {
    forall i | from <= i < |trail| :: NothingLost(base, trail[i], d, current)
  }

  /**
   How a migration of d ends that began on `base`; `allowed` and `current` say what the conflict
   check of its save will find. On success it is saved and every account is settled; otherwise
   memory is as loaded, and with nothing failing there was nothing to move or no save to be had.
   */
  ghost predicate MigrationEnd(base: Image, d: Doc, allowed: bool, current: bool, now: Doc, files: Image,
                               trail: seq<Image>, n: nat, stale: set<Ref>, log: seq<Op>, l: nat, changed: bool) {
    && NeverLost(base, trail, n, d, current)
    && if changed then
         && allowed && Decoded(Lookup(files, AccountsFile)) == Some(now) && MigratedFrom(now, d, VaultOf(base))
         && AllSettled(d, now, VaultOf(base), VaultOf(files), stale, log, l)
       else
         && now == d
         && (AllWorked(log, l) ==> SaveOutcome(d, allowed) != Saved || NothingToMove(d, VaultOf(base)))
  }

  /** The end of a migration: save what moved, or put the fields in memory back. */
  method CommitMigration(m: Machine, accounts: Accounts, previous: map<Email, SecretFields>, replaced: seq<Ref>,
                         ghost d: AccountsDoc, ghost base: Image, ghost n: nat, ghost l: nat, ghost allowed: bool,
                         ghost current: bool)
    returns (saved: bool)
    requires m.Valid() && OwnRefs(d) && OwnRefsOnDisk(base)
    requires Moved(base, d, m.files, accounts.Contents(), previous, replaced) && previous != map[]
    requires MoveImages(base, d, m.trail, n)
    requires l <= |m.log| && Attempted(d, VaultOf(base), previous.Keys, d.order, m.log, l)
    requires allowed <==> SaveAllowed(accounts.revision, accounts.revisionHash, Lookup(m.files, AccountsFile), m.mtime)
    requires current <==> FromLoad(m.files, m.mtime, accounts.revision, accounts.revisionHash, d)
    modifies m, accounts
    ensures m.Valid() && old(m.trail) <= m.trail && old(m.log) <= m.log
    ensures accounts.Contents() == if saved then old(accounts.Contents()) else d
    ensures MigrationEnd(base, d, allowed, current, if saved then old(accounts.Contents()) else d, m.files, m.trail, n,
                         m.stale, m.log, l, saved)
  {
    ghost var mem, v, w := accounts.Contents(), VaultOf(base), VaultOf(m.files);
    saved := SaveMoved(m, accounts, previous, replaced, d, base, mem, n, l, allowed, current);
    if !saved {
      RestoreAccounts(accounts, previous, d, v, replaced, w);
    }
  }

  /** The save of a migration. */
  method SaveMoved(m: Machine, accounts: Accounts, ghost previous: map<Email, SecretFields>, replaced: seq<Ref>,
                   ghost d: AccountsDoc, ghost base: Image, ghost mem: Doc, ghost n: nat, ghost l: nat,
                   ghost allowed: bool, ghost current: bool)
    returns (saved: bool)
    requires m.Valid() && OwnRefs(d) && OwnRefsOnDisk(base) && mem == accounts.Contents()
    requires Moved(base, d, m.files, mem, previous, replaced) && previous != map[]
    requires MoveImages(base, d, m.trail, n)
    requires l <= |m.log| && Attempted(d, VaultOf(base), previous.Keys, d.order, m.log, l)
    requires allowed <==> SaveAllowed(accounts.revision, accounts.revisionHash, Lookup(m.files, AccountsFile), m.mtime)
    requires current <==> FromLoad(m.files, m.mtime, accounts.revision, accounts.revisionHash, d)
    modifies m, accounts`revision, accounts`revisionHash
    ensures m.Valid() && old(m.trail) <= m.trail && old(m.log) <= m.log
    ensures MigrationEnd(base, d, allowed, current, if saved then mem else d, m.files, m.trail, n, m.stale, m.log, l,
                         saved)
  {
    ghost var mid, trail, log := m.files, m.trail, m.log;
    ReadyToCommit(d, mem, previous, replaced, base, mid, log, l);
    var r := SavePlanned(m, accounts, replaced, base, d, MigrationPlan(d, VaultOf(base)), mem, allowed, current);
    saved := r == Saved;
    SaveMovedEnds(base, d, mem, mid, previous, replaced, m.files, trail, m.trail, n, m.stale, log, m.log, l, allowed,
                  current, r);
  }

  /** How a save after planned vault writes ended. */
  ghost predicate PlanSaved(base: Image, d: Doc, plan: Plan, mem: Doc, refs: seq<Ref>, allowed: bool, current: bool,
                            files: Image, trail: seq<Image>, n: nat, stale: set<Ref>, log: seq<Op>, l: nat,
                            r: SaveResult) {
    && AlwaysKept(base, trail, n, plan, d, current)
    && (AllWorked(log, l) ==> r == SaveOutcome(mem, allowed))
    && (r == Saved ==>
          && allowed && Decoded(Lookup(files, AccountsFile)) == Some(mem)
          && Forgotten(VaultOf(files), refs, stale, log, l))
  }

  method SavePlanned(m: Machine, accounts: Accounts, refs: seq<Ref>, ghost base: Image, ghost d: AccountsDoc,
                     ghost plan: Plan, ghost mem: Doc, ghost allowed: bool, ghost current: bool)
    returns (r: SaveResult)
    requires m.Valid() && mem == accounts.Contents() && WellFormed(mem) && OwnRefs(mem) && Unused(mem, refs)
    requires OwnRefsOnDisk(base) && PlanImage(base, plan, m.files)
    requires Recorded(d, VaultOf(base), plan, mem, VaultOf(m.files))
    requires allowed <==> SaveAllowed(accounts.revision, accounts.revisionHash, Lookup(m.files, AccountsFile), m.mtime)
    requires current <==> FromLoad(m.files, m.mtime, accounts.revision, accounts.revisionHash, d)
    modifies m, accounts`revision, accounts`revisionHash
    ensures m.Valid() && old(m.trail) <= m.trail && old(m.log) <= m.log
    ensures PlanSaved(base, d, plan, mem, refs, allowed, current, m.files, m.trail, |old(m.trail)|, m.stale, m.log,
                      |old(m.log)|, r)
  {
    r := SaveWritten(m, accounts, refs, base, d, plan);
  }

  lemma SaveMovedEnds(base: Image, d: AccountsDoc, mem: Doc, mid: Image, previous: map<Email, SecretFields>,
                      replaced: seq<Ref>, files: Image, trail: seq<Image>, longer: seq<Image>, n: nat,
                      stale: set<Ref>, log: seq<Op>, later: seq<Op>, l: nat, allowed: bool, current: bool,
                      r: SaveResult)
    requires OwnRefsOnDisk(base) && MoveImages(base, d, trail, n) && trail <= longer && log <= later && l <= |log|
    requires Migrating(d, mem, previous, replaced, VaultOf(base), VaultOf(mid))
    requires Attempted(d, VaultOf(base), previous.Keys, d.order, log, l)
    requires MigratedFrom(mem, d, VaultOf(base)) && (Acceptable(d) ==> Acceptable(mem))
    requires PlanSaved(base, d, MigrationPlan(d, VaultOf(base)), mem, replaced, allowed, current, files, longer,
                       |trail|, stale, later, |log|, r)
    ensures MigrationEnd(base, d, allowed, current, if r == Saved then mem else d, files, longer, n, stale, later, l,
                         r == Saved)
  {
    MigrationKeeps(base, d, trail, longer, n, current);
    WorkedBefore(log, later, l, |log|);
    if r == Saved {
      MigrationSettles(d, mem, previous, replaced, VaultOf(base), VaultOf(mid), VaultOf(files), stale, log, later, l);
    }
  }

  lemma ReadyToCommit(d: AccountsDoc, mem: Doc, previous: map<Email, SecretFields>, replaced: seq<Ref>, base: Image,
                      mid: Image, log: seq<Op>, l: nat)
    requires OwnRefs(d) && Moved(base, d, mid, mem, previous, replaced) && previous != map[]
    requires Attempted(d, VaultOf(base), previous.Keys, d.order, log, l)
    ensures WellFormed(mem) && OwnRefs(mem) && Unused(mem, replaced) && MigratedFrom(mem, d, VaultOf(base))
    ensures Recorded(d, VaultOf(base), MigrationPlan(d, VaultOf(base)), mem, VaultOf(mid))
    ensures Acceptable(d) ==> Acceptable(mem)
  {
    MovedResolve(d, mem, previous, replaced, VaultOf(base), VaultOf(mid));
    SomeMoved(d, mem, previous, replaced, VaultOf(base), VaultOf(mid));
    AllAttempted(d, mem, VaultOf(base), VaultOf(mid), previous, replaced, log, l);
  }

  lemma NothingMoved(d: AccountsDoc, mem: Doc, replaced: seq<Ref>, base: Image, files: Image, trail: seq<Image>, n: nat,
                     stale: set<Ref>, allowed: bool, current: bool, log: seq<Op>, l: nat)
    requires OwnRefsOnDisk(base) && Moved(base, d, files, mem, map[], replaced) && MoveImages(base, d, trail, n)
    requires Attempted(d, VaultOf(base), {}, d.order, log, l)
    ensures MigrationEnd(base, d, allowed, current, mem, files, trail, n, stale, log, l, false)
  {
    assert mem.byEmail == d.byEmail;
    MigrationKeeps(base, d, trail, trail, n, current);
    AllAttempted(d, mem, VaultOf(base), VaultOf(files), map[], replaced, log, l);
  }

  /** The accounts after a migration that reports a change: some moved, none lost or added. */
  ghost predicate MigratedFrom(now: Doc, d: Doc, v: Vault) {
    && now.order == d.order && now.byEmail.Keys == d.byEmail.Keys
    && (exists e :: e in now.byEmail && MovedFrom(d.byEmail[e], now.byEmail[e], v))
    && forall e | e in now.byEmail :: now.byEmail[e] == d.byEmail[e] || MovedFrom(d.byEmail[e], now.byEmail[e], v)
  }

  /**
   migrateVaultAccounts, with a vault and a store. If nobody has saved since the accounts were
   loaded, each account on disk resolves to the token it had at every point of it. Otherwise
   each account may resolve to the token that was loaded for it: if the save is let through
   all the same, or if the migration wrote that token to the vault before the save was
   refused. If it reports no change, the accounts in memory are as given.
   */
  method MigrateVaultAccounts(m: Machine, accounts: Accounts) returns (changed: bool)
    requires m.Valid() && WellFormed(accounts.Contents()) && OwnRefs(accounts.Contents()) && OwnRefsOnDisk(m.files)
    modifies m, accounts
    ensures m.Valid() && old(m.trail) <= m.trail && old(m.log) <= m.log
    ensures MigrationEnd(old(m.files), old(accounts.Contents()),
                         old(SaveAllowed(accounts.revision, accounts.revisionHash, Lookup(m.files, AccountsFile),
                                         m.mtime)),
                         old(FromLoad(m.files, m.mtime, accounts.revision, accounts.revisionHash, accounts.Contents())),
                         accounts.Contents(), m.files, m.trail, |old(m.trail)|, m.stale, m.log, |old(m.log)|, changed)
  {
    ghost var d: AccountsDoc, base, n, l := accounts.Contents(), m.files, |m.trail|, |m.log|;
    ghost var current := FromLoad(base, m.mtime, accounts.revision, accounts.revisionHash, d);
    ghost var allowed :=
      SaveAllowed(accounts.revision, accounts.revisionHash, Lookup(base, AccountsFile), m.mtime);
    var previous, replaced := MoveAccounts(m, accounts);
    if previous == map[] {
      NothingMoved(d, accounts.Contents(), replaced, base, m.files, m.trail, n, m.stale, allowed, current, m.log, l);
      return false;
    }
    assert Lookup(m.files, AccountsFile) == Lookup(base, AccountsFile);
    ghost var mem := accounts.Contents();
    changed := CommitMigration(m, accounts, previous, replaced, d, base, n, l, allowed, current);
    assert accounts.Contents() == if changed then mem else d;
  }

  /**
   What becomes of an account in a migration that is saved: one that resolves ends under its own
   reference with its token's hash, and without the entry it used before, except for what the
   log says failed; one that needs nothing is as it was.
   */
  ghost predicate Settled(a: Account, b: Account, v: Vault, w: Vault, stale: set<Ref>, log: seq<Op>, from: nat) {
    && (Resolve(a, v).Some? ==>
          || PutFailed(log, from, Det(a.email))
          || (b.secretRef == Some(Det(a.email)) && b.tokenHash.Some?
              && (a.secretRef.Some? && a.secretRef != b.secretRef ==>
                    Forgotten(w, [a.secretRef.value], stale, log, from))))
    && (a.secretRef == Some(Det(a.email)) && a.tokenHash.Some? ==> b == a)
    && (a.secretRef == None && a.tokenData == None ==> b == a)
  }

  ghost predicate AllSettled(d: Doc, now: Doc, v: Vault, w: Vault, stale: set<Ref>, log: seq<Op>, from: nat) {
    forall e | e in now.byEmail :: e in d.byEmail && Settled(d.byEmail[e], now.byEmail[e], v, w, stale, log, from)
  }

  /** Every account that resolves is under its own reference, with its token's hash. */
  ghost predicate NothingToMove(d: Doc, v: Vault) {
    forall e | e in d.byEmail && Resolve(d.byEmail[e], v).Some? ::
      d.byEmail[e].secretRef == Some(Det(e)) && d.byEmail[e].tokenHash.Some?
  }

  lemma MigrationSettles(d: AccountsDoc, mem: Doc, previous: map<Email, SecretFields>, replaced: seq<Ref>, v: Vault,
                   mid: Vault, w: Vault, stale: set<Ref>, log: seq<Op>, longer: seq<Op>, from: nat)
    requires Migrating(d, mem, previous, replaced, v, mid) && Attempted(d, v, previous.Keys, d.order, log, from)
    requires log <= longer && from <= |log| && Forgotten(w, replaced, stale, longer, |log|)
    ensures AllSettled(d, mem, v, w, stale, longer, from)
  {
    forall e | e in mem.byEmail ensures Settled(d.byEmail[e], mem.byEmail[e], v, w, stale, longer, from) {
      PutFailedLater(log, longer, from, from, Det(e));
      assert e in d.order;
      var a := d.byEmail[e];
      if e in previous && a.secretRef.Some? && a.secretRef.value != Det(e) {
        CutFailedLater(longer, longer, from, |log|, a.secretRef.value);
      }
    }
  }

  /** With nothing failing, every account that needs it is moved, and none that could not be saved before. */
  lemma AllAttempted(d: AccountsDoc, mem: Doc, v: Vault, w: Vault, previous: map<Email, SecretFields>,
                     replaced: seq<Ref>, log: seq<Op>, from: nat)
    requires Migrating(d, mem, previous, replaced, v, w) && Attempted(d, v, previous.Keys, d.order, log, from)
    ensures Acceptable(d) ==> Acceptable(mem)
    ensures AllWorked(log, from) && previous == map[] ==> NothingToMove(d, v)
  {
    forall e | Moves(d, v, e) ensures AllWorked(log, from) ==> e in previous {
      assert e in d.order;
      FailuresShow(log, from, Det(e));
    }
  }

  lemma MigrationKeeps(base: Image, d: Doc, trail: seq<Image>, longer: seq<Image>, n: nat, current: bool)
    requires OwnRefsOnDisk(base) && MoveImages(base, d, trail, n) && trail <= longer
    requires AlwaysKept(base, longer, |trail|, MigrationPlan(d, VaultOf(base)), d, current)
    ensures NeverLost(base, longer, n, d, current)
  {
    MoveImagesResolve(base, d, trail, n, current);
    AlwaysKeptOn(base, trail, longer, n, MigrationPlan(d, VaultOf(base)), d, current);
    KeptIsSame(base, longer, n, d, current);
  }

  lemma MoveImagesResolve(base: Image, d: Doc, trail: seq<Image>, n: nat, current: bool)
    requires OwnRefsOnDisk(base) && MoveImages(base, d, trail, n)
    ensures AlwaysKept(base, trail, n, MigrationPlan(d, VaultOf(base)), d, current)
  {
    forall i | n <= i < |trail| ensures TokensKept(base, trail[i], MigrationPlan(d, VaultOf(base)), d, current) {
      PlanImageResolves(base, MigrationPlan(d, VaultOf(base)), trail[i], d);
    }
  }

  lemma SomeMoved(d: Doc, now: Doc, previous: map<Email, SecretFields>, replaced: seq<Ref>, v: Vault, w: Vault)
    requires Migrating(d, now, previous, replaced, v, w) && previous != map[]
    ensures MigratedFrom(now, d, v)
  {
    var moved :| moved in previous;
    assert MovedFrom(d.byEmail[moved], now.byEmail[moved], v);
  }

  lemma MovedResolve(d: Doc, d': Doc, previous: map<Email, SecretFields>, replaced: seq<Ref>, v: Vault, w: Vault)
    requires WellFormed(d) && OwnRefs(d) && Migrating(d, d', previous, replaced, v, w) && SameTokens(d, v, w)
    ensures WellFormed(d') && OwnRefs(d') && Unused(d', replaced)
    ensures forall f | f in d.byEmail :: Resolve(d'.byEmail[f], w) == Resolve(d.byEmail[f], v)
  {
  }

  // ----- vault writes for accounts that are out of date -----

  /** An entry t under the account's own reference does not change its token. */
  predicate Unaffected(now: Account, t: Token, v: Vault) {
    || now.secretRef.None?
    || (now.secretRef.value != Det(now.email) && now.secretRef.value in v)
    || Entry(v, Det(now.email)) == Some(t)
  }

  /**
   The vault writes of a migration, a quota refresh or a harvest come before the conflict check
   of the save after them. With `now` on disk by then, every point of such writes leaves every
   account its token exactly when each account planned for has a plaintext token by now, has a
   live reference to another entry, or has the planned token under its own reference.
   */
  lemma StaleWritesAreHarmlessIff(plan: Plan, now: AccountsDoc, v: Vault)
    requires OwnRefs(now)
    ensures (forall w | Written(plan, v, w) :: SameTokens(now, v, w))
            <==> forall e | e in now.byEmail && e in plan :: Unaffected(now.byEmail[e], plan[e], v)
  {
    if e :| e in now.byEmail && e in plan && !Unaffected(now.byEmail[e], plan[e], v) {
      var w := v[Det(e) := plan[e]];
      NothingWritten(plan, v);
      WrittenOn(plan, v, v, w, e);
      assert Resolve(now.byEmail[e], w) != Resolve(now.byEmail[e], v);
    } else {
      forall w | Written(plan, v, w) ensures SameTokens(now, v, w) {
        forall f | f in now.byEmail ensures Resolve(now.byEmail[f], w) == Resolve(now.byEmail[f], v) {
          assert PlannedEntry(plan, v, w, Det(f));
          assert now.byEmail[f].secretRef.Some? ==> PlannedEntry(plan, v, w, now.byEmail[f].secretRef.value);
        }
      }
    }
  }

  const BOB := Email("b@x.io")
  const FIRST_TOKEN := Token(true, "1", "r", None, None, 0)
  const SECOND_TOKEN := Token(true, "2", "r", None, None, 0)
  const LOADED := Account(BOB, None, Some(FIRST_TOKEN), None, None, None, Notes(None, None, NoTier, 0))
  const RESAVED := InVault(LOADED, SECOND_TOKEN)

  /**
   Such a migration can bring an old token back: loaded with a plaintext token, the account
   has since been saved by another process with a newer one in the vault. The migration
   overwrites that entry, and its save is refused.
   */
  lemma StaleMigrationLosesToken(time: int, now: int)
    requires now != 0
    ensures var d: Doc, later: Doc := Doc([BOB], map[BOB := LOADED]), Doc([BOB], map[BOB := RESAVED]);
            && WellFormed(d) && WellFormed(later) && OwnRefs(later)
            && var v, w := map[Det(BOB) := SECOND_TOKEN], map[Det(BOB) := FIRST_TOKEN];
            && Written(MigrationPlan(d, v), v, w)
            && !SaveAllowed(time, HashOf(Some(AccountsJson(d))), Some(AccountsJson(later)), now)
            && Resolve(later.byEmail[BOB], v) == Some(SECOND_TOKEN)
            && Resolve(later.byEmail[BOB], w) == Some(FIRST_TOKEN)
  {
    var d: Doc, later: Doc := Doc([BOB], map[BOB := LOADED]), Doc([BOB], map[BOB := RESAVED]);
    var v, w := map[Det(BOB) := SECOND_TOKEN], map[Det(BOB) := FIRST_TOKEN];
    assert d.byEmail[BOB] != later.byEmail[BOB];
    assert Moves(d, v, BOB) && MigrationPlan(d, v)[BOB] == FIRST_TOKEN;
    assert forall ref :: PlannedEntry(MigrationPlan(d, v), v, w, ref);
  }
}
