/** What the collector of a quota refresh does with the results as they arrive (internal/app/quota.go). */
module QuotaMerge {
  import opened Model
  import opened Durable
  import opened Store
  import opened Secrets
  import opened QuotaPool

  /** How a fetch ended. A failure may still show that the account is no longer blocked. */
  datatype FetchOutcome = Fetched(snapshot: nat) | Ineligible(record: nat) | Failed(clears: bool)

  /**
   One result: the fetched account's own copy, perhaps with a refreshed token in
   token_data, and how writing that token to the vault would go: whether the entry is
   stored and whether success is reported.
   */
  datatype FetchResult = FetchResult(e: Email, copy: Account, outcome: FetchOutcome, stored: bool, reported: bool)

  /** The fetch brought a token the account did not have in the file. */
  predicate Refreshed(original: Account, r: FetchResult) {
    r.copy.tokenData.Some? && r.copy.tokenData != original.tokenData
  }

  /** The copy after its refreshed token was put away. */
  function PutAway(r: FetchResult, hasVault: bool): Account
    requires r.copy.tokenData.Some?
  {
    var t := r.copy.tokenData.value;
    if !hasVault then Remembering(r.copy, t) else if r.reported then InVault(r.copy, t) else InFile(r.copy, t)
  }

  /** The four fields the collector copies back. */
  function Carried(original: Account, copy: Account): Account {
    original.(secretRef := copy.secretRef, tokenData := copy.tokenData, tokenHash := copy.tokenHash,
              expiresAt := copy.expiresAt)
  }

  function MergedAccount(original: Account, r: FetchResult, hasVault: bool): Account {
    var a := if Refreshed(original, r) then Carried(original, PutAway(r, hasVault)) else original;
    match r.outcome
    case Fetched(snapshot) => a.(notes := a.notes.(eligibility := None, snapshot := Some(snapshot)))
    case Ineligible(record) => a.(notes := a.notes.(eligibility := Some(record)))
    case Failed(clears) => if clears then a.(notes := a.notes.(eligibility := None)) else a
  }

  predicate Changes(original: Account, r: FetchResult) {
    Refreshed(original, r) || r.outcome.Fetched? || r.outcome.Ineligible?
    || (r.outcome.Failed? && r.outcome.clears && original.notes.eligibility.Some?)
  }

  /** The result for an account, if one has arrived. */
  function ResultFor(results: seq<FetchResult>, e: Email): (r: Option<FetchResult>)
    ensures r.Some? ==> r.value in results && r.value.e == e
    ensures r.None? <==> forall x | x in results :: x.e != e
  {
    if results == [] then None
    else
      assert forall x | x in results :: x == results[|results| - 1] || x in results[..|results| - 1];
      if results[|results| - 1].e == e then Some(results[|results| - 1]) else ResultFor(results[..|results| - 1], e)
  }

  function AccountsAfter(m: map<Email, Account>, results: seq<FetchResult>, hasVault: bool): map<Email, Account> {
    map e | e in m :: AccountAfter(m[e], ResultFor(results, e), hasVault)
  }

  /** The vault entry the results leave under a reference. */
  function EntryAfter(vault: Vault, m: map<Email, Account>, results: seq<FetchResult>, hasVault: bool,
                      ref: Ref): Option<Token> {
    var r := ResultFor(results, ref.email);
    if hasVault && ref == Det(ref.email) && r.Some? && ref.email in m && Refreshed(m[ref.email], r.value)
        && r.value.stored
    then r.value.copy.tokenData
    else if ref in vault then Some(vault[ref]) else None
  }

  /** A failed fetch's error, by account. */
  function ErrorAfter(results: seq<FetchResult>, e: Email): Option<FetchOutcome> {
    match ResultFor(results, e)
    case Some(r) => if r.outcome.Fetched? then None else Some(r.outcome)
    case None => None
  }

  /** What a fetch does to its copy: nothing, or a new token in place of the reference and what is recorded of it. */
  predicate FetchedFrom(original: Account, copy: Account) {
    || copy == original
    || (copy.tokenData.Some?
        && copy == Remembering(original, copy.tokenData.value).(tokenHash := original.tokenHash, secretRef := None,
                                                                tokenData := copy.tokenData))
  }

  ghost predicate OnePerAccount(results: seq<FetchResult>, m: map<Email, Account>) {
    && (forall r | r in results ::
          r.e in m && m[r.e].email == r.e && FetchedFrom(m[r.e], r.copy) && (r.reported ==> r.stored))
    && (forall i, j | 0 <= i < j < |results| :: results[i].e != results[j].e)
  }

  /**
   What a result does to its account, field by field. A good read leaves its snapshot and no
   eligibility record; an ineligible one leaves its record and the old snapshot; a failure leaves
   the snapshot, and drops the record exactly when it clears.
   */
  predicate NotesApplied(before: Notes, r: FetchResult, after: Notes) {
    && after.tier == before.tier && after.other == before.other
    && after.snapshot == (match r.outcome case Fetched(s) => Some(s) case _ => before.snapshot)
    && match r.outcome
       case Fetched(_) => after.eligibility == None
       case Ineligible(record) => after.eligibility == Some(record)
       case Failed(clears) => after.eligibility == if clears then None else before.eligibility
  }

  /** A token the account did not have replaces its token fields, in the vault if that took it; others stay. */
  predicate TokenApplied(original: Account, r: FetchResult, hasVault: bool, a: Account) {
    && a.email == original.email && a.refreshHash == original.refreshHash
    && match r.copy.tokenData
       case Some(t) =>
         if original.tokenData == Some(t) then SameTokenFields(a, original)
         else
           && a.tokenHash == Some(t) && a.expiresAt == (if t.wrapped then t.expiry else None)
           && (hasVault && r.reported ==> a.secretRef == Some(Det(r.copy.email)) && a.tokenData == None)
           && (hasVault && !r.reported ==> a.secretRef == None && a.tokenData == Some(t))
           && (!hasVault ==> a.secretRef == r.copy.secretRef && a.tokenData == Some(t))
       case None => SameTokenFields(a, original)
  }

  predicate SameTokenFields(a: Account, b: Account) {
    a.secretRef == b.secretRef && a.tokenData == b.tokenData && a.tokenHash == b.tokenHash && a.expiresAt == b.expiresAt
  }

  /** One result, merged into its account. */
  method MergeResult(original: Account, r: FetchResult, hasVault: bool) returns (a: Account, changed: bool)
    ensures a == MergedAccount(original, r, hasVault) && changed == Changes(original, r)
    ensures NotesApplied(original.notes, r, a.notes) && TokenApplied(original, r, hasVault, a)
    ensures changed <==> Matters(original, r)
  {
    a, changed := original, false;
    if Refreshed(original, r) {
      a := Carried(a, PutAway(r, hasVault));
      changed := true;
    }
    match r.outcome {
      case Ineligible(record) =>
        a := a.(notes := a.notes.(eligibility := Some(record)));
        changed := true;
      case Failed(false) =>
      case _ =>
        if a.notes.eligibility.Some? {
          a := a.(notes := a.notes.(eligibility := None));
          changed := true;
        }
    }
    if r.outcome.Fetched? {
      a := a.(notes := a.notes.(snapshot := Some(r.outcome.snapshot)));
      changed := true;
    }
  }

  /** The vault write for a refreshed token, and the reference it replaces. */
  method StoreRefreshed(m: Machine, original: Account, r: FetchResult, hasVault: bool)
    returns (replaced: Option<Ref>, failed: bool)
    requires m.Valid()
    modifies m`files, m`trail, m`log
    ensures m.Valid() && SameBut(old(m.files), m.files, Secrets)
    ensures m.trail == old(m.trail) + [m.files] || (m.trail == old(m.trail) && m.files == old(m.files))
    ensures m.log == old(m.log) + if hasVault && Refreshed(original, r)
                                  then [PutSecret(Det(r.e), r.copy.tokenData.value, r.reported)] else []
    ensures VaultOf(m.files) == if hasVault && Refreshed(original, r) && r.stored
                                then VaultOf(old(m.files))[Det(r.e) := r.copy.tokenData.value]
                                    else VaultOf(old(m.files))
    ensures failed <==> hasVault && Refreshed(original, r) && !r.reported
    ensures replaced == if hasVault && Refreshed(original, r) && r.reported && r.copy.secretRef != Some(Det(r.e))
                        then r.copy.secretRef else None
  {
    replaced, failed := None, false;
    if Refreshed(original, r) && hasVault {
      if r.stored {
        m.files := m.files[Secrets := VaultMap(VaultOf(m.files)[Det(r.e) := r.copy.tokenData.value])];
      }
      m.log := m.log + [PutSecret(Det(r.e), r.copy.tokenData.value, r.reported)];
      m.trail := m.trail + [m.files];
      failed := !r.reported;
      if r.reported && r.copy.secretRef.Some? && r.copy.secretRef.value != Det(r.e) {
        replaced := r.copy.secretRef;
      }
    }
  }

  lemma ResultForNext(results: seq<FetchResult>, i: nat, e: Email)
    requires i < |results|
    ensures ResultFor(results[..i + 1], e) == if results[i].e == e then Some(results[i]) else ResultFor(results[..i], e)
  {
    assert results[..i + 1][..i] == results[..i];
  }

  function AccountAfter(original: Account, r: Option<FetchResult>, hasVault: bool): Account {
    match r case Some(x) => MergedAccount(original, x, hasVault) case None => original
  }

  lemma AccountsNext(m: map<Email, Account>, results: seq<FetchResult>, i: nat, hasVault: bool)
    requires OnePerAccount(results, m) && i < |results|
    ensures var r, before := results[i], AccountsAfter(m, results[..i], hasVault);
            r.e in m && before[r.e] == m[r.e]
                && AccountsAfter(m, results[..i + 1], hasVault)
                   == before[r.e := AccountAfter(m[r.e], Some(r), hasVault)]
  {
    var r, before, after := results[i], AccountsAfter(m, results[..i], hasVault),
        AccountsAfter(m, results[..i + 1], hasVault);
    NotYetArrived(m, results, i);
    AccountsStep(m, results, i, hasVault);
    OneChanged(before, after, r.e, AccountAfter(m[r.e], Some(r), hasVault));
  }

  lemma OneChanged(before: map<Email, Account>, after: map<Email, Account>, e: Email, a: Account)
    requires e in before && after.Keys == before.Keys
    requires forall f | f in before :: after[f] == if f == e then a else before[f]
    ensures after == before[e := a]
  {
  }

  lemma AccountsStep(m: map<Email, Account>, results: seq<FetchResult>, i: nat, hasVault: bool)
    requires i < |results| && ResultFor(results[..i], results[i].e) == None
    ensures var r, before, after := results[i], AccountsAfter(m, results[..i], hasVault),
                                    AccountsAfter(m, results[..i + 1], hasVault);
            && after.Keys == before.Keys == m.Keys && (r.e in m ==> before[r.e] == m[r.e])
            && forall e | e in m ::
                 after[e] == if e == r.e then AccountAfter(m[e], Some(r), hasVault) else before[e]
  {
    forall e | e in m ensures ResultFor(results[..i + 1], e)
                              == if e == results[i].e then Some(results[i]) else ResultFor(results[..i], e) {
      ResultForNext(results, i, e);
    }
  }

  lemma NotYetArrived(m: map<Email, Account>, results: seq<FetchResult>, i: nat)
    requires OnePerAccount(results, m) && i < |results|
    ensures results[i].e in m && ResultFor(results[..i], results[i].e) == None
  {
    assert results[i] in results;
    assert forall j | 0 <= j < i :: results[j].e != results[i].e;
  }

  lemma EntryNext(vault: Vault, m: map<Email, Account>, results: seq<FetchResult>, i: nat, hasVault: bool, ref: Ref)
    requires OnePerAccount(results, m) && i < |results|
    ensures var r := results[i];
            EntryAfter(vault, m, results[..i + 1], hasVault, ref) ==
            if hasVault && ref == Det(r.e) && Refreshed(m[r.e], r) && r.stored then r.copy.tokenData
            else EntryAfter(vault, m, results[..i], hasVault, ref)
  {
    assert ResultFor(results[..i], results[i].e) == None;
    ResultForNext(results, i, ref.email);
  }

  lemma ErrorNext(results: seq<FetchResult>, i: nat, e: Email)
    requires i < |results| && ResultFor(results[..i], results[i].e) == None
    ensures ErrorAfter(results[..i + 1], e) ==
            if results[i].e == e && !results[i].outcome.Fetched? then Some(results[i].outcome)
                else ErrorAfter(results[..i], e)
  {
    ResultForNext(results, i, e);
  }

  /** Whether any result changes its account, and whether any refreshed token missed the vault. */
  predicate AnyChange(m: map<Email, Account>, results: seq<FetchResult>) {
    results != []
    && (AnyChange(m, results[..|results| - 1]) || Changing(m, results[|results| - 1]))
  }

  predicate Changing(m: map<Email, Account>, r: FetchResult) { r.e in m && Changes(m[r.e], r) }

  predicate AnyUnstored(m: map<Email, Account>, results: seq<FetchResult>) {
    results != []
    && (AnyUnstored(m, results[..|results| - 1]) || Unstored(m, results[|results| - 1]))
  }

  predicate Unstored(m: map<Email, Account>, r: FetchResult) { r.e in m && Refreshed(m[r.e], r) && !r.reported }

  lemma {:induction false} AnyIsSome(m: map<Email, Account>, results: seq<FetchResult>)
    ensures AnyChange(m, results) <==> exists r :: r in results && Changing(m, r)
    ensures AnyUnstored(m, results) <==> exists r :: r in results && Unstored(m, r)
  {
    if results != [] {
      AnyIsSome(m, results[..|results| - 1]);
      assert forall r :: r in results <==> r == results[|results| - 1] || r in results[..|results| - 1];
    }
  }

  /** What the collector holds. */
  datatype Books = Books(accounts: map<Email, Account>, vault: Vault, errors: map<Email, FetchOutcome>,
                         storageFailed: bool, changed: bool)

  /** What the collector should hold after these results, whatever their order. */
  ghost predicate Agrees(b: Books, m: map<Email, Account>, vault: Vault, results: seq<FetchResult>, hasVault: bool) {
    && b.accounts == AccountsAfter(m, results, hasVault)
    && (forall ref :: Entry(b.vault, ref) == EntryAfter(vault, m, results, hasVault, ref))
    && (forall e :: Entry(b.errors, e) == ErrorAfter(results, e))
    && (b.storageFailed <==> hasVault && AnyUnstored(m, results))
    && (b.changed <==> AnyChange(m, results))
  }

  /** The books after one more result. */
  function Booked(b: Books, r: FetchResult, hasVault: bool): Books
    requires r.e in b.accounts
  {
    var original := b.accounts[r.e];
    Books(b.accounts[r.e := MergedAccount(original, r, hasVault)],
          if hasVault && Refreshed(original, r) && r.stored then b.vault[Det(r.e) := r.copy.tokenData.value]
              else b.vault,
          if r.outcome.Fetched? then b.errors else b.errors[r.e := r.outcome],
          b.storageFailed || (hasVault && Refreshed(original, r) && !r.reported),
          b.changed || Changes(original, r))
  }

  lemma BookedAgrees(b: Books, m: map<Email, Account>, vault: Vault, results: seq<FetchResult>, i: nat, hasVault: bool)
    requires OnePerAccount(results, m) && i < |results| && Agrees(b, m, vault, results[..i], hasVault)
    ensures results[i].e in b.accounts && Agrees(Booked(b, results[i], hasVault), m, vault, results[..i + 1], hasVault)
  {
    AccountsNext(m, results, i, hasVault);
    assert results[..i + 1][..i] == results[..i] && results[..i + 1][i] == results[i];
    VaultBooked(b, m, vault, results, i, hasVault);
    ErrorsBooked(b, m, vault, results, i, hasVault);
  }

  lemma VaultBooked(b: Books, m: map<Email, Account>, vault: Vault, results: seq<FetchResult>, i: nat, hasVault: bool)
    requires OnePerAccount(results, m) && i < |results| && Agrees(b, m, vault, results[..i], hasVault)
    requires results[i].e in b.accounts && b.accounts[results[i].e] == m[results[i].e]
    ensures forall ref :: Entry(Booked(b, results[i], hasVault).vault, ref)
                          == EntryAfter(vault, m, results[..i + 1], hasVault, ref)
  {
    var b' := Booked(b, results[i], hasVault);
    forall ref ensures Entry(b'.vault, ref) == EntryAfter(vault, m, results[..i + 1], hasVault, ref) {
      assert Entry(b.vault, ref) == EntryAfter(vault, m, results[..i], hasVault, ref);
      EntryNext(vault, m, results, i, hasVault, ref);
    }
  }

  lemma ErrorsBooked(b: Books, m: map<Email, Account>, vault: Vault, results: seq<FetchResult>, i: nat, hasVault: bool)
    requires OnePerAccount(results, m) && i < |results| && Agrees(b, m, vault, results[..i], hasVault)
    requires results[i].e in b.accounts
    ensures forall e :: Entry(Booked(b, results[i], hasVault).errors, e) == ErrorAfter(results[..i + 1], e)
  {
    var b' := Booked(b, results[i], hasVault);
    assert ResultFor(results[..i], results[i].e) == None;
    forall e ensures Entry(b'.errors, e) == ErrorAfter(results[..i + 1], e) {
      assert Entry(b.errors, e) == ErrorAfter(results[..i], e);
      ErrorNext(results, i, e);
    }
  }

  /** The refreshed tokens that go to the vault. */
  function RefreshPlan(m: map<Email, Account>, results: seq<FetchResult>): Plan {
    map e | e in m && ResultFor(results, e).Some? && Refreshed(m[e], ResultFor(results, e).value) ::
      ResultFor(results, e).value.copy.tokenData.value
  }

  lemma PlannedFor(m: map<Email, Account>, results: seq<FetchResult>, i: nat)
    requires OnePerAccount(results, m) && i < |results|
    ensures var r := results[i];
            && ResultFor(results, r.e) == Some(r) && r.e in m
            && (Refreshed(m[r.e], r) ==>
                  r.e in RefreshPlan(m, results) && RefreshPlan(m, results)[r.e] == r.copy.tokenData.value)
  {
    var r := results[i];
    assert r in results && r.e in m;
    var found := ResultFor(results, r.e).value;
    assert found in results;
    var j :| 0 <= j < |results| && results[j] == found;
  }

  ghost predicate PlanImages(base: Image, plan: Plan, trail: seq<Image>, from: nat) {
    forall i | from <= i < |trail| :: PlanImage(base, plan, trail[i])
  }

  lemma PlanImagesNext(base: Image, plan: Plan, trail: seq<Image>, longer: seq<Image>, from: nat, img: Image)
    requires PlanImages(base, plan, trail, from) && longer in {trail, trail + [img]} && PlanImage(base, plan, img)
    ensures PlanImages(base, plan, longer, from)
  {
  }

  /** One result, taken into the books. */
  method CollectOne(m: Machine, accounts: Accounts, r: FetchResult, hasVault: bool,
                    before: map<Email, FetchOutcome>, failedSoFar: bool, changedSoFar: bool)
    returns (replaced: Option<Ref>, errors: map<Email, FetchOutcome>, storageFailed: bool, changed: bool)
    requires m.Valid() && r.e in accounts.ByEmail && FetchedFrom(accounts.ByEmail[r.e], r.copy)
    modifies m`files, m`trail, m`log, accounts`ByEmail
    ensures old(m.log) <= m.log
    ensures m.Valid() && SameBut(old(m.files), m.files, Secrets)
    ensures m.trail == old(m.trail) + [m.files] || (m.trail == old(m.trail) && m.files == old(m.files))
    ensures Books(accounts.ByEmail, VaultOf(m.files), errors, storageFailed, changed)
            == Booked(Books(old(accounts.ByEmail), VaultOf(old(m.files)), before, failedSoFar, changedSoFar), r,
                      hasVault)
    ensures replaced == None
  {
    var original := accounts.ByEmail[r.e];
    var failed, a, merged;
    replaced, failed := StoreRefreshed(m, original, r, hasVault);
    storageFailed := failedSoFar || failed;
    a, merged := MergeResult(original, r, hasVault);
    changed := changedSoFar || merged;
    accounts.ByEmail := accounts.ByEmail[r.e := a];
    errors := if r.outcome.Fetched? then before else before[r.e := r.outcome];
  }

  /** Where the collector stands after the first i results, on disk and in its books. */
  ghost predicate Collecting(base: Image, m: map<Email, Account>, results: seq<FetchResult>, hasVault: bool, i: nat,
                             b: Books, files: Image, trail: seq<Image>, from: nat) {
    && i <= |results| && b.vault == VaultOf(files)
    && PlanImage(base, RefreshPlan(m, results), files) && PlanImages(base, RefreshPlan(m, results), trail, from)
    && Agrees(b, m, VaultOf(base), results[..i], hasVault)
  }

  lemma CollectingNext(base: Image, m: map<Email, Account>, results: seq<FetchResult>, hasVault: bool, i: nat,
                       b: Books, files: Image, trail: seq<Image>, from: nat, files': Image, trail': seq<Image>)
    requires Collecting(base, m, results, hasVault, i, b, files, trail, from) && i < |results|
    requires OnePerAccount(results, m) && results[i].e in b.accounts && SameBut(files, files', Secrets)
    requires VaultOf(files') == Booked(b, results[i], hasVault).vault && trail' in {trail, trail + [files']}
    ensures Collecting(base, m, results, hasVault, i + 1, Booked(b, results[i], hasVault), files', trail', from)
  {
    BookedAgrees(b, m, VaultOf(base), results, i, hasVault);
    PlannedFor(m, results, i);
    AccountsNext(m, results, i, hasVault);
    PlanImageNext(base, RefreshPlan(m, results), files, files', results[i].e);
    PlanImagesNext(base, RefreshPlan(m, results), trail, trail', from, files');
  }

  lemma CollectingStarts(base: Image, m: map<Email, Account>, results: seq<FetchResult>, hasVault: bool,
                         trail: seq<Image>)
    ensures Collecting(base, m, results, hasVault, 0, Books(m, VaultOf(base), map[], false, false), base, trail,
                       |trail|)
  {
    assert AccountsAfter(m, [], hasVault) == m;
    NothingWritten(RefreshPlan(m, results), VaultOf(base));
  }

  lemma FetchDropsReference(b: Books, m: map<Email, Account>, vault: Vault, results: seq<FetchResult>, i: nat,
                            hasVault: bool)
    requires OnePerAccount(results, m) && i < |results| && Agrees(b, m, vault, results[..i], hasVault)
    ensures results[i].e in b.accounts && FetchedFrom(b.accounts[results[i].e], results[i].copy)
  {
    AccountsNext(m, results, i, hasVault);
    assert results[i] in results;
  }

  /**
   The collector's loop. On disk only the vault changes, by planned entries. A fetch drops the
   reference from its copy, so no replaced entry is ever listed.
   */
  method CollectResults(m: Machine, accounts: Accounts, results: seq<FetchResult>, hasVault: bool)
    returns (replaced: seq<Ref>, errors: map<Email, FetchOutcome>, storageFailed: bool, changed: bool)
    requires m.Valid() && OnePerAccount(results, accounts.ByEmail)
    modifies m`files, m`trail, m`log, accounts`ByEmail
    ensures m.Valid() && old(m.trail) <= m.trail && old(m.log) <= m.log && replaced == []
    ensures PlanImage(old(m.files), RefreshPlan(old(accounts.ByEmail), results), m.files)
    ensures PlanImages(old(m.files), RefreshPlan(old(accounts.ByEmail), results), m.trail, |old(m.trail)|)
    ensures Agrees(Books(accounts.ByEmail, VaultOf(m.files), errors, storageFailed, changed),
                   old(accounts.ByEmail), VaultOf(old(m.files)), results, hasVault)
  {
    replaced, errors, storageFailed, changed := [], map[], false, false;
    ghost var d, base, n := accounts.ByEmail, m.files, |m.trail|;
    CollectingStarts(base, d, results, hasVault, m.trail);
    for i := 0 to |results|
      invariant m.Valid() && old(m.trail) <= m.trail && old(m.log) <= m.log && replaced == []
      invariant Collecting(base, d, results, hasVault, i,
                           Books(accounts.ByEmail, VaultOf(m.files), errors, storageFailed, changed), m.files, m.trail,
                           n)
    {
      ghost var b, mid, trail :=
        Books(accounts.ByEmail, VaultOf(m.files), errors, storageFailed, changed), m.files, m.trail;
      FetchDropsReference(b, d, VaultOf(base), results, i, hasVault);
      var former;
      former, errors, storageFailed, changed :=
        CollectOne(m, accounts, results[i], hasVault, errors, storageFailed, changed);
      replaced := replaced + match former case Some(ref) => [ref] case None => [];
      CollectingNext(base, d, results, hasVault, i, b, mid, trail, n, m.files, m.trail);
    }
    assert results[..|results|] == results;
  }

  /**
   What the results do, one by one: each to its own account and vault entry, and to nothing else;
   an account has an error exactly when its result is no good read.
   */
  ghost predicate AllApplied(m: map<Email, Account>, vault: Vault, results: seq<FetchResult>, hasVault: bool,
                             b: Books) {
    && ToAccounts(m, results, hasVault, b.accounts) && ToVault(m, vault, results, hasVault, b.vault)
    && Noted(m, results, hasVault, b)
  }

  ghost predicate ToAccounts(m: map<Email, Account>, results: seq<FetchResult>, hasVault: bool,
                             now: map<Email, Account>) {
    && now.Keys == m.Keys
    && (forall r | r in results ::
          && r.e in m && NotesApplied(m[r.e].notes, r, now[r.e].notes) && TokenApplied(m[r.e], r, hasVault, now[r.e]))
    && (forall e | e in m && (forall r | r in results :: r.e != e) :: now[e] == m[e])
  }

  ghost predicate ToVault(m: map<Email, Account>, vault: Vault, results: seq<FetchResult>, hasVault: bool, now: Vault) {
    && (forall r | r in results && r.e in m ::
          hasVault && r.stored && HasNewToken(m[r.e], r) ==> Entry(now, Det(r.e)) == r.copy.tokenData)
    && (forall ref | (forall r | r in results :: ref != Det(r.e)) :: Entry(now, ref) == Entry(vault, ref))
  }

  ghost predicate Noted(m: map<Email, Account>, results: seq<FetchResult>, hasVault: bool, b: Books) {
    && (forall e :: e in b.errors <==> exists r :: r in results && r.e == e && !r.outcome.Fetched?)
    && (b.storageFailed <==> hasVault && exists r :: r in results && r.e in m && HasNewToken(m[r.e], r) && !r.reported)
    && (b.changed <==> exists r :: r in results && r.e in m && Matters(m[r.e], r))
  }

  predicate HasNewToken(original: Account, r: FetchResult) {
    r.copy.tokenData.Some? && original.tokenData != r.copy.tokenData
  }

  /** All but a failure that clears nothing changes the account. */
  predicate Matters(original: Account, r: FetchResult) {
    || HasNewToken(original, r)
    || (r.outcome != FetchOutcome.Failed(false) && (r.outcome.Failed? ==> original.notes.eligibility.Some?))
  }

  lemma AgreeingIsApplied(b: Books, m: map<Email, Account>, vault: Vault, results: seq<FetchResult>, hasVault: bool)
    requires OnePerAccount(results, m) && Agrees(b, m, vault, results, hasVault)
    ensures AllApplied(m, vault, results, hasVault, b)
  {
    AgreeingAccounts(b, m, vault, results, hasVault);
    AgreeingVault(b, m, vault, results, hasVault);
    AgreeingNotes(b, m, vault, results, hasVault);
  }

  lemma FoundAgain(m: map<Email, Account>, results: seq<FetchResult>, r: FetchResult)
    requires OnePerAccount(results, m) && r in results
    ensures r.e in m && ResultFor(results, r.e) == Some(r)
  {
    var i :| 0 <= i < |results| && results[i] == r;
    PlannedFor(m, results, i);
  }

  lemma AgreeingAccounts(b: Books, m: map<Email, Account>, vault: Vault, results: seq<FetchResult>, hasVault: bool)
    requires OnePerAccount(results, m) && Agrees(b, m, vault, results, hasVault)
    ensures ToAccounts(m, results, hasVault, b.accounts)
  {
    forall r | r in results
      ensures r.e in m && NotesApplied(m[r.e].notes, r, b.accounts[r.e].notes)
              && TokenApplied(m[r.e], r, hasVault, b.accounts[r.e])
    {
      FoundAgain(m, results, r);
      MergeApplies(m[r.e], r, hasVault);
    }
  }

  lemma AgreeingVault(b: Books, m: map<Email, Account>, vault: Vault, results: seq<FetchResult>, hasVault: bool)
    requires OnePerAccount(results, m) && Agrees(b, m, vault, results, hasVault)
    ensures ToVault(m, vault, results, hasVault, b.vault)
  {
    forall r | r in results && r.e in m
      ensures hasVault && r.stored && HasNewToken(m[r.e], r) ==> Entry(b.vault, Det(r.e)) == r.copy.tokenData
    {
      FoundAgain(m, results, r);
      assert Entry(b.vault, Det(r.e)) == EntryAfter(vault, m, results, hasVault, Det(r.e));
    }
    forall ref | forall r | r in results :: ref != Det(r.e) ensures Entry(b.vault, ref) == Entry(vault, ref) {
      assert Entry(b.vault, ref) == EntryAfter(vault, m, results, hasVault, ref);
    }
  }

  lemma AgreeingNotes(b: Books, m: map<Email, Account>, vault: Vault, results: seq<FetchResult>, hasVault: bool)
    requires OnePerAccount(results, m) && Agrees(b, m, vault, results, hasVault)
    ensures Noted(m, results, hasVault, b)
  {
    AnyIsSome(m, results);
    assert forall r | r in results && r.e in m :: Unstored(m, r) <==> HasNewToken(m[r.e], r) && !r.reported;
    assert forall r | r in results && r.e in m :: Changing(m, r) <==> Matters(m[r.e], r);
    forall e ensures e in b.errors <==> exists r :: r in results && r.e == e && !r.outcome.Fetched? {
      assert Entry(b.errors, e) == ErrorAfter(results, e);
      if r :| r in results && r.e == e && !r.outcome.Fetched? {
        FoundAgain(m, results, r);
      }
    }
  }

  lemma MergeApplies(original: Account, r: FetchResult, hasVault: bool)
    ensures NotesApplied(original.notes, r, MergedAccount(original, r, hasVault).notes)
    ensures TokenApplied(original, r, hasVault, MergedAccount(original, r, hasVault))
  {
  }

  /** What the accounts hold once the results are in: each its refreshed token, or what it held. */
  lemma RefreshRecorded(d: Doc, v: Vault, results: seq<FetchResult>, hasVault: bool, d': Doc, w: Vault)
    requires WellFormed(d) && OwnRefs(d) && OnePerAccount(results, d.byEmail)
    requires d'.order == d.order && d'.byEmail == AccountsAfter(d.byEmail, results, hasVault)
    requires forall ref :: Entry(w, ref) == EntryAfter(v, d.byEmail, results, hasVault, ref)
    ensures WellFormed(d') && OwnRefs(d')
    ensures var plan := RefreshPlan(d.byEmail, results);
            forall f :: Held(d', f, w) == if f in plan then Some(plan[f]) else Held(d, f, v)
    ensures Recorded(d, v, RefreshPlan(d.byEmail, results), d', w)
  {
    var plan := RefreshPlan(d.byEmail, results);
    forall f | f in d.byEmail
      ensures RefersToOwn(d'.byEmail[f], f)
      ensures Resolve(d'.byEmail[f], w) == if f in plan then Some(plan[f]) else Resolve(d.byEmail[f], v)
    {
      HeldAfterRefresh(d.byEmail, f, results, hasVault, v, w);
    }
  }

  /** An account's references are its own. */
  predicate RefersToOwn(a: Account, f: Email) {
    a.email == f && (a.secretRef.Some? ==> a.secretRef.value.email == f)
  }

  /** The account after one result resolves to its refreshed token if there is one. */
  lemma MergedResolves(original: Account, r: FetchResult, hasVault: bool, v: Vault)
    requires FetchedFrom(original, r.copy) && RefersToOwn(original, r.e) && (r.reported ==> r.stored)
    requires hasVault && Refreshed(original, r) && r.stored ==> Entry(v, Det(r.e)) == r.copy.tokenData
    ensures RefersToOwn(MergedAccount(original, r, hasVault), r.e)
    ensures Resolve(MergedAccount(original, r, hasVault), v)
            == if Refreshed(original, r) then r.copy.tokenData else Resolve(original, v)
  {
    if Refreshed(original, r) {
      var t := r.copy.tokenData.value;
      assert r.copy.secretRef == None && r.copy.email == r.e;
      assert PutAway(r, hasVault).secretRef in {None, Some(Det(r.e))};
    }
  }

  lemma HeldAfterRefresh(m: map<Email, Account>, f: Email, results: seq<FetchResult>, hasVault: bool, v: Vault,
                         w: Vault)
    requires OnePerAccount(results, m) && f in m && RefersToOwn(m[f], f)
    requires forall ref :: Entry(w, ref) == EntryAfter(v, m, results, hasVault, ref)
    ensures var a, plan := AccountsAfter(m, results, hasVault)[f], RefreshPlan(m, results);
            RefersToOwn(a, f) && Resolve(a, w) == if f in plan then Some(plan[f]) else Resolve(m[f], v)
  {
    var r := ResultFor(results, f);
    assert Entry(w, Det(f)) == EntryAfter(v, m, results, hasVault, Det(f));
    if r.Some? {
      assert r.value in results;
      MergedResolves(m[f], r.value, hasVault, w);
    }
    if r.None? || !Refreshed(m[f], r.value) {
      ResolvesAlike(m[f], v, w);
    }
  }

  lemma ResolvesAlike(a: Account, v: Vault, w: Vault)
    requires forall ref | ref in NamedBy(a) :: Entry(w, ref) == Entry(v, ref)
    ensures Resolve(a, w) == Resolve(a, v)
  {
    if a.secretRef.Some? {
      assert Entry(w, a.secretRef.value) == Entry(v, a.secretRef.value);
      assert Entry(w, Det(a.email)) == Entry(v, Det(a.email));
    }
  }

  lemma NothingChanged(m: map<Email, Account>, results: seq<FetchResult>, hasVault: bool)
    requires !AnyChange(m, results)
    ensures AccountsAfter(m, results, hasVault) == m
  {
    AnyIsSome(m, results);
    forall e | e in m ensures AccountsAfter(m, results, hasVault)[e] == m[e] {
      var r := ResultFor(results, e);
      if r.Some? {
        assert !Changing(m, r.value);
      }
    }
  }

  /** Each account on disk has its refreshed token, or the one d held for it. */
  ghost predicate RefreshedOnDisk(img: Image, d: Doc, v: Vault, plan: Plan) {
    forall f :: OnDisk(img, f) == if f in plan then Some(plan[f]) else Held(d, f, v)
  }

  lemma SavedKeepsVault(mid: Image, time: int, d': AccountsDoc, img: Image)
    requires SavedOrForgot(mid, time, d', [], img)
    ensures forall ref :: Entry(VaultOf(img), ref) == Entry(VaultOf(mid), ref)
  {
    if SaveStage(mid, time, d', img) {
      assert Lookup(img, Secrets) == Lookup(mid, Secrets);
    } else {
      assert Lookup(SavedImage(mid, time, d'), Secrets) == Lookup(mid, Secrets);
    }
  }

  /** The save, with no replaced entry to forget, leaves the vault and so the books alone. */
  lemma SavedRefresh(b: Books, d: Doc, base: Image, results: seq<FetchResult>, hasVault: bool, mid: Image, time: int,
                     d': AccountsDoc, img: Image)
    requires WellFormed(d) && OwnRefs(d) && OnePerAccount(results, d.byEmail) && b.vault == VaultOf(mid)
    requires Agrees(b, d.byEmail, VaultOf(base), results, hasVault)
    requires d'.order == d.order && d'.byEmail == b.accounts && SavedOrForgot(mid, time, d', [], img)
    ensures Agrees(b.(vault := VaultOf(img)), d.byEmail, VaultOf(base), results, hasVault)
    ensures AllApplied(d.byEmail, VaultOf(base), results, hasVault, b.(vault := VaultOf(img)))
    ensures Lookup(img, AccountsFile) == Some(AccountsJson(d')) ==>
              RefreshedOnDisk(img, d, VaultOf(base), RefreshPlan(d.byEmail, results))
  {
    SavedKeepsVault(mid, time, d', img);
    RefreshRecorded(d, VaultOf(base), results, hasVault, d', VaultOf(img));
    AgreeingIsApplied(b.(vault := VaultOf(img)), d.byEmail, VaultOf(base), results, hasVault);
  }

  /**
   The whole collector: it takes the results, saves the accounts if anything changed, and then
   forgets the replaced entries, of which there are none. At every point of it each account on
   disk has its old token or the refreshed one, or, if the accounts in memory carried other
   edits or were let through over another file, the one memory held for it.
   */
  method CollectAndSave(m: Machine, accounts: Accounts, results: seq<FetchResult>, hasVault: bool)
    returns (errors: map<Email, FetchOutcome>, storageFailed: bool, r: Option<SaveResult>)
    requires m.Valid() && WellFormed(accounts.Contents()) && OwnRefs(accounts.Contents()) && OwnRefsOnDisk(m.files)
    requires OnePerAccount(results, accounts.ByEmail)
    modifies m, accounts
    ensures m.Valid() && old(m.trail) <= m.trail && old(m.log) <= m.log
    ensures CollectorEnd(old(m.files), old(accounts.Contents()), results, hasVault,
                         old(FromLoad(m.files, m.mtime, accounts.revision, accounts.revisionHash, accounts.Contents())),
                         accounts.Contents(), m.files, m.trail, |old(m.trail)|,
                         Books(accounts.ByEmail, VaultOf(m.files), errors, storageFailed, r.Some?), r)
    ensures AllWorked(m.log, |old(m.log)|) ==>
              r in {None, Some(SaveOutcome(accounts.Contents(), old(SaveStands(accounts, m))))}
  {
    ghost var d: AccountsDoc, base, n, l := accounts.Contents(), m.files, |m.trail|, |m.log|;
    ghost var current := FromLoad(base, m.mtime, accounts.revision, accounts.revisionHash, d);
    ghost var plan := RefreshPlan(accounts.ByEmail, results);
    var replaced, changed;
    replaced, errors, storageFailed, changed := CollectResults(m, accounts, results, hasVault);
    PlanImagesKept(base, plan, m.trail, n, d, current);
    r := None;
    if !changed {
      NothingEnds(base, d, results, hasVault, current, m.files, m.trail, n,
                  Books(accounts.ByEmail, VaultOf(m.files), errors, storageFailed, false));
      return;
    }
    assert Lookup(m.files, AccountsFile) == Lookup(base, AccountsFile);
    ghost var log := m.log;
    var result := SaveRefreshed(m, accounts, replaced, results, hasVault, d, base, n, current,
                                Books(accounts.ByEmail, VaultOf(m.files), errors, storageFailed, changed));
    WorkedBefore(log, m.log, l, |log|);
    r := Some(result);
  }

  /** How the collector ends that began on `base` with the accounts d in memory. */
  ghost predicate CollectorEnd(base: Image, d: Doc, results: seq<FetchResult>, hasVault: bool, current: bool, now: Doc,
                               files: Image, trail: seq<Image>, n: nat, b: Books, r: Option<SaveResult>) {
    && AlwaysKept(base, trail, n, RefreshPlan(d.byEmail, results), d, current)
    && Agrees(b, d.byEmail, VaultOf(base), results, hasVault)
    && AllApplied(d.byEmail, VaultOf(base), results, hasVault, b)
    && (r == Some(Saved) ==>
          && Decoded(Lookup(files, AccountsFile)) == Some(now)
          && RefreshedOnDisk(files, d, VaultOf(base), RefreshPlan(d.byEmail, results)))
    && (r == None ==> now == d)
  }

  lemma NothingEnds(base: Image, d: AccountsDoc, results: seq<FetchResult>, hasVault: bool, current: bool,
                    files: Image, trail: seq<Image>, n: nat, b: Books)
    requires OnePerAccount(results, d.byEmail) && !b.changed
    requires AlwaysKept(base, trail, n, RefreshPlan(d.byEmail, results), d, current)
    requires Agrees(b, d.byEmail, VaultOf(base), results, hasVault)
    ensures b.accounts == d.byEmail && CollectorEnd(base, d, results, hasVault, current, d, files, trail, n, b, None)
  {
    NothingChanged(d.byEmail, results, hasVault);
    AgreeingIsApplied(b, d.byEmail, VaultOf(base), results, hasVault);
  }

  /** The save at the end. */
  method SaveRefreshed(m: Machine, accounts: Accounts, replaced: seq<Ref>, ghost results: seq<FetchResult>,
                       ghost hasVault: bool, ghost d: AccountsDoc, ghost base: Image, ghost n: nat,
                       ghost current: bool, ghost b: Books)
    returns (result: SaveResult)
    requires m.Valid() && OwnRefs(d) && OwnRefsOnDisk(base) && OnePerAccount(results, d.byEmail) && replaced == []
    requires accounts.Order == d.order && b.accounts == accounts.ByEmail && b.vault == VaultOf(m.files)
    requires Agrees(b, d.byEmail, VaultOf(base), results, hasVault)
    requires PlanImage(base, RefreshPlan(d.byEmail, results), m.files)
    requires AlwaysKept(base, m.trail, n, RefreshPlan(d.byEmail, results), d, current)
    requires current == FromLoad(m.files, m.mtime, accounts.revision, accounts.revisionHash, d)
    modifies m, accounts`revision, accounts`revisionHash
    ensures m.Valid() && old(m.trail) <= m.trail && old(m.log) <= m.log
    ensures CollectorEnd(base, d, results, hasVault, current, accounts.Contents(), m.files, m.trail, n,
                         b.(vault := VaultOf(m.files)), Some(result))
    ensures AllWorked(m.log, |old(m.log)|) ==>
              result == SaveOutcome(accounts.Contents(), old(SaveStands(accounts, m)))
  {
    ghost var trail, d', mid, time := m.trail, accounts.Contents(), m.files, m.mtime;
    RefreshRecorded(d, VaultOf(base), results, hasVault, d', VaultOf(mid));
    result := SaveWritten(m, accounts, replaced, base, d, RefreshPlan(d.byEmail, results));
    AlwaysKeptOn(base, trail, m.trail, n, RefreshPlan(d.byEmail, results), d, current);
    SavedRefresh(b, d, base, results, hasVault, mid, time, d', m.files);
  }

  lemma PlanImagesKept(base: Image, plan: Plan, trail: seq<Image>, from: nat, d: Doc, current: bool)
    requires OwnRefsOnDisk(base) && PlanImages(base, plan, trail, from)
    ensures AlwaysKept(base, trail, from, plan, d, current)
  {
    forall i | from <= i < |trail| ensures TokensKept(base, trail[i], plan, d, current) {
      PlanImageResolves(base, plan, trail[i], d);
    }
  }

  // ----- independence of the schedule -----

  predicate Covered(results: seq<FetchResult>, collected: seq<nat>) {
    forall k | 0 <= k < |collected| :: collected[k] < |results|
  }

  /** The results in the order the collector saw them. */
  function Arrived(results: seq<FetchResult>, collected: seq<nat>): seq<FetchResult>
    requires Covered(results, collected)
  {
    seq(|collected|, k requires 0 <= k < |collected| => results[collected[k]])
  }

  lemma CollectedAll(n: nat, collected: seq<nat>, i: nat)
    requires multiset(collected) == UpTo(n)
    ensures i in collected <==> i < n
  {
    assert i in collected <==> i in multiset(collected);
  }

  /** In whatever order everything arrives once, an account's result is the one fetched for it. */
  lemma ArrivalOrderIsForgotten(results: seq<FetchResult>, collected: seq<nat>, e: Email)
    requires forall i, j | 0 <= i < j < |results| :: results[i].e != results[j].e
    requires multiset(collected) == UpTo(|results|)
    ensures Covered(results, collected)
    ensures ResultFor(Arrived(results, collected), e) == ResultFor(results, e)
  {
    forall k | 0 <= k < |collected| ensures collected[k] < |results| {
      CollectedAll(|results|, collected, collected[k]);
    }
    var arrived := Arrived(results, collected);
    forall r | r in results ensures r in arrived {
      var i: nat :| i < |results| && results[i] == r;
      CollectedAll(|results|, collected, i);
      var k :| 0 <= k < |collected| && collected[k] == i;
      assert arrived[k] == r;
    }
    assert forall k | 0 <= k < |arrived| :: arrived[k] in results;
    var a, b := ResultFor(arrived, e), ResultFor(results, e);
    if a.Some? && b.Some? {
      assert a.value in results && b.value in results;
    }
  }

  /**
   The refresh does not depend on the schedule: for any two finished runs of the pool, with
   up to eight workers, every picked account was collected exactly once, and the accounts,
   the vault, the errors, the storage failure and the change flag the collector ends with are
   the same.
   */
  lemma RefreshIsScheduleIndependent(results: seq<FetchResult>, m: map<Email, Account>, vault: Vault, hasVault: bool,
                                     one: seq<Move>, other: seq<Move>)
    requires OnePerAccount(results, m)
    requires Play(Start(|results|), one).Some? && Finished(Play(Start(|results|), one).value)
    requires Play(Start(|results|), other).Some? && Finished(Play(Start(|results|), other).value)
    ensures var c, d := Play(Start(|results|), one).value.collected, Play(Start(|results|), other).value.collected;
            && multiset(c) == UpTo(|results|) == multiset(d)
            && Covered(results, c) && Covered(results, d)
            && AccountsAfter(m, Arrived(results, c), hasVault) == AccountsAfter(m, Arrived(results, d), hasVault)
            && (forall ref ::
                  EntryAfter(vault, m, Arrived(results, c), hasVault, ref)
                  == EntryAfter(vault, m, Arrived(results, d), hasVault, ref))
            && (forall e :: ErrorAfter(Arrived(results, c), e) == ErrorAfter(Arrived(results, d), e))
            && (AnyChange(m, Arrived(results, c)) <==> AnyChange(m, Arrived(results, d)))
            && (AnyUnstored(m, Arrived(results, c)) <==> AnyUnstored(m, Arrived(results, d)))
  {
    PlayKeepsPool(|results|, one);
    PlayKeepsPool(|results|, other);
    FinishedSawEverything(Play(Start(|results|), one).value);
    FinishedSawEverything(Play(Start(|results|), other).value);
    var c, d := Play(Start(|results|), one).value.collected, Play(Start(|results|), other).value.collected;
    SameInAnyOrder(results, c, d);
    SameResults(m, vault, hasVault, Arrived(results, c), Arrived(results, d));
    SameMembers(m, results, c);
    SameMembers(m, results, d);
  }

  lemma SameMembers(m: map<Email, Account>, results: seq<FetchResult>, c: seq<nat>)
    requires multiset(c) == UpTo(|results|) && Covered(results, c)
    ensures AnyChange(m, Arrived(results, c)) <==> AnyChange(m, results)
    ensures AnyUnstored(m, Arrived(results, c)) <==> AnyUnstored(m, results)
  {
    var arrived := Arrived(results, c);
    forall r | r in results ensures r in arrived {
      var i: nat :| i < |results| && results[i] == r;
      CollectedAll(|results|, c, i);
      var k :| 0 <= k < |c| && c[k] == i;
      assert arrived[k] == r;
    }
    assert forall k | 0 <= k < |arrived| :: arrived[k] in results;
    AnyIsSome(m, results);
    AnyIsSome(m, arrived);
  }

  lemma SameInAnyOrder(results: seq<FetchResult>, c: seq<nat>, d: seq<nat>)
    requires forall i, j | 0 <= i < j < |results| :: results[i].e != results[j].e
    requires multiset(c) == UpTo(|results|) == multiset(d)
    ensures Covered(results, c) && Covered(results, d)
    ensures forall e :: ResultFor(Arrived(results, c), e) == ResultFor(Arrived(results, d), e)
  {
    ArrivalOrderIsForgotten(results, c, Email(""));
    ArrivalOrderIsForgotten(results, d, Email(""));
    forall e ensures ResultFor(Arrived(results, c), e) == ResultFor(Arrived(results, d), e) {
      ArrivalOrderIsForgotten(results, c, e);
      ArrivalOrderIsForgotten(results, d, e);
    }
  }

  lemma SameResults(m: map<Email, Account>, vault: Vault, hasVault: bool, a: seq<FetchResult>, b: seq<FetchResult>)
    requires forall e :: ResultFor(a, e) == ResultFor(b, e)
    ensures AccountsAfter(m, a, hasVault) == AccountsAfter(m, b, hasVault)
    ensures forall ref :: EntryAfter(vault, m, a, hasVault, ref) == EntryAfter(vault, m, b, hasVault, ref)
    ensures forall e :: ErrorAfter(a, e) == ErrorAfter(b, e)
  {
  }

  /**
   The collector copies four of the five token fields back: the recorded refresh hash
   follows a refreshed token exactly when the refresh token is the one already recorded.
   */
  lemma RefreshHashFollowsIff(original: Account, r: FetchResult, hasVault: bool)
    requires Refreshed(original, r)
    ensures var a, t := MergedAccount(original, r, hasVault), r.copy.tokenData.value;
            && a.tokenHash == Some(t) && a.expiresAt == Remembering(original, t).expiresAt
            && (a.refreshHash == Remembering(original, t).refreshHash
                <==> original.refreshHash == (if RefreshOf(t) != "" then Some(RefreshOf(t)) else None))
  {
  }

  // ----- two refreshes that go wrong -----

  const OLD_ACCOUNT := InVault(LOADED, FIRST_TOKEN)
  const ROTATED := Token(true, "3", "q", None, None, 0)
  const ROTATION := FetchResult(BOB, Remembering(OLD_ACCOUNT, ROTATED).(tokenHash := OLD_ACCOUNT.tokenHash,
                                                                        secretRef := None, tokenData := Some(ROTATED)),
                                Fetched(0), true, true)

  /** A fetch that brings a new refresh token: the account keeps the hash of the old one. */
  lemma RefreshHashStaysBehind(hasVault: bool)
    ensures OnePerAccount([ROTATION], map[BOB := OLD_ACCOUNT]) && Refreshed(OLD_ACCOUNT, ROTATION)
    ensures var a := MergedAccount(OLD_ACCOUNT, ROTATION, hasVault);
            a.tokenHash == Some(ROTATED) && a.refreshHash == Some("r") != Some(RefreshOf(ROTATED))
  {
    assert "r"[0] != "q"[0];
    assert FIRST_TOKEN.access[0] != ROTATED.access[0];
  }

  /**
   A stale refresh can lose a token: while it was fetching, the account was signed in again and
   another process saved it, with the new session under the same reference. The refreshed token
   of the old session overwrites that entry, and the save after it is refused.
   */
  lemma StaleRefreshLosesToken(time: int, now: int)
    requires now != 0
    ensures var d: Doc, later: Doc := Doc([BOB], map[BOB := OLD_ACCOUNT]), Doc([BOB], map[BOB := RESAVED]);
            && WellFormed(d) && WellFormed(later) && OwnRefs(d) && OwnRefs(later)
            && OnePerAccount([ROTATION], d.byEmail)
            && var v, w := map[Det(BOB) := SECOND_TOKEN], map[Det(BOB) := ROTATED];
            && (forall ref :: Entry(w, ref) == EntryAfter(v, d.byEmail, [ROTATION], true, ref))
            && !SaveAllowed(time, HashOf(Some(AccountsJson(d))), Some(AccountsJson(later)), now)
            && Resolve(later.byEmail[BOB], v) == Some(SECOND_TOKEN)
            && Resolve(later.byEmail[BOB], w) == Some(ROTATED)
  {
    RefreshHashStaysBehind(true);
    var d: Doc, later: Doc := Doc([BOB], map[BOB := OLD_ACCOUNT]), Doc([BOB], map[BOB := RESAVED]);
    assert FIRST_TOKEN.access[0] != SECOND_TOKEN.access[0];
    assert d.byEmail[BOB] != later.byEmail[BOB];
    assert ResultFor([ROTATION], BOB) == Some(ROTATION);
  }
}
