/**
 Importing a backup and recovering an interrupted import
 (internal/app/backup_service.go, internal/store/atomic.go).
 */
module Import {
  import opened Model
  import opened Durable
  import opened Store
  import opened Merge
  import opened RestoreProtocol

  // ----- reading a backup -----

  datatype SettingsSection = Absent | NullObject | Malformed | Given(settings: Settings)

  /** A backup file once decrypted; None where it cannot be read, decrypted or decoded. */
  datatype BackupDocument = BackupDocument(encrypted: bool, schema: int,
                                           accounts: Option<AccountsDoc>, settings: SettingsSection)

  datatype BackupContents = BackupContents(accounts: AccountsDoc, settings: Option<Settings>)

  const STATE_SCHEMA := 1

  /** No vault reference of a backup is trusted, and plaintext backups bring no token. */
  ghost predicate Trusted(d: Doc) {
    forall e | e in d.byEmail :: d.byEmail[e].secretRef == None
  }

  /** The loop over the decoded accounts: drop every vault reference, refuse a token that cannot be trusted. */
  method StripBackup(file: BackupDocument, d: AccountsDoc) returns (r: Option<Doc>)
    ensures r.Some? ==>
              && WellFormed(r.value) && r.value.order == d.order
              && forall e | e in d.byEmail :: r.value.byEmail[e] == d.byEmail[e].(secretRef := None)
    ensures r.None? <==> exists e :: e in d.byEmail && Untrusted(file, d.byEmail[e])
  {
    var accounts := new Accounts(d, 0, None);
    for i := 0 to |d.order|
      invariant accounts.Order == d.order && accounts.ByEmail.Keys == d.byEmail.Keys
      invariant StrippedTo(file, d, i, accounts.ByEmail)
    {
      var e := d.order[i];
      assert e in d.byEmail && e !in d.order[..i];
      var account := accounts.ByEmail[e].(secretRef := None);
      StripOne(file, d, i, accounts.ByEmail);
      accounts.Set(e, account);
      if Untrusted(file, account) {
        return None;
      }
    }
    assert d.order[..|d.order|] == d.order;
    return Some(accounts.Contents());
  }

  /** The first i accounts can be trusted and have lost their references. */
  ghost predicate StrippedTo(file: BackupDocument, d: AccountsDoc, i: nat, m: map<Email, Account>)
    requires i <= |d.order| && m.Keys == d.byEmail.Keys
  {
    && (forall e | e in d.byEmail ::
          m[e] == if e in d.order[..i] then d.byEmail[e].(secretRef := None) else d.byEmail[e])
    && forall e | e in d.order[..i] :: !Untrusted(file, d.byEmail[e])
  }

  lemma StripOne(file: BackupDocument, d: AccountsDoc, i: nat, m: map<Email, Account>)
    requires i < |d.order| && m.Keys == d.byEmail.Keys && StrippedTo(file, d, i, m)
    ensures var e := d.order[i];
            && e in m && m[e] == d.byEmail[e]
            && (Untrusted(file, m[e].(secretRef := None)) <==> Untrusted(file, d.byEmail[e]))
            && (!Untrusted(file, d.byEmail[e]) ==> StrippedTo(file, d, i + 1, m[e := m[e].(secretRef := None)]))
  {
    assert d.order[..i + 1] == d.order[..i] + [d.order[i]];
    assert d.order[i] in d.order && d.order[i] !in d.order[..i];
  }

  method ReadBackup(file: Option<BackupDocument>) returns (r: Option<BackupContents>)
    ensures r.Some? ==> file.Some? && file.value.accounts.Some? && Trusted(r.value.accounts)
    ensures r.Some? ==> var d, c := file.value.accounts.value, r.value.accounts;
              && c.order == d.order && c.byEmail.Keys == d.byEmail.Keys
              && (forall e | e in d.byEmail :: c.byEmail[e] == d.byEmail[e].(secretRef := None))
              && (r.value.settings == match file.value.settings case Given(s) => Some(s) case _ => None)
    ensures r.None? <==>
              || file.None? || file.value.schema != 1 || file.value.accounts.None?
              || file.value.settings in {NullObject, Malformed}
              || exists e :: e in file.value.accounts.value.byEmail
                             && var t := file.value.accounts.value.byEmail[e].tokenData;
                                t.Some? && (!file.value.encrypted || !t.value.wrapped || t.value.access == "")
  {
    if file.None? || file.value.schema != STATE_SCHEMA || file.value.accounts.None? {
      return None;
    }
    var kept := StripBackup(file.value, file.value.accounts.value);
    if kept == None {
      return None;
    }
    match file.value.settings
    case NullObject => return None;
    case Malformed => return None;
    case Absent => return Some(BackupContents(kept.value, None));
    case Given(s) => return Some(BackupContents(kept.value, Some(s)));
  }

  /** A token in a plaintext backup, or one that is no usable credential. */
  predicate Untrusted(file: BackupDocument, a: Account) {
    a.tokenData.Some? && (!file.encrypted || !a.tokenData.value.wrapped || a.tokenData.value.access == "")
  }

  // ----- snapshots -----

  type FileSnapshot = map<Path, Option<Content>>

  ghost predicate OneOf(a: Image, b: Image, paths: set<Path>) {
    exists p | p in paths :: SameBut(a, b, p)
  }

  ghost predicate Within(trail: seq<Image>, from: nat, paths: set<Path>) {
    forall i, j {:trigger trail[i], trail[j]} | from <= i < |trail| - 1 && j == i + 1 ::
        OneOf(trail[i], trail[j], paths)
  }

  /** Each cell of img is that of base, or already restored. */
  ghost predicate Restoring(base: Image, snapshot: FileSnapshot, img: Image) {
    forall p :: Lookup(img, p) == Lookup(base, p) || (p in snapshot && Lookup(img, p) == snapshot[p])
  }

  /** One file of a snapshot: written back, or removed if there was none. */
  method RestoreFile(m: Machine, path: Path, data: Option<Content>) returns (ok: bool)
    requires m.Valid()
    modifies m
    ensures m.Valid() && m.trail == old(m.trail) + [m.files]
    ensures SameBut(old(m.files), m.files, path)
    ensures Lookup(m.files, path) == data || (!ok && Lookup(m.files, path) == Lookup(old(m.files), path))
    ensures m.log == old(m.log) + [Op(path, data, ok)]
  {
    match data
    case None => ok := m.Remove(path);
    case Some(d) => ok := m.AtomicWrite(path, d);
  }

  /** RestoreFiles: in map order, which Go leaves open; goes on after a failure. */
  method RestoreFiles(m: Machine, snapshot: FileSnapshot) returns (ok: bool)
    requires m.Valid()
    modifies m
    ensures m.Valid() && old(m.trail) <= m.trail
    ensures Within(m.trail, |old(m.trail)| - 1, snapshot.Keys)
    ensures forall i | |old(m.trail)| <= i < |m.trail| :: Restoring(old(m.files), snapshot, m.trail[i])
    ensures Restoring(old(m.files), snapshot, m.files)
    ensures ok ==> forall p | p in snapshot :: Lookup(m.files, p) == snapshot[p]
    ensures old(m.log) <= m.log
    ensures forall p | p in snapshot ::
              Lookup(m.files, p) == snapshot[p] || WriteFailed(m.log, |old(m.log)|, p, snapshot[p])
    ensures AllRead(m.log, |old(m.log)|) && (AllWorked(m.log, |old(m.log)|) ==> ok)
  {
    ok := true;
    ghost var base, n, l := m.files, |m.trail|, |m.log|;
    var todo := snapshot.Keys;
    while todo != {}
      invariant m.Valid() && old(m.trail) <= m.trail && todo <= snapshot.Keys
      invariant Within(m.trail, n - 1, snapshot.Keys)
      invariant forall i | n <= i < |m.trail| :: Restoring(base, snapshot, m.trail[i])
      invariant Restoring(base, snapshot, m.files)
      invariant old(m.log) <= m.log && AllRead(m.log, l)
      invariant forall p | p in snapshot && p !in todo ::
                  Lookup(m.files, p) == snapshot[p] || WriteFailed(m.log, l, p, snapshot[p])
      invariant ok ==> forall p | p in snapshot && p !in todo :: Lookup(m.files, p) == snapshot[p]
      invariant AllWorked(m.log, l) ==> ok
    {
      var path :| path in todo;
      todo := todo - {path};
      ghost var before, trail, log := m.files, m.trail, m.log;
      var written := RestoreFile(m, path, snapshot[path]);
      assert m.log[|log|] == Op(path, snapshot[path], written);
      forall p | p in snapshot && p !in todo
        ensures Lookup(m.files, p) == snapshot[p] || WriteFailed(m.log, l, p, snapshot[p])
      {
        if p != path && WriteFailed(log, l, p, snapshot[p]) {
          WriteFailedSince(log, m.log, l, l, p, snapshot[p]);
        }
      }
      assert Restoring(base, snapshot, m.files) by {
        forall p ensures Lookup(m.files, p) == Lookup(base, p) || (p in snapshot && Lookup(m.files, p) == snapshot[p]) {
          assert p != path ==> Lookup(m.files, p) == Lookup(before, p);
        }
      }
      ExtendWithin(trail, n - 1, snapshot.Keys, m.files, path);
      WorkedBefore(log, m.log, l, l);
      ok := ok && written;
    }
  }

  lemma ExtendWithin(trail: seq<Image>, from: nat, paths: set<Path>, img: Image, path: Path)
    requires from < |trail| && Within(trail, from, paths)
    requires path in paths && SameBut(trail[|trail| - 1], img, path)
    ensures Within(trail + [img], from, paths)
  {
    var t := trail + [img];
    forall i {:trigger t[i]} | from <= i < |t| - 1 ensures OneOf(t[i], t[i + 1], paths) {
      if i < |trail| - 1 {
        assert t[i] == trail[i] && t[i + 1] == trail[i + 1];
      }
    }
  }

  /** SnapshotFiles. */
  method SnapshotFiles(m: Machine, paths: seq<Path>) returns (ok: bool, snapshot: FileSnapshot)
    requires m.Valid()
    modifies m`log
    ensures m.Valid() && old(m.log) <= m.log && (AllWorked(m.log, |old(m.log)|) ==> ok) && (ok ==> m.log == old(m.log))
    ensures ok ==> snapshot.Keys == (set p | p in paths) && forall p | p in paths :: snapshot[p] == Lookup(m.files, p)
  {
    ok, snapshot := true, map[];
    for i := 0 to |paths|
      invariant m.Valid() && m.log == old(m.log)
      invariant ok ==> snapshot.Keys == (set p | p in paths[..i]) && forall p | p in paths[..i] ::
                snapshot[p] == Lookup(m.files, p)
    {
      var readOk, data := m.Read(paths[i]);
      if !readOk {
        return false, map[];
      }
      assert paths[..i + 1] == paths[..i] + [paths[i]];
      snapshot := snapshot[paths[i] := data];
    }
    assert paths[..|paths|] == paths;
  }

  // ----- recovery -----

  /** The files an import changes, besides the vault and the journal. */
  const IMPORTED := {AccountsFile, BackupFile, SettingsFile}

  /** The part of a machine's trail since it was `from` images long, with the image it began on. */
  ghost function Since(trail: seq<Image>, from: nat): seq<Image>
    requires 0 < from <= |trail|
  {
    trail[from - 1..]
  }

  predicate SessionKept(a: Image, b: Image) {
    && Lookup(a, CliToken) == Lookup(b, CliToken) && Lookup(a, IdeToken) == Lookup(b, IdeToken)
    && Lookup(a, JetskiToken) == Lookup(b, JetskiToken) && Lookup(a, OAuthCreds) == Lookup(b, OAuthCreds)
    && Lookup(a, GoogleAccounts) == Lookup(b, GoogleAccounts) && Lookup(a, Keyring) == Lookup(b, Keyring)
  }

  /** The three files as the journal has them. */
  function SnapshotOf(journal: Journal): FileSnapshot {
    map[AccountsFile := journal.accounts, BackupFile := journal.backup, SettingsFile := journal.settings]
  }

  /** Each of the three files is as in base or as kept, and the vault is that of base. */
  ghost predicate PartlyRestored(base: Image, kept: Triple, img: Image) {
    && Lookup(img, AccountsFile) in {Lookup(base, AccountsFile), kept.accounts}
    && Lookup(img, BackupFile) in {Lookup(base, BackupFile), kept.backup}
    && Lookup(img, SettingsFile) in {Lookup(base, SettingsFile), kept.settings}
    && VaultOf(img) == VaultOf(base)
  }

  lemma RestoringIsPartial(base: Image, journal: Journal, img: Image)
    requires Restoring(base, SnapshotOf(journal), img)
    ensures PartlyRestored(base, Kept(journal), img)
  {
    assert Lookup(img, Secrets) == Lookup(base, Secrets);
  }

  /** restoreSnapshot, of an uncommitted journal that is on disk. */
  method RestoreSnapshot(m: Machine, journal: Journal) returns (ok: bool)
    requires m.Valid()
    modifies m
    ensures m.Valid() && old(m.trail) <= m.trail
    ensures old(JournalOf(m.files)) == Some(journal) && !journal.committed ==>
              && Run(Since(m.trail, |old(m.trail)|))
              && forall i | |old(m.trail)| <= i < |m.trail| :: JournalOf(m.trail[i]) == Some(journal)
    ensures forall p | p !in IMPORTED :: Lookup(m.files, p) == Lookup(old(m.files), p)
    ensures forall i | |old(m.trail)| <= i < |m.trail| :: PartlyRestored(old(m.files), Kept(journal), m.trail[i])
    ensures PartlyRestored(old(m.files), Kept(journal), m.files)
    ensures ok ==> TripleOf(m.files) == Kept(journal)
    ensures old(m.log) <= m.log && (AllWorked(m.log, |old(m.log)|) ==> ok)
  {
    ghost var base, n := m.files, |m.trail|;
    ok := RestoreFiles(m, SnapshotOf(journal));
    forall i | n <= i < |m.trail| ensures PartlyRestored(base, Kept(journal), m.trail[i]) {
      RestoringIsPartial(base, journal, m.trail[i]);
    }
    RestoringIsPartial(base, journal, m.files);
    if JournalOf(base) == Some(journal) && !journal.committed {
      JournalKept(base, m.trail, n, journal);
      RewritesRun(m.trail, n, journal);
    }
  }

  lemma JournalKept(base: Image, trail: seq<Image>, n: nat, journal: Journal)
    requires 0 < n <= |trail| && trail[n - 1] == base && JournalOf(base) == Some(journal)
    requires forall i | n <= i < |trail| :: Restoring(base, SnapshotOf(journal), trail[i])
    ensures forall i | n - 1 <= i < |trail| :: JournalOf(trail[i]) == Some(journal)
  {
    forall i | n - 1 <= i < |trail| ensures JournalOf(trail[i]) == Some(journal) {
      assert Lookup(trail[i], JournalFile) == Lookup(base, JournalFile);
    }
  }

  /** Writes to the three files under an uncommitted journal are a run. */
  lemma RewritesRun(trail: seq<Image>, n: nat, journal: Journal)
    requires 0 < n <= |trail| && Within(trail, n - 1, IMPORTED) && !journal.committed
    requires forall i | n - 1 <= i < |trail| :: JournalOf(trail[i]) == Some(journal)
    ensures Run(Since(trail, n))
  {
    var r := Since(trail, n);
    forall i {:trigger r[i]} | 0 <= i < |r| - 1 ensures Step(r[i], r[i + 1]) {
      var k := n - 1 + i;
      assert r[i] == trail[k] && r[i + 1] == trail[k + 1];
      assert Rewrites(r[i], r[i + 1]);
    }
  }

  /** The vault and the session are the same. */
  predicate Untouched(a: Image, b: Image) { VaultOf(a) == VaultOf(b) && SessionKept(a, b) }

  lemma UntouchedElsewhere(a: Image, b: Image)
    requires forall p | p !in IMPORTED && p != JournalFile :: Lookup(b, p) == Lookup(a, p)
    ensures Untouched(a, b)
  {
    assert Lookup(b, Secrets) == Lookup(a, Secrets);
  }

  /** Forget a journal that is no longer needed. */
  method ClearJournal(m: Machine) returns (ok: bool)
    requires m.Valid()
    requires Committed(m.files) || (Pending(m.files) && TripleOf(m.files) == Kept(JournalOf(m.files).value))
    modifies m`files, m`trail, m`log
    ensures m.Valid() && m.trail == old(m.trail) + [m.files] && Step(old(m.files), m.files) && old(m.log) <= m.log
    ensures Untouched(old(m.files), m.files) && TripleOf(m.files) == TripleOf(old(m.files))
    ensures Recovered(m.files) == Recovered(old(m.files))
    ensures ok ==> Quiet(m.files)
    ensures AllWorked(m.log, |old(m.log)|) ==> ok
  {
    ghost var before := m.files;
    ok := m.Remove(JournalFile);
    assert ok ==> Clears(before, m.files);
    UntouchedElsewhere(before, m.files);
  }

  /** Put the journalled files back; the journal stays. */
  method UndoImport(m: Machine, journal: Journal) returns (ok: bool)
    requires m.Valid() && JournalOf(m.files) == Some(journal) && !journal.committed
    modifies m
    ensures m.Valid() && old(m.trail) <= m.trail
    ensures Run(Since(m.trail, |old(m.trail)|)) && Untouched(old(m.files), m.files)
    ensures forall i | |old(m.trail)| <= i < |m.trail| :: Recovered(m.trail[i]) == Kept(journal)
    ensures JournalOf(m.files) == Some(journal)
    ensures ok ==> TripleOf(m.files) == Kept(journal)
    ensures old(m.log) <= m.log && (AllWorked(m.log, |old(m.log)|) ==> ok)
  {
    ghost var base := m.files;
    ok := RestoreSnapshot(m, journal);
    UntouchedElsewhere(base, m.files);
    assert Lookup(m.files, JournalFile) == Lookup(base, JournalFile);
  }

  /** Undo the import of the journal on disk unless it was committed, then forget the journal. */
  method RecoverFrom(m: Machine, journal: Journal) returns (ok: bool)
    requires m.Valid() && JournalOf(m.files) == Some(journal)
    modifies m
    ensures m.Valid() && old(m.trail) <= m.trail
    ensures Run(Since(m.trail, |old(m.trail)|)) && Untouched(old(m.files), m.files)
    ensures forall i | |old(m.trail)| <= i < |m.trail| :: Recovered(m.trail[i]) == Recovered(old(m.files))
    ensures Recovered(m.files) == Recovered(old(m.files))
    ensures ok ==> Quiet(m.files) && TripleOf(m.files) == Recovered(old(m.files))
    ensures old(m.log) <= m.log && (AllWorked(m.log, |old(m.log)|) ==> ok)
  {
    ghost var n, l := |m.trail|, |m.log|;
    if !journal.committed {
      var restored := UndoImport(m, journal);
      if !restored {
        return false;
      }
    }
    ghost var mid, trail, log := m.files, m.trail, m.log;
    assert Recovered(mid) == TripleOf(mid) == Recovered(old(m.files));
    ok := ClearJournal(m);
    WorkedBefore(log, m.log, l, |log|);
    RunAppend(trail, n, m.files);
    forall i | n <= i < |m.trail| ensures Recovered(m.trail[i]) == Recovered(old(m.files)) {
      if i < |trail| {
        assert m.trail[i] == trail[i];
      }
    }
  }

  /** recoverRestoreUnlocked. */
  method RecoverRestoreUnlocked(m: Machine) returns (ok: bool)
    requires m.Valid()
    modifies m
    ensures m.Valid() && old(m.trail) <= m.trail
    ensures Run(Since(m.trail, |old(m.trail)|)) && Untouched(old(m.files), m.files)
    ensures forall i | |old(m.trail)| <= i < |m.trail| :: Recovered(m.trail[i]) == Recovered(old(m.files))
    ensures Recovered(m.files) == Recovered(old(m.files))
    ensures ok ==> Quiet(m.files) && TripleOf(m.files) == Recovered(old(m.files))
    ensures old(Quiet(m.files)) ==> m.files == old(m.files) && m.mtime == old(m.mtime) && m.trail == old(m.trail)
    ensures old(m.log) <= m.log
    ensures AllWorked(m.log, |old(m.log)|) ==> (ok <==> old(Quiet(m.files) || JournalOf(m.files).Some?))
  {
    var readOk, data := m.Read(JournalFile);
    if readOk && data == None {
      return true;
    }
    if !readOk || !data.value.JournalJson? {
      return false;
    }
    ok := RecoverFrom(m, data.value.journal);
  }

  // ----- import -----

  lemma RunAppend(trail: seq<Image>, from: nat, img: Image)
    requires 0 < from <= |trail| && Run(Since(trail, from)) && Step(trail[|trail| - 1], img)
    ensures Run(Since(trail + [img], from))
  {
    var r, t := Since(trail, from), Since(trail + [img], from);
    assert t == r + [img];
    forall i {:trigger t[i]} | 0 <= i < |t| - 1 ensures Step(t[i], t[i + 1]) {
      if i < |r| - 1 {
        assert t[i] == r[i] && t[i + 1] == r[i + 1];
      }
    }
  }

  lemma RunJoin(trail: seq<Image>, from: nat, mid: nat)
    requires 0 < from <= mid <= |trail|
    requires Run(Since(trail[..mid], from)) && Run(Since(trail, mid))
    ensures Run(Since(trail, from))
  {
    var r, s := Since(trail[..mid], from), Since(trail, mid);
    assert Since(trail, from) == r + s[1..];
    if |s| > 1 {
      RunTail(s);
      assert Step(s[0], s[1]);
      RunPlus(r, s[1..]);
    } else {
      assert r + s[1..] == r;
    }
  }

  lemma RunTail(s: seq<Image>)
    requires Run(s) && |s| > 1
    ensures Run(s[1..])
  {
    forall i {:trigger s[1..][i]} | 0 <= i < |s| - 2 ensures Step(s[1..][i], s[1..][i + 1]) {
      assert s[1..][i] == s[i + 1] && s[1..][i + 1] == s[i + 2];
    }
  }

  lemma RunPlus(r: seq<Image>, s: seq<Image>)
    requires Run(r) && Run(s) && Step(r[|r| - 1], s[0])
    ensures Run(r + s)
  {
    var t := r + s;
    forall i {:trigger t[i]} | 0 <= i < |t| - 1 ensures Step(t[i], t[i + 1]) {
      if i < |r| - 1 {
        assert t[i] == r[i] && t[i + 1] == r[i + 1];
      } else if i >= |r| {
        assert t[i] == s[i - |r|] && t[i + 1] == s[i - |r| + 1];
      }
    }
  }

  /** The fresh reference an import would stage for an account, by its random suffix. */
  predicate IsFresh(suffixes: map<Email, nat>, ref: Ref) {
    ref.Nonce? && ref.email in suffixes && suffixes[ref.email] == ref.suffix
  }

  predicate IsStaged(suffixes: map<Email, nat>, staged: seq<Ref>, e: Email) {
    e in suffixes && Nonce(e, suffixes[e]) in staged
  }

  /** The accounts with the staged tokens moved out of them. */
  function StagedDoc(d: Doc, suffixes: map<Email, nat>, staged: seq<Ref>): (r: Doc)
    ensures WellFormed(d) ==> WellFormed(r)
  {
    Doc(d.order, map e | e in d.byEmail ::
          if IsStaged(suffixes, staged, e)
          then d.byEmail[e].(secretRef := Some(Nonce(e, suffixes[e])), tokenData := None)
          else d.byEmail[e])
  }

  /** Every staged reference is fresh, and holds the token of its account. */
  ghost predicate Holds(d: Doc, suffixes: map<Email, nat>, staged: seq<Ref>, vault: Vault) {
    forall ref | ref in staged ::
      && IsFresh(suffixes, ref) && ref.email in d.byEmail
      && ref in vault && Some(vault[ref]) == d.byEmail[ref.email].tokenData
  }

  /** Vault entries that were there before staging, or have no fresh name, are as they were. */
  ghost predicate OthersKept(suffixes: map<Email, nat>, v: Vault, w: Vault) {
    forall ref | !IsFresh(suffixes, ref) :: SameEntry(v, w, ref)
  }

  ghost predicate Unprotected(suffixes: map<Email, nat>, j: Journal) {
    forall ref | IsFresh(suffixes, ref) :: !Protected(j, ref)
  }

  /** The trail since `from` is a run that never leaves the uncommitted journal. */
  ghost predicate UnderJournal(trail: seq<Image>, from: nat, j: Journal) {
    && 0 < from <= |trail| && Run(Since(trail, from))
    && forall i | from <= i < |trail| :: JournalOf(trail[i]) == Some(j)
  }

  lemma UnderJournalAppend(trail: seq<Image>, from: nat, j: Journal, img: Image)
    requires UnderJournal(trail, from, j)
    requires Step(trail[|trail| - 1], img) && JournalOf(img) == Some(j)
    ensures UnderJournal(trail + [img], from, j)
  {
    RunAppend(trail, from, img);
  }

  /** One vault write under the journal. */
  method StageToken(m: Machine, ref: Ref, token: Token, journal: Journal, ghost from: nat) returns (stored: bool)
    requires m.Valid() && UnderJournal(m.trail, from, journal) && JournalOf(m.files) == Some(journal)
    requires !journal.committed && !Protected(journal, ref)
    modifies m`files, m`trail, m`log
    ensures m.log == old(m.log) + [PutSecret(ref, token, stored)]
    ensures m.Valid() && m.trail == old(m.trail) + [m.files] && UnderJournal(m.trail, from, journal)
    ensures SameBut(old(m.files), m.files, Secrets) && JournalOf(m.files) == Some(journal)
    ensures VaultOf(m.files) == VaultOf(old(m.files))[ref := token] || (!stored && m.files == old(m.files))
  {
    stored := m.SetSecret(ref, token);
    assert Lookup(m.files, JournalFile) == Lookup(old(m.files), JournalFile);
    assert Step(old(m.files), m.files) by {
      assert ChangesSecrets(old(m.files), m.files);
    }
    UnderJournalAppend(old(m.trail), from, journal, m.files);
  }

  /** Where the staging loop stands: the references in `staged` are written and recorded. */
  ghost predicate Staging(files: Image, base: Image, incoming: Doc, d: Doc, suffixes: map<Email, nat>,
                          staged: seq<Ref>) {
    && SameBut(base, files, Secrets)
    && OthersKept(suffixes, VaultOf(base), VaultOf(files))
    && Holds(d, suffixes, staged, VaultOf(files))
    && incoming == StagedDoc(d, suffixes, staged)
  }

  /** One turn of the staging loop; `before` is what was staged until now. */
  method StageAccount(m: Machine, incoming: Accounts, e: Email, suffixes: map<Email, nat>, journal: Journal,
                      before: seq<Ref>,
                      ghost d: Doc, ghost base: Image, ghost n: nat)
    returns (staged: seq<Ref>)
    requires m.Valid() && UnderJournal(m.trail, n, journal) && JournalOf(m.files) == Some(journal) && !journal.committed
    requires e in suffixes && e in d.byEmail && e in incoming.ByEmail && incoming.ByEmail[e] == d.byEmail[e]
             && d.byEmail[e].tokenData.Some?
    requires Nonce(e, suffixes[e]) !in before && Unprotected(suffixes, journal)
    requires Staging(m.files, base, incoming.Contents(), d, suffixes, before)
    modifies m`files, m`trail, m`log, incoming`Order, incoming`ByEmail
    ensures m.Valid() && old(m.trail) <= m.trail && UnderJournal(m.trail, n, journal)
            && JournalOf(m.files) == Some(journal)
    ensures exists stored ::
              && m.log == old(m.log) + [PutSecret(Nonce(e, suffixes[e]), d.byEmail[e].tokenData.value, stored)]
              && staged == if stored then before + [Nonce(e, suffixes[e])] else before
    ensures Staging(m.files, base, incoming.Contents(), d, suffixes, staged)
  {
    staged := before;
    var account := incoming.ByEmail[e];
    var ref := Nonce(e, suffixes[e]);
    assert IsFresh(suffixes, ref);
    ghost var vault, mid := VaultOf(m.files), m.files;
    var stored := StageToken(m, ref, account.tokenData.value, journal, n);
    SecretsChain(base, mid, m.files);
    if VaultOf(m.files) != vault {
      HoldsStep(d, suffixes, staged, VaultOf(base), vault, e);
    }
    if stored {
      StageOne(d, suffixes, staged, e);
      staged := staged + [ref];
      incoming.Set(e, account.(secretRef := Some(ref), tokenData := None));
    }
  }

  lemma SecretsChain(a: Image, b: Image, c: Image)
    requires SameBut(a, b, Secrets) && SameBut(b, c, Secrets)
    ensures SameBut(a, c, Secrets)
  {
    forall p | p != Secrets ensures Lookup(a, p) == Lookup(c, p) {
      assert Lookup(a, p) == Lookup(b, p);
    }
  }

  /** The staging loop. It stops early when the command is cancelled or no suffix can be drawn. */
  method StageSecrets(m: Machine, incoming: Accounts, hasVault: bool, suffixes: map<Email, nat>, journal: Journal)
    returns (ok: bool, staged: seq<Ref>)
    requires m.Valid() && JournalOf(m.files) == Some(journal) && !journal.committed
    requires Listed(incoming.Contents()) && Distinct(incoming.Order) && Unprotected(suffixes, journal)
    modifies m`files, m`trail, m`log, incoming`Order, incoming`ByEmail
    ensures m.Valid() && old(m.trail) <= m.trail && UnderJournal(m.trail, |old(m.trail)|, journal)
    ensures old(m.log) <= m.log
    ensures ok && hasVault ==>
              StagedOrFailed(old(incoming.Contents()), suffixes, staged, old(incoming.Order), m.log, |old(m.log)|)
    ensures AllWorked(m.log, |old(m.log)|) && (hasVault ==> SuffixesFor(old(incoming.Contents()), suffixes)) ==> ok
    ensures Staging(m.files, old(m.files), incoming.Contents(), old(incoming.Contents()), suffixes, staged)
    ensures !hasVault ==> staged == []
  {
    staged := [];
    ghost var d, n, l, base := incoming.Contents(), |m.trail|, |m.log|, m.files;
    assert StagedDoc(d, suffixes, []) == d;
    var order := incoming.Order;
    for i := 0 to |order|
      invariant m.Valid() && old(m.trail) <= m.trail && UnderJournal(m.trail, n, journal)
      invariant JournalOf(m.files) == Some(journal)
      invariant Staging(m.files, base, incoming.Contents(), d, suffixes, staged)
      invariant forall ref | ref in staged :: ref.email in order[..i]
      invariant !hasVault ==> staged == []
      invariant old(m.log) <= m.log && (hasVault ==> StagedOrFailed(d, suffixes, staged, order[..i], m.log, l))
    {
      var e := order[i];
      assert e in d.byEmail && e !in order[..i];
      assert order[..i + 1] == order[..i] + [e];
      var account := incoming.ByEmail[e];
      assert account == d.byEmail[e] by {
        assert !IsStaged(suffixes, staged, e);
      }
      if account.tokenData.Some? && hasVault {
        var cancelled := m.IsCancelled();
        if cancelled || e !in suffixes {
          return false, staged;
        }
        ghost var before, log := staged, m.log;
        staged := StageAccount(m, incoming, e, suffixes, journal, staged, d, base, n);
        StagedNext(d, suffixes, before, staged, order[..i], log, m.log, l, e);
      }
    }
    assert order[..|order|] == order;
    ok := true;
  }

  /** Each of these accounts that has a token is staged, unless the vault write under its fresh reference failed. */
  ghost predicate StagedOrFailed(d: Doc, suffixes: map<Email, nat>, staged: seq<Ref>, done: seq<Email>, log: seq<Op>,
                                 from: nat) {
    forall e | e in done && e in d.byEmail && d.byEmail[e].tokenData.Some? ::
      e in suffixes && (IsStaged(suffixes, staged, e) || PutFailed(log, from, Nonce(e, suffixes[e])))
  }

  /** A suffix could be drawn for every account with a token. */
  ghost predicate SuffixesFor(d: Doc, suffixes: map<Email, nat>) {
    forall e | e in d.byEmail && d.byEmail[e].tokenData.Some? :: e in suffixes
  }

  lemma StagedNext(d: Doc, suffixes: map<Email, nat>, before: seq<Ref>, staged: seq<Ref>, done: seq<Email>,
                   log: seq<Op>, longer: seq<Op>, from: nat, e: Email)
    requires StagedOrFailed(d, suffixes, before, done, log, from) && from <= |log| && e in suffixes
    requires exists token, stored ::
               && longer == log + [PutSecret(Nonce(e, suffixes[e]), token, stored)]
               && staged == if stored then before + [Nonce(e, suffixes[e])] else before
    ensures StagedOrFailed(d, suffixes, staged, done + [e], longer, from)
  {
    forall f | f in done + [e] && f in d.byEmail && d.byEmail[f].tokenData.Some?
      ensures f in suffixes && (IsStaged(suffixes, staged, f) || PutFailed(longer, from, Nonce(f, suffixes[f])))
    {
      if f == e {
        assert longer[|log|].PutSecret? && longer[|log|].ref == Nonce(e, suffixes[e]);
      } else {
        PutFailedLater(log, longer, from, from, Nonce(f, suffixes[f]));
      }
    }
  }

  lemma HoldsStep(d: Doc, suffixes: map<Email, nat>, staged: seq<Ref>, base: Vault, v: Vault, e: Email)
    requires e in suffixes && e in d.byEmail && d.byEmail[e].tokenData.Some?
    requires Holds(d, suffixes, staged, v) && OthersKept(suffixes, base, v) && Nonce(e, suffixes[e]) !in staged
    ensures var ref := Nonce(e, suffixes[e]);
            var w := v[ref := d.byEmail[e].tokenData.value];
            OthersKept(suffixes, base, w) && Holds(d, suffixes, staged, w) && Holds(d, suffixes, staged + [ref], w)
  {
  }

  lemma StageOne(d: Doc, suffixes: map<Email, nat>, staged: seq<Ref>, e: Email)
    requires e in suffixes && e in d.byEmail
    ensures StagedDoc(d, suffixes, staged + [Nonce(e, suffixes[e])])
         == Put(StagedDoc(d, suffixes, staged), e,
                d.byEmail[e].(secretRef := Some(Nonce(e, suffixes[e])), tokenData := None))
  {
    var ref := Nonce(e, suffixes[e]);
    forall x | x in d.byEmail
      ensures IsStaged(suffixes, staged + [ref], x) <==> IsStaged(suffixes, staged, x) || x == e
    {
      assert forall r :: r in staged + [ref] <==> r in staged || r == ref;
    }
  }

  datatype ImportResult =
    | Imported           // committed and journal removed
    | Uncleaned          // committed, journal still there
    | Refused            // an error before the import changed anything
    | RolledBack
    | RollbackIncomplete // a file could not be restored, journal kept
    | RollbackUncleaned  // everything restored, journal still there

  ghost predicate CanRollBack(img: Image, journal: Journal, staged: seq<Ref>) {
    JournalOf(img) == Some(journal) && !journal.committed && forall ref | ref in staged :: !Protected(journal, ref)
  }

  /** The staged secrets go first, while the uncommitted journal still protects the old accounts. */
  method DropStaged(m: Machine, journal: Journal, staged: seq<Ref>)
    requires m.Valid()
    modifies m`files, m`trail, m`log
    ensures old(m.log) <= m.log && Forgotten(VaultOf(m.files), staged, m.stale, m.log, |old(m.log)|)
    ensures m.Valid() && old(m.trail) <= m.trail && OnlyStagedGone(old(m.files), m.files, staged, m.stale)
    ensures AllStagedGone(old(m.files), m.trail, |old(m.trail)|, staged, m.stale)
    ensures CanRollBack(old(m.files), journal, staged) ==> UnderJournal(m.trail, |old(m.trail)|, journal)
  {
    ghost var n, l, base, sound := |m.trail|, |m.log|, m.files, CanRollBack(m.files, journal, staged);
    for i := 0 to |staged|
      invariant old(m.log) <= m.log && Forgotten(VaultOf(m.files), staged[..i], m.stale, m.log, l)
      invariant m.Valid() && old(m.trail) <= m.trail && OnlyStagedGone(base, m.files, staged, m.stale)
      invariant AllStagedGone(base, m.trail, n, staged, m.stale)
      invariant sound ==> UnderJournal(m.trail, n, journal)
    {
      ghost var before, trail, log := m.files, m.trail, m.log;
      var dropped := m.DropSecret(staged[i]);
      assert m.log[|log|] == CutSecret(staged[i], dropped) && staged[..i + 1] == staged[..i] + [staged[i]];
      ForgetOne(VaultOf(before), VaultOf(m.files), staged[..i], staged[i], m.stale, log, m.log, l);
      OneMoreGone(base, before, m.files, staged, m.stale, staged[i]);
      AllGoneAppend(base, trail, m.files, n, staged, m.stale);
      if sound {
        DropIsStep(base, before, m.files, journal, staged, m.stale, staged[i]);
        UnderJournalAppend(trail, n, journal, m.files);
      }
    }
    assert staged[..|staged|] == staged;
  }

  lemma DropIsStep(base: Image, before: Image, img: Image, journal: Journal, staged: seq<Ref>, stale: set<Ref>,
                   ref: Ref)
    requires CanRollBack(base, journal, staged) && OnlyStagedGone(base, before, staged, stale) && ref in staged
    requires SameBut(before, img, Secrets) && VaultOf(img) - {ref} == VaultOf(before) - {ref}
    ensures JournalOf(img) == JournalOf(before) == Some(journal) && ChangesSecrets(before, img)
  {
    assert Lookup(before, JournalFile) == Lookup(base, JournalFile) == Lookup(img, JournalFile);
    OthersSame(VaultOf(before), VaultOf(img), ref);
  }

  ghost predicate OnlyStagedGone(base: Image, img: Image, staged: seq<Ref>, stale: set<Ref>) {
    SameBut(base, img, Secrets) && StagedGone(VaultOf(base), VaultOf(img), staged, stale)
  }

  ghost predicate AllStagedGone(base: Image, trail: seq<Image>, from: nat, staged: seq<Ref>, stale: set<Ref>) {
    forall i | from <= i < |trail| :: OnlyStagedGone(base, trail[i], staged, stale)
  }

  lemma AllGoneAppend(base: Image, trail: seq<Image>, img: Image, from: nat, staged: seq<Ref>, stale: set<Ref>)
    requires AllStagedGone(base, trail, from, staged, stale) && OnlyStagedGone(base, img, staged, stale)
    ensures AllStagedGone(base, trail + [img], from, staged, stale)
  {
  }

  lemma OneMoreGone(base: Image, before: Image, img: Image, staged: seq<Ref>, stale: set<Ref>, ref: Ref)
    requires OnlyStagedGone(base, before, staged, stale) && SameBut(before, img, Secrets) && ref in staged
    requires VaultOf(img) - {ref} == VaultOf(before) - {ref}
    requires ref !in stale ==> VaultOf(img) in {VaultOf(before), VaultOf(before) - {ref}}
    ensures OnlyStagedGone(base, img, staged, stale)
  {
    SecretsChain(base, before, img);
    OthersSame(VaultOf(before), VaultOf(img), ref);
    forall r ensures SameEntry(VaultOf(base), VaultOf(img), r) || (r in staged && (r !in VaultOf(img) || r in stale)) {
      assert SameEntry(VaultOf(base), VaultOf(before), r) || (r in staged && (r !in VaultOf(before) || r in stale));
      assert r != ref ==> SameEntry(VaultOf(before), VaultOf(img), r);
    }
  }

  lemma OthersSame(v: Vault, w: Vault, ref: Ref)
    requires v - {ref} == w - {ref}
    ensures forall r | r != ref :: SameEntry(v, w, r)
  {
    forall r | r != ref ensures SameEntry(v, w, r) {
      assert r in v <==> r in v - {ref};
      assert r in w <==> r in w - {ref};
      assert r in v ==> v[r] == (v - {ref})[r];
      assert r in w ==> w[r] == (w - {ref})[r];
    }
  }

  /**
   The rollback closure: drop what was staged, put the files back, forget the journal. With
   the journal uncommitted every image on the way recovers to the files before; in any case
   every image is partly undone at most.
   */
  method Rollback(m: Machine, journal: Journal, staged: seq<Ref>) returns (r: ImportResult)
    requires m.Valid()
    modifies m
    ensures m.Valid() && old(m.trail) <= m.trail && old(m.log) <= m.log
    ensures r in {RolledBack, RollbackIncomplete, RollbackUncleaned}
    ensures r != RollbackIncomplete ==> TripleOf(m.files) == Kept(journal)
    ensures r == RolledBack ==> Quiet(m.files)
    ensures Forgotten(VaultOf(m.files), staged, m.stale, m.log, |old(m.log)|)
    ensures AllWorked(m.log, |old(m.log)|) ==> r == RolledBack
    ensures forall i | |old(m.trail)| <= i < |m.trail| ::
            HalfUndone(old(m.files), Kept(journal), staged, m.stale, m.trail[i])
    ensures CanRollBack(old(m.files), journal, staged) ==>
              && Run(Since(m.trail, |old(m.trail)|))
              && (forall i | |old(m.trail)| <= i < |m.trail| :: Recovered(m.trail[i]) == Kept(journal))
              && Recovered(m.files) == Kept(journal)
  {
    ghost var n, l, sound, base := |m.trail|, |m.log|, CanRollBack(m.files, journal, staged), m.files;
    DropStaged(m, journal, staged);
    assert JournalOf(m.files) == JournalOf(base) by {
      assert Lookup(m.files, JournalFile) == Lookup(base, JournalFile);
    }
    ghost var mid, dropped, log := m.files, m.trail, m.log;
    DroppedIsHalfUndone(base, dropped, n, Kept(journal), staged, m.stale);
    var restored := RestoreSnapshot(m, journal);
    RestoredIsHalfUndone(base, mid, m.trail, |dropped|, Kept(journal), staged, m.stale);
    assert m.trail[..|dropped|] == dropped;
    if sound {
      RunJoin(m.trail, n, |dropped|);
    }
    assert VaultOf(m.files) == VaultOf(mid);
    ForgottenLater(VaultOf(mid), staged, m.stale, log, m.log, l, l);
    WorkedBefore(log, m.log, l, |log|);
    if !restored {
      return RollbackIncomplete;
    }
    ghost var full, later := m.files, m.log;
    r := ForgetJournal(m, journal, base, staged, n);
    ForgottenLater(VaultOf(full), staged, m.stale, later, m.log, l, l);
    WorkedBefore(later, m.log, l, |later|);
  }

  /** The last part of a rollback. */
  method ForgetJournal(m: Machine, journal: Journal, ghost base: Image, ghost staged: seq<Ref>, ghost n: nat)
    returns (r: ImportResult)
    requires m.Valid() && TripleOf(m.files) == Kept(journal) && 0 < n <= |m.trail|
    requires StagedGone(VaultOf(base), VaultOf(m.files), staged, m.stale)
    modifies m`files, m`trail, m`log
    ensures m.Valid() && m.trail == old(m.trail) + [m.files] && old(m.log) <= m.log
    ensures r in {RolledBack, RollbackUncleaned} && TripleOf(m.files) == Kept(journal)
    ensures r == RolledBack ==> Quiet(m.files)
    ensures VaultOf(m.files) == VaultOf(old(m.files)) && (AllWorked(m.log, |old(m.log)|) ==> r == RolledBack)
    ensures HalfUndone(base, Kept(journal), staged, m.stale, m.files)
    ensures JournalOf(old(m.files)) == Some(journal) && !journal.committed && Run(Since(old(m.trail), n)) ==>
              Run(Since(m.trail, n)) && Recovered(m.files) == Kept(journal)
  {
    ghost var full, trail := m.files, m.trail;
    var removed := m.Remove(JournalFile);
    assert TripleOf(m.files) == TripleOf(full);
    assert Lookup(m.files, Secrets) == Lookup(full, Secrets);
    if JournalOf(full) == Some(journal) && !journal.committed && Run(Since(trail, n)) {
      assert Step(full, m.files) by {
        assert removed ==> Clears(full, m.files);
      }
      RunAppend(trail, n, m.files);
    }
    return if removed then RolledBack else RollbackUncleaned;
  }

  lemma DroppedIsHalfUndone(base: Image, trail: seq<Image>, n: nat, kept: Triple, staged: seq<Ref>, stale: set<Ref>)
    requires forall i | n <= i < |trail| :: OnlyStagedGone(base, trail[i], staged, stale)
    ensures forall i | n <= i < |trail| :: HalfUndone(base, kept, staged, stale, trail[i])
  {
  }

  lemma RestoredIsHalfUndone(base: Image, mid: Image, trail: seq<Image>, n: nat, kept: Triple, staged: seq<Ref>,
                             stale: set<Ref>)
    requires OnlyStagedGone(base, mid, staged, stale)
    requires forall i | n <= i < |trail| :: PartlyRestored(mid, kept, trail[i])
    ensures forall i | n <= i < |trail| :: HalfUndone(base, kept, staged, stale, trail[i])
  {
  }

  // ----- the whole import -----

  predicate Succeeded(r: ImportResult) { r in {Imported, Uncleaned} }

  /** The accounts an import is to leave, before tokens move to the vault. */
  ghost function Target(pre: Triple, contents: BackupContents, merge: bool): Doc
    requires Decoded(pre.accounts).Some?
  {
    if merge then Merged(Decoded(pre.accounts).value, contents.accounts, |contents.accounts.order|)
    else contents.accounts
  }

  method MergeAccount(existing: Accounts, e: Email, backup: Account)
    requires backup.email == e
    modifies existing`Order, existing`ByEmail
    ensures existing.Contents() == Put(old(existing.Contents()), e, Inherit(old(existing.Contents()), backup))
  {
    var account := backup;
    if account.tokenData == None && e in existing.ByEmail {
      var saved := existing.ByEmail[e];
      account := account.(tokenData := saved.tokenData);
      if saved.secretRef.Some? {
        account := account.(secretRef := saved.secretRef);
      }
    }
    existing.Set(e, account);
  }

  /** The merge loop: backup accounts replace or join the existing ones. */
  method MergeAccounts(existing: Accounts, backup: AccountsDoc)
    modifies existing`Order, existing`ByEmail
    ensures existing.Contents() == Merged(old(existing.Contents()), backup, |backup.order|)
  {
    ghost var before := existing.Contents();
    for i := 0 to |backup.order|
      invariant existing.Contents() == Merged(before, backup, i)
    {
      MergeNext(existing, before, backup, i);
    }
  }

  /** One turn of the merge loop. */
  method MergeNext(existing: Accounts, ghost before: Doc, backup: AccountsDoc, i: nat)
    requires i < |backup.order| && existing.Contents() == Merged(before, backup, i)
    modifies existing`Order, existing`ByEmail
    ensures existing.Contents() == Merged(before, backup, i + 1)
  {
    var e := backup.order[i];
    InheritFromMerged(before, backup, i);
    MergeAccount(existing, e, backup.byEmail[e]);
  }

  /** Merging earlier accounts does not touch the credential a later one inherits. */
  lemma InheritFromMerged(existing: Doc, backup: Doc, i: nat)
    requires WellFormed(backup) && i < |backup.order|
    ensures var e := backup.order[i];
            Inherit(Merged(existing, backup, i), backup.byEmail[e]) == Inherit(existing, backup.byEmail[e])
  {
    var e := backup.order[i];
    assert e !in backup.order[..i];
    MergedAt(existing, backup, i, e);
  }

  /** Incoming accounts: the backup's, or the existing ones with the backup's merged in. */
  method Incoming(existing: Accounts, backup: AccountsDoc, merge: bool) returns (incoming: Accounts)
    requires WellFormed(existing.Contents())
    modifies existing`Order, existing`ByEmail
    ensures incoming == existing || fresh(incoming)
    ensures incoming.Contents() == if merge then Merged(old(existing.Contents()), backup, |backup.order|) else backup
    ensures incoming.revision == old(existing.revision) && incoming.revisionHash == old(existing.revisionHash)
    ensures WellFormed(incoming.Contents())
  {
    if merge {
      MergeAccounts(existing, backup);
      MergedWellFormed(old(existing.Contents()), backup, |backup.order|);
      return existing;
    }
    incoming := new Accounts(backup, existing.revision, existing.revisionHash);
  }

  /** What reached the disk since `from`: a run that recovers to `pre`, or from the commit on to `post`. */
  ghost predicate AllOrNothing(trail: seq<Image>, from: nat, pre: Triple, post: Triple) {
    && 0 < from <= |trail| && Run(Since(trail, from))
    && forall i | from <= i < |trail| :: Recovered(trail[i]) in {pre, post}
  }

  lemma AllOrNothingAppend(trail: seq<Image>, from: nat, pre: Triple, post: Triple, img: Image)
    requires AllOrNothing(trail, from, pre, post) && Step(trail[|trail| - 1], img) && Recovered(img) in {pre, post}
    ensures AllOrNothing(trail + [img], from, pre, post)
  {
    RunAppend(trail, from, img);
  }

  lemma AllOrNothingJoin(trail: seq<Image>, from: nat, mid: nat, pre: Triple, post: Triple)
    requires 0 < from <= mid <= |trail| && AllOrNothing(trail[..mid], from, pre, post)
    requires Run(Since(trail, mid)) && forall i | mid <= i < |trail| :: Recovered(trail[i]) in {pre, post}
    ensures AllOrNothing(trail, from, pre, post)
  {
    RunJoin(trail, from, mid);
    assert forall i | from <= i < mid :: trail[i] == trail[..mid][i];
  }

  /** The settings of the backup, merged into config.json if asked. */
  method ImportSettings(m: Machine, imported: Settings, merge: bool, journal: Journal) returns (ok: bool)
    requires m.Valid() && JournalOf(m.files) == Some(journal) && !journal.committed
    modifies m
    ensures m.Valid() && old(m.trail) <= m.trail && UnderJournal(m.trail, |old(m.trail)|, journal)
    ensures SameBut(old(m.files), m.files, SettingsFile) && JournalOf(m.files) == Some(journal)
    ensures ok ==>
              if merge then
                && SettingsIn(Lookup(old(m.files), SettingsFile)).Some?
                && SameSettings(Lookup(m.files, SettingsFile),
                                MergedSettings(SettingsIn(Lookup(old(m.files), SettingsFile)).value, imported))
              else SameSettings(Lookup(m.files, SettingsFile), imported)
    ensures old(m.log) <= m.log
    ensures AllWorked(m.log, |old(m.log)|) ==> (ok <==> !merge || SettingsIn(Lookup(old(m.files), SettingsFile)).Some?)
  {
    var s := imported;
    if merge {
      var current := ReadSettingsUnlocked(m);
      if current == None {
        return false;
      }
      s := MergeSettings(current.value.settings, s);
    }
    ok := SaveSettingsUnlocked(m, AppSettings(s, false, None));
    assert JournalOf(m.files) == Some(journal) by {
      assert Lookup(m.files, JournalFile) == Lookup(old(m.files), JournalFile);
    }
    if m.trail != old(m.trail) {
      assert Step(old(m.files), m.files) by {
        assert Rewrites(old(m.files), m.files);
      }
      UnderJournalAppend(old(m.trail), |old(m.trail)|, journal, m.files);
    }
  }

  lemma SavesStayUnderJournal(base: Image, mtime: int, payload: AccountsDoc, trail: seq<Image>, n: nat,
                              journal: Journal)
    requires 0 < n <= |trail| && trail[n - 1] == base && OneFileSteps(trail, n - 1)
    requires forall i | n <= i < |trail| :: SaveStage(base, mtime, payload, trail[i])
    requires JournalOf(base) == Some(journal) && !journal.committed
    ensures UnderJournal(trail, n, journal) && JournalOf(trail[|trail| - 1]) == Some(journal)
    ensures VaultOf(trail[|trail| - 1]) == VaultOf(base)
  {
    forall i | n - 1 <= i < |trail| ensures JournalOf(trail[i]) == Some(journal) && VaultOf(trail[i]) == VaultOf(base) {
      if i >= n {
        assert SaveStage(base, mtime, payload, trail[i]);
      }
    }
    var r := Since(trail, n);
    forall i {:trigger r[i]} | 0 <= i < |r| - 1 ensures Step(r[i], r[i + 1]) {
      var k := n - 1 + i;
      assert r[i] == trail[k] && r[i + 1] == trail[k + 1];
      assert Rewrites(r[i], r[i + 1]);
    }
  }

  /** The files after a successful import, given those of the journal. */
  ghost predicate SavedTriple(pre: Triple, dated: bool, accounts: Doc, settings: Option<Settings>, merge: bool,
                              post: Triple) {
    && post.accounts.Some? && Decoded(post.accounts).Some? && Decoded(post.accounts).value == accounts
    && post.backup == (if pre.accounts.Some? && dated then pre.accounts else pre.backup)
    && (match settings
        case None => post.settings == pre.settings
        case Some(s) =>
          if merge then SettingsIn(pre.settings).Some?
              && SameSettings(post.settings, MergedSettings(SettingsIn(pre.settings).value, s))
          else SameSettings(post.settings, s))
  }

  method SaveUnderJournal(m: Machine, incoming: Accounts, journal: Journal) returns (ok: bool)
    requires m.Valid() && JournalOf(m.files) == Some(journal) && !journal.committed
    requires WellFormed(incoming.Contents())
    modifies m, incoming`revision, incoming`revisionHash
    ensures m.Valid() && old(m.trail) <= m.trail && UnderJournal(m.trail, |old(m.trail)|, journal)
    ensures JournalOf(m.files) == Some(journal) && VaultOf(m.files) == VaultOf(old(m.files))
    ensures ok ==> m.files == SavedImage(old(m.files), old(m.mtime), incoming.Contents())
    ensures old(m.log) <= m.log
    ensures AllWorked(m.log, |old(m.log)|) && old(Savable(m, incoming)) ==> ok
  {
    ghost var n, base := |m.trail|, m.files;
    var saved := SaveUnlocked(m, incoming);
    SavesStayUnderJournal(base, old(m.mtime), incoming.Contents(), m.trail, n, journal);
    ok := saved == Saved;
  }

  /** Nothing but a failure keeps these accounts from being saved. */
  ghost predicate Savable(m: Machine, incoming: Accounts)
    reads m, incoming
  {
    SaveOutcome(incoming.Contents(), SaveAllowed(incoming.revision, incoming.revisionHash,
                                                 Lookup(m.files, AccountsFile), m.mtime)) == Saved
  }

  /** Settings that are to be merged can be. */
  predicate Mergeable(settings: Option<Settings>, merge: bool, file: Option<Content>) {
    settings.Some? && merge ==> SettingsIn(file).Some?
  }

  /** Nor anything else of an import. */
  ghost predicate Unhindered(m: Machine, incoming: Accounts, settings: Option<Settings>, merge: bool, hasVault: bool,
                             suffixes: map<Email, nat>)
    reads m, incoming
  {
    && Savable(m, incoming) && Mergeable(settings, merge, Lookup(m.files, SettingsFile))
    && (hasVault ==> SuffixesFor(incoming.Contents(), suffixes))
  }

  lemma SavedTripleWithoutSettings(base: Image, mtime: int, d: AccountsDoc, merge: bool)
    ensures SavedTriple(TripleOf(base), mtime != 0, d, None, merge, TripleOf(SavedImage(base, mtime, d)))
    ensures Lookup(SavedImage(base, mtime, d), SettingsFile) == Lookup(base, SettingsFile)
  {
  }

  /** Accounts, then settings. */
  method SaveImported(m: Machine, incoming: Accounts, settings: Option<Settings>, merge: bool, journal: Journal)
    returns (ok: bool)
    requires m.Valid() && JournalOf(m.files) == Some(journal) && !journal.committed
    requires WellFormed(incoming.Contents())
    modifies m, incoming`revision, incoming`revisionHash
    ensures m.Valid() && old(m.trail) <= m.trail && UnderJournal(m.trail, |old(m.trail)|, journal)
    ensures JournalOf(m.files) == Some(journal) && VaultOf(m.files) == VaultOf(old(m.files))
    ensures ok ==> SavedTriple(TripleOf(old(m.files)), old(m.mtime) != 0, incoming.Contents(), settings, merge,
                               TripleOf(m.files))
    ensures old(m.log) <= m.log
    ensures AllWorked(m.log, |old(m.log)|) && old(Unhindered(m, incoming, settings, merge, false, map[])) ==> ok
  {
    ghost var n, l, base := |m.trail|, |m.log|, m.files;
    ok := SaveUnderJournal(m, incoming, journal);
    if ok {
      SavedTripleWithoutSettings(base, old(m.mtime), incoming.Contents(), merge);
      if settings.Some? {
        ghost var mid, trail, log := m.files, m.trail, m.log;
        ok := ImportSettings(m, settings.value, merge, journal);
        WorkedBefore(log, m.log, l, |log|);
        assert m.trail[..|trail|] == trail;
        UnderJournalJoin(m.trail, n, |trail|, journal);
        assert Lookup(m.files, Secrets) == Lookup(mid, Secrets);
        assert Lookup(m.files, AccountsFile) == Lookup(mid, AccountsFile)
               && Lookup(m.files, BackupFile) == Lookup(mid, BackupFile);
      }
    }
  }

  lemma UnderJournalJoin(trail: seq<Image>, from: nat, mid: nat, journal: Journal)
    requires 0 < from <= mid <= |trail|
    requires UnderJournal(trail[..mid], from, journal) && UnderJournal(trail, mid, journal)
    ensures UnderJournal(trail, from, journal)
  {
    RunJoin(trail, from, mid);
    assert forall i | from <= i < mid :: trail[i] == trail[..mid][i];
  }

  /** Stage the tokens, then save; false where the source calls rollback. */
  method StageAndSave(m: Machine, incoming: Accounts, settings: Option<Settings>, merge: bool,
                      hasVault: bool, suffixes: map<Email, nat>, journal: Journal)
    returns (ok: bool, staged: seq<Ref>)
    requires m.Valid() && JournalOf(m.files) == Some(journal) && !journal.committed
    requires WellFormed(incoming.Contents()) && Unprotected(suffixes, journal)
    modifies m, incoming
    ensures m.Valid() && old(m.trail) <= m.trail && UnderJournal(m.trail, |old(m.trail)|, journal)
    ensures JournalOf(m.files) == Some(journal)
    ensures forall ref | ref in staged :: !Protected(journal, ref)
    ensures !hasVault ==> staged == []
    ensures ok ==>
              && SavedTriple(TripleOf(old(m.files)), old(m.mtime) != 0,
                             StagedDoc(old(incoming.Contents()), suffixes, staged), settings, merge, TripleOf(m.files))
              && Holds(old(incoming.Contents()), suffixes, staged, VaultOf(m.files))
              && OthersKept(suffixes, VaultOf(old(m.files)), VaultOf(m.files))
              && (hasVault ==> StagedOrFailed(old(incoming.Contents()), suffixes, staged, old(incoming.Order), m.log,
                                              |old(m.log)|))
    ensures old(m.log) <= m.log
    ensures AllWorked(m.log, |old(m.log)|) && old(Unhindered(m, incoming, settings, merge, hasVault, suffixes)) ==> ok
  {
    ghost var n, l, base, d := |m.trail|, |m.log|, m.files, incoming.Contents();
    ok, staged := StageSecrets(m, incoming, hasVault, suffixes, journal);
    StagedAcceptable(d, suffixes, staged);
    assert JournalOf(m.files) == Some(journal) && TripleOf(m.files) == TripleOf(base) by {
      assert forall p | p != Secrets :: Lookup(m.files, p) == Lookup(base, p);
    }
    if ok {
      ghost var trail, log := m.trail, m.log;
      ok := SaveImported(m, incoming, settings, merge, journal);
      WorkedBefore(log, m.log, l, |log|);
      StagedLater(d, suffixes, staged, d.order, log, m.log, l, l);
      assert m.trail[..|trail|] == trail;
      UnderJournalJoin(m.trail, n, |trail|, journal);
    }
  }

  /** Moving tokens out of the accounts leaves them acceptable. */
  lemma StagedAcceptable(d: Doc, suffixes: map<Email, nat>, staged: seq<Ref>)
    ensures Acceptable(d) ==> Acceptable(StagedDoc(d, suffixes, staged))
  {
  }

  lemma StagedLater(d: Doc, suffixes: map<Email, nat>, staged: seq<Ref>, done: seq<Email>, log: seq<Op>,
                    longer: seq<Op>, from: nat, since: nat)
    requires log <= longer && from <= since
    ensures StagedOrFailed(d, suffixes, staged, done, log, since) ==>
              StagedOrFailed(d, suffixes, staged, done, longer, from)
  {
    if StagedOrFailed(d, suffixes, staged, done, log, since) {
      forall e | e in done && e in d.byEmail && d.byEmail[e].tokenData.Some?
        ensures e in suffixes && (IsStaged(suffixes, staged, e) || PutFailed(longer, from, Nonce(e, suffixes[e])))
      {
        PutFailedLater(log, longer, from, since, Nonce(e, suffixes[e]));
      }
    }
  }

  /**
   The commit write landed at trail[c] and yet reported an error: until then every image
   recovers to the files before, and from then on every image is partly undone at most.
   */
  ghost predicate LateCommit(trail: seq<Image>, n: nat, log: seq<Op>, l: nat, kept: Triple, staged: seq<Ref>,
                             stale: set<Ref>, c: nat)
  {
    && 0 < n <= c < |trail| && Committed(trail[c])
    && WriteFailed(log, l, JournalFile, Lookup(trail[c], JournalFile))
    && AllOrNothing(trail[..c], n, kept, kept)
    && forall i | c <= i < |trail| :: HalfUndone(trail[c], kept, staged, stale, trail[i])
  }

  lemma LateCommitLater(trail: seq<Image>, n: nat, mid: nat, log: seq<Op>, l: nat, since: nat, kept: Triple,
                        staged: seq<Ref>, stale: set<Ref>, c: nat)
    requires LateCommit(trail, mid, log, since, kept, staged, stale, c)
    requires 0 < n <= mid <= |trail| && l <= since && AllOrNothing(trail[..mid], n, kept, kept)
    ensures LateCommit(trail, n, log, l, kept, staged, stale, c)
  {
    WriteFailedSince(log, log, l, since, JournalFile, Lookup(trail[c], JournalFile));
    assert trail[..c][..mid] == trail[..mid];
    AllOrNothingJoin(trail[..c], n, mid, kept, kept);
  }

  /** The image an import reports, or committed although it reports a failure. */
  function CommittedImage(files: Image, trail: seq<Image>, late: Option<nat>): Image {
    if late.Some? && late.value < |trail| then trail[late.value] else files
  }

  /** Every image recovers to all or nothing, unless the commit write was a late one. */
  ghost predicate AtomicUnlessLate(m: Machine, n: nat, l: nat, kept: Triple, staged: seq<Ref>, r: ImportResult,
                                   late: Option<nat>)
    reads m
  {
    match late
    case None => AllOrNothing(m.trail, n, kept, if Succeeded(r) then TripleOf(m.files) else kept)
    case Some(c) =>
      m.posix && r in {RolledBack, RollbackIncomplete, RollbackUncleaned}
      && LateCommit(m.trail, n, m.log, l, kept, staged, m.stale, c)
  }

  /** Commit what was saved and forget the journal; a failed commit write rolls back. */
  method CommitImport(m: Machine, journal: Journal, staged: seq<Ref>) returns (r: ImportResult, ghost late: Option<nat>)
    requires m.Valid() && CanRollBack(m.files, journal, staged)
    modifies m
    ensures m.Valid() && old(m.trail) <= m.trail && old(m.log) <= m.log && r != Refused
    ensures AtomicUnlessLate(m, |old(m.trail)|, |old(m.log)|, Kept(journal), staged, r, late)
    ensures Succeeded(r) || late.Some? ==>
              && TripleOf(CommittedImage(m.files, m.trail, late)) == TripleOf(old(m.files))
              && VaultOf(CommittedImage(m.files, m.trail, late)) == VaultOf(old(m.files))
    ensures r == Imported || r == RolledBack ==> Quiet(m.files)
    ensures r == Uncleaned ==> Committed(m.files)
    ensures r in {RolledBack, RollbackUncleaned} ==> TripleOf(m.files) == Kept(journal)
    ensures !Succeeded(r) ==> Forgotten(VaultOf(m.files), staged, m.stale, m.log, |old(m.log)|)
    ensures AllWorked(m.log, |old(m.log)|) ==> r == Imported
  {
    ghost var n, base, l := |m.trail|, m.files, |m.log|;
    late := None;
    var committed := m.AtomicWrite(JournalFile, JournalJson(journal.(committed := true)));
    assert TripleOf(m.files) == TripleOf(base) && VaultOf(m.files) == VaultOf(base) by {
      assert Lookup(m.files, Secrets) == Lookup(base, Secrets);
    }
    assert m.log[l] == Op(JournalFile, Some(JournalJson(journal.(committed := true))), committed);
    ghost var log := m.log;
    if committed {
      r := FinishImport(m, journal);
    } else {
      r, late := RollBackCommit(m, journal, staged, base, l);
      assert !Worked(m.log[l]);
      ForgottenLater(VaultOf(m.files), staged, m.stale, m.log, m.log, l, |log|);
    }
    WorkedBefore(log, m.log, l, |log|);
  }

  /** After a commit that was reported as done. */
  method FinishImport(m: Machine, journal: Journal) returns (r: ImportResult)
    requires m.Valid() && JournalOf(m.files) == Some(journal.(committed := true)) && !journal.committed
    requires |m.trail| > 1 && Commits(m.trail[|m.trail| - 2], m.files)
    requires JournalOf(m.trail[|m.trail| - 2]) == Some(journal)
    modifies m`files, m`trail, m`log
    ensures m.Valid() && old(m.trail) <= m.trail && old(m.log) <= m.log && Succeeded(r)
    ensures AllOrNothing(m.trail, |old(m.trail)| - 1, Kept(journal), TripleOf(m.files))
    ensures TripleOf(m.files) == TripleOf(old(m.files)) && VaultOf(m.files) == VaultOf(old(m.files))
    ensures r == Imported ==> Quiet(m.files)
    ensures r == Uncleaned ==> Committed(m.files)
    ensures AllWorked(m.log, |old(m.log)|) ==> r == Imported
  {
    ghost var full, trail, post := m.files, m.trail, TripleOf(m.files);
    ghost var n := |trail| - 1;
    assert trail[..n] + [full] == trail;
    AllOrNothingAppend(trail[..n], n, Kept(journal), post, full);
    var removed := m.Remove(JournalFile);
    assert Step(full, m.files) by {
      assert removed ==> Clears(full, m.files);
    }
    assert Lookup(m.files, Secrets) == Lookup(full, Secrets);
    assert TripleOf(m.files) == post;
    AllOrNothingAppend(trail, n, Kept(journal), post, m.files);
    r := if removed then Imported else Uncleaned;
  }

  /** After a commit write that reported an error, whether it landed or not. */
  method RollBackCommit(m: Machine, journal: Journal, staged: seq<Ref>, ghost base: Image, ghost l: nat)
    returns (r: ImportResult, ghost late: Option<nat>)
    requires m.Valid() && |m.trail| > 1 && m.trail[|m.trail| - 2] == base && CanRollBack(base, journal, staged)
    requires m.files == base || (m.posix && m.files == base[JournalFile := JournalJson(journal.(committed := true))])
    requires l < |m.log| && m.log[l] == Op(JournalFile, Some(JournalJson(journal.(committed := true))), false)
    modifies m
    ensures m.Valid() && old(m.trail) <= m.trail && old(m.log) <= m.log && r != Refused
    ensures AtomicUnlessLate(m, |old(m.trail)| - 1, l, Kept(journal), staged, r, late)
    ensures late.Some? ==> late.value == |old(m.trail)| - 1
    ensures r in {RolledBack, RollbackIncomplete, RollbackUncleaned}
    ensures r == RolledBack ==> Quiet(m.files)
    ensures r != RollbackIncomplete ==> TripleOf(m.files) == Kept(journal)
    ensures Forgotten(VaultOf(m.files), staged, m.stale, m.log, |old(m.log)|)
  {
    ghost var trail, log, full, kept := m.trail, m.log, m.files, Kept(journal);
    ghost var n := |trail| - 1;
    assert trail[..n] + [full] == trail;
    late := None;
    r := Rollback(m, journal, staged);
    assert m.trail[..|trail|] == trail;
    if full == base {
      AllOrNothingAppend(trail[..n], n, kept, kept, full);
      AllOrNothingJoin(m.trail, n, |trail|, kept, kept);
    } else {
      late := Some(n);
      assert m.trail[n] == full && m.trail[..n] == trail[..n];
      assert m.log[l] == log[l];
      assert WriteFailed(m.log, l, JournalFile, Lookup(full, JournalFile));
    }
  }

  /** What a commit must have saved. */
  ghost predicate SavedAll(pre: Image, dated: bool, d: Doc, settings: Option<Settings>, merge: bool,
                           suffixes: map<Email, nat>, staged: seq<Ref>, post: Image) {
    && SavedTriple(TripleOf(pre), dated, StagedDoc(d, suffixes, staged), settings, merge, TripleOf(post))
    && Holds(d, suffixes, staged, VaultOf(post))
    && OthersKept(suffixes, VaultOf(pre), VaultOf(post))
  }

  /** From the journal write on: stage, save, commit, forget the journal, or roll back. */
  method ImportUnderJournal(m: Machine, incoming: Accounts, settings: Option<Settings>, merge: bool,
                            hasVault: bool, suffixes: map<Email, nat>, journal: Journal)
    returns (r: ImportResult, staged: seq<Ref>, ghost late: Option<nat>)
    requires m.Valid() && JournalOf(m.files) == Some(journal) && !journal.committed
    requires WellFormed(incoming.Contents()) && Unprotected(suffixes, journal)
    modifies m, incoming
    ensures m.Valid() && old(m.trail) <= m.trail && old(m.log) <= m.log && r != Refused
    ensures AtomicUnlessLate(m, |old(m.trail)|, |old(m.log)|, Kept(journal), staged, r, late)
    ensures Succeeded(r) || late.Some? ==>
              SavedAll(old(m.files), old(m.mtime) != 0, old(incoming.Contents()), settings, merge, suffixes, staged,
                       CommittedImage(m.files, m.trail, late))
    ensures !hasVault ==> staged == []
    ensures r == Imported || r == RolledBack ==> Quiet(m.files)
    ensures r == Uncleaned ==> Committed(m.files)
    ensures r in {RolledBack, RollbackUncleaned} ==> TripleOf(m.files) == Kept(journal)
    ensures (Succeeded(r) || late.Some?) && hasVault ==>
              StagedOrFailed(old(incoming.Contents()), suffixes, staged, old(incoming.Order), m.log, |old(m.log)|)
    ensures !Succeeded(r) ==> Forgotten(VaultOf(m.files), staged, m.stale, m.log, |old(m.log)|)
    ensures AllWorked(m.log, |old(m.log)|) && old(Unhindered(m, incoming, settings, merge, hasVault, suffixes)) ==>
              r == Imported
  {
    ghost var n, l, kept, d := |m.trail|, |m.log|, Kept(journal), incoming.Contents();
    late := None;
    var saved: bool;
    saved, staged := StageAndSave(m, incoming, settings, merge, hasVault, suffixes, journal);
    ghost var trail, log := m.trail, m.log;
    UnderJournalRecovers(trail, n, journal);
    if saved {
      r, late := CommitImport(m, journal, staged);
    } else {
      r := Rollback(m, journal, staged);
    }
    assert m.trail[..|trail|] == trail;
    StillAtomic(m, trail, n, l, |log|, kept, staged, r, late);
    WorkedBefore(log, m.log, l, |log|);
    StagedLater(d, suffixes, staged, d.order, log, m.log, l, l);
    if !Succeeded(r) {
      ForgottenLater(VaultOf(m.files), staged, m.stale, m.log, m.log, l, |log|);
    }
  }

  /** What came before an import's writes does not change that they are atomic. */
  lemma StillAtomic(m: Machine, trail: seq<Image>, n: nat, l: nat, since: nat, kept: Triple, staged: seq<Ref>,
                    r: ImportResult, late: Option<nat>)
    requires trail <= m.trail && m.trail[..|trail|] == trail && l <= since
    requires 0 < n <= |trail| && AllOrNothing(trail, n, kept, kept)
    requires AtomicUnlessLate(m, |trail|, since, kept, staged, r, late)
    ensures AtomicUnlessLate(m, n, l, kept, staged, r, late)
  {
    match late
    case None =>
      var post := if Succeeded(r) then TripleOf(m.files) else kept;
      AllOrNothingWeaken(trail, n, kept, post);
      AllOrNothingJoin(m.trail, n, |trail|, kept, post);
    case Some(c) =>
      LateCommitLater(m.trail, n, |trail|, m.log, l, since, kept, staged, m.stale, c);
  }

  lemma UnderJournalRecovers(trail: seq<Image>, from: nat, journal: Journal)
    requires UnderJournal(trail, from, journal) && !journal.committed
    ensures AllOrNothing(trail, from, Kept(journal), Kept(journal))
  {
  }

  lemma AllOrNothingWeaken(trail: seq<Image>, from: nat, pre: Triple, post: Triple)
    requires AllOrNothing(trail, from, pre, pre)
    ensures AllOrNothing(trail, from, pre, post)
  {
  }

  /** Snapshot the three files and write the uncommitted journal. */
  method BeginImport(m: Machine) returns (ok: bool, journal: Journal)
    requires m.Valid() && Quiet(m.files)
    modifies m
    ensures m.Valid() && old(m.trail) <= m.trail && m.mtime == old(m.mtime)
    ensures AllOrNothing(m.trail, |old(m.trail)|, TripleOf(old(m.files)), TripleOf(old(m.files)))
    ensures TripleOf(m.files) == TripleOf(old(m.files)) && VaultOf(m.files) == VaultOf(old(m.files))
    ensures ok ==> journal == Opened(TripleOf(old(m.files))) && JournalOf(m.files) == Some(journal)
    ensures old(m.log) <= m.log && (AllWorked(m.log, |old(m.log)|) ==> ok)
  {
    ghost var n, pre, before := |m.trail|, TripleOf(m.files), m.files;
    journal := Journal(false, None, None, None);
    var snapshot;
    ok, snapshot := SnapshotFiles(m, [AccountsFile, BackupFile, SettingsFile]);
    if !ok {
      return;
    }
    journal := Journal(false, snapshot[AccountsFile], snapshot[BackupFile], snapshot[SettingsFile]);
    assert journal == Opened(pre);
    ok := m.AtomicWrite(JournalFile, JournalJson(journal));
    assert TripleOf(m.files) == pre;
    assert Step(before, m.files) by {
      assert m.files != before ==> Begins(before, m.files);
    }
    AllOrNothingAppend(old(m.trail), n, pre, pre, m.files);
  }

  /** The files after a successful import. `dated` says accounts.json had a revision other than 0. */
  ghost predicate ImportedTriple(pre: Triple, dated: bool, contents: BackupContents, merge: bool,
                                 suffixes: map<Email, nat>, staged: seq<Ref>, post: Triple) {
    && Decoded(pre.accounts).Some?
    && SavedTriple(pre, dated, StagedDoc(Target(pre, contents, merge), suffixes, staged), contents.settings, merge,
                   post)
  }

  /** What importBackup reads before it changes anything: the accounts it is going to save. */
  method PrepareImport(m: Machine, contents: BackupContents, merge: bool) returns (incoming: Option<Accounts>)
    requires m.Valid()
    modifies m`log
    ensures m.Valid() && old(m.log) <= m.log
    ensures AllWorked(m.log, |old(m.log)|) ==>
              && (incoming.Some? <==>
                    && Decoded(Lookup(m.files, AccountsFile)).Some?
                    && Acceptable(Target(TripleOf(m.files), contents, merge)))
              && (incoming.Some? ==> Savable(m, incoming.value))
    ensures incoming.Some? ==> Acceptable(incoming.value.Contents())
    ensures incoming.Some? ==>
              && fresh(incoming.value) && WellFormed(incoming.value.Contents())
              && Decoded(Lookup(m.files, AccountsFile)).Some?
              && incoming.value.Contents() == Target(TripleOf(m.files), contents, merge)
  {
    var existing := ReadAccountsUnlocked(m);
    if existing == None {
      return None;
    }
    assert WellFormed(existing.value.Contents());
    var accounts := Incoming(existing.value, contents.accounts, merge);
    return if Acceptable(accounts.Contents()) then Some(accounts) else None;
  }

  /**
   importBackup, under both locks. Unless the commit write lands and yet reports an error,
   every image it leaves on disk recovers to the files as they were, or from the commit on
   to the files it reports, which are exactly the imported ones. `late` is the place in the
   trail of a commit that was reported as failed.
   */
  method ImportBackup(m: Machine, contents: BackupContents, merge: bool, hasVault: bool, suffixes: map<Email, nat>)
    returns (r: ImportResult, staged: seq<Ref>, ghost dated: bool, ghost late: Option<nat>)
    requires m.Valid() && Unprotected(suffixes, Opened(Recovered(m.files)))
    modifies m
    ensures m.Valid() && old(m.trail) <= m.trail && old(m.log) <= m.log
    ensures ImportEnd(m, |old(m.trail)|, |old(m.log)|, Recovered(old(m.files)), VaultOf(old(m.files)), dated,
                      contents, merge, hasVault, suffixes, r, staged, late)
    ensures old(Quiet(m.files)) ==> dated == (old(m.mtime) != 0)
    ensures AllWorked(m.log, |old(m.log)|) ==>
              (r == Imported <==>
                 && old(Quiet(m.files) || JournalOf(m.files).Some?)
                 && Importable(Recovered(old(m.files)), contents, merge, hasVault, suffixes))
  {
    ghost var n, l, pre, vault := |m.trail|, |m.log|, Recovered(m.files), VaultOf(m.files);
    staged, dated, late, r := [], m.mtime != 0, None, Refused;
    var recovered := RecoverRestoreUnlocked(m);
    assert AllOrNothing(m.trail, n, pre, pre);
    if !recovered {
      return;
    }
    dated := m.mtime != 0;
    ghost var trail, log := m.trail, m.log;
    r, staged, late := ImportRecovered(m, contents, merge, hasVault, suffixes);
    assert m.trail[..|trail|] == trail;
    StillAtomic(m, trail, n, |log|, |log|, pre, staged, r, late);
    WorkedBefore(log, m.log, l, |log|);
    EndLater(m, n, l, |log|, pre, vault, dated, contents, merge, hasVault, suffixes, r, staged, late);
  }

  /**
   How an import ends. Unless the commit write lands and yet reports an error, every image it
   leaves on disk recovers to the files as they were, or from the commit on to the files it
   reports, which are exactly the imported ones, with the tokens in the vault. When it fails,
   the entries it staged are gone again.
   */
  ghost predicate ImportEnd(m: Machine, n: nat, l: nat, pre: Triple, vault: Vault, dated: bool,
                            contents: BackupContents, merge: bool, hasVault: bool, suffixes: map<Email, nat>,
                            r: ImportResult, staged: seq<Ref>, late: Option<nat>)
    reads m
  {
    && AtomicUnlessLate(m, n, l, pre, staged, r, late)
    && (Succeeded(r) || late.Some? ==>
          && ImportedAll(pre, vault, dated, contents, merge, suffixes, staged, CommittedImage(m.files, m.trail, late))
          && Importable(pre, contents, merge, hasVault, suffixes)
          && TokensVaulted(Target(pre, contents, merge), hasVault, suffixes, CommittedImage(m.files, m.trail, late),
                           m.log, l))
    && (!Succeeded(r) ==> Forgotten(VaultOf(m.files), staged, m.stale, m.log, l))
    && (!hasVault ==> staged == [])
    && (r == Imported || r == RolledBack ==> Quiet(m.files))
    && (r == Uncleaned ==> Committed(m.files))
    && (r in {RolledBack, RollbackUncleaned} ==> TripleOf(m.files) == pre)
  }

  /** What came before in the log does not change that. */
  lemma EndLater(m: Machine, n: nat, l: nat, since: nat, pre: Triple, vault: Vault, dated: bool,
                 contents: BackupContents, merge: bool, hasVault: bool, suffixes: map<Email, nat>, r: ImportResult,
                 staged: seq<Ref>, late: Option<nat>)
    requires ImportEnd(m, n, since, pre, vault, dated, contents, merge, hasVault, suffixes, r, staged, late)
    requires l <= since
    ensures ImportEnd(m, n, l, pre, vault, dated, contents, merge, hasVault, suffixes, r, staged, late)
  {
    if Succeeded(r) || late.Some? {
      VaultedLater(Target(pre, contents, merge), hasVault, suffixes, CommittedImage(m.files, m.trail, late), m.log, l,
                   since);
    }
    if late.Some? {
      WriteFailedSince(m.log, m.log, l, since, JournalFile, Lookup(m.trail[late.value], JournalFile));
    }
    if !Succeeded(r) {
      ForgottenLater(VaultOf(m.files), staged, m.stale, m.log, m.log, l, since);
    }
  }

  /** What keeps an import from going through, failures apart. */
  ghost predicate Importable(pre: Triple, contents: BackupContents, merge: bool, hasVault: bool,
                             suffixes: map<Email, nat>) {
    && Decoded(pre.accounts).Some? && Acceptable(Target(pre, contents, merge))
    && (hasVault ==> SuffixesFor(Target(pre, contents, merge), suffixes))
    && Mergeable(contents.settings, merge, pre.settings)
  }

  /**
   With a vault, each account of the target that has a token ends under its fresh reference,
   without the token in the file and with it in the vault, unless the vault write under that
   reference reported a failure. Any other account is as in the target.
   */
  ghost predicate TokensVaulted(target: Doc, hasVault: bool, suffixes: map<Email, nat>, post: Image, log: seq<Op>,
                                from: nat) {
    && Decoded(Lookup(post, AccountsFile)).Some?
    && var d := Decoded(Lookup(post, AccountsFile)).value;
       forall e | e in target.byEmail ::
         && e in d.byEmail
         && if hasVault && target.byEmail[e].tokenData.Some?
            then e in suffixes && VaultedOrFailed(target.byEmail[e], d.byEmail[e], Nonce(e, suffixes[e]),
                                                  VaultOf(post), log, from)
            else d.byEmail[e] == target.byEmail[e]
  }

  ghost predicate VaultedOrFailed(a: Account, b: Account, ref: Ref, vault: Vault, log: seq<Op>, from: nat) {
    || (b.secretRef == Some(ref) && b.tokenData == None && Entry(vault, ref) == a.tokenData)
    || (b == a && PutFailed(log, from, ref))
  }

  lemma VaultedLater(target: Doc, hasVault: bool, suffixes: map<Email, nat>, post: Image, log: seq<Op>, from: nat,
                     since: nat)
    requires TokensVaulted(target, hasVault, suffixes, post, log, since) && from <= since
    ensures TokensVaulted(target, hasVault, suffixes, post, log, from)
  {
    forall e | e in target.byEmail && hasVault && target.byEmail[e].tokenData.Some? && e in suffixes
      ensures PutFailed(log, since, Nonce(e, suffixes[e])) ==> PutFailed(log, from, Nonce(e, suffixes[e]))
    {
      PutFailedLater(log, log, from, since, Nonce(e, suffixes[e]));
    }
  }

  lemma StagedIsVaulted(target: Doc, hasVault: bool, suffixes: map<Email, nat>, staged: seq<Ref>, post: Image,
                        log: seq<Op>, from: nat)
    requires WellFormed(target) && Decoded(Lookup(post, AccountsFile)).Some?
    requires Decoded(Lookup(post, AccountsFile)).value == StagedDoc(target, suffixes, staged)
    requires Holds(target, suffixes, staged, VaultOf(post))
    requires if hasVault then StagedOrFailed(target, suffixes, staged, target.order, log, from) else staged == []
    ensures TokensVaulted(target, hasVault, suffixes, post, log, from)
  {
    var d := StagedDoc(target, suffixes, staged);
    forall e | e in target.byEmail
      ensures if hasVault && target.byEmail[e].tokenData.Some?
              then e in suffixes && VaultedOrFailed(target.byEmail[e], d.byEmail[e], Nonce(e, suffixes[e]),
                                                    VaultOf(post), log, from)
              else d.byEmail[e] == target.byEmail[e]
    {
      assert e in target.order;
      assert IsStaged(suffixes, staged, e) ==> Nonce(e, suffixes[e]) in staged;
    }
  }

  /** What a successful import leaves, given the files and the vault before it. */
  ghost predicate ImportedAll(pre: Triple, vault: Vault, dated: bool, contents: BackupContents, merge: bool,
                              suffixes: map<Email, nat>, staged: seq<Ref>, post: Image) {
    && ImportedTriple(pre, dated, contents, merge, suffixes, staged, TripleOf(post))
    && Holds(Target(pre, contents, merge), suffixes, staged, VaultOf(post))
    && OthersKept(suffixes, vault, VaultOf(post))
  }

  /** importBackup once no journal is left over. */
  method ImportRecovered(m: Machine, contents: BackupContents, merge: bool, hasVault: bool, suffixes: map<Email, nat>)
    returns (r: ImportResult, staged: seq<Ref>, ghost late: Option<nat>)
    requires m.Valid() && Quiet(m.files) && Unprotected(suffixes, Opened(TripleOf(m.files)))
    modifies m
    ensures m.Valid() && old(m.trail) <= m.trail && old(m.log) <= m.log
    ensures ImportEnd(m, |old(m.trail)|, |old(m.log)|, TripleOf(old(m.files)), VaultOf(old(m.files)),
                      old(m.mtime) != 0, contents, merge, hasVault, suffixes, r, staged, late)
    ensures AllWorked(m.log, |old(m.log)|) && Importable(TripleOf(old(m.files)), contents, merge, hasVault, suffixes)
            ==> r == Imported
  {
    ghost var l, pre, vault, time := |m.log|, TripleOf(m.files), VaultOf(m.files), m.mtime;
    staged, late, r := [], None, Refused;
    var incoming := PrepareImport(m, contents, merge);
    if incoming == None {
      return;
    }
    ghost var log := m.log;
    r, staged, late := ImportPrepared(m, incoming.value, contents, merge, hasVault, suffixes);
    WorkedBefore(log, m.log, l, |log|);
    EndLater(m, |old(m.trail)|, l, |log|, pre, vault, time != 0, contents, merge, hasVault, suffixes, r, staged, late);
  }

  /** From the snapshot on. */
  method ImportPrepared(m: Machine, incoming: Accounts, contents: BackupContents, merge: bool, hasVault: bool,
                        suffixes: map<Email, nat>)
    returns (r: ImportResult, staged: seq<Ref>, ghost late: Option<nat>)
    requires m.Valid() && Quiet(m.files) && Unprotected(suffixes, Opened(TripleOf(m.files)))
    requires WellFormed(incoming.Contents()) && Decoded(Lookup(m.files, AccountsFile)).Some?
    requires incoming.Contents() == Target(TripleOf(m.files), contents, merge) && Acceptable(incoming.Contents())
    modifies m, incoming
    ensures m.Valid() && old(m.trail) <= m.trail && old(m.log) <= m.log
    ensures ImportEnd(m, |old(m.trail)|, |old(m.log)|, TripleOf(old(m.files)), VaultOf(old(m.files)),
                      old(m.mtime) != 0, contents, merge, hasVault, suffixes, r, staged, late)
    ensures AllWorked(m.log, |old(m.log)|) && old(Unhindered(m, incoming, contents.settings, merge, hasVault, suffixes))
            ==> r == Imported
  {
    ghost var n, l, pre, vault := |m.trail|, |m.log|, TripleOf(m.files), VaultOf(m.files);
    ghost var target, time := incoming.Contents(), m.mtime;
    staged, late, r := [], None, Refused;
    var begun, journal := BeginImport(m);
    if !begun {
      return;
    }
    ghost var mid, trail, log := m.files, m.trail, m.log;
    r, staged, late := ImportUnderJournal(m, incoming, contents.settings, merge, hasVault, suffixes, journal);
    assert m.trail[..|trail|] == trail;
    StillAtomic(m, trail, n, |log|, |log|, pre, staged, r, late);
    WorkedBefore(log, m.log, l, |log|);
    UnderJournalEnds(m, n, |log|, mid, pre, vault, time != 0, target, contents, merge, hasVault, suffixes, r, staged,
                     late);
    EndLater(m, n, l, |log|, pre, vault, time != 0, contents, merge, hasVault, suffixes, r, staged, late);
  }

  lemma UnderJournalEnds(m: Machine, n: nat, l: nat, mid: Image, pre: Triple, vault: Vault, dated: bool,
                         target: AccountsDoc, contents: BackupContents, merge: bool, hasVault: bool,
                         suffixes: map<Email, nat>, r: ImportResult, staged: seq<Ref>, late: Option<nat>)
    requires AtomicUnlessLate(m, n, l, pre, staged, r, late)
    requires Decoded(pre.accounts).Some? && target == Target(pre, contents, merge) && Acceptable(target)
    requires TripleOf(mid) == pre && VaultOf(mid) == vault
    requires Succeeded(r) || late.Some? ==>
               && SavedAll(mid, dated, target, contents.settings, merge, suffixes, staged,
                           CommittedImage(m.files, m.trail, late))
               && (hasVault ==> StagedOrFailed(target, suffixes, staged, target.order, m.log, l))
    requires !Succeeded(r) ==> Forgotten(VaultOf(m.files), staged, m.stale, m.log, l)
    requires !hasVault ==> staged == []
    requires r == Imported || r == RolledBack ==> Quiet(m.files)
    requires r == Uncleaned ==> Committed(m.files)
    requires r in {RolledBack, RollbackUncleaned} ==> TripleOf(m.files) == pre
    ensures ImportEnd(m, n, l, pre, vault, dated, contents, merge, hasVault, suffixes, r, staged, late)
  {
    if Succeeded(r) || late.Some? {
      StagedIsVaulted(target, hasVault, suffixes, staged, CommittedImage(m.files, m.trail, late), m.log, l);
      forall e | hasVault && e in target.byEmail && target.byEmail[e].tokenData.Some? ensures e in suffixes {
        assert e in target.order;
      }
    }
  }

  lemma StagedResolves(target: Doc, suffixes: map<Email, nat>, staged: seq<Ref>, vault: Vault, e: Email)
    requires e in target.byEmail && target.byEmail[e].email == e && Holds(target, suffixes, staged, vault)
    ensures Resolve(StagedDoc(target, suffixes, staged).byEmail[e], vault) ==
            if IsStaged(suffixes, staged, e) then target.byEmail[e].tokenData else Resolve(target.byEmail[e], vault)
    ensures IsStaged(suffixes, staged, e) ==> target.byEmail[e].tokenData.Some?
  {
  }

  lemma SavedAccountResolves(pre: Triple, suffixes: map<Email, nat>, before: Vault, after: Vault, e: Email)
    requires Decoded(pre.accounts).Some? && e in Decoded(pre.accounts).value.byEmail
    requires OthersKept(suffixes, before, after) && Unprotected(suffixes, Opened(pre))
    ensures var a := Decoded(pre.accounts).value.byEmail[e]; Resolve(a, after) == Resolve(a, before)
  {
    var d := Decoded(pre.accounts).value;
    forall ref | ref in NamedBy(d.byEmail[e]) ensures SameEntry(before, after, ref) {
      assert Names(d, ref);
      assert Protected(Opened(pre), ref);
    }
    ResolveReadsNamed(d.byEmail[e], before, after);
  }

  /** The backup brings its own token for the account. */
  predicate BringsToken(contents: BackupContents, e: Email) {
    e in contents.accounts.byEmail && contents.accounts.byEmail[e].tokenData.Some?
  }

  lemma MergedAccountsResolve(pre: Triple, contents: BackupContents, suffixes: map<Email, nat>,
                              staged: seq<Ref>, before: Vault, after: Vault, e: Email)
    requires Decoded(pre.accounts).Some? && Trusted(contents.accounts)
    requires Holds(Target(pre, contents, true), suffixes, staged, after)
    requires OthersKept(suffixes, before, after) && Unprotected(suffixes, Opened(pre))
    requires e in Decoded(pre.accounts).value.byEmail || e in contents.accounts.byEmail
    ensures var existing, incoming := Decoded(pre.accounts).value.byEmail, contents.accounts.byEmail;
            var post := StagedDoc(Target(pre, contents, true), suffixes, staged).byEmail;
            && e in post
            && (BringsToken(contents, e) ==> Resolve(post[e], after) == incoming[e].tokenData)
            && (!BringsToken(contents, e) && e !in existing ==> Resolve(post[e], after) == None)
            && (!BringsToken(contents, e) && e in existing ==>
                  && (Resolve(existing[e], before).Some? ==> Resolve(post[e], after).Some?)
                  && (Resolve(post[e], after) == Resolve(existing[e], before)
                      <==>
                      || !IsStaged(suffixes, staged, e) || existing[e].secretRef == None
                      || Resolve(existing[e], before) == existing[e].tokenData))
  {
    var existing, incoming := Decoded(pre.accounts).value, contents.accounts;
    var target := Target(pre, contents, true);
    MergedAt(existing, incoming, |incoming.order|, e);
    assert incoming.order[..|incoming.order|] == incoming.order;
    assert e in target.byEmail && target.byEmail[e].email == e;
    StagedResolves(target, suffixes, staged, after, e);
    if e in existing.byEmail {
      SavedAccountResolves(pre, suffixes, before, after, e);
    }
  }

  /**
   Credentials after a successful import: a backup token replaces the saved credential,
   and in a merge an account without one resolves as before exactly unless staging put its
   plaintext token in place of a reference to another one.
   Replacing all accounts, an account the backup has no token for has none.
   */
  lemma ImportedAccountsResolve(pre: Triple, contents: BackupContents, merge: bool, suffixes: map<Email, nat>,
                                staged: seq<Ref>, before: Vault, after: Vault, e: Email)
    requires Decoded(pre.accounts).Some? && Trusted(contents.accounts)
    requires Holds(Target(pre, contents, merge), suffixes, staged, after)
    requires OthersKept(suffixes, before, after) && Unprotected(suffixes, Opened(pre))
    requires e in Decoded(pre.accounts).value.byEmail || e in contents.accounts.byEmail
    ensures var existing, incoming := Decoded(pre.accounts).value.byEmail, contents.accounts.byEmail;
            var post := StagedDoc(Target(pre, contents, merge), suffixes, staged).byEmail;
            && (e in post <==> merge || e in incoming)
            && (BringsToken(contents, e) ==> Resolve(post[e], after) == incoming[e].tokenData)
            && (e in post && !BringsToken(contents, e) && !(merge && e in existing) ==> Resolve(post[e], after) == None)
            && (merge && !BringsToken(contents, e) && e in existing ==>
                  && (Resolve(existing[e], before).Some? ==> Resolve(post[e], after).Some?)
                  && (Resolve(post[e], after) == Resolve(existing[e], before)
                      <==>
                      || !IsStaged(suffixes, staged, e) || existing[e].secretRef == None
                      || Resolve(existing[e], before) == existing[e].tokenData))
  {
    if merge {
      MergedAccountsResolve(pre, contents, suffixes, staged, before, after, e);
    } else if e in contents.accounts.byEmail {
      StagedResolves(Target(pre, contents, merge), suffixes, staged, after, e);
    }
  }

  /**
   A merged account that kept both a plaintext token and a reference ends up with the
   plaintext token: staging replaces the reference whatever it resolved to.
   */
  lemma StagingPrefersPlaintext()
    ensures var e := Email("a@x.io");
            var t, u := Token(true, "t", "", None, None, 0), Token(true, "u", "", None, None, 0);
            var a := Account(e, Some(Det(e)), Some(u), None, None, None, Notes(None, None, NoTier, 0));
            var d := Doc([e], map[e := a]);
            var staged := [Nonce(e, 7)];
            && Resolve(a, map[Det(e) := t]) == Some(t)
            && Resolve(StagedDoc(d, map[e := 7], staged).byEmail[e], map[Det(e) := t, Nonce(e, 7) := u]) == Some(u)
  {
  }

  // ----- a late commit that loses a token -----

  const ALICE := Email("a@x.io")
  const HERS := Token(true, "t", "", None, None, 0)
  const PLAIN := Account(ALICE, None, Some(HERS), None, None, None, Notes(None, None, NoTier, 0))
  const MOVED := PLAIN.(secretRef := Some(Nonce(ALICE, 7)), tokenData := None)
  const BEFORE: AccountsDoc := Doc([ALICE], map[ALICE := PLAIN])
  const AFTER: AccountsDoc := Doc([ALICE], map[ALICE := MOVED])
  const NOTHING: AccountsDoc := NO_ACCOUNTS

  /** accounts.json and its backup hold the one account with a plaintext token. */
  const OLD := Triple(Some(AccountsJson(BEFORE)), Some(AccountsJson(BEFORE)), None)

  /** Importing an empty backup, the commit landed and was reported as failed. */
  const LANDED: Image := map[AccountsFile := AccountsJson(AFTER), BackupFile := AccountsJson(BEFORE),
    JournalFile := JournalJson(Opened(OLD).(committed := true)), Secrets := VaultMap(map[Nonce(ALICE, 7) := HERS])]

  /** The rollback dropped the staged entry and was cut off. */
  const DROPPED: Image := LANDED[Secrets := VaultMap(map[])]

  /**
   A run of that kind: a merge moves the token to a fresh reference, so only accounts.json
   changes. The commit lands with an error, the rollback drops the staged entry and is cut
   off: recovery then leaves the committed files, and the account has lost its token.
   */
  lemma LateCommitLosesToken()
    ensures var contents := BackupContents(NOTHING, None);
            ImportedAll(OLD, map[], true, contents, true, map[ALICE := 7], [Nonce(ALICE, 7)], LANDED)
    ensures Pending(LANDED[JournalFile := JournalJson(Opened(OLD))]) && Committed(LANDED)
    ensures SameBut(LANDED, DROPPED, Secrets) && VaultOf(DROPPED) == VaultOf(LANDED) - {Nonce(ALICE, 7)}
    ensures HalfUndone(LANDED, OLD, [Nonce(ALICE, 7)], {}, DROPPED) && !DifferInTwo(OLD, TripleOf(LANDED))
    ensures Committed(DROPPED) && Recovered(DROPPED) == TripleOf(LANDED)
    ensures Resolve(MOVED, VaultOf(LANDED)) == Some(HERS) && Resolve(MOVED, VaultOf(DROPPED)) == None
    ensures !Whole(LANDED, OLD, DROPPED)
  {
    LandedIsImported();
    LandedIsCommitted();
    DroppedLosesToken();
  }

  lemma LandedIsCommitted()
    ensures Pending(LANDED[JournalFile := JournalJson(Opened(OLD))]) && Committed(LANDED) && Committed(DROPPED)
    ensures !DifferInTwo(OLD, TripleOf(LANDED))
  {
  }

  lemma DroppedLosesToken()
    ensures SameBut(LANDED, DROPPED, Secrets) && VaultOf(DROPPED) == VaultOf(LANDED) - {Nonce(ALICE, 7)}
    ensures HalfUndone(LANDED, OLD, [Nonce(ALICE, 7)], {}, DROPPED) && Recovered(DROPPED) == TripleOf(LANDED)
    ensures Resolve(MOVED, VaultOf(LANDED)) == Some(HERS) && Resolve(MOVED, VaultOf(DROPPED)) == None
    ensures !Whole(LANDED, OLD, DROPPED)
  {
    assert AFTER.byEmail[ALICE] == MOVED && BEFORE.byEmail[ALICE] != MOVED;
    assert TripleOf(DROPPED) == TripleOf(LANDED) && Decoded(TripleOf(LANDED).accounts) == Some(AFTER);
    assert forall p | p != Secrets :: Lookup(LANDED, p) == Lookup(DROPPED, p);
  }

  lemma LandedIsImported()
    ensures var contents := BackupContents(NOTHING, None);
            ImportedAll(OLD, map[], true, contents, true, map[ALICE := 7], [Nonce(ALICE, 7)], LANDED)
  {
    assert Merged(BEFORE, NOTHING, 0) == BEFORE;
    assert StagedDoc(BEFORE, map[ALICE := 7], [Nonce(ALICE, 7)]) == AFTER by {
      assert Nonce(ALICE, 7) in [Nonce(ALICE, 7)];
    }
  }
}
