/**
 The undo-log protocol of a backup import, as the durable images it may step through,
 and what every run of it keeps. A run strings together the writes of any number of
 imports, rollbacks and recoveries, each cut off by a crash at any point.
 */
module RestoreProtocol {
  import opened Model
  import opened Durable

  /** accounts.json, accounts.json.bak and config.json. */
  datatype Triple = Triple(accounts: Option<Content>, backup: Option<Content>, settings: Option<Content>)

  function TripleOf(img: Image): Triple {
    Triple(Lookup(img, AccountsFile), Lookup(img, BackupFile), Lookup(img, SettingsFile))
  }

  function Kept(j: Journal): Triple {
    Triple(j.accounts, j.backup, j.settings)
  }

  function Opened(t: Triple): Journal {
    Journal(false, t.accounts, t.backup, t.settings)
  }

  function JournalOf(img: Image): Option<Journal> {
    match Lookup(img, JournalFile)
    case Some(JournalJson(j)) => Some(j)
    case _ => None
  }

  predicate Quiet(img: Image) { JournalFile !in img }

  predicate Pending(img: Image) { JournalOf(img).Some? && !JournalOf(img).value.committed }

  predicate Committed(img: Image) { JournalOf(img).Some? && JournalOf(img).value.committed }

  /** The three files as the next completed recovery will leave them. */
  function Recovered(img: Image): Triple {
    if Pending(img) then Kept(JournalOf(img).value) else TripleOf(img)
  }

  /** A vault entry that the journalled accounts.json or its backup may need. */
  ghost predicate Protected(j: Journal, ref: Ref) {
    || (Decoded(j.accounts).Some? && Names(Decoded(j.accounts).value, ref))
    || (Decoded(j.backup).Some? && Names(Decoded(j.backup).value, ref))
  }

  ghost predicate SameEntry(v: Vault, w: Vault, ref: Ref) {
    (ref in v <==> ref in w) && (ref in v ==> v[ref] == w[ref])
  }

  ghost predicate Begins(a: Image, b: Image) {
    Quiet(a) && b == a[JournalFile := JournalJson(Opened(TripleOf(a)))]
  }

  ghost predicate Rewrites(a: Image, b: Image) {
    Pending(a) && (SameBut(a, b, AccountsFile) || SameBut(a, b, BackupFile) || SameBut(a, b, SettingsFile))
  }

  ghost predicate ChangesSecrets(a: Image, b: Image) {
    && Pending(a) && SameBut(a, b, Secrets)
    && forall ref | Protected(JournalOf(a).value, ref) :: SameEntry(VaultOf(a), VaultOf(b), ref)
  }

  ghost predicate Commits(a: Image, b: Image) {
    Pending(a) && b == a[JournalFile := JournalJson(JournalOf(a).value.(committed := true))]
  }

  ghost predicate Clears(a: Image, b: Image) {
    && (Committed(a) || (Pending(a) && TripleOf(a) == Kept(JournalOf(a).value)))
    && b == a - {JournalFile}
  }

  /** One durable write of an import, a rollback or a recovery. */
  ghost predicate Step(a: Image, b: Image) {
    a == b || Begins(a, b) || Rewrites(a, b) || ChangesSecrets(a, b) || Commits(a, b) || Clears(a, b)
  }

  ghost predicate Run(r: seq<Image>) {
    |r| > 0 && forall i, j {:trigger r[i], r[j]} | 0 <= i < |r| - 1 && j == i + 1 :: Step(r[i], r[j])
  }

  /** What the files become does not change at any write except the commit. */
  lemma StepKeepsRecovered(a: Image, b: Image)
    requires Step(a, b)
    ensures if Commits(a, b) then Recovered(b) == TripleOf(a) else Recovered(b) == Recovered(a)
    ensures Pending(a) ==> Quiet(b) || (JournalOf(b).Some? && Kept(JournalOf(b).value) == Kept(JournalOf(a).value))
    ensures Pending(b) ==> !Committed(a)
    ensures Committed(b) ==> Committed(a) || Commits(a, b)
  {
    if a != b {
      assert Rewrites(a, b) || ChangesSecrets(a, b) ==> Lookup(a, JournalFile) == Lookup(b, JournalFile);
    }
  }

  /** An import that began in r[i] and whose journal is gone again in r[k]. */
  ghost predicate Episode(r: seq<Image>, i: nat, k: nat) {
    && Run(r) && i + 1 < k < |r|
    && Quiet(r[i]) && Pending(r[i + 1]) && Quiet(r[k])
    && forall c | i < c < k :: !Quiet(r[c])
  }

  /** Within an episode: the journal always keeps the starting files, and a commit is for good. */
  lemma {:induction false} EpisodeSoFar(r: seq<Image>, i: nat, k: nat, c: nat)
    requires Episode(r, i, k) && i < c < k
    ensures JournalOf(r[c]).Some? && Kept(JournalOf(r[c]).value) == TripleOf(r[i])
    ensures !Committed(r[c]) ==> Recovered(r[c]) == TripleOf(r[i])
    decreases c
  {
    var a, b := r[c - 1], r[c];
    assert Step(a, b) && !Quiet(b);
    if c > i + 1 {
      EpisodeSoFar(r, i, k, c - 1);
      JournalStays(a, b);
    } else {
      JournalStarts(a, b);
    }
  }

  /** The first journal records the files as they are. */
  lemma JournalStarts(a: Image, b: Image)
    requires Step(a, b) && Quiet(a) && Pending(b)
    ensures JournalOf(b).Some? && Kept(JournalOf(b).value) == TripleOf(a) && Recovered(b) == TripleOf(a)
  {
    assert !Rewrites(a, b) && !ChangesSecrets(a, b) && !Commits(a, b) && !Clears(a, b);
  }

  /** A write that leaves the journal in place keeps what it recorded. */
  lemma JournalStays(a: Image, b: Image)
    requires Step(a, b) && JournalOf(a).Some? && !Quiet(b)
    ensures JournalOf(b).Some? && Kept(JournalOf(b).value) == Kept(JournalOf(a).value)
    ensures !Committed(b) ==> !Committed(a) && Recovered(b) == Recovered(a)
  {
    StepKeepsRecovered(a, b);
    assert !Begins(a, b) && !Clears(a, b);
    assert Commits(a, b) || Lookup(a, JournalFile) == Lookup(b, JournalFile);
  }

  lemma {:induction false} CommitIsFinal(r: seq<Image>, i: nat, k: nat, c: nat)
    requires Episode(r, i, k) && i < c < k && Committed(r[c])
    ensures TripleOf(r[k]) == TripleOf(r[c]) && VaultOf(r[k]) == VaultOf(r[c])
    decreases k - c
  {
    var a, b := r[c], r[c + 1];
    assert Step(a, b);
    assert !Begins(a, b) && !Rewrites(a, b) && !ChangesSecrets(a, b) && !Commits(a, b);
    if c + 1 < k {
      CommitIsFinal(r, i, k, c + 1);
    }
  }

  /**
   Import is atomic over every run: whatever was interrupted in between, the files end
   exactly as before the import if no commit was durable, and exactly as committed
   otherwise, and a recovery at any point in between is bound for that same end.
   */
  lemma RestoreIsAtomic(r: seq<Image>, i: nat, k: nat)
    requires Episode(r, i, k)
    ensures if Committed(r[k - 1])
            then forall c | i < c < k && Committed(r[c]) :: TripleOf(r[k]) == TripleOf(r[c])
            else TripleOf(r[k]) == TripleOf(r[i])
    ensures forall c | i < c < k ::
              Recovered(r[c]) == if Committed(r[c]) then TripleOf(r[k]) else TripleOf(r[i])
  {
    forall c | i < c < k
      ensures Recovered(r[c]) == if Committed(r[c]) then TripleOf(r[k]) else TripleOf(r[i])
    {
      EpisodeSoFar(r, i, k, c);
      if Committed(r[c]) {
        CommitIsFinal(r, i, k, c);
      }
    }
    EpisodeSoFar(r, i, k, k - 1);
    assert Step(r[k - 1], r[k]);
    StepKeepsRecovered(r[k - 1], r[k]);
    assert !Commits(r[k - 1], r[k]);
  }

  /**
   No import run leaves a dangling secret: at every point of the episode, each account
   of the accounts.json or the backup it began with resolves to the token it had.
   */
  lemma {:induction false} SecretsSurvive(r: seq<Image>, i: nat, k: nat, c: nat, d: Doc, e: Email)
    requires Episode(r, i, k) && i <= c <= k
    requires Some(d) in {Decoded(Lookup(r[i], AccountsFile)), Decoded(Lookup(r[i], BackupFile))}
    requires e in d.byEmail
    ensures Resolve(d.byEmail[e], VaultOf(r[c])) == Resolve(d.byEmail[e], VaultOf(r[i]))
    decreases c
  {
    if c > i {
      SecretsSurvive(r, i, k, c - 1, d, e);
      EpisodeStepKeepsTokens(r, i, k, c - 1, d, e);
    }
  }

  lemma EpisodeStepKeepsTokens(r: seq<Image>, i: nat, k: nat, c: nat, d: Doc, e: Email)
    requires Episode(r, i, k) && i <= c < k && e in d.byEmail
    requires Some(d) in {Decoded(Lookup(r[i], AccountsFile)), Decoded(Lookup(r[i], BackupFile))}
    ensures Resolve(d.byEmail[e], VaultOf(r[c + 1])) == Resolve(d.byEmail[e], VaultOf(r[c]))
  {
    JournalNames(r, i, k, c, d);
    StepKeepsTokens(r[c], r[c + 1], d, e);
  }

  /** The journal of an episode names the files it began with. */
  lemma JournalNames(r: seq<Image>, i: nat, k: nat, c: nat, d: Doc)
    requires Episode(r, i, k) && i <= c < k
    requires Some(d) in {Decoded(Lookup(r[i], AccountsFile)), Decoded(Lookup(r[i], BackupFile))}
    ensures Step(r[c], r[c + 1])
    ensures Pending(r[c]) ==>
              Some(d) in {Decoded(JournalOf(r[c]).value.accounts), Decoded(JournalOf(r[c]).value.backup)}
  {
    if c > i {
      EpisodeSoFar(r, i, k, c);
    } else {
      assert Quiet(r[i]);
    }
  }

  lemma StepKeepsTokens(a: Image, b: Image, d: Doc, e: Email)
    requires Step(a, b) && e in d.byEmail
    requires Pending(a) ==> Some(d) in {Decoded(JournalOf(a).value.accounts), Decoded(JournalOf(a).value.backup)}
    ensures Resolve(d.byEmail[e], VaultOf(b)) == Resolve(d.byEmail[e], VaultOf(a))
  {
    if ChangesSecrets(a, b) {
      ProtectedResolves(a, b, d, e);
    } else {
      assert Lookup(a, Secrets) == Lookup(b, Secrets);
    }
  }

  /** A vault change under a journal leaves the accounts of the journalled files their tokens. */
  lemma ProtectedResolves(a: Image, b: Image, d: Doc, e: Email)
    requires ChangesSecrets(a, b) && e in d.byEmail
    requires Some(d) in {Decoded(JournalOf(a).value.accounts), Decoded(JournalOf(a).value.backup)}
    ensures Resolve(d.byEmail[e], VaultOf(b)) == Resolve(d.byEmail[e], VaultOf(a))
  {
    forall ref | ref in NamedBy(d.byEmail[e]) ensures SameEntry(VaultOf(a), VaultOf(b), ref) {
      assert Names(d, ref);
      assert Protected(JournalOf(a).value, ref);
    }
    ResolveReadsNamed(d.byEmail[e], VaultOf(a), VaultOf(b));
  }

  lemma ResolveReadsNamed(a: Account, v: Vault, w: Vault)
    requires forall ref | ref in NamedBy(a) :: SameEntry(v, w, ref)
    ensures Resolve(a, v) == Resolve(a, w)
  {
    match a.secretRef
    case None =>
    case Some(ref) =>
      assert SameEntry(v, w, ref) && SameEntry(v, w, Det(a.email));
  }

  // ----- crashes -----

  /**
   Commands run one after another: command n leaves `cuts[n]` of its images behind before
   it ends or crashes, and the next one starts on the last of them.
   */
  ghost predicate Interrupted(commands: seq<seq<Image>>, cuts: seq<nat>) {
    && |commands| == |cuts|
    && (forall n | 0 <= n < |commands| :: Run(commands[n]) && 0 < cuts[n] <= |commands[n]|)
    && (forall n | 0 <= n < |commands| - 1 :: commands[n + 1][0] == commands[n][cuts[n] - 1])
  }

  ghost function History(commands: seq<seq<Image>>, cuts: seq<nat>): seq<Image>
    requires Interrupted(commands, cuts)
  {
    if commands == [] then []
    else
      assert Interrupted(commands[..|commands| - 1], cuts[..|cuts| - 1]);
      History(commands[..|commands| - 1], cuts[..|cuts| - 1])
      + commands[|commands| - 1][..cuts[|cuts| - 1]]
  }

  lemma RunPrefix(r: seq<Image>, n: nat)
    requires Run(r) && 0 < n <= |r|
    ensures Run(r[..n])
  {
    forall i {:trigger r[..n][i]} | 0 <= i < n - 1 ensures Step(r[..n][i], r[..n][i + 1]) {
      assert r[..n][i] == r[i] && r[..n][i + 1] == r[i + 1];
    }
  }

  lemma RunsJoin(before: seq<Image>, tail: seq<Image>)
    requires Run(before) && Run(tail) && before[|before| - 1] == tail[0]
    ensures Run(before + tail)
  {
    var h := before + tail;
    forall i {:trigger h[i]} | 0 <= i < |h| - 1 ensures Step(h[i], h[i + 1]) {
      if i < |before| - 1 {
        assert h[i] == before[i] && h[i + 1] == before[i + 1];
      } else if i == |before| - 1 {
        assert h[i] == before[i] && h[i + 1] == tail[0];
      } else {
        assert h[i] == tail[i - |before|] && h[i + 1] == tail[i - |before| + 1];
      }
    }
  }

  /** However the commands were cut off, what reached the disk is a run of the protocol. */
  lemma {:induction false} CrashesMakeRuns(commands: seq<seq<Image>>, cuts: seq<nat>)
    requires Interrupted(commands, cuts) && commands != []
    ensures Run(History(commands, cuts))
    ensures var h := History(commands, cuts);
            h[0] == commands[0][0] && h[|h| - 1] == commands[|commands| - 1][cuts[|cuts| - 1] - 1]
  {
    var n := |commands| - 1;
    CommandsBefore(commands, cuts);
    RunPrefix(commands[n], cuts[n]);
    if n > 0 {
      CrashesMakeRuns(commands[..n], cuts[..n]);
      RunsJoin(History(commands[..n], cuts[..n]), commands[n][..cuts[n]]);
    }
  }

  /** What the last of some commands adds to their history. */
  lemma CommandsBefore(commands: seq<seq<Image>>, cuts: seq<nat>)
    requires Interrupted(commands, cuts) && commands != []
    ensures var n := |commands| - 1;
            && Interrupted(commands[..n], cuts[..n])
            && History(commands, cuts) == History(commands[..n], cuts[..n]) + commands[n][..cuts[n]]
            && (n == 0 ==> History(commands, cuts) == commands[0][..cuts[0]])
            && (n > 0 ==> commands[n][0] == commands[..n][n - 1][cuts[..n][n - 1] - 1])
  {
    var n := |commands| - 1;
    EarlierCommands(commands, cuts);
    if n == 0 {
      assert commands[..0] == [] && [] + commands[0][..cuts[0]] == commands[0][..cuts[0]];
    }
  }

  lemma EarlierCommands(commands: seq<seq<Image>>, cuts: seq<nat>)
    requires Interrupted(commands, cuts) && commands != []
    ensures var n := |commands| - 1;
            && Interrupted(commands[..n], cuts[..n])
            && (n > 0 ==> commands[n][0] == commands[..n][n - 1][cuts[..n][n - 1] - 1])
  {
    var n := |commands| - 1;
    if n > 0 {
      assert commands[n - 1 + 1][0] == commands[n - 1][cuts[n - 1] - 1];
    }
  }

  // ----- a commit that is reported as failed -----

  /** The vault w is v but for staged entries that are gone, or replaced by an older one. */
  ghost predicate StagedGone(v: Vault, w: Vault, staged: seq<Ref>, stale: set<Ref>) {
    forall ref {:trigger SameEntry(v, w, ref)} :: SameEntry(v, w, ref) || (ref in staged && (ref !in w || ref in stale))
  }

  /**
   What a rollback may leave of `base` at any point: each file still there or put back, staged
   entries there or gone.
   */
  ghost predicate HalfUndone(base: Image, kept: Triple, staged: seq<Ref>, stale: set<Ref>, img: Image) {
    && Lookup(img, AccountsFile) in {Lookup(base, AccountsFile), kept.accounts}
    && Lookup(img, BackupFile) in {Lookup(base, BackupFile), kept.backup}
    && Lookup(img, SettingsFile) in {Lookup(base, SettingsFile), kept.settings}
    && StagedGone(VaultOf(base), VaultOf(img), staged, stale)
  }

  /** Every account of the file resolves alike with both vaults. */
  ghost predicate SameTokensIn(accounts: Option<Content>, v: Vault, w: Vault) {
    Decoded(accounts).Some? ==>
      forall e | e in Decoded(accounts).value.byEmail ::
        Resolve(Decoded(accounts).value.byEmail[e], w) == Resolve(Decoded(accounts).value.byEmail[e], v)
  }

  /** Files and tokens together are those before the import, or those it committed. */
  ghost predicate Whole(base: Image, kept: Triple, img: Image) {
    || (TripleOf(img) == kept && SameTokensIn(kept.accounts, VaultOf(base), VaultOf(img)))
    || (TripleOf(img) == TripleOf(base) && SameTokensIn(TripleOf(base).accounts, VaultOf(base), VaultOf(img)))
  }

  predicate DifferInTwo(t: Triple, u: Triple) {
    || (t.accounts != u.accounts && t.backup != u.backup)
    || (t.accounts != u.accounts && t.settings != u.settings)
    || (t.backup != u.backup && t.settings != u.settings)
  }

  /** Every account moved to a staged entry has the same token under its own reference as well. */
  ghost predicate Doubled(d: Doc, staged: seq<Ref>, v: Vault) {
    forall e | e in d.byEmail :: DoubledAccount(d.byEmail[e], staged, v)
  }

  predicate DoubledAccount(a: Account, staged: seq<Ref>, v: Vault) {
    a.secretRef.Some? && a.secretRef.value in staged && a.secretRef.value in v ==>
      Det(a.email) in v && v[Det(a.email)] == v[a.secretRef.value]
  }

  /** The committed image of a late commit, and what the rollback may drop from its vault. */
  ghost predicate LateStart(base: Image, kept: Triple, staged: seq<Ref>, stale: set<Ref>) {
    && Decoded(Lookup(base, AccountsFile)).Some?
    && forall ref | ref in staged :: ref.Nonce? && ref !in stale && !Protected(Opened(kept), ref)
  }

  lemma DroppedEntryResolves(a: Account, v: Vault, w: Vault, staged: seq<Ref>, stale: set<Ref>)
    requires StagedGone(v, w, staged, stale) && DoubledAccount(a, staged, v)
    requires forall ref | ref in staged :: ref.Nonce? && ref !in stale
    ensures Resolve(a, w) == Resolve(a, v)
  {
    assert SameEntry(v, w, Det(a.email));
    if a.secretRef.Some? {
      assert SameEntry(v, w, a.secretRef.value) || a.secretRef.value !in w;
    }
  }

  lemma KeptAccountResolves(kept: Triple, v: Vault, w: Vault, staged: seq<Ref>, stale: set<Ref>, e: Email)
    requires StagedGone(v, w, staged, stale) && forall ref | ref in staged :: !Protected(Opened(kept), ref)
    requires Decoded(kept.accounts).Some? && e in Decoded(kept.accounts).value.byEmail
    ensures var a := Decoded(kept.accounts).value.byEmail[e]; Resolve(a, w) == Resolve(a, v)
  {
    var d := Decoded(kept.accounts).value;
    forall ref | ref in NamedBy(d.byEmail[e]) ensures SameEntry(v, w, ref) {
      assert Names(d, ref) && Protected(Opened(kept), ref);
    }
    ResolveReadsNamed(d.byEmail[e], v, w);
  }

  lemma HalfUndoneIsWhole(base: Image, kept: Triple, staged: seq<Ref>, stale: set<Ref>, img: Image)
    requires LateStart(base, kept, staged, stale) && HalfUndone(base, kept, staged, stale, img)
    requires !DifferInTwo(kept, TripleOf(base))
             && Doubled(Decoded(Lookup(base, AccountsFile)).value, staged, VaultOf(base))
    ensures Whole(base, kept, img)
  {
    if TripleOf(img) == TripleOf(base) {
      var d := Decoded(Lookup(base, AccountsFile)).value;
      forall e | e in d.byEmail ensures Resolve(d.byEmail[e], VaultOf(img)) == Resolve(d.byEmail[e], VaultOf(base)) {
        DroppedEntryResolves(d.byEmail[e], VaultOf(base), VaultOf(img), staged, stale);
      }
    } else if Decoded(kept.accounts).Some? {
      var d := Decoded(kept.accounts).value;
      forall e | e in d.byEmail ensures Resolve(d.byEmail[e], VaultOf(img)) == Resolve(d.byEmail[e], VaultOf(base)) {
        KeptAccountResolves(kept, VaultOf(base), VaultOf(img), staged, stale, e);
      }
    }
  }

  /** Two files differ: an image with only one of them put back is neither. */
  lemma OneFileBack(base: Image, kept: Triple, staged: seq<Ref>, stale: set<Ref>) returns (img: Image)
    requires DifferInTwo(kept, TripleOf(base))
    ensures HalfUndone(base, kept, staged, stale, img) && !Whole(base, kept, img)
  {
    var t := TripleOf(base);
    var path := if kept.accounts != t.accounts then AccountsFile else BackupFile;
    img := Replace(base, path, if path == AccountsFile then kept.accounts else kept.backup);
    assert Lookup(img, Secrets) == Lookup(base, Secrets);
  }

  /** A staged entry without a double: once it is dropped its account has lost its token. */
  lemma OneEntryGone(base: Image, kept: Triple, staged: seq<Ref>, stale: set<Ref>, e: Email) returns (img: Image)
    requires LateStart(base, kept, staged, stale)
    requires var d := Decoded(Lookup(base, AccountsFile)).value;
             e in d.byEmail && !DoubledAccount(d.byEmail[e], staged, VaultOf(base))
    ensures HalfUndone(base, kept, staged, stale, img) && !Whole(base, kept, img)
    ensures SameBut(base, img, Secrets)
  {
    var d, v := Decoded(Lookup(base, AccountsFile)).value, VaultOf(base);
    var ref := d.byEmail[e].secretRef.value;
    img := base[Secrets := VaultMap(v - {ref})];
    assert forall p | p != Secrets :: Lookup(img, p) == Lookup(base, p);
    assert TripleOf(img) == TripleOf(base) && VaultOf(img) == v - {ref};
    assert Names(d, ref);
    assert TripleOf(base) != kept;
    assert Resolve(d.byEmail[e], VaultOf(img)) != Resolve(d.byEmail[e], v);
  }

  /**
   If the commit write lands but reports an error, the source rolls back with a committed
   journal on disk, and no recovery undoes a rollback cut short. It drops the staged vault
   entries first. Files and tokens together are then all old or all new at every crash point
   exactly when the import changed at most one of the three files and every account moved to
   a staged entry still has the same token under its own reference.
   */
  lemma LateCommitIsAtomicIff(base: Image, kept: Triple, staged: seq<Ref>, stale: set<Ref>)
    requires LateStart(base, kept, staged, stale)
    ensures (forall img | HalfUndone(base, kept, staged, stale, img) :: Whole(base, kept, img))
            <==> !DifferInTwo(kept, TripleOf(base))
                 && Doubled(Decoded(Lookup(base, AccountsFile)).value, staged, VaultOf(base))
  {
    var d := Decoded(Lookup(base, AccountsFile)).value;
    if DifferInTwo(kept, TripleOf(base)) {
      var img := OneFileBack(base, kept, staged, stale);
    } else if !Doubled(d, staged, VaultOf(base)) {
      var e :| e in d.byEmail && !DoubledAccount(d.byEmail[e], staged, VaultOf(base));
      var img := OneEntryGone(base, kept, staged, stale, e);
    } else {
      forall img | HalfUndone(base, kept, staged, stale, img) ensures Whole(base, kept, img) {
        HalfUndoneIsWhole(base, kept, staged, stale, img);
      }
    }
  }
}
