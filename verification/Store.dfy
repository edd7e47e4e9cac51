/** accounts.json: the loaded accounts, and the optimistic save (internal/app/store.go, model.go). */
module Store {
  import opened Model
  import opened Durable

  /** The accounts a process holds in memory, with the revision they were read at. */
  class Accounts {
    var Order: seq<Email>
    var ByEmail: map<Email, Account>
    var revision: int
    /** What the revision hash was taken of; None is the empty hash. */
    var revisionHash: Option<Content>

    function Contents(): Doc
      reads this
    {
      Doc(Order, ByEmail)
    }

    constructor (d: Doc, revision: int, revisionHash: Option<Content>)
      ensures Contents() == d && this.revision == revision && this.revisionHash == revisionHash
    {
      Order, ByEmail, this.revision, this.revisionHash := d.order, d.byEmail, revision, revisionHash;
    }

    method Set(e: Email, a: Account)
      modifies this`Order, this`ByEmail
      ensures Contents() == Put(old(Contents()), e, a)
    {
      if e !in ByEmail {
        Order := Order + [e];
      }
      ByEmail := ByEmail[e := a];
    }

    method Delete(e: Email)
      modifies this`Order, this`ByEmail
      ensures Contents() == Dropped(old(Contents()), e)
    {
      if e !in ByEmail {
        return;
      }
      ByEmail := ByEmail - {e};
      var i := 0;
      while i < |Order|
        invariant 0 <= i <= |Order| && Order == old(Order)
        invariant e !in Order[..i]
      {
        if Order[i] == e {
          WithoutAt(Order, e, i);
          Order := Order[..i] + Order[i + 1..];
          return;
        }
        i := i + 1;
      }
      WithoutAbsent(Order, e);
    }
  }

  lemma {:induction false} WithoutAt(s: seq<Email>, e: Email, i: nat)
    requires i < |s| && s[i] == e && e !in s[..i]
    ensures Without(s, e) == s[..i] + s[i + 1..]
  {
    if i > 0 {
      assert s[0] in s[..i] && s[1..][..i - 1] == s[..i][1..];
      WithoutAt(s[1..], e, i - 1);
      assert s[..i] == [s[0]] + s[1..][..i - 1];
    }
  }

  lemma {:induction false} WithoutAbsent(s: seq<Email>, e: Email)
    requires e !in s
    ensures Without(s, e) == s
  {
    if s != [] {
      WithoutAbsent(s[1..], e);
    }
  }

  /** validateAccounts, on the fields of this model. */
  predicate Acceptable(d: Doc) {
    forall e | e in d.order ::
      && e in d.byEmail
      && (var token := d.byEmail[e].tokenData;
          token == None || token.value.hint == None || token.value.hint.value == e)
  }

  /** Modification time of accounts.json as saveUnlocked sees it: 0 also means "no file". */
  function RevisionOf(file: Option<Content>, mtime: int): int {
    if file == None then 0 else mtime
  }

  /** What a load of this file remembers as its revision hash. */
  function HashOf(file: Option<Content>): Option<Content> { file }

  /** The conflict check of saveUnlocked. */
  predicate SaveAllowed(revision: int, hash: Option<Content>, file: Option<Content>, mtime: int) {
    var current := RevisionOf(file, mtime);
    revision == current && (current != 0 ==> hash == None || hash == HashOf(file))
  }

  /** What a process holds of accounts.json: what it read, and what it will save. */
  datatype Copy = Copy(revision: int, hash: Option<Content>, doc: AccountsDoc)

  /** What a load takes; `dated` says that the file's time could be read as well. */
  function CopyOf(file: Option<Content>, mtime: int, dated: bool): Copy
    requires Decoded(file).Some?
  {
    Copy(if dated then RevisionOf(file, mtime) else 0, HashOf(file), Decoded(file).value)
  }

  /**
   The conflict check, for a copy loaded at revision r of `was`: it lets the save through
   exactly if both revisions are 0, whatever the contents, or the revisions are equal and the
   content is the one loaded. So a save replaces what was loaded unless the copy and the file
   both have no date: dated at the epoch, missing, or loaded while the date could not be read.
   */
  lemma SaveReplacesWhatWasLoaded(was: Option<Content>, wasTime: int, r: int, now: Option<Content>, nowTime: int)
    requires r in {0, RevisionOf(was, wasTime)}
    ensures var current := RevisionOf(now, nowTime);
            && (SaveAllowed(r, HashOf(was), now, nowTime)
               <==> (r == 0 && current == 0) || (r == current != 0 && was == now))
            && (!(r == 0 && current == 0) && SaveAllowed(r, HashOf(was), now, nowTime) ==> was == now)
  {
  }

  datatype SaveResult = Saved | Conflict | Failed

  /** How a save ends if nothing it runs into fails. */
  function SaveOutcome(d: Doc, allowed: bool): SaveResult {
    if !Acceptable(d) then Failed else if allowed then Saved else Conflict
  }

  /** The image a successful save leaves. */
  function SavedImage(img: Image, mtime: int, payload: AccountsDoc): Image {
    var kept := if RevisionOf(Lookup(img, AccountsFile), mtime) != 0
                then Replace(img, BackupFile, Lookup(img, AccountsFile)) else img;
    kept[AccountsFile := AccountsJson(payload)]
  }

  /** Every image a save can leave behind: nothing done, backup written, all written. */
  ghost predicate SaveStage(img: Image, mtime: int, payload: AccountsDoc, mid: Image) {
    || mid == img
    || (RevisionOf(Lookup(img, AccountsFile), mtime) != 0 && mid == Replace(img, BackupFile, Lookup(img, AccountsFile)))
    || mid == SavedImage(img, mtime, payload)
  }

  ghost predicate OneFileSteps(trail: seq<Image>, from: nat) {
    forall i, j {:trigger trail[i], trail[j]} | from <= i < |trail| - 1 && j == i + 1 ::
      SameBut(trail[i], trail[j], BackupFile) || SameBut(trail[i], trail[j], AccountsFile)
  }

  /** saveUnlocked: check the revision, keep the old file as accounts.json.bak, write the new one. */
  method SaveUnlocked(m: Machine, accounts: Accounts) returns (r: SaveResult)
    requires m.Valid() && WellFormed(accounts.Contents())
    modifies m, accounts`revision, accounts`revisionHash
    ensures m.Valid() && old(m.trail) <= m.trail
    ensures OneFileSteps(m.trail, |old(m.trail)| - 1)
    ensures forall i | |old(m.trail)| <= i < |m.trail| ::
              SaveStage(old(m.files), old(m.mtime), accounts.Contents(), m.trail[i])
    ensures r == Saved ==>
              && old(SaveAllowed(accounts.revision, accounts.revisionHash, Lookup(m.files, AccountsFile), m.mtime))
              && m.files == SavedImage(old(m.files), old(m.mtime), accounts.Contents())
              && accounts.revision == m.mtime && accounts.revisionHash == HashOf(Lookup(m.files, AccountsFile))
    ensures r == Conflict ==>
              && !old(SaveAllowed(accounts.revision, accounts.revisionHash, Lookup(m.files, AccountsFile), m.mtime))
              && m.files == old(m.files) && m.trail == old(m.trail)
    ensures !old(SaveAllowed(accounts.revision, accounts.revisionHash, Lookup(m.files, AccountsFile), m.mtime)) ==>
              m.files == old(m.files) && m.mtime == old(m.mtime) && m.trail == old(m.trail)
    ensures r != Saved ==>
              accounts.revision == old(accounts.revision) && accounts.revisionHash == old(accounts.revisionHash)
    ensures r == Saved ==> forall e | e in accounts.ByEmail && accounts.ByEmail[e].tokenData.Some? ::
              accounts.ByEmail[e].tokenData.value.hint in {None, Some(e)}
    ensures old(m.log) <= m.log
    ensures r == if AllWorked(m.log, |old(m.log)|)
                 then SaveOutcome(accounts.Contents(), old(SaveAllowed(accounts.revision, accounts.revisionHash,
                                                                       Lookup(m.files, AccountsFile), m.mtime)))
                 else Failed
  {
    if !Acceptable(accounts.Contents()) {
      return Failed;
    }
    var refused, previous := CheckRevision(m, accounts);
    if refused.Some? {
      return refused.value;
    }
    var written := WriteAccounts(m, accounts.Contents(), previous);
    if !written {
      return Failed;
    }
    var dated := m.Stat(AccountsFile);
    if !dated {
      return Failed;
    }
    accounts.revision, accounts.revisionHash := m.mtime, HashOf(Some(AccountsJson(accounts.Contents())));
    return Saved;
  }

  /** The conflict check of saveUnlocked; `previous` is the file to keep as accounts.json.bak, if there is one. */
  method CheckRevision(m: Machine, accounts: Accounts) returns (refused: Option<SaveResult>, previous: Option<Content>)
    requires m.Valid()
    modifies m`log
    ensures m.Valid() && old(m.log) <= m.log
    ensures refused in {None, Some(Failed), Some(Conflict)}
    ensures AllWorked(m.log, |old(m.log)|) <==> refused != Some(Failed)
    ensures var allowed := SaveAllowed(accounts.revision, accounts.revisionHash, Lookup(m.files, AccountsFile),
                                       m.mtime);
            (refused == None ==> allowed) && (refused == Some(Conflict) ==> !allowed)
    ensures refused == None ==>
              previous == if RevisionOf(Lookup(m.files, AccountsFile), m.mtime) != 0
                          then Lookup(m.files, AccountsFile) else None
  {
    previous := None;
    var dated := m.Stat(AccountsFile);
    if !dated {
      return Some(Failed), None;
    }
    var current := RevisionOf(Lookup(m.files, AccountsFile), m.mtime);
    if accounts.revision != current {
      return Some(Conflict), None;
    }
    if current != 0 {
      var readOk;
      readOk, previous := m.Read(AccountsFile);
      if !readOk {
        return Some(Failed), None;
      }
      if accounts.revisionHash != None && accounts.revisionHash != HashOf(previous) {
        return Some(Conflict), None;
      }
    }
    return None, previous;
  }

  /** The two writes of saveUnlocked. */
  method WriteAccounts(m: Machine, payload: AccountsDoc, previous: Option<Content>) returns (ok: bool)
    requires m.Valid()
    requires previous == if RevisionOf(Lookup(m.files, AccountsFile), m.mtime) != 0
                         then Lookup(m.files, AccountsFile) else None
    modifies m
    ensures m.Valid() && old(m.trail) <= m.trail && old(m.log) <= m.log
    ensures OneFileSteps(m.trail, |old(m.trail)| - 1)
    ensures forall i | |old(m.trail)| <= i < |m.trail| :: SaveStage(old(m.files), old(m.mtime), payload, m.trail[i])
    ensures ok ==> m.files == SavedImage(old(m.files), old(m.mtime), payload)
    ensures AllWorked(m.log, |old(m.log)|) <==> ok
  {
    if previous.Some? {
      var backupOk := m.AtomicWrite(BackupFile, previous.value);
      if !backupOk {
        return false;
      }
    }
    ok := m.AtomicWrite(AccountsFile, AccountsJson(payload));
  }

  /** readAccountsUnlocked; None is a read or decode error. */
  method ReadAccountsUnlocked(m: Machine) returns (r: Option<Accounts>)
    requires m.Valid()
    modifies m`log
    ensures m.Valid() && old(m.log) <= m.log
    ensures AllWorked(m.log, |old(m.log)|) ==>
              && (r.Some? <==> Decoded(Lookup(m.files, AccountsFile)).Some?)
              && (r.Some? ==> r.value.revision == RevisionOf(Lookup(m.files, AccountsFile), m.mtime))
    ensures r.Some? ==>
              && fresh(r.value)
              && Decoded(Lookup(m.files, AccountsFile)) == Some(r.value.Contents())
              && r.value.revisionHash == HashOf(Lookup(m.files, AccountsFile))
              && r.value.revision in {0, RevisionOf(Lookup(m.files, AccountsFile), m.mtime)}
  {
    var ok, data := m.Read(AccountsFile);
    var decoded := Decoded(data);
    if !ok || decoded == None {
      return None;
    }
    var statOk := m.Stat(AccountsFile);
    var accounts := new Accounts(decoded.value, if statOk then RevisionOf(data, m.mtime) else 0, HashOf(data));
    return Some(accounts);
  }

  // ----- config.json (internal/app/settings.go) -----

  /** Settings in memory: `loaded` ones carry the revision of the file they were read from. */
  datatype AppSettings = AppSettings(settings: Settings, loaded: bool, revision: Option<Content>)

  /** What readSettingsUnlocked makes of config.json; None is a parse error. */
  function SettingsIn(file: Option<Content>): Option<Settings> {
    match file
    case None => Some(DEFAULT_SETTINGS)
    case Some(SettingsJson(s)) => Some(s)
    case Some(_) => None
  }

  predicate SettingsAllowed(s: AppSettings, file: Option<Content>) {
    s.loaded ==> s.revision == HashOf(file)
  }

  method ReadSettingsUnlocked(m: Machine) returns (r: Option<AppSettings>)
    requires m.Valid()
    modifies m`log
    ensures m.Valid() && old(m.log) <= m.log
    ensures AllWorked(m.log, |old(m.log)|) ==> (r.Some? <==> SettingsIn(Lookup(m.files, SettingsFile)).Some?)
    ensures r.Some? ==>
              && SettingsIn(Lookup(m.files, SettingsFile)) == Some(r.value.settings)
              && r.value.loaded && r.value.revision == HashOf(Lookup(m.files, SettingsFile))
  {
    var ok, data := m.Read(SettingsFile);
    if !ok || SettingsIn(data) == None {
      return None;
    }
    return Some(AppSettings(SettingsIn(data).value, true, HashOf(data)));
  }

  /** Settings that differ in nothing but the time of the last save. */
  ghost predicate SameSettings(file: Option<Content>, s: Settings) {
    file.Some? && file.value.SettingsJson? && file.value.settings.(updatedAt := s.updatedAt) == s
  }

  method SaveSettingsUnlocked(m: Machine, s: AppSettings) returns (ok: bool)
    requires m.Valid()
    modifies m
    ensures m.Valid() && SameBut(old(m.files), m.files, SettingsFile) && m.mtime == old(m.mtime)
    ensures m.trail in {old(m.trail), old(m.trail) + [m.files]}
    ensures ok ==>
              && SettingsAllowed(s, Lookup(old(m.files), SettingsFile))
              && SameSettings(Lookup(m.files, SettingsFile), s.settings)
    ensures !SettingsAllowed(s, Lookup(old(m.files), SettingsFile)) ==>
            m.files == old(m.files) && m.trail == old(m.trail)
    ensures m.files == old(m.files) || SameSettings(Lookup(m.files, SettingsFile), s.settings)
    ensures old(m.log) <= m.log
    ensures AllWorked(m.log, |old(m.log)|) ==> (ok <==> SettingsAllowed(s, Lookup(old(m.files), SettingsFile)))
  {
    var readOk, data := m.Read(SettingsFile);
    if !readOk || !SettingsAllowed(s, data) {
      return false;
    }
    var now: int := *;
    ok := m.AtomicWrite(SettingsFile, SettingsJson(s.settings.(updatedAt := now)));
  }

  /** UpdateSettings under the settings lock; `edit` is the caller's change, None its error. */
  method UpdateSettings(m: Machine, edit: Settings -> Option<Settings>) returns (ok: bool)
    requires m.Valid()
    modifies m
    ensures m.Valid() && SameBut(old(m.files), m.files, SettingsFile)
    ensures ok ==>
              && SettingsIn(Lookup(old(m.files), SettingsFile)).Some?
              && edit(SettingsIn(Lookup(old(m.files), SettingsFile)).value).Some?
              && SameSettings(Lookup(m.files, SettingsFile),
                              edit(SettingsIn(Lookup(old(m.files), SettingsFile)).value).value)
    ensures m.files == old(m.files) ||
            (SettingsIn(Lookup(old(m.files), SettingsFile)).Some?
                && edit(SettingsIn(Lookup(old(m.files), SettingsFile)).value).Some?)
    ensures old(m.log) <= m.log
    ensures AllWorked(m.log, |old(m.log)|) ==>
              (ok <==> SettingsIn(Lookup(old(m.files), SettingsFile)).Some?
                       && edit(SettingsIn(Lookup(old(m.files), SettingsFile)).value).Some?)
  {
    var read := ReadSettingsUnlocked(m);
    if read == None {
      return false;
    }
    var edited := edit(read.value.settings);
    if edited == None {
      return false;
    }
    var saved := SaveSettingsUnlocked(m, read.value.(settings := edited.value));
    if !saved {
      return false;
    }
    var again := ReadSettingsUnlocked(m);
    return again != None;
  }
}
