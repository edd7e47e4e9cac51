/**
 Any number of processes loading, editing and saving accounts.json and config.json, with
 imports, crashes and recoveries in between (internal/app/store.go, settings.go,
 backup_service.go). A step is one file write or one locked check.
 */
module StoreProtocol {
  import opened Model
  import opened Durable
  import opened Store
  import opened RestoreProtocol

  type Pid = int

  datatype Phase =
    | Idle
    | Holding(copy: Copy)
    | Entering(copy: Copy)   // Save: saw no journal, is waiting for the lock
    | Saving(copy: Copy)     // holds the lock, passed the conflict check
    | Backed(copy: Copy)     // accounts.json.bak is written
    | Importing              // holds both locks, wrote the journal
    | HoldingSettings(own: AppSettings)
    | EnteringSettings(own: AppSettings)

  /** `versions` and `settings` list what accounts.json and config.json were committed as. */
  datatype State = State(img: Image, mtime: int, lock: Option<Pid>, procs: map<Pid, Phase>,
                         versions: seq<Option<Content>>, settings: seq<Option<Content>>)

  datatype Action =
    | Load(p: Pid, dated: bool)
    | Edit(p: Pid, doc: AccountsDoc)
    | EnterSave(p: Pid)
    | Check(p: Pid)
    | WriteBackup(p: Pid)
    | WriteAccounts(p: Pid, time: int, reported: bool)
    | GiveUp(p: Pid)
    | LoadSettings(p: Pid)
    | EditSettings(p: Pid, edited: Settings)
    | EnterSaveSettings(p: Pid)
    | WriteSettings(p: Pid, stamp: int)
    | BeginImport(p: Pid)
    | ImportWrites(p: Pid, img: Image, time: int)
    | CommitImport(p: Pid)
    | EndImport(p: Pid)
    | Recover(p: Pid, time: int)
    | Crash(p: Pid)

  function At(s: State, p: Pid): Phase {
    if p in s.procs then s.procs[p] else Idle
  }

  function Moved(s: State, p: Pid, phase: Phase): State {
    s.(procs := s.procs[p := phase])
  }

  function Accounts(img: Image): Option<Content> { Lookup(img, AccountsFile) }

  predicate Locks(phase: Phase) { phase.Saving? || phase.Backed? || phase.Importing? }

  predicate Free(s: State) { s.lock == None }

  predicate ImportRunning(s: State) { s.lock.Some? && At(s, s.lock.value).Importing? }

  predicate Allowed(s: State, copy: Copy) {
    SaveAllowed(copy.revision, copy.hash, Accounts(s.img), s.mtime)
  }

  /** The files after a completed recovery. */
  function RecoveredImage(img: Image): Image {
    var t := Recovered(img);
    Replace(Replace(Replace(img, AccountsFile, t.accounts), BackupFile, t.backup), SettingsFile,
            t.settings) - {JournalFile}
  }

  /** The state after an action, or None where the action is not possible. */
  function Next(s: State, a: Action): Option<State> {
    match a
    case Load(p, dated) =>
      if At(s, p) == Idle && Free(s) && Decoded(Accounts(s.img)).Some?
      then Some(Moved(s, p, Holding(CopyOf(Accounts(s.img), s.mtime, dated)))) else None
    case Edit(p, doc) =>
      if At(s, p).Holding? then Some(Moved(s, p, Holding(At(s, p).copy.(doc := doc)))) else None
    case EnterSave(p) =>
      if At(s, p).Holding? && Quiet(s.img) then Some(Moved(s, p, Entering(At(s, p).copy))) else None
    case Check(p) =>
      if !At(s, p).Entering? || !Free(s) then None
      else if Allowed(s, At(s, p).copy) then Some(Moved(s, p, Saving(At(s, p).copy)).(lock := Some(p)))
      else Some(Moved(s, p, Idle))
    case WriteBackup(p) =>
      if !At(s, p).Saving? then None
      else
        var kept := if RevisionOf(Accounts(s.img), s.mtime) != 0 then Replace(s.img, BackupFile, Accounts(s.img))
            else s.img;
        Some(Moved(s, p, Backed(At(s, p).copy)).(img := kept))
    case WriteAccounts(p, time, reported) =>
      // Unreported: the file is in place, but its mode or its time could not be set or read.
      if !At(s, p).Backed? || time == 0 then None
      else
        var copy := At(s, p).copy;
        var payload := AccountsJson(copy.doc);
        Some(Moved(s, p, Holding(if reported then Copy(time, HashOf(Some(payload)), copy.doc) else copy))
             .(img := s.img[AccountsFile := payload], mtime := time, lock := None,
               versions := s.versions + [Some(payload)]))
    case GiveUp(p) =>
      if At(s, p).Saving? || At(s, p).Backed? then Some(Moved(s, p, Holding(At(s, p).copy)).(lock := None)) else None
    case LoadSettings(p) =>
      if At(s, p) == Idle && !ImportRunning(s) && SettingsIn(Lookup(s.img, SettingsFile)).Some?
      then Some(Moved(s, p, HoldingSettings(AppSettings(SettingsIn(Lookup(s.img, SettingsFile)).value, true,
                                                        HashOf(Lookup(s.img, SettingsFile))))))
      else None
    case EditSettings(p, edited) =>
      if At(s, p).HoldingSettings? then Some(Moved(s, p, HoldingSettings(At(s, p).own.(settings := edited)))) else None
    case EnterSaveSettings(p) =>
      if At(s, p).HoldingSettings? && Quiet(s.img) then Some(Moved(s, p, EnteringSettings(At(s, p).own))) else None
    case WriteSettings(p, stamp) =>
      if !At(s, p).EnteringSettings? || ImportRunning(s) then None
      else if !SettingsAllowed(At(s, p).own, Lookup(s.img, SettingsFile)) then Some(Moved(s, p, Idle))
      else
        var payload := SettingsJson(At(s, p).own.settings.(updatedAt := stamp));
        Some(Moved(s, p, Idle).(img := s.img[SettingsFile := payload], settings := s.settings + [Some(payload)]))
    case BeginImport(p) =>
      if At(s, p) == Idle && Free(s) && Quiet(s.img)
      then Some(Moved(s, p, Importing).(img := s.img[JournalFile := JournalJson(Opened(TripleOf(s.img)))],
                                        lock := Some(p)))
      else None
    case ImportWrites(p, img, time) =>
      if At(s, p).Importing? && Pending(s.img) && time != 0 && Lookup(img, JournalFile) == Lookup(s.img, JournalFile)
      then Some(s.(img := img, mtime := time))
      else None
    case CommitImport(p) =>
      // Import.SavedTriple: the old accounts.json, if any, is the backup now.
      if At(s, p).Importing? && Pending(s.img)
          && (JournalOf(s.img).value.accounts.None? || Lookup(s.img, BackupFile) == JournalOf(s.img).value.accounts)
      then Some(s.(img := s.img[JournalFile := JournalJson(JournalOf(s.img).value.(committed := true))],
                   versions := s.versions + [Accounts(s.img)], settings := s.settings + [Lookup(s.img, SettingsFile)]))
      else None
    case EndImport(p) =>
      if At(s, p).Importing? && (Committed(s.img)
          || (Pending(s.img) && TripleOf(s.img) == Kept(JournalOf(s.img).value)))
      then Some(Moved(s, p, Idle).(img := s.img - {JournalFile}, lock := None))
      else None
    case Recover(p, time) =>
      if Free(s) && JournalOf(s.img).Some? && time != 0 then Some(s.(img := RecoveredImage(s.img), mtime := time))
          else None
    case Crash(p) =>
      Some(Moved(s, p, Idle).(lock := if s.lock == Some(p) then None else s.lock))
  }

  /** A save that finds an unfinished import although its process had seen no journal. */
  predicate Untimely(s: State, a: Action) {
    Pending(s.img) && (a.Check? || a.WriteSettings?)
  }

  /** A save of a copy whose date could not be read, when the file has gone missing. */
  predicate Undated(s: State, a: Action) {
    && a.Check? && At(s, a.p).Entering?
    && At(s, a.p).copy.revision == 0 && At(s, a.p).copy.hash.Some? && Accounts(s.img) == None
  }

  /** The two kinds of step that break the invariant. */
  predicate Blind(s: State, a: Action) { Untimely(s, a) || Undated(s, a) }

  ghost predicate Initial(s: State) {
    && Quiet(s.img) && s.mtime != 0 && s.lock == None && s.procs == map[]
    && s.versions == [Accounts(s.img)] && s.settings == [Lookup(s.img, SettingsFile)]
  }

  function Last<T>(s: seq<T>): T
    requires s != []
  {
    s[|s| - 1]
  }

  /** accounts.json.bak is the current version, or the preceding one if that existed. */
  predicate BackupFollows(versions: seq<Option<Content>>, backup: Option<Content>) {
    |versions| < 2 || versions[|versions| - 2] == None || backup in {Last(versions), versions[|versions| - 2]}
  }

  /** The files, once any unfinished import is undone, are the last committed versions. */
  ghost predicate FilesInv(s: State) {
    && s.versions != [] && s.settings != []
    && s.mtime != 0
    && Recovered(s.img).accounts == Last(s.versions)
    && Recovered(s.img).settings == Last(s.settings)
    && BackupFollows(s.versions, Recovered(s.img).backup)
  }

  ghost predicate ProcInv(s: State, p: Pid) {
    var phase := At(s, p);
    && (Locks(phase) <==> s.lock == Some(p))
    && (phase.Saving? || phase.Backed? ==> !Pending(s.img) && Based(s, phase.copy))
    && (phase.Backed? && Accounts(s.img).Some? ==> Lookup(s.img, BackupFile) == Accounts(s.img))
    && (phase.Importing? ==> JournalOf(s.img).Some?)
    && (Remembers(phase) ==> Honest(phase.copy))
    && (phase.HoldingSettings? || phase.EnteringSettings? ==> phase.own.loaded)
  }

  ghost predicate Inv(s: State) {
    FilesInv(s) && forall p :: ProcInv(s, p)
  }

  predicate Remembers(phase: Phase) {
    phase.Holding? || phase.Entering? || phase.Saving? || phase.Backed?
  }

  /** A copy of a missing file has revision 0; one of a file may have it too. */
  predicate Honest(copy: Copy) {
    copy.hash == None ==> copy.revision == 0
  }

  /** The copy was made from accounts.json as it is now. */
  predicate Based(s: State, copy: Copy) {
    copy.hash == HashOf(Accounts(s.img))
  }

  lemma StartsGood(s: State)
    requires Initial(s)
    ensures Inv(s)
  {
  }

  predicate InMemory(a: Action) {
    a.Load? || a.Edit? || a.EnterSave? || a.Check? || a.GiveUp? || a.LoadSettings? || a.EditSettings?
        || a.EnterSaveSettings? || a.Crash?
  }

  lemma MemoryStepAt(s: State, a: Action, p: Pid)
    requires FilesInv(s) && ProcInv(s, p) && ProcInv(s, a.p)
    requires Next(s, a).Some? && !Blind(s, a) && InMemory(a)
    ensures ProcInv(Next(s, a).value, p)
  {
    MemoryStep(s, a, p);
    if p == a.p {
      OwnMemoryStep(s, a);
    }
  }

  /** Such a step leaves the files and the other processes alone, and takes or gives up no lock but its own. */
  lemma MemoryStep(s: State, a: Action, p: Pid)
    requires Next(s, a).Some? && InMemory(a) && ProcInv(s, a.p)
    ensures var s' := Next(s, a).value;
            && s'.img == s.img && (p != a.p ==> At(s', p) == At(s, p))
            && (s'.lock == s.lock || (s.lock in {None, Some(a.p)} && s'.lock in {None, Some(a.p)}))
  {
  }

  lemma OwnMemoryStep(s: State, a: Action)
    requires FilesInv(s) && ProcInv(s, a.p) && Next(s, a).Some? && !Blind(s, a) && InMemory(a)
    ensures ProcInv(Next(s, a).value, a.p)
  {
    var s' := Next(s, a).value;
    assert s'.img == s.img && s'.mtime == s.mtime;
  }

  /** Steps that touch no file keep the invariant. */
  lemma MemoryStepKeepsInv(s: State, a: Action)
    requires Inv(s) && Next(s, a).Some? && !Blind(s, a) && InMemory(a)
    ensures Inv(Next(s, a).value)
  {
    forall p ensures ProcInv(Next(s, a).value, p) {
      MemoryStepAt(s, a, p);
    }
  }

  lemma SaveStepKeepsInv(s: State, a: Action)
    requires Inv(s) && Next(s, a).Some?
    requires a.WriteBackup? || a.WriteAccounts?
    ensures Inv(Next(s, a).value)
  {
    var s' := Next(s, a).value;
    assert ProcInv(s, a.p);
    assert Lookup(s'.img, JournalFile) == Lookup(s.img, JournalFile);
    assert Recovered(s'.img) == TripleOf(s'.img) && Recovered(s.img) == TripleOf(s.img);
    forall p ensures ProcInv(s', p) {
      assert ProcInv(s, p) && ProcInv(s, a.p);
    }
  }

  lemma SettingsStepKeepsInv(s: State, a: Action)
    requires Inv(s) && Next(s, a).Some? && !Blind(s, a) && a.WriteSettings?
    ensures Inv(Next(s, a).value)
  {
    var s' := Next(s, a).value;
    assert forall path | path != SettingsFile :: Lookup(s'.img, path) == Lookup(s.img, path);
    assert Recovered(s'.img) == TripleOf(s'.img) && Recovered(s.img) == TripleOf(s.img);
    forall p ensures ProcInv(s', p) {
      assert ProcInv(s, p) && ProcInv(s, a.p);
    }
  }

  lemma ImportFilesKept(s: State, a: Action)
    requires Inv(s) && Next(s, a).Some?
    requires a.BeginImport? || a.ImportWrites? || a.CommitImport? || a.EndImport? || a.Recover?
    ensures FilesInv(Next(s, a).value)
  {
    assert ProcInv(s, a.p);
    if a.CommitImport? {
      CommitFilesKept(s, a);
    } else {
      ImportKeepsRecovered(s, a);
    }
  }

  /** All but the commit leave the same files behind a recovery, and commit no version. */
  lemma ImportKeepsRecovered(s: State, a: Action)
    requires ProcInv(s, a.p) && Next(s, a).Some? && s.mtime != 0
    requires a.BeginImport? || a.ImportWrites? || a.EndImport? || a.Recover?
    ensures var s' := Next(s, a).value;
            Recovered(s'.img) == Recovered(s.img) && s'.versions == s.versions && s'.settings == s.settings
            && s'.mtime != 0
  {
    var s' := Next(s, a).value;
    if a.BeginImport? || a.EndImport? {
      assert TripleOf(s'.img) == TripleOf(s.img);
    }
    if a.Recover? {
      assert Quiet(s'.img) && TripleOf(s'.img) == Recovered(s.img);
    }
  }

  lemma CommitFilesKept(s: State, a: Action)
    requires FilesInv(s) && Next(s, a).Some? && a.CommitImport?
    ensures FilesInv(Next(s, a).value)
  {
    var s' := Next(s, a).value;
    assert Recovered(s'.img) == TripleOf(s.img);
    assert Recovered(s.img).accounts == JournalOf(s.img).value.accounts;
  }

  lemma ImportStepKeepsInv(s: State, a: Action)
    requires Inv(s) && Next(s, a).Some?
    requires a.BeginImport? || a.ImportWrites? || a.CommitImport? || a.EndImport? || a.Recover?
    ensures Inv(Next(s, a).value)
  {
    ImportFilesKept(s, a);
    var s' := Next(s, a).value;
    forall p ensures ProcInv(s', p) {
      assert ProcInv(s, p) && ProcInv(s, a.p);
    }
  }

  /** Of the copies the conflict check lets through, exactly the undated ones are not of the current file. */
  lemma CheckIsSoundIff(s: State, p: Pid)
    requires Inv(s) && At(s, p).Entering? && Allowed(s, At(s, p).copy)
    ensures Based(s, At(s, p).copy) <==> !Undated(s, Check(p))
  {
    assert ProcInv(s, p);
  }

  /** The invariant is inductive as long as no step is blind. */
  lemma NextKeepsInv(s: State, a: Action)
    requires Inv(s) && Next(s, a).Some? && !Blind(s, a)
    ensures Inv(Next(s, a).value)
  {
    match a {
      case WriteBackup(_) => SaveStepKeepsInv(s, a);
      case WriteAccounts(_, _, _) => SaveStepKeepsInv(s, a);
      case WriteSettings(_, _) => SettingsStepKeepsInv(s, a);
      case BeginImport(_) => ImportStepKeepsInv(s, a);
      case ImportWrites(_, _, _) => ImportStepKeepsInv(s, a);
      case CommitImport(_) => ImportStepKeepsInv(s, a);
      case EndImport(_) => ImportStepKeepsInv(s, a);
      case Recover(_, _) => ImportStepKeepsInv(s, a);
      case _ => MemoryStepKeepsInv(s, a);
    }
  }

  // ----- whole runs -----

  /** Where a run of actions leads, if each of them is possible in turn. */
  function After(s: State, run: seq<Action>): Option<State> {
    if run == [] then Some(s)
    else
      match After(s, run[..|run| - 1])
      case None => None
      case Some(mid) => Next(mid, run[|run| - 1])
  }

  /**
   No process saves past an import that started after it looked for a journal, nor an undated
   copy of a file that is missing by now.
   */
  ghost predicate Timely(s: State, run: seq<Action>) {
    forall i | 0 <= i < |run| && After(s, run[..i]).Some? :: !Blind(After(s, run[..i]).value, run[i])
  }

  lemma {:induction false} RunKeepsInv(s: State, run: seq<Action>)
    requires Initial(s) && After(s, run).Some? && Timely(s, run)
    ensures Inv(After(s, run).value)
  {
    if run == [] {
      StartsGood(s);
    } else {
      var before := run[..|run| - 1];
      forall i | 0 <= i < |before| && After(s, before[..i]).Some?
          ensures !Blind(After(s, before[..i]).value, before[i]) {
        assert before[..i] == run[..i];
      }
      RunKeepsInv(s, before);
      NextKeepsInv(After(s, before).value, run[|run| - 1]);
    }
  }

  /**
   No lost update, over every interleaving. Committed versions only ever grow; a save that
   succeeds replaces exactly the content its process read; a refused one changes no file;
   and with no import under way accounts.json is the last version, its backup that version
   or the one before.
   */
  lemma NoLostUpdate(s0: State, run: seq<Action>, a: Action)
    requires Initial(s0) && Timely(s0, run + [a]) && After(s0, run + [a]).Some?
    ensures After(s0, run).Some? && After(s0, run + [a]) == Next(After(s0, run).value, a)
    ensures var s, s' := After(s0, run).value, After(s0, run + [a]).value;
            && s.versions <= s'.versions && s.settings <= s'.settings
            && s.versions != [] && s.settings != []
            && (a.WriteAccounts? ==>
                  && At(s, a.p).copy.hash == HashOf(Last(s.versions)) && Accounts(s.img) == Last(s.versions)
                  && s'.versions == s.versions + [Some(AccountsJson(At(s, a.p).copy.doc))])
            && (a.Check? && At(s', a.p) == Idle ==> s'.img == s.img && s'.versions == s.versions)
            && (a.WriteSettings? && s'.settings != s.settings ==> At(s, a.p).own.revision == HashOf(Last(s.settings)))
            && (a.WriteSettings? && s'.settings == s.settings ==> s'.img == s.img)
            && (Quiet(s'.img) ==>
                  && s'.versions != [] && Accounts(s'.img) == Last(s'.versions)
                  && s'.settings != [] && Lookup(s'.img, SettingsFile) == Last(s'.settings)
                  && BackupFollows(s'.versions, Lookup(s'.img, BackupFile)))
  {
    var whole := run + [a];
    assert whole[..|whole| - 1] == run;
    forall i | 0 <= i < |run| && After(s0, run[..i]).Some? ensures !Blind(After(s0, run[..i]).value, run[i]) {
      assert run[..i] == whole[..i];
    }
    RunKeepsInv(s0, run);
    RunKeepsInv(s0, whole);
    assert ProcInv(After(s0, run).value, a.p);
    assert !Blind(After(s0, run).value, a) by {
      assert whole[..|run|] == run && whole[|run|] == a;
    }
  }

  /**
   Save looks for a journal before it waits for the lock. If an import starts and dies in
   between, the save still goes through, but it lasts only if no import is unfinished
   or it wrote just what that import will restore.
   */
  lemma SaveLastsIff(s: State, p: Pid, time: int, reported: bool)
    requires At(s, p).Backed? && Next(s, WriteAccounts(p, time, reported)).Some?
    ensures var s' := Next(s, WriteAccounts(p, time, reported)).value;
            Recovered(s'.img).accounts == Last(s'.versions)
            <==> !Pending(s.img) || JournalOf(s.img).value.accounts == Last(s'.versions)
  {
    var s' := Next(s, WriteAccounts(p, time, reported)).value;
    assert Lookup(s'.img, JournalFile) == Lookup(s.img, JournalFile);
  }

  /**
   The same for settings: a save that was allowed lasts only if no import is unfinished or it
   would restore just that.
   */
  lemma SettingsSaveLastsIff(s: State, p: Pid, stamp: int)
    requires Next(s, WriteSettings(p, stamp)).Some? && Next(s, WriteSettings(p, stamp)).value.settings != s.settings
    ensures var s' := Next(s, WriteSettings(p, stamp)).value;
            && s'.settings != []
            && (Recovered(s'.img).settings == Last(s'.settings)
                <==> !Pending(s.img) || JournalOf(s.img).value.settings == Last(s'.settings))
  {
    var s' := Next(s, WriteSettings(p, stamp)).value;
    assert Lookup(s'.img, JournalFile) == Lookup(s.img, JournalFile);
  }

  /** The two writes of a save are the images a save may leave, in that order. */
  lemma SaveStepsAreStages(s: State, p: Pid, time: int, reported: bool)
    requires At(s, p).Saving? && time != 0
    ensures var copy := At(s, p).copy;
            && Next(s, WriteBackup(p)).Some?
            && var mid := Next(s, WriteBackup(p)).value;
            && Next(mid, WriteAccounts(p, time, reported)).Some?
            && var end := Next(mid, WriteAccounts(p, time, reported)).value;
            && SaveStage(s.img, s.mtime, copy.doc, mid.img) && OneFileSteps([s.img, mid.img, end.img], 0)
            && end.img == SavedImage(s.img, s.mtime, copy.doc)
            && (reported ==> At(end, p) == Holding(Copy(time, HashOf(Lookup(end.img, AccountsFile)), copy.doc)))
  {
  }

  /** The journal of an import is opened on the three files and closed over them. */
  lemma ImportStepsAre(s: State, a: Action, t: State)
    requires Next(s, a) == Some(t) && (a.BeginImport? || a.CommitImport? || a.EndImport?)
    ensures TripleOf(t.img) == TripleOf(s.img) && t.mtime == s.mtime
    ensures a.BeginImport? ==> JournalOf(t.img) == Some(Opened(TripleOf(s.img))) && t.lock == Some(a.p)
    ensures a.CommitImport? ==> Committed(t.img) && t.versions == s.versions + [TripleOf(s.img).accounts]
                                && t.settings == s.settings + [TripleOf(s.img).settings]
    ensures a.EndImport? ==> Quiet(t.img) && t.lock == None
  {
  }

  /** A recovery leaves the files it promises and no journal. */
  lemma RecoveryIs(s: State, p: Pid, time: int, t: State)
    requires Next(s, Recover(p, time)) == Some(t)
    ensures TripleOf(t.img) == Recovered(s.img) && Quiet(t.img) && t.mtime == time
  {
  }

  /** Exactly the steps that may write accounts.json date it. */
  lemma DatedBy(s: State, a: Action, t: State)
    requires Next(s, a) == Some(t)
    ensures t.mtime == if a.WriteAccounts? || a.ImportWrites? || a.Recover? then a.time else s.mtime
  {
  }

  /** The save of d by process 1, with an import of process 2 dying inside it. */
  function UntimelyRun(d: AccountsDoc): seq<Action> {
    [Load(1, true), Edit(1, d), EnterSave(1), BeginImport(2), Crash(2), Check(1), WriteBackup(1),
     WriteAccounts(1, 2, true),
     Recover(3, 3)]
  }

  lemma Then(s: State, run: seq<Action>, t: State, a: Action, u: State)
    requires After(s, run) == Some(t) && Next(t, a) == Some(u)
    ensures After(s, run + [a]) == Some(u)
  {
    assert (run + [a])[..|run|] == run;
  }

  /** Process 2 starts an import and dies at once: its journal stays. */
  lemma ImportDies(s: State) returns (t: State, u: State)
    requires At(s, 2) == Idle && Free(s) && Quiet(s.img)
    ensures Next(s, BeginImport(2)) == Some(t) && Next(t, Crash(2)) == Some(u)
    ensures u.img == s.img[JournalFile := JournalJson(Opened(TripleOf(s.img)))] && At(u, 1) == At(s, 1)
    ensures u.lock == None && u.mtime == s.mtime && u.versions == s.versions && u.settings == s.settings
  {
    t := Next(s, BeginImport(2)).value;
    u := Next(t, Crash(2)).value;
  }

  lemma EnterThenImportDies(s0: State, d: AccountsDoc) returns (s1: State, s2: State, s3: State, s4: State, s5: State)
    requires Initial(s0) && Decoded(Accounts(s0.img)).Some?
    ensures Next(s0, Load(1, true)) == Some(s1) && Next(s1, Edit(1, d)) == Some(s2)
            && Next(s2, EnterSave(1)) == Some(s3)
    ensures Next(s3, BeginImport(2)) == Some(s4) && Next(s4, Crash(2)) == Some(s5)
    ensures At(s5, 1) == Entering(Copy(RevisionOf(Accounts(s0.img), s0.mtime), HashOf(Accounts(s0.img)), d))
    ensures s5.img == s0.img[JournalFile := JournalJson(Opened(TripleOf(s0.img)))]
    ensures s5.lock == None && s5.mtime == s0.mtime && s5.versions == s0.versions
  {
    s1 := Next(s0, Load(1, true)).value;
    s2 := Next(s1, Edit(1, d)).value;
    s3 := Next(s2, EnterSave(1)).value;
    s4, s5 := ImportDies(s3);
  }

  lemma CheckThenSave(s5: State, copy: Copy, time: int) returns (s6: State, s7: State, s8: State)
    requires At(s5, 1) == Entering(copy) && Free(s5) && Allowed(s5, copy) && time != 0
    ensures Next(s5, Check(1)) == Some(s6) && Next(s6, WriteBackup(1)) == Some(s7)
            && Next(s7, WriteAccounts(1, time, true)) == Some(s8)
    ensures Lookup(s8.img, JournalFile) == Lookup(s5.img, JournalFile) && s8.lock == None
    ensures s8.versions == s5.versions + [Some(AccountsJson(copy.doc))]
  {
    s6 := Next(s5, Check(1)).value;
    s7 := Next(s6, WriteBackup(1)).value;
    s8 := Next(s7, WriteAccounts(1, time, true)).value;
  }

  lemma RecoverUndoes(s: State, time: int) returns (s': State)
    requires Free(s) && Pending(s.img) && time != 0
    ensures Next(s, Recover(3, time)) == Some(s')
    ensures Accounts(s'.img) == JournalOf(s.img).value.accounts && s'.versions == s.versions
  {
    s' := Next(s, Recover(3, time)).value;
  }

  /**
   Such a run is possible from every initial state and loses the save: process 1 is told
   that d was saved, and once the dead import is recovered accounts.json is as at the start.
   */
  lemma AnUntimelySaveIsUndone(s0: State, d: AccountsDoc)
    requires Initial(s0) && Decoded(Accounts(s0.img)).Some?
    ensures After(s0, UntimelyRun(d)).Some?
    ensures var s := After(s0, UntimelyRun(d)).value;
            Accounts(s.img) == Accounts(s0.img) && s.versions == s0.versions + [Some(AccountsJson(d))]
  {
    var first := [Load(1, true), Edit(1, d), EnterSave(1), BeginImport(2), Crash(2)];
    var s5 := UntimelyStart(s0, d, first);
    var s6, s7, s8 := CheckThenSave(s5, At(s5, 1).copy, 2);
    var s9 := RecoverUndoes(s8, 3);
    var r := first;
    Then(s0, r, s5, Check(1), s6);                     r := r + [Check(1)];
    Then(s0, r, s6, WriteBackup(1), s7);               r := r + [WriteBackup(1)];
    Then(s0, r, s7, WriteAccounts(1, 2, true), s8);    r := r + [WriteAccounts(1, 2, true)];
    Then(s0, r, s8, Recover(3, 3), s9);
    assert r + [Recover(3, 3)] == UntimelyRun(d);
  }

  lemma UntimelyStart(s0: State, d: AccountsDoc, first: seq<Action>) returns (s5: State)
    requires Initial(s0) && Decoded(Accounts(s0.img)).Some?
    requires first == [Load(1, true), Edit(1, d), EnterSave(1), BeginImport(2), Crash(2)]
    ensures After(s0, first) == Some(s5)
    ensures At(s5, 1) == Entering(Copy(RevisionOf(Accounts(s0.img), s0.mtime), HashOf(Accounts(s0.img)), d))
    ensures s5.img == s0.img[JournalFile := JournalJson(Opened(TripleOf(s0.img)))]
    ensures s5.lock == None && s5.mtime == s0.mtime && s5.versions == s0.versions
  {
    var s1, s2, s3, s4;
    s1, s2, s3, s4, s5 := EnterThenImportDies(s0, d);
    var r := [];
    Then(s0, r, s0, Load(1, true), s1);    r := r + [Load(1, true)];
    Then(s0, r, s1, Edit(1, d), s2);       r := r + [Edit(1, d)];
    Then(s0, r, s2, EnterSave(1), s3);     r := r + [EnterSave(1)];
    Then(s0, r, s3, BeginImport(2), s4);   r := r + [BeginImport(2)];
    Then(s0, r, s4, Crash(2), s5);
    assert r + [Crash(2)] == first;
  }

  /** The same with config.json: process 1 is told that its settings were saved, and they are not. */
  function UntimelySettingsRun(edited: Settings): seq<Action> {
    [LoadSettings(1), EditSettings(1, edited), EnterSaveSettings(1), BeginImport(2), Crash(2), WriteSettings(1, 0),
     Recover(3, 3)]
  }

  lemma EnterSettingsThenImportDies(s0: State, edited: Settings)
    returns (s1: State, s2: State, s3: State, s4: State, s5: State)
    requires Initial(s0) && SettingsIn(Lookup(s0.img, SettingsFile)).Some?
    ensures Next(s0, LoadSettings(1)) == Some(s1) && Next(s1, EditSettings(1, edited)) == Some(s2)
    ensures Next(s2, EnterSaveSettings(1)) == Some(s3)
    ensures Next(s3, BeginImport(2)) == Some(s4) && Next(s4, Crash(2)) == Some(s5)
    ensures At(s5, 1) == EnteringSettings(AppSettings(edited, true, HashOf(Lookup(s0.img, SettingsFile))))
    ensures s5.img == s0.img[JournalFile := JournalJson(Opened(TripleOf(s0.img)))]
    ensures s5.lock == None && s5.settings == s0.settings
  {
    s1 := Next(s0, LoadSettings(1)).value;
    s2 := Next(s1, EditSettings(1, edited)).value;
    s3 := Next(s2, EnterSaveSettings(1)).value;
    s4, s5 := ImportDies(s3);
  }

  lemma SettingsThenRecover(s5: State, own: AppSettings, stamp: int, time: int) returns (s6: State, s7: State)
    requires At(s5, 1) == EnteringSettings(own) && Free(s5) && Pending(s5.img) && time != 0
    requires SettingsAllowed(own, Lookup(s5.img, SettingsFile))
    ensures Next(s5, WriteSettings(1, stamp)) == Some(s6) && Next(s6, Recover(3, time)) == Some(s7)
    ensures s7.settings == s5.settings + [Some(SettingsJson(own.settings.(updatedAt := stamp)))]
    ensures Lookup(s7.img, SettingsFile) == JournalOf(s5.img).value.settings
  {
    s6 := Next(s5, WriteSettings(1, stamp)).value;
    assert Lookup(s6.img, JournalFile) == Lookup(s5.img, JournalFile);
    s7 := Next(s6, Recover(3, time)).value;
  }

  lemma AnUntimelySettingsSaveIsUndone(s0: State, edited: Settings)
    requires Initial(s0) && SettingsIn(Lookup(s0.img, SettingsFile)).Some?
    ensures After(s0, UntimelySettingsRun(edited)).Some?
    ensures var s := After(s0, UntimelySettingsRun(edited)).value;
            && Lookup(s.img, SettingsFile) == Lookup(s0.img, SettingsFile)
            && s.settings == s0.settings + [Some(SettingsJson(edited.(updatedAt := 0)))]
  {
    var s1, s2, s3, s4, s5 := EnterSettingsThenImportDies(s0, edited);
    var s6, s7 := SettingsThenRecover(s5, At(s5, 1).own, 0, 3);
    var r := [];
    Then(s0, r, s0, LoadSettings(1), s1);          r := r + [LoadSettings(1)];
    Then(s0, r, s1, EditSettings(1, edited), s2);  r := r + [EditSettings(1, edited)];
    Then(s0, r, s2, EnterSaveSettings(1), s3);     r := r + [EnterSaveSettings(1)];
    Then(s0, r, s3, BeginImport(2), s4);           r := r + [BeginImport(2)];
    Then(s0, r, s4, Crash(2), s5);                 r := r + [Crash(2)];
    Then(s0, r, s5, WriteSettings(1, 0), s6);      r := r + [WriteSettings(1, 0)];
    Then(s0, r, s6, Recover(3, 3), s7);
    assert r + [Recover(3, 3)] == UntimelySettingsRun(edited);
  }

  /**
   Without a date: accounts.json is missing at first. Process 1 loads it while an import has
   it, but cannot read its date; the import dies and is undone. The save then goes through
   although the file it loaded is gone.
   */
  function UndatedRun(img: Image): seq<Action> {
    [BeginImport(2), ImportWrites(2, img, 2), Crash(2), Load(1, false), Recover(3, 3), EnterSave(1), Check(1)]
  }

  lemma AnUndatedSaveSlipsThrough(s0: State, d: AccountsDoc)
    requires Initial(s0) && Accounts(s0.img) == None
    ensures var begun := s0.img[JournalFile := JournalJson(Opened(TripleOf(s0.img)))];
            var run := UndatedRun(begun[AccountsFile := AccountsJson(d)]);
            && After(s0, run).Some?
            && var s := After(s0, run).value;
               At(s, 1).Saving? && At(s, 1).copy.hash == Some(AccountsJson(d)) && Accounts(s.img) == None
  {
    var begun := s0.img[JournalFile := JournalJson(Opened(TripleOf(s0.img)))];
    var img := begun[AccountsFile := AccountsJson(d)];
    var s1, s2, s3 := HalfImported(s0, d);
    var s4 := Next(s3, Load(1, false)).value;
    var s5, s6, s7 := UndatedSave(s4, TripleOf(s0.img), d);
    var r := [];
    Then(s0, r, s0, BeginImport(2), s1);            r := r + [BeginImport(2)];
    Then(s0, r, s1, ImportWrites(2, img, 2), s2);   r := r + [ImportWrites(2, img, 2)];
    Then(s0, r, s2, Crash(2), s3);                  r := r + [Crash(2)];
    Then(s0, r, s3, Load(1, false), s4);            r := r + [Load(1, false)];
    Then(s0, r, s4, Recover(3, 3), s5);             r := r + [Recover(3, 3)];
    Then(s0, r, s5, EnterSave(1), s6);              r := r + [EnterSave(1)];
    Then(s0, r, s6, Check(1), s7);
    assert r + [Check(1)] == UndatedRun(img);
  }

  /** An import writes d over a missing accounts.json and dies. */
  lemma HalfImported(s0: State, d: AccountsDoc) returns (s1: State, s2: State, s3: State)
    requires Initial(s0) && Accounts(s0.img) == None
    ensures var begun := s0.img[JournalFile := JournalJson(Opened(TripleOf(s0.img)))];
            var img := begun[AccountsFile := AccountsJson(d)];
            && Next(s0, BeginImport(2)) == Some(s1) && Next(s1, ImportWrites(2, img, 2)) == Some(s2)
            && Next(s2, Crash(2)) == Some(s3)
            && s3.img == img && s3.lock == None && s3.mtime == 2 && At(s3, 1) == Idle
    ensures Accounts(s3.img) == Some(AccountsJson(d)) && JournalOf(s3.img) == Some(Opened(TripleOf(s0.img)))
  {
    var begun := s0.img[JournalFile := JournalJson(Opened(TripleOf(s0.img)))];
    var img := begun[AccountsFile := AccountsJson(d)];
    s1 := Next(s0, BeginImport(2)).value;
    assert s1.img == begun && Lookup(img, JournalFile) == Lookup(begun, JournalFile);
    s2 := Next(s1, ImportWrites(2, img, 2)).value;
    s3 := Next(s2, Crash(2)).value;
  }

  /** The recovery, and the save of what was loaded without a date. */
  lemma UndatedSave(s4: State, kept: Triple, d: AccountsDoc) returns (s5: State, s6: State, s7: State)
    requires Free(s4) && JournalOf(s4.img) == Some(Opened(kept)) && kept.accounts == None
    requires At(s4, 1) == Holding(Copy(0, Some(AccountsJson(d)), d))
    ensures Next(s4, Recover(3, 3)) == Some(s5) && Next(s5, EnterSave(1)) == Some(s6) && Next(s6, Check(1)) == Some(s7)
    ensures At(s7, 1) == Saving(Copy(0, Some(AccountsJson(d)), d)) && Accounts(s7.img) == None
  {
    s5 := Next(s4, Recover(3, 3)).value;
    assert Quiet(s5.img) && Accounts(s5.img) == None;
    s6 := Next(s5, EnterSave(1)).value;
    s7 := Next(s6, Check(1)).value;
  }
}
