/**
 The dashboard's event loop and its background refreshes: a refresh started before a
 delete or a tier change neither repaints nor saves the old accounts (internal/app/tui.go).
 */
module TuiRefresh {
  import opened Model
  import opened Durable
  import opened Store
  import opened Secrets
  import QuotaMerge

  /** The loop's own variables. `shown` is what the dashboard draws. */
  datatype Loop = Loop(revision: nat, refreshing: bool, shown: Doc)

  function Started(l: Loop): Loop { l.(revision := l.revision + 1, refreshing := true) }

  function Invalidated(l: Loop): Loop { l.(revision := l.revision + 1, refreshing := false) }

  /** setAccounts, where a failed load brings nothing. */
  function Showing(l: Loop, accounts: Option<Doc>): Loop {
    if accounts.Some? then l.(shown := accounts.value) else l
  }

  /** The loop receives the event of the refresh started as `revision`. */
  function Arrived(l: Loop, revision: nat, accounts: Option<Doc>): Loop {
    if revision != l.revision then l else Showing(l.(refreshing := false), accounts)
  }

  /** What the user asks for. */
  datatype Change = Remove(e: Email) | SetTier(e: Email, tier: Tier)

  /** The accounts the change is saved as. */
  function Applied(c: Change, d: AccountsDoc): AccountsDoc {
    match c
    case Remove(e) => Dropped(d, e)
    case SetTier(e, tier) =>
      if e in d.byEmail then Put(d, e, WithTier(d.byEmail[e], tier)) else d
  }

  function WithTier(a: Account, tier: Tier): Account { a.(notes := a.notes.(tier := tier)) }

  /** The plan a press of the tier key asks for: Pro, then Free, then none. */
  function NextTier(t: Tier): Tier {
    match t
    case Manual(true) => Manual(false)
    case Manual(false) => NoTier
    case _ => Manual(true)
  }

  /** The change is in effect. */
  predicate Holds(c: Change, d: Doc) {
    match c
    case Remove(e) => e !in d.byEmail
    case SetTier(e, tier) => e in d.byEmail ==> d.byEmail[e].notes.tier == tier
  }

  // ----- the loop, its refreshes and other processes -----

  /** A refresh in flight: not loaded yet, reading quotas, or its event in the queue. */
  datatype Work = Starting | Working(copy: Copy) | Posted(accounts: Option<AccountsDoc>)

  /**
   `tasks` are the refreshes in flight under the revision they were started as; `pending`
   is the change the loop is between loading for and saving; `others` are other processes.
   `undo` is the accounts.json that the journal of a dead import will bring back.
   */
  datatype State = State(loop: Loop, file: Option<Content>, mtime: int, undo: Option<Option<Content>>, vault: Vault,
                         tasks: map<nat, Work>, pending: Option<(Change, Copy)>, others: map<int, Copy>)

  datatype Action =
    | StartRefresh
    | TaskLoads(k: nat, dated: bool)
    | TaskFailsToLoad(k: nat)
    | TaskStores(k: nat, e: Email, token: Token)
    | TaskPosts(k: nat, doc: AccountsDoc)
    | TaskSaves(k: nat, doc: AccountsDoc, time: int)
    | Arrive(k: nat)
    | BeginChange(c: Change, dated: bool)
    | AbandonChange
    | SaveChange(time: int, reported: bool, dropped: bool)
    | Invalidate
    | Reload
    | OtherLoads(p: int, dated: bool)
    | OtherStores(p: int, ref: Ref, token: Token)
    | OtherSaves(p: int, doc: AccountsDoc, time: int)
    | ImportDies(doc: AccountsDoc, time: int)
    | Recover(time: int)

  function Loaded(s: State, dated: bool): Copy
    requires Decoded(s.file).Some?
  {
    CopyOf(s.file, s.mtime, dated)
  }

  /** The file after a save of `doc` by the holder of `copy`, if the conflict check lets it. */
  function Stored(s: State, copy: Copy, doc: AccountsDoc, time: int): State {
    if SaveAllowed(copy.revision, copy.hash, s.file, s.mtime)
    then s.(file := Some(AccountsJson(doc)), mtime := time) else s
  }

  /** The vault entry a removal deletes: the one its account referred to. */
  function SecretOf(c: Change, d: Doc): set<Ref> {
    if c.Remove? && c.e in d.byEmail && d.byEmail[c.e].secretRef.Some? then {d.byEmail[c.e].secretRef.value} else {}
  }

  predicate Accepts(s: State, copy: Copy) { SaveAllowed(copy.revision, copy.hash, s.file, s.mtime) }

  /** A refresh changes credentials, snapshots and eligibility of the accounts it loaded. */
  ghost predicate QuotaEdit(base: Doc, doc: Doc) {
    && doc.order == base.order && doc.byEmail.Keys == base.byEmail.Keys
    && forall e | e in base.byEmail :: doc.byEmail[e].notes.tier == base.byEmail[e].notes.tier
  }

  ghost function Next(s: State, a: Action): Option<State> {
    match a
    case StartRefresh =>
      if s.pending.Some? || s.loop.refreshing then None
      else
        var l := Started(s.loop);
        Some(s.(loop := l, tasks := s.tasks[l.revision := Starting]))
    case TaskLoads(k, dated) =>
      if k in s.tasks && s.tasks[k].Starting? && Decoded(s.file).Some?
      then Some(s.(tasks := s.tasks[k := Working(Loaded(s, dated))])) else None
    case TaskFailsToLoad(k) =>
      if k in s.tasks && s.tasks[k].Starting? then Some(s.(tasks := s.tasks[k := Posted(None)])) else None
    case TaskStores(k, e, token) =>
      // A refreshed token goes to the vault before the accounts are saved.
      if k in s.tasks && s.tasks[k].Working? && e in s.tasks[k].copy.doc.byEmail
      then Some(s.(vault := s.vault[Det(e) := token])) else None
    case TaskPosts(k, doc) =>
      if k in s.tasks && s.tasks[k].Working? && QuotaEdit(s.tasks[k].copy.doc, doc)
      then Some(s.(tasks := s.tasks[k := Posted(Some(doc))])) else None
    case TaskSaves(k, doc, time) =>
      if k in s.tasks && s.tasks[k].Working? && QuotaEdit(s.tasks[k].copy.doc, doc) && time != 0
      then Some(Stored(s, s.tasks[k].copy, doc, time).(tasks := s.tasks[k := Posted(Some(doc))])) else None
    case Arrive(k) =>
      if s.pending == None && k in s.tasks && s.tasks[k].Posted?
      then Some(s.(loop := Arrived(s.loop, k, s.tasks[k].accounts), tasks := s.tasks - {k})) else None
    case BeginChange(c, dated) =>
      if s.pending == None && Decoded(s.file).Some?
      then Some(s.(loop := Invalidated(s.loop), pending := Some((c, Loaded(s, dated))))) else None
    case Invalidate =>
      if s.pending == None then Some(s.(loop := Invalidated(s.loop))) else None
    case AbandonChange =>
      if s.pending.Some? then Some(s.(pending := None)) else None
    case SaveChange(time, reported, dropped) =>
      if s.pending == None || time == 0 then None
      else
        var (c, copy) := s.pending.value;
        var doc := Applied(c, copy.doc);
        var after := Stored(s, copy, doc, time).(pending := None);
        Some(if Accepts(s, copy) && reported
             then after.(loop := s.loop.(shown := doc), vault := if dropped then s.vault - SecretOf(c, copy.doc)
                 else s.vault)
             else after)
    case Reload =>
      if s.pending == None && Decoded(s.file).Some? then Some(s.(loop := s.loop.(shown := Decoded(s.file).value)))
          else None
    case OtherLoads(p, dated) =>
      if Decoded(s.file).Some? then Some(s.(others := s.others[p := Loaded(s, dated)])) else None
    case OtherStores(p, ref, token) =>
      if p in s.others then Some(s.(vault := s.vault[ref := token])) else None
    case OtherSaves(p, doc, time) =>
      if p in s.others && time != 0
      then Some(Stored(s, s.others[p], doc, time).(others := s.others - {p})) else None
    case ImportDies(doc, time) =>
      if s.undo == None && time != 0
      then Some(s.(undo := Some(s.file), file := Some(AccountsJson(doc)), mtime := time)) else None
    case Recover(time) =>
      if s.undo.Some? && time != 0 then Some(s.(file := s.undo.value, mtime := time, undo := None)) else None
  }

  /** A copy is what the file it was taken from decodes to; a missing file has revision 0. */
  ghost predicate Honest(copy: Copy) {
    Decoded(copy.hash) == Some(copy.doc) && (copy.hash == None ==> copy.revision == 0)
  }

  ghost predicate CopiesHonest(s: State) {
    && (forall k | k in s.tasks && s.tasks[k].Working? :: Honest(s.tasks[k].copy))
    && (s.pending.Some? ==> Honest(s.pending.value.1))
    && (forall p | p in s.others :: Honest(s.others[p]))
  }

  /** `refreshing` says whether a refresh started as the current revision is in flight. */
  ghost predicate RevisionsFit(s: State) {
    && (forall k | k in s.tasks :: k <= s.loop.revision)
    && (s.loop.refreshing <==> s.loop.revision in s.tasks)
  }

  ghost predicate Inv(s: State) {
    s.mtime != 0 && CopiesHonest(s) && RevisionsFit(s)
  }

  ghost predicate Initial(s: State) {
    && s.mtime != 0 && s.undo == None
    && s.tasks == map[] && s.pending == None && s.others == map[] && !s.loop.refreshing
  }

  lemma NextKeepsInv(s: State, a: Action)
    requires Inv(s) && Next(s, a).Some?
    ensures Inv(Next(s, a).value)
  {
    NextKeepsCopiesHonest(s, a);
    NextKeepsRevisions(s, a);
  }

  /** A copy of the file as it is now. */
  predicate JustLoaded(s: State, copy: Copy) {
    Decoded(s.file).Some? && copy in {Loaded(s, true), Loaded(s, false)}
  }

  /** A refresh works on what it worked on before, or on what it has just loaded. */
  lemma TaskAfter(s: State, a: Action, k: nat)
    requires Next(s, a).Some? && k in Next(s, a).value.tasks && Next(s, a).value.tasks[k].Working?
    ensures (k in s.tasks && s.tasks[k] == Next(s, a).value.tasks[k]) || JustLoaded(s, Next(s, a).value.tasks[k].copy)
  {
  }

  lemma OtherAfter(s: State, a: Action, p: int)
    requires Next(s, a).Some? && p in Next(s, a).value.others
    ensures (p in s.others && s.others[p] == Next(s, a).value.others[p]) || JustLoaded(s, Next(s, a).value.others[p])
  {
  }

  lemma PendingAfter(s: State, a: Action)
    requires Next(s, a).Some? && Next(s, a).value.pending.Some?
    ensures Next(s, a).value.pending == s.pending || JustLoaded(s, Next(s, a).value.pending.value.1)
  {
  }

  lemma NextKeepsCopiesHonest(s: State, a: Action)
    requires CopiesHonest(s) && Next(s, a).Some?
    ensures CopiesHonest(Next(s, a).value)
  {
    var s' := Next(s, a).value;
    forall k | k in s'.tasks && s'.tasks[k].Working? ensures Honest(s'.tasks[k].copy) {
      TaskAfter(s, a, k);
    }
    forall p | p in s'.others ensures Honest(s'.others[p]) {
      OtherAfter(s, a, p);
    }
    if s'.pending.Some? {
      PendingAfter(s, a);
    }
  }

  lemma NextKeepsRevisions(s: State, a: Action)
    requires RevisionsFit(s) && Next(s, a).Some?
    ensures RevisionsFit(Next(s, a).value)
  {
  }

  /** Somebody who saw the change in effect takes it back. */
  ghost predicate Undoes(s: State, a: Action, c: Change) {
    match a
    case OtherSaves(p, doc, _) => p in s.others && Holds(c, s.others[p].doc) && !Holds(c, doc)
    case ImportDies(doc, _) => !Holds(c, doc)
    case SaveChange(_, _, _) => s.pending.Some? && Holds(c, s.pending.value.1.doc)
        && !Holds(c, Applied(s.pending.value.0, s.pending.value.1.doc))
    case _ => false
  }

  /** The file holds the change, and so does what a recovery would bring back. */
  ghost predicate FileHolds(s: State, c: Change) {
    Decoded(s.file).Some? && Holds(c, Decoded(s.file).value) && UndoHolds(s, c)
  }

  ghost predicate UndoHolds(s: State, c: Change) {
    s.undo.Some? ==> Decoded(s.undo.value).Some? && Holds(c, Decoded(s.undo.value).value)
  }

  /** accounts.json is missing, or a recovery would remove it. */
  predicate MayBeMissing(s: State) { s.file == None || s.undo == Some(None) }

  /** Nobody holds accounts without the change that were loaded without a date. */
  ghost predicate NoBlindHolder(s: State, c: Change) {
    NoBlindTask(s, c) && NoBlindOther(s, c) && (s.pending.Some? ==> !Blind(s.pending.value.1, c))
  }

  ghost predicate NoBlindTask(s: State, c: Change) {
    forall k | k in s.tasks && s.tasks[k].Working? :: !Blind(s.tasks[k].copy, c)
  }

  ghost predicate NoBlindOther(s: State, c: Change) {
    forall p | p in s.others :: !Blind(s.others[p], c)
  }

  predicate Blind(copy: Copy, c: Change) { copy.revision == 0 && copy.hash.Some? && !Holds(c, copy.doc) }

  /** The screen holds the change, and so does the refresh that may still reach it. */
  ghost predicate ScreenHolds(s: State, c: Change) {
    && Holds(c, s.loop.shown)
    && (s.loop.revision in s.tasks ==> Current(s.tasks[s.loop.revision], c))
  }

  /** The change is in effect in the file, on the screen and in whatever may still reach them. */
  ghost predicate InEffect(s: State, c: Change) {
    FileHolds(s, c) && ScreenHolds(s, c) && (MayBeMissing(s) ==> NoBlindHolder(s, c))
  }

  ghost predicate Current(w: Work, c: Change) {
    && (w.Working? ==> Holds(c, w.copy.doc))
    && (w.Posted? && w.accounts.Some? ==> Holds(c, w.accounts.value))
  }

  /** A save from accounts without the change is refused while the change is in effect. */
  lemma StaleSaveIsRefused(s: State, c: Change, copy: Copy, doc: AccountsDoc, time: int)
    requires s.mtime != 0 && FileHolds(s, c) && Honest(copy) && !Holds(c, copy.doc)
    requires s.file == None ==> !Blind(copy, c)
    ensures !Accepts(s, copy) && Stored(s, copy, doc, time) == s
  {
  }

  /** So no save that keeps the change when it saw it takes it out of the file. */
  lemma SaveKeepsFile(s: State, c: Change, copy: Copy, doc: AccountsDoc, time: int)
    requires s.mtime != 0 && FileHolds(s, c) && Honest(copy) && (s.file == None ==> !Blind(copy, c))
    requires Holds(c, copy.doc) ==> Holds(c, doc)
    ensures FileHolds(Stored(s, copy, doc, time), c)
    ensures MayBeMissing(Stored(s, copy, doc, time)) ==> MayBeMissing(s)
  {
    if !Holds(c, copy.doc) {
      StaleSaveIsRefused(s, c, copy, doc, time);
    }
  }

  lemma QuotaEditKeepsChange(c: Change, base: Doc, doc: Doc)
    requires QuotaEdit(base, doc)
    ensures Holds(c, base) ==> Holds(c, doc)
  {
    if c.Remove? {
      assert c.e in doc.byEmail.Keys <==> c.e in base.byEmail.Keys;
    }
  }

  lemma StepKeepsFile(s: State, a: Action, c: Change)
    requires Inv(s) && InEffect(s, c) && Next(s, a).Some? && !Undoes(s, a, c)
    ensures FileHolds(Next(s, a).value, c)
    ensures MayBeMissing(Next(s, a).value) ==> MayBeMissing(s)
  {
    match a {
      case TaskSaves(k, doc, time) =>
        QuotaEditKeepsChange(c, s.tasks[k].copy.doc, doc);
        SaveKeepsFile(s, c, s.tasks[k].copy, doc, time);
      case SaveChange(time, _, _) =>
        var (b, copy) := s.pending.value;
        SaveKeepsFile(s, c, copy, Applied(b, copy.doc), time);
      case OtherSaves(p, doc, time) => SaveKeepsFile(s, c, s.others[p], doc, time);
      case _ =>
    }
  }

  lemma StepKeepsScreen(s: State, a: Action, c: Change)
    requires Inv(s) && InEffect(s, c) && Next(s, a).Some? && !Undoes(s, a, c)
    ensures ScreenHolds(Next(s, a).value, c)
  {
    if OnLoop(a) {
      LoopStepKeepsScreen(s, a, c);
    } else {
      WorkKeepsScreen(s, a, c);
    }
  }

  /** The steps of the loop itself. */
  predicate OnLoop(a: Action) {
    a.StartRefresh? || a.Arrive? || a.BeginChange? || a.AbandonChange? || a.SaveChange? || a.Invalidate? || a.Reload?
  }

  lemma LoopStepKeepsScreen(s: State, a: Action, c: Change)
    requires Inv(s) && InEffect(s, c) && Next(s, a).Some? && !Undoes(s, a, c) && OnLoop(a)
    ensures ScreenHolds(Next(s, a).value, c)
  {
    match a {
      case SaveChange(time, _, _) =>
        var (b, copy) := s.pending.value;
        if !Holds(c, copy.doc) {
          StaleSaveIsRefused(s, c, copy, Applied(b, copy.doc), time);
        }
      case _ =>
    }
  }

  lemma WorkKeepsScreen(s: State, a: Action, c: Change)
    requires FileHolds(s, c) && ScreenHolds(s, c) && Next(s, a).Some? && !Undoes(s, a, c) && !OnLoop(a)
    ensures ScreenHolds(Next(s, a).value, c)
  {
    assert Next(s, a).value.loop == s.loop;
    match a {
      case TaskPosts(k, doc) => QuotaEditKeepsChange(c, s.tasks[k].copy.doc, doc);
      case TaskSaves(k, doc, time) => QuotaEditKeepsChange(c, s.tasks[k].copy.doc, doc);
      case _ =>
    }
  }

  lemma StepKeepsNoBlindHolder(s: State, a: Action, c: Change)
    requires FileHolds(s, c) && NoBlindHolder(s, c) && Next(s, a).Some?
    ensures NoBlindHolder(Next(s, a).value, c)
  {
    var s' := Next(s, a).value;
    forall k | k in s'.tasks && s'.tasks[k].Working? ensures !Blind(s'.tasks[k].copy, c) {
      TaskAfter(s, a, k);
    }
    forall p | p in s'.others ensures !Blind(s'.others[p], c) {
      OtherAfter(s, a, p);
    }
    if s'.pending.Some? {
      PendingAfter(s, a);
    }
  }

  lemma StepKeepsChange(s: State, a: Action, c: Change)
    requires Inv(s) && InEffect(s, c) && Next(s, a).Some? && !Undoes(s, a, c)
    ensures InEffect(Next(s, a).value, c)
  {
    StepKeepsFile(s, a, c);
    StepKeepsScreen(s, a, c);
    if MayBeMissing(s) {
      StepKeepsNoBlindHolder(s, a, c);
    }
  }

  /**
   What can be seen before a change is saved: no dead import's journal would take it back, nor
   remove accounts.json under someone who holds undated accounts without it.
   */
  ghost predicate Lasting(s: State, c: Change) {
    UndoHolds(s, c) && (s.undo == Some(None) ==> NoBlindTask(s, c) && NoBlindOther(s, c))
  }

  /** Saving a lasting change puts it into effect: every refresh in flight is stale by then. */
  lemma SavingPutsInEffect(s: State, time: int, dropped: bool)
    requires Inv(s) && s.pending.Some? && s.loop.revision !in s.tasks
    requires Accepts(s, s.pending.value.1) && time != 0
    ensures Next(s, SaveChange(time, true, dropped)).Some?
    ensures var c, s' := s.pending.value.0, Next(s, SaveChange(time, true, dropped)).value;
            && Inv(s') && (Lasting(s, c) ==> InEffect(s', c))
            && s'.file.Some? && s'.undo == s.undo && s'.tasks == s.tasks && s'.others == s.others && s'.pending == None
  {
    AppliedHolds(s.pending.value.0, s.pending.value.1.doc);
    NextKeepsInv(s, SaveChange(time, true, dropped));
  }

  lemma AppliedHolds(c: Change, d: AccountsDoc)
    ensures Holds(c, Applied(c, d))
  {
  }

  // ----- whole runs -----

  ghost function After(s: State, run: seq<Action>): Option<State> {
    if run == [] then Some(s)
    else
      match After(s, run[..|run| - 1])
      case None => None
      case Some(mid) => Next(mid, run[|run| - 1])
  }

  /** While a change is being made, no refresh started as the current revision is in flight. */
  ghost predicate NoneCurrent(s: State) { s.pending.Some? ==> s.loop.revision !in s.tasks }

  lemma NextKeepsNoneCurrent(s: State, a: Action)
    requires RevisionsFit(s) && NoneCurrent(s) && Next(s, a).Some?
    ensures NoneCurrent(Next(s, a).value)
  {
  }

  lemma {:induction false} RunKeepsInv(s: State, run: seq<Action>)
    requires Initial(s) && After(s, run).Some?
    ensures Inv(After(s, run).value) && NoneCurrent(After(s, run).value)
  {
    if run != [] {
      RunKeepsInv(s, run[..|run| - 1]);
      NextKeepsInv(After(s, run[..|run| - 1]).value, run[|run| - 1]);
      NextKeepsNoneCurrent(After(s, run[..|run| - 1]).value, run[|run| - 1]);
    }
  }

  /** Nobody who saw the change takes it back in the run. */
  ghost predicate Undisturbed(s: State, run: seq<Action>, c: Change) {
    forall i | 0 <= i < |run| && After(s, run[..i]).Some? :: !Undoes(After(s, run[..i]).value, run[i], c)
  }

  lemma {:induction false} RunKeepsChange(s: State, run: seq<Action>, c: Change)
    requires Inv(s) && InEffect(s, c) && After(s, run).Some? && Undisturbed(s, run, c)
    ensures Inv(After(s, run).value) && InEffect(After(s, run).value, c)
  {
    if run != [] {
      var before := run[..|run| - 1];
      UndisturbedPrefix(s, run, c);
      RunKeepsChange(s, before, c);
      NextKeepsInv(After(s, before).value, run[|run| - 1]);
      StepKeepsChange(After(s, before).value, run[|run| - 1], c);
    }
  }

  /** The change is in the file and on the screen. */
  ghost predicate Visible(s: State, c: Change) {
    Decoded(s.file).Some? && Holds(c, Decoded(s.file).value) && Holds(c, s.loop.shown)
  }

  /** In every run from here in which nobody takes it back, the change stays visible. */
  ghost predicate StaysVisible(s: State, c: Change) {
    forall run | After(s, run).Some? && Undisturbed(s, run, c) :: Visible(After(s, run).value, c)
  }

  /**
   A removed account never returns, and a tier set by hand stays: after any run of the loop,
   its refreshes and other processes, once a change is saved it is in accounts.json and on the
   screen for good, unless someone who loaded the changed accounts undoes it. This holds exactly
   if the change was lasting when it was saved.
   */
  lemma SavedChangeStaysIff(s0: State, before: seq<Action>, time: int, dropped: bool)
    requires Initial(s0) && After(s0, before).Some? && After(s0, before).value.pending.Some? && time != 0
    requires Accepts(After(s0, before).value, After(s0, before).value.pending.value.1)
    ensures Next(After(s0, before).value, SaveChange(time, true, dropped)).Some?
    ensures var c := After(s0, before).value.pending.value.0;
            StaysVisible(Next(After(s0, before).value, SaveChange(time, true, dropped)).value, c)
            <==> Lasting(After(s0, before).value, c)
  {
    var mid := After(s0, before).value;
    var c := mid.pending.value.0;
    RunKeepsInv(s0, before);
    SavingPutsInEffect(mid, time, dropped);
    StaysVisibleIff(Next(mid, SaveChange(time, true, dropped)).value, c);
  }

  lemma StaysVisibleIff(s: State, c: Change)
    requires Inv(s) && s.pending == None && (Lasting(s, c) ==> InEffect(s, c))
    ensures StaysVisible(s, c) <==> Lasting(s, c)
  {
    if Lasting(s, c) {
      forall run | After(s, run).Some? && Undisturbed(s, run, c) ensures Visible(After(s, run).value, c) {
        RunKeepsChange(s, run, c);
      }
    } else {
      var run := LosingRun(s, c);
    }
  }

  lemma OneStep(s: State, a: Action)
    requires Next(s, a).Some?
    ensures After(s, [a]) == Next(s, a)
    ensures forall c :: !Undoes(s, a, c) ==> Undisturbed(s, [a], c)
  {
    assert [a][..0] == [];
  }

  lemma TwoSteps(s: State, a: Action, b: Action)
    requires Next(s, a).Some? && Next(Next(s, a).value, b).Some?
    ensures After(s, [a, b]) == Next(Next(s, a).value, b)
    ensures forall c :: !Undoes(s, a, c) && !Undoes(Next(s, a).value, b, c) ==> Undisturbed(s, [a, b], c)
  {
    assert [a, b][..1] == [a] && [a, b][..0] == [];
    OneStep(s, a);
  }

  /** Otherwise the recovery of the dead import loses it, or the save of a blind holder after it. */
  lemma LosingRun(s: State, c: Change) returns (run: seq<Action>)
    requires Inv(s) && s.undo.Some? && s.pending == None
    requires !Lasting(s, c)
    ensures After(s, run).Some? && Undisturbed(s, run, c) && !Visible(After(s, run).value, c)
  {
    if !UndoHolds(s, c) {
      OneStep(s, Recover(1));
      run := [Recover(1)];
    } else if k :| k in s.tasks && s.tasks[k].Working? && Blind(s.tasks[k].copy, c) {
      run := BlindSave(s, c, s.tasks[k].copy, TaskSaves(k, s.tasks[k].copy.doc, 1));
    } else {
      var p :| p in s.others && Blind(s.others[p], c);
      run := BlindSave(s, c, s.others[p], OtherSaves(p, s.others[p].doc, 1));
    }
  }

  lemma BlindSave(s: State, c: Change, copy: Copy, a: Action) returns (run: seq<Action>)
    requires Inv(s) && s.undo == Some(None) && Blind(copy, c)
    requires || (a.TaskSaves? && a.k in s.tasks && s.tasks[a.k] == Working(copy) && a.doc == copy.doc && a.time == 1)
             || (a.OtherSaves? && a.p in s.others && s.others[a.p] == copy && a.doc == copy.doc && a.time == 1)
    ensures After(s, run).Some? && Undisturbed(s, run, c) && !Visible(After(s, run).value, c)
  {
    var t := Next(s, Recover(1)).value;
    assert t.file == None && t.tasks == s.tasks && t.others == s.others;
    BlindSaveLands(t, c, copy, a);
    TwoSteps(s, Recover(1), a);
    run := [Recover(1), a];
  }

  lemma BlindSaveLands(t: State, c: Change, copy: Copy, a: Action)
    requires t.file == None && Blind(copy, c)
    requires || (a.TaskSaves? && a.k in t.tasks && t.tasks[a.k] == Working(copy) && a.doc == copy.doc && a.time == 1)
             || (a.OtherSaves? && a.p in t.others && t.others[a.p] == copy && a.doc == copy.doc && a.time == 1)
    ensures Next(t, a).Some? && Next(t, a).value.file == Some(AccountsJson(copy.doc)) && !Undoes(t, a, c)
  {
    assert QuotaEdit(copy.doc, copy.doc);
    assert Accepts(t, copy);
  }

  // ----- the removed account's secret -----

  /** No refresh in flight works on accounts that include e. */
  ghost predicate NoHolder(s: State, e: Email) {
    forall k | k in s.tasks && s.tasks[k].Working? :: e !in s.tasks[k].copy.doc.byEmail
  }

  /** No other process writes e's entry on purpose. */
  ghost predicate NoOtherStores(run: seq<Action>, e: Email) {
    forall i | 0 <= i < |run| :: !(run[i].OtherStores? && run[i].ref == Det(e))
  }

  /** In every run from here that does not bring the account back, its vault entry stays gone. */
  ghost predicate ForgottenForGood(s: State, e: Email) {
    forall run | After(s, run).Some? && Undisturbed(s, run, Remove(e)) && NoOtherStores(run, e) ::
      Det(e) !in After(s, run).value.vault
  }

  lemma {:induction false} StaysForgotten(s: State, run: seq<Action>, e: Email)
    requires Inv(s) && InEffect(s, Remove(e)) && Det(e) !in s.vault && NoHolder(s, e)
    requires After(s, run).Some? && Undisturbed(s, run, Remove(e)) && NoOtherStores(run, e)
    ensures Det(e) !in After(s, run).value.vault && NoHolder(After(s, run).value, e)
  {
    if run != [] {
      var before := run[..|run| - 1];
      UndisturbedPrefix(s, run, Remove(e));
      StaysForgotten(s, before, e);
      RunKeepsChange(s, before, Remove(e));
      StepForgets(After(s, before).value, run[|run| - 1], e);
    }
  }

  lemma StepForgets(s: State, a: Action, e: Email)
    requires FileHolds(s, Remove(e)) && Det(e) !in s.vault && NoHolder(s, e) && Next(s, a).Some?
    requires !(a.OtherStores? && a.ref == Det(e))
    ensures Det(e) !in Next(s, a).value.vault && NoHolder(Next(s, a).value, e)
  {
    var s' := Next(s, a).value;
    forall k | k in s'.tasks && s'.tasks[k].Working? ensures e !in s'.tasks[k].copy.doc.byEmail {
      TaskAfter(s, a, k);
    }
    if Det(e) in s'.vault {
      EntryAfter(s, a, Det(e));
    }
  }

  /** Where a new vault entry comes from. */
  lemma EntryAfter(s: State, a: Action, ref: Ref)
    requires Next(s, a).Some? && ref !in s.vault && ref in Next(s, a).value.vault
    ensures || (a.OtherStores? && a.ref == ref)
            || (a.TaskStores? && Det(a.e) == ref && a.k in s.tasks && s.tasks[a.k].Working?
                && a.e in s.tasks[a.k].copy.doc.byEmail)
  {
  }

  lemma UndisturbedPrefix(s: State, run: seq<Action>, c: Change)
    requires run != [] && Undisturbed(s, run, c)
    ensures Undisturbed(s, run[..|run| - 1], c)
  {
    var before := run[..|run| - 1];
    forall i | 0 <= i < |before| && After(s, before[..i]).Some?
      ensures !Undoes(After(s, before[..i]).value, before[i], c)
    {
      assert before[..i] == run[..i];
    }
  }

  /**
   Once e is removed and its entry deleted, the secret stays gone in every run exactly if no
   refresh in flight had loaded e. Such a refresh writes its token to the vault before its save
   is refused.
   */
  lemma SecretStaysGoneIff(s: State, e: Email)
    requires Inv(s) && InEffect(s, Remove(e)) && Det(e) !in s.vault
    ensures NoHolder(s, e) <==> ForgottenForGood(s, e)
  {
    if NoHolder(s, e) {
      forall run | After(s, run).Some? && Undisturbed(s, run, Remove(e)) && NoOtherStores(run, e)
        ensures Det(e) !in After(s, run).value.vault
      {
        StaysForgotten(s, run, e);
      }
    } else {
      var k :| k in s.tasks && s.tasks[k].Working? && e in s.tasks[k].copy.doc.byEmail;
      var a := TaskStores(k, e, Token(true, "", "", None, None, 0));
      OneStep(s, a);
      assert NoOtherStores([a], e) && Undisturbed(s, [a], Remove(e));
    }
  }

  /** It can be seen before the removal is saved. */
  lemma RemovalForgetsIff(s: State, time: int, e: Email)
    requires Inv(s) && s.pending.Some? && s.pending.value.0 == Remove(e) && s.loop.revision !in s.tasks && time != 0
    requires Accepts(s, s.pending.value.1) && SecretOf(Remove(e), s.pending.value.1.doc) == {Det(e)}
    requires Lasting(s, Remove(e))
    ensures Next(s, SaveChange(time, true, true)).Some?
    ensures NoHolder(s, e) <==> ForgottenForGood(Next(s, SaveChange(time, true, true)).value, e)
  {
    SavingPutsInEffect(s, time, true);
    SecretStaysGoneIff(Next(s, SaveChange(time, true, true)).value, e);
  }

  /** With a refresh in flight that loaded e, the removal can succeed and the secret be back all the same. */
  lemma RemovedSecretReturns(s: State, time: int, k: nat, e: Email, token: Token)
    requires Inv(s) && s.pending.Some? && s.pending.value.0 == Remove(e) && s.loop.revision !in s.tasks && time != 0
    requires Accepts(s, s.pending.value.1) && SecretOf(Remove(e), s.pending.value.1.doc) == {Det(e)}
    requires Lasting(s, Remove(e)) && k in s.tasks && s.tasks[k].Working? && e in s.tasks[k].copy.doc.byEmail
    ensures Next(s, SaveChange(time, true, true)).Some?
    ensures var s1 := Next(s, SaveChange(time, true, true)).value;
            && InEffect(s1, Remove(e)) && Det(e) !in s1.vault && k < s1.loop.revision
            && Next(s1, TaskStores(k, e, token)).Some?
            && var s2 := Next(s1, TaskStores(k, e, token)).value;
               InEffect(s2, Remove(e)) && Det(e) in s2.vault && s2.vault[Det(e)] == token
  {
    SavingPutsInEffect(s, time, true);
  }

  /**
   A removal saved past a dead import: the recovery brings the account back, and its secret is
   gone. The loop looked for the journal before the import began.
   */
  lemma RemovalPastDeadImport(s: State, time: int, later: int, e: Email, kept: AccountsDoc)
    requires Inv(s) && s.pending.Some? && s.pending.value.0 == Remove(e) && s.loop.revision !in s.tasks
    requires Accepts(s, s.pending.value.1) && SecretOf(Remove(e), s.pending.value.1.doc) == {Det(e)}
    requires s.undo == Some(Some(AccountsJson(kept))) && time != 0 && later != 0
    requires e in kept.byEmail && kept.byEmail[e].secretRef == Some(Det(e))
    ensures Next(s, SaveChange(time, true, true)).Some?
    ensures var s1 := Next(s, SaveChange(time, true, true)).value;
            && Visible(s1, Remove(e)) && Next(s1, Recover(later)).Some?
            && var s2 := Next(s1, Recover(later)).value;
               s2.file == Some(AccountsJson(kept)) && Resolve(kept.byEmail[e], s2.vault) == None
  {
    assert kept.byEmail[e].email == e;
    AppliedHolds(Remove(e), s.pending.value.1.doc);
  }

  /** An event of a refresh started before the last invalidation changes nothing. */
  lemma StaleEventIsDropped(s: State, k: nat)
    requires Inv(s) && Next(s, Arrive(k)).Some? && !s.loop.refreshing
    ensures Next(s, Arrive(k)).value.loop == s.loop
  {
  }

  /**
   Reloading after a switch invalidates nothing: a refresh still in flight repaints what it
   loaded earlier exactly when it is the current one.
   */
  lemma ReloadIsRepaintedIff(s: State, k: nat)
    requires Inv(s) && Next(s, Reload).Some? && k in s.tasks && s.tasks[k].Posted?
    ensures var s' := Next(s, Reload).value;
            && Next(s', Arrive(k)).Some?
            && (Next(s', Arrive(k)).value.loop.shown != s'.loop.shown
                <==>
                && s.loop.refreshing && k == s.loop.revision
                && s.tasks[k].accounts.Some? && s.tasks[k].accounts.value != Decoded(s.file).value)
  {
  }

  /** Such a state: the current refresh loaded an empty accounts.json, which holds an account by now. */
  lemma ReloadIsRepainted(e: Email, a: Account)
    requires a.email == e
    ensures var d: Doc := Doc([e], map[e := a]);
            && WellFormed(d)
            && var s := State(Loop(1, true, NO_ACCOUNTS), Some(AccountsJson(d)), 1, None, map[],
                              map[1 := Posted(Some(NO_ACCOUNTS))], None, map[]);
            && Inv(s) && Next(s, Reload).Some?
            && var s' := Next(s, Reload).value;
            && s'.loop.shown == d && Next(s', Arrive(1)).Some?
            && Next(s', Arrive(1)).value.loop.shown == NO_ACCOUNTS != d
  {
  }

  /** What the collector of a refresh makes of the accounts is such an edit. */
  lemma CollectorOnlyEditsQuota(d: Doc, results: seq<QuotaMerge.FetchResult>, hasVault: bool)
    ensures QuotaEdit(d, Doc(d.order, QuotaMerge.AccountsAfter(d.byEmail, results, hasVault)))
  {
    forall e | e in d.byEmail
      ensures QuotaMerge.AccountsAfter(d.byEmail, results, hasVault)[e].notes.tier == d.byEmail[e].notes.tier
    {
      var a, r := d.byEmail[e], QuotaMerge.ResultFor(results, e);
      assert QuotaMerge.AccountsAfter(d.byEmail, results, hasVault)[e] == QuotaMerge.AccountAfter(a, r, hasVault);
    }
  }

  // ----- the loop's code -----

  class Tui {
    var refreshRevision: nat
    var refreshing: bool
    var shown: Doc

    constructor (d: Doc)
      ensures View() == Loop(0, false, d)
    {
      refreshRevision, refreshing, shown := 0, false, d;
    }

    function View(): Loop
      reads this
    {
      Loop(refreshRevision, refreshing, shown)
    }

    /** startRefreshFor, up to the goroutine: its revision, or None if a refresh is running. */
    method StartRefreshFor() returns (revision: Option<nat>)
      modifies this`refreshRevision, this`refreshing
      ensures old(refreshing) ==> revision == None && View() == old(View())
      ensures !old(refreshing) ==>
                && revision == Some(refreshRevision) && View() == Started(old(View()))
                && refreshRevision == old(refreshRevision) + 1 && refreshing && shown == old(shown)
    {
      if refreshing {
        return None;
      }
      refreshRevision := refreshRevision + 1;
      refreshing := true;
      return Some(refreshRevision);
    }

    method InvalidateRefresh()
      modifies this`refreshRevision, this`refreshing
      ensures View() == Invalidated(old(View()))
      ensures refreshRevision == old(refreshRevision) + 1 && !refreshing && shown == old(shown)
    {
      refreshRevision := refreshRevision + 1;
      refreshing := false;
    }

    /** The loop's branch for a tuiAccountsEvent. */
    method AccountsEvent(revision: nat, accounts: Option<Doc>)
      modifies this
      ensures View() == Arrived(old(View()), revision, accounts)
      ensures if revision == old(refreshRevision)
              then !refreshing && refreshRevision == revision
                   && shown == (if accounts.Some? then accounts.value else old(shown))
              else View() == old(View())
    {
      if revision != refreshRevision {
        return;
      }
      refreshing := false;
      SetAccounts(accounts);
    }

    method SetAccounts(accounts: Option<Doc>)
      modifies this`shown
      ensures View() == Showing(old(View()), accounts)
    {
      if accounts.Some? {
        shown := accounts.value;
      }
    }

    /**
     performDelete. The secret goes only after the account is off the disk, so at every point
     of it any other account resolves as before, and e as before or not at all.
     */
    method PerformDelete(m: Machine, e: Email, hasVault: bool) returns (r: Option<SaveResult>)
      requires m.Valid()
      requires Decoded(Lookup(m.files, AccountsFile)).Some? ==> OwnRefs(Decoded(Lookup(m.files, AccountsFile)).value)
      modifies this, m
      ensures m.Valid() && old(m.trail) <= m.trail
      ensures forall i, f | |old(m.trail)| <= i < |m.trail| ::
                OnDisk(m.trail[i], f) == OnDisk(old(m.files), f) || (f == e && OnDisk(m.trail[i], f) == None)
      ensures r == Some(Saved) ==>
                && Decoded(Lookup(old(m.files), AccountsFile)).Some?
                && View() == Showing(Invalidated(old(View())),
                                     Some(Applied(Remove(e), Decoded(Lookup(old(m.files), AccountsFile)).value)))
                && Lookup(m.files, AccountsFile) == Some(AccountsJson(shown))
      ensures r != Some(Saved) ==> View() == Invalidated(old(View())) && VaultOf(m.files) == VaultOf(old(m.files))
      ensures old(m.log) <= m.log
      ensures r == Some(Saved) ==>
                RemovedFor(Decoded(Lookup(old(m.files), AccountsFile)).value, e, hasVault, shown, VaultOf(old(m.files)),
                           VaultOf(m.files), m.stale, m.log, |old(m.log)|)
      ensures AllWorked(m.log, |old(m.log)|) ==>
                && (r == None <==> Decoded(Lookup(old(m.files), AccountsFile)) == None)
                && (r.Some? && Acceptable(Dropped(Decoded(Lookup(old(m.files), AccountsFile)).value, e)) ==>
                      r == Some(Saved))
    {
      ghost var l := |m.log|;
      InvalidateRefresh();
      var loaded := ReadAccountsUnlocked(m);
      if loaded == None {
        return None;
      }
      var accounts := loaded.value;
      ghost var log := m.log;
      var saved := SaveRemoval(m, accounts, e, hasVault, l);
      WorkedBefore(log, m.log, l, |log|);
      if saved == Saved {
        SetAccounts(Some(accounts.Contents()));
      }
      return Some(saved);
    }

    /** toggleTier; None where it ends before the save. */
    method ToggleTier(m: Machine, e: Email) returns (r: Option<SaveResult>)
      requires m.Valid()
      modifies this, m
      ensures m.Valid() && old(m.trail) <= m.trail
      ensures r == None ==> View() == Invalidated(old(View())) && m.files == old(m.files)
      ensures r.Some? ==> ToggleTarget(Lookup(old(m.files), AccountsFile), e).Some?
      ensures r == Some(Saved) ==>
                && View() == Showing(Invalidated(old(View())), ToggleTarget(Lookup(old(m.files), AccountsFile), e))
                && Lookup(m.files, AccountsFile) == Some(AccountsJson(shown))
      ensures r.Some? && r != Some(Saved) ==> View() == Invalidated(old(View()))
      ensures old(m.log) <= m.log
      ensures r == Some(Saved) ==> Toggled(Decoded(Lookup(old(m.files), AccountsFile)).value, e, shown)
      ensures AllWorked(m.log, |old(m.log)|) ==>
                && (r == None <==> ToggleTarget(Lookup(old(m.files), AccountsFile), e) == None)
                && (r.Some? && Acceptable(ToggleTarget(Lookup(old(m.files), AccountsFile), e).value) ==>
                      r == Some(Saved))
    {
      ghost var l := |m.log|;
      InvalidateRefresh();
      var loaded := ReadAccountsUnlocked(m);
      if loaded == None {
        return None;
      }
      var accounts := loaded.value;
      if e !in accounts.ByEmail || accounts.ByEmail[e].notes.snapshot.Some? {
        return None;
      }
      TargetIsToggled(Lookup(m.files, AccountsFile), e);
      var account := accounts.ByEmail[e];
      accounts.Set(e, WithTier(account, NextTier(account.notes.tier)));
      ghost var log := m.log;
      var saved := SaveUnlocked(m, accounts);
      WorkedBefore(log, m.log, l, |log|);
      if saved == Saved {
        SetAccounts(Some(accounts.Contents()));
      }
      return Some(saved);
    }
  }

  /** The part of performDelete that saves, and then forgets the secret. */
  method SaveRemoval(m: Machine, accounts: Accounts, e: Email, hasVault: bool, ghost l: nat) returns (saved: SaveResult)
    requires m.Valid() && WellFormed(accounts.Contents()) && OwnRefs(accounts.Contents()) && l <= |m.log|
    requires Decoded(Lookup(m.files, AccountsFile)) == Some(accounts.Contents())
    modifies m, accounts
    ensures m.Valid() && old(m.trail) <= m.trail && old(m.log) <= m.log
    ensures accounts.Contents() == Dropped(old(accounts.Contents()), e) && WellFormed(accounts.Contents())
    ensures forall i, f | |old(m.trail)| <= i < |m.trail| ::
              OnDisk(m.trail[i], f) == OnDisk(old(m.files), f) || (f == e && OnDisk(m.trail[i], f) == None)
    ensures saved == Saved ==>
              && Decoded(Lookup(m.files, AccountsFile)) == Some(accounts.Contents())
              && Lookup(m.files, AccountsFile).Some?
              && RemovedFor(old(accounts.Contents()), e, hasVault, accounts.Contents(), VaultOf(old(m.files)),
                            VaultOf(m.files), m.stale, m.log, l)
    ensures saved != Saved ==> VaultOf(m.files) == VaultOf(old(m.files))
    ensures AllWorked(m.log, |old(m.log)|) && old(SaveStands(accounts, m)) && Acceptable(accounts.Contents()) ==>
              saved == Saved
  {
    ghost var base, time, d, log := m.files, m.mtime, accounts.Contents(), m.log;
    var ref := if e in accounts.ByEmail then accounts.ByEmail[e].secretRef else None;
    accounts.Delete(e);
    DroppedIs(d, e);
    var refs := if hasVault && ref.Some? then [ref.value] else [];
    saved := SaveThenForget(m, accounts, refs);
    forall i, f | |old(m.trail)| <= i < |m.trail|
      ensures OnDisk(m.trail[i], f) == OnDisk(base, f) || (f == e && OnDisk(m.trail[i], f) == None)
    {
      RemovedResolves(base, time, d, e, refs, m.trail[i], f);
    }
    if saved == Saved {
      ForgottenLater(VaultOf(m.files), refs, m.stale, m.log, m.log, l, |log|);
      if !hasVault {
        NothingForgotten(base, time, accounts.Contents(), m.files);
      }
    }
  }

  lemma DroppedIs(d: Doc, e: Email)
    requires WellFormed(d)
    ensures Dropped(d, e).order == Without(d.order, e) && Dropped(d, e).byEmail == d.byEmail - {e}
    ensures WellFormed(Dropped(d, e))
  {
    if e !in d.byEmail {
      WithoutAbsent(d.order, e);
    }
  }

  /**
   After a removal the account is gone, every other one is as it was and in its place, and so is
   the entry the account referred to, unless its deletion was not carried out.
   */
  ghost predicate RemovedFor(d: Doc, e: Email, hasVault: bool, now: Doc, v: Vault, w: Vault, stale: set<Ref>,
                             log: seq<Op>, from: nat) {
    && now.order == Without(d.order, e) && now.byEmail == d.byEmail - {e}
    && (hasVault && e in d.byEmail && d.byEmail[e].secretRef.Some? ==>
          Forgotten(w, [d.byEmail[e].secretRef.value], stale, log, from))
    && (!hasVault ==> forall ref :: Entry(w, ref) == Entry(v, ref))
  }

  lemma NothingForgotten(base: Image, time: int, d: AccountsDoc, img: Image)
    requires OnlyDropped(SavedImage(base, time, d), img, [])
    ensures forall ref :: Entry(VaultOf(img), ref) == Entry(VaultOf(base), ref)
  {
    assert Lookup(SavedImage(base, time, d), Secrets) == Lookup(base, Secrets);
  }

  /** A press of the tier key: Pro, then Free, then none, on an account without a snapshot; nothing else changes. */
  ghost predicate Toggled(d: Doc, e: Email, now: Doc) {
    && e in d.byEmail && e in now.byEmail && d.byEmail[e].notes.snapshot == None
    && now.order == d.order && now.byEmail - {e} == d.byEmail - {e}
    && var (was, tier) := (d.byEmail[e], now.byEmail[e].notes.tier);
       && now.byEmail[e] == was.(notes := was.notes.(tier := tier))
       && (was.notes.tier == Manual(true) ==> tier == Manual(false))
       && (was.notes.tier == Manual(false) ==> tier == NoTier)
       && (was.notes.tier != Manual(true) && was.notes.tier != Manual(false) ==> tier == Manual(true))
  }

  lemma TargetIsToggled(file: Option<Content>, e: Email)
    requires ToggleTarget(file, e).Some?
    ensures Toggled(Decoded(file).value, e, ToggleTarget(file, e).value)
  {
  }

  /** What toggleTier saves: only an account without a snapshot from Google has its tier set by hand. */
  function ToggleTarget(file: Option<Content>, e: Email): Option<AccountsDoc> {
    match Decoded(file)
    case None => None
    case Some(d) =>
      if e in d.byEmail && d.byEmail[e].notes.snapshot.None?
      then Some(Applied(SetTier(e, NextTier(d.byEmail[e].notes.tier)), d)) else None
  }

  /** While an account is removed and its entry forgotten, the others keep theirs. */
  lemma RemovedResolves(base: Image, mtime: int, d: AccountsDoc, e: Email, refs: seq<Ref>, img: Image, f: Email)
    requires Decoded(Lookup(base, AccountsFile)) == Some(d) && OwnRefs(d)
    requires forall r | r in refs :: r.email == e
    requires SavedOrForgot(base, mtime, Dropped(d, e), refs, img)
    ensures OnDisk(img, f) == OnDisk(base, f) || (f == e && OnDisk(img, f) == None)
  {
    var d' := Dropped(d, e);
    if OnlyDropped(SavedImage(base, mtime, d'), img, refs) {
      assert Lookup(img, AccountsFile) == Some(AccountsJson(d'));
      assert VaultOf(SavedImage(base, mtime, d')) == VaultOf(base);
      if f in d'.byEmail {
        assert Det(f) !in refs;
        assert d'.byEmail[f].secretRef.Some? ==> d'.byEmail[f].secretRef.value !in refs;
      }
    }
  }
}
