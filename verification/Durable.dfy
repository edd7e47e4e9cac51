/**
 What survives a crash: files, the vault and the OS credential store, one atomic write
 at a time (internal/store/atomic.go). A crash may come after any write, so the set of
 crash states of a command is the list of images its `trail` records.
 */
module Durable {
  import opened Model

  /** The durable cells. `Secrets` is the account vault and `Keyring` the OS session entry. */
  datatype Path =
    | AccountsFile | BackupFile | SettingsFile | JournalFile
    | Secrets | Keyring
    | CliToken | IdeToken | JetskiToken | OAuthCreds | GoogleAccounts

  datatype Content =
    | AccountsJson(doc: AccountsDoc)
    | SettingsJson(settings: Settings)
    | JournalJson(journal: Journal)
    | VaultMap(vault: Vault)
    | TokenJson(token: Token)
    | CredsJson(access: string, refresh: string)
    | ActiveJson(active: Email, previous: seq<Email>)
    | Garbage(bytes: nat)

  /** restore-journal.json: the three files as they were, None for a file that was missing. */
  datatype Journal = Journal(committed: bool, accounts: Option<Content>,
                             backup: Option<Content>, settings: Option<Content>)

  type Image = map<Path, Content>

  function Lookup(img: Image, path: Path): Option<Content> {
    if path in img then Some(img[path]) else None
  }

  function Replace(img: Image, path: Path, data: Option<Content>): (r: Image)
    ensures Lookup(r, path) == data
    ensures forall p | p != path :: Lookup(r, p) == Lookup(img, p)
  {
    match data
    case Some(c) => img[path := c]
    case None => img - {path}
  }

  function VaultOf(img: Image): Vault {
    match Lookup(img, Secrets)
    case Some(VaultMap(v)) => v
    case _ => map[]
  }

  /** The accounts a content decodes to: none at all where the source fails to decode. */
  function Decoded(c: Option<Content>): Option<AccountsDoc> {
    match c
    case Some(AccountsJson(d)) => Some(d)
    case Some(_) => None
    case None => Some(NO_ACCOUNTS)
  }

  /** Whether two images differ at most at `path`. */
  ghost predicate SameBut(a: Image, b: Image, path: Path) {
    forall p | p != path :: Lookup(a, p) == Lookup(b, p)
  }

  /**
   What a command ran into: a file write or a removal, a vault write, a vault deletion, each with
   what was reported; a read that failed; or the user breaking it off.
   */
  datatype Op =
    | Op(path: Path, data: Option<Content>, ok: bool)
    | PutSecret(ref: Ref, token: Token, ok: bool)
    | CutSecret(ref: Ref, ok: bool)
    | Unread(path: Path)
    | Cancelled

  predicate Worked(op: Op) {
    match op
    case Op(_, _, ok) => ok
    case PutSecret(_, _, ok) => ok
    case CutSecret(_, ok) => ok
    case _ => false
  }

  /** Nothing has failed since `from`. */
  ghost predicate AllWorked(log: seq<Op>, from: nat) {
    forall j | from <= j < |log| :: Worked(log[j])
  }

  lemma WorkedBefore(log: seq<Op>, longer: seq<Op>, from: nat, since: nat)
    requires log <= longer && from <= since
    ensures AllWorked(longer, from) ==> AllWorked(log, from) && AllWorked(longer, since)
  {
    assert forall j | 0 <= j < |log| :: longer[j] == log[j];
  }

  /** Since `from`, a vault write under the reference reported a failure. */
  ghost predicate PutFailed(log: seq<Op>, from: nat, ref: Ref) {
    exists j | from <= j < |log| :: log[j].PutSecret? && log[j].ref == ref && !log[j].ok
  }

  /** Since `from`, a vault deletion of the reference was not carried out in full. */
  ghost predicate CutFailed(log: seq<Op>, from: nat, ref: Ref) {
    exists j | from <= j < |log| :: log[j] == CutSecret(ref, false)
  }

  lemma PutFailedLater(log: seq<Op>, longer: seq<Op>, from: nat, since: nat, ref: Ref)
    requires log <= longer && from <= since
    ensures PutFailed(log, since, ref) ==> PutFailed(longer, from, ref)
  {
    assert forall j | 0 <= j < |log| :: longer[j] == log[j];
  }

  lemma CutFailedLater(log: seq<Op>, longer: seq<Op>, from: nat, since: nat, ref: Ref)
    requires log <= longer && from <= since
    ensures CutFailed(log, since, ref) ==> CutFailed(longer, from, ref)
  {
    assert forall j | 0 <= j < |log| :: longer[j] == log[j];
  }

  /** Since `from`, a write of this to the path reported a failure. */
  ghost predicate WriteFailed(log: seq<Op>, from: nat, path: Path, data: Option<Content>) {
    exists j | from <= j < |log| :: log[j] == Op(path, data, false)
  }

  /** No logged read failed since `from`. */
  ghost predicate AllRead(log: seq<Op>, from: nat) {
    forall j | from <= j < |log| :: !log[j].Unread?
  }

  lemma WriteFailedSince(log: seq<Op>, later: seq<Op>, from: nat, since: nat, path: Path, data: Option<Content>)
    requires log <= later && from <= since && WriteFailed(log, since, path, data)
    ensures WriteFailed(later, from, path, data)
  {
    var j :| since <= j < |log| && log[j] == Op(path, data, false);
    assert later[j] == log[j];
  }

  /** Such a failure is one. */
  lemma FailuresShow(log: seq<Op>, from: nat, ref: Ref)
    ensures PutFailed(log, from, ref) || CutFailed(log, from, ref) ==> !AllWorked(log, from)
  {
    if PutFailed(log, from, ref) {
      var j :| from <= j < |log| && log[j].PutSecret? && log[j].ref == ref && !log[j].ok;
      assert !Worked(log[j]);
    } else if CutFailed(log, from, ref) {
      var j :| from <= j < |log| && log[j] == CutSecret(ref, false);
      assert !Worked(log[j]);
    }
  }

  /** Each of these entries is gone, unless its own deletion was not carried out, or an older entry took its place. */
  ghost predicate Forgotten(vault: Vault, refs: seq<Ref>, stale: set<Ref>, log: seq<Op>, from: nat) {
    forall ref | ref in refs :: ref !in vault || ref in stale || CutFailed(log, from, ref)
  }

  lemma ForgetOne(v: Vault, w: Vault, refs: seq<Ref>, ref: Ref, stale: set<Ref>, log: seq<Op>, longer: seq<Op>,
                  from: nat)
    requires Forgotten(v, refs, stale, log, from) && w - {ref} == v - {ref} && from <= |log| < |longer| && log <= longer
    requires longer[|log|] == CutSecret(ref, false) || ref in stale || w == v - {ref}
    requires ref !in stale ==> w in {v, v - {ref}}
    ensures Forgotten(w, refs + [ref], stale, longer, from)
  {
    forall r | r in refs + [ref] ensures r !in w || r in stale || CutFailed(longer, from, r) {
      CutFailedLater(log, longer, from, from, r);
      if r != ref {
        assert r in w <==> r in w - {ref};
        assert r in v <==> r in v - {ref};
      }
    }
  }

  lemma ForgottenLater(vault: Vault, refs: seq<Ref>, stale: set<Ref>, log: seq<Op>, longer: seq<Op>, from: nat,
                       since: nat)
    requires Forgotten(vault, refs, stale, log, since) && log <= longer && from <= since
    ensures Forgotten(vault, refs, stale, longer, from)
  {
    forall ref | ref in refs ensures ref !in vault || ref in stale || CutFailed(longer, from, ref) {
      CutFailedLater(log, longer, from, since, ref);
    }
  }

  class Machine {
    /** False on Windows, where AtomicWrite has no step after the replacement. */
    const posix: bool
    var files: Image
    /** Modification time of accounts.json, in the store's nanoseconds; 0 is the epoch. */
    var mtime: int
    ghost var trail: seq<Image>
    /** What the command ran into so far. */
    ghost var log: seq<Op>
    /** References for which the fallback store holds an older entry. Nothing ever adds one there. */
    const stale: set<Ref>

    ghost predicate Valid()
      reads this
    {
      |trail| > 0 && trail[|trail| - 1] == files
    }

    constructor (posix: bool, files: Image, mtime: int, stale: set<Ref>)
      ensures Valid() && this.posix == posix && this.files == files && this.mtime == mtime && this.stale == stale
      ensures trail == [files] && log == []
    {
      this.posix, this.files, this.mtime, this.stale := posix, files, mtime, stale;
      this.trail, this.log := [files], [];
    }

    /**
     Replaces a whole file. A failure leaves the file as it was, except that on POSIX the
     chmod after the rename can still fail: then the data is in place and an error comes back.
     */
    method AtomicWrite(path: Path, data: Content) returns (ok: bool)
      requires Valid()
      modifies this
      ensures Valid() && trail == old(trail) + [files]
      ensures files == old(files)[path := data] || (!ok && files == old(files) && mtime == old(mtime))
      ensures !posix && !ok ==> files == old(files)
      ensures path != AccountsFile ==> mtime == old(mtime)
      ensures log == old(log) + [Op(path, Some(data), ok)]
      ensures !ok ==> !Worked(log[|old(log)|])
    {
      var replaced: bool := *;
      ok := false;
      if replaced {
        files := files[path := data];
        if path == AccountsFile {
          mtime := *;
        }
        var chmodFails: bool := *;
        ok := !(posix && chmodFails);
      }
      log := log + [Op(path, Some(data), ok)];
      trail := trail + [files];
    }

    /** os.Remove, where a file that is already missing is no failure for the callers here. */
    method Remove(path: Path) returns (ok: bool)
      requires Valid()
      modifies this`files, this`trail, this`log
      ensures Valid() && trail == old(trail) + [files]
      ensures files == if ok then old(files) - {path} else old(files)
      ensures log == old(log) + [Op(path, None, ok)]
      ensures !ok ==> !Worked(log[|old(log)|])
    {
      ok := *;
      if ok {
        files := files - {path};
      }
      log := log + [Op(path, None, ok)];
      trail := trail + [files];
    }

    method Read(path: Path) returns (ok: bool, data: Option<Content>)
      requires Valid()
      modifies this`log
      ensures Valid() && log == if ok then old(log) else old(log) + [Unread(path)]
      ensures !ok ==> !Worked(log[|old(log)|])
      ensures ok ==> data == Lookup(files, path)
    {
      ok := *;
      data := if ok then Lookup(files, path) else None;
      if !ok {
        log := log + [Unread(path)];
      }
    }

    /** os.Stat: whether the file's time, or that there is no file, could be read. */
    method Stat(path: Path) returns (ok: bool)
      requires Valid()
      modifies this`log
      ensures Valid() && log == if ok then old(log) else old(log) + [Unread(path)]
      ensures !ok ==> !Worked(log[|old(log)|])
    {
      ok := *;
      if !ok {
        log := log + [Unread(path)];
      }
    }

    /** Whether the user has broken the command off. */
    method IsCancelled() returns (cancelled: bool)
      requires Valid()
      modifies this`log
      ensures Valid() && log == if cancelled then old(log) + [Cancelled] else old(log)
      ensures cancelled ==> !Worked(log[|old(log)|])
    {
      cancelled := *;
      if cancelled {
        log := log + [Cancelled];
      }
    }

    /** A vault write. It may fail with or without having stored the entry. */
    method SetSecret(ref: Ref, token: Token) returns (ok: bool)
      requires Valid()
      modifies this`files, this`trail, this`log
      ensures Valid() && trail == old(trail) + [files] && SameBut(old(files), files, Secrets)
      ensures VaultOf(files) == VaultOf(old(files))[ref := token] || (!ok && files == old(files))
      ensures log == old(log) + [PutSecret(ref, token, ok)]
      ensures !ok ==> !Worked(log[|old(log)|])
    {
      var stored: bool := *;
      ok := false;
      if stored {
        files := files[Secrets := VaultMap(VaultOf(files)[ref := token])];
        ok := *;
      }
      log := log + [PutSecret(ref, token, ok)];
      trail := trail + [files];
    }

    /**
     A vault deletion whose result the callers ignore; `ok` says that both stores carried it out.
     Otherwise the entry may survive it, or an older one from the fallback store reappear in its
     place.
     */
    method DropSecret(ref: Ref) returns (ok: bool)
      requires Valid()
      modifies this`files, this`trail, this`log
      ensures Valid() && trail == old(trail) + [files] && SameBut(old(files), files, Secrets)
      ensures VaultOf(files) - {ref} == VaultOf(old(files)) - {ref}
      ensures ref !in stale ==> VaultOf(files) in {VaultOf(old(files)), VaultOf(old(files)) - {ref}}
      ensures ok && ref !in stale ==> VaultOf(files) == VaultOf(old(files)) - {ref}
      ensures log == old(log) + [CutSecret(ref, ok)]
      ensures !ok ==> !Worked(log[|old(log)|])
    {
      var kept: bool, older: Option<Token> := *, *;
      var others := VaultOf(files) - {ref};
      ok := !kept;
      if !kept {
        var vault := if ref in stale && older.Some? then others[ref := older.value] else others;
        files := files[Secrets := VaultMap(vault)];
      }
      log := log + [CutSecret(ref, ok)];
      trail := trail + [files];
    }
  }
}
