/**
 The live session: three token files, two identity files and the OS credential store
 (internal/app/credentials.go, session_guard.go).
 */
module Session {
  import opened Model
  import opened Durable
  import opened Secrets
  import opened Harvest
  import Import

  const SURFACES := [CliToken, IdeToken, JetskiToken]

  predicate IsSurface(p: Path) { p in {CliToken, IdeToken, JetskiToken} }

  predicate IsSessionFile(p: Path) { IsSurface(p) || p in {OAuthCreds, GoogleAccounts} }

  /** A token file or the credential store, as a token. */
  function TokenAt(img: Image, p: Path): Option<Token> {
    match Lookup(img, p)
    case Some(TokenJson(t)) => Some(t)
    case _ => None
  }

  /** The tokens on the surfaces, in the order they are read; unreadable ones are skipped. */
  function DiskTokens(img: Image, paths: seq<Path>): seq<Token> {
    if paths == [] then []
    else
      DiskTokens(img, paths[..|paths| - 1])
      + match TokenAt(img, paths[|paths| - 1]) case Some(t) => [t] case None => []
  }

  /** One token file, or the credential store; a failed read is taken for an empty one. */
  method ReadToken(m: Machine, p: Path) returns (t: Option<Token>)
    requires m.Valid()
    modifies m`log
    ensures m.Valid() && m.log in {old(m.log), old(m.log) + [Unread(p)]}
    ensures if m.log == old(m.log) then t == TokenAt(m.files, p) else t == None
    ensures AllRead(m.log, |old(m.log)|) ==> m.log == old(m.log)
  {
    var readable: bool := *;
    if readable {
      return TokenAt(m.files, p);
    }
    m.log := m.log + [Unread(p)];
    assert m.log[|old(m.log)|].Unread?;
    return None;
  }

  /** The paths that are not among those that could not be read. */
  function Seen(paths: seq<Path>, missed: set<Path>): seq<Path> {
    if paths == [] then []
    else Seen(paths[..|paths| - 1], missed) + if paths[|paths| - 1] in missed then [] else [paths[|paths| - 1]]
  }

  lemma {:induction false} AllSeen(paths: seq<Path>)
    ensures Seen(paths, {}) == paths
  {
    if paths != [] {
      AllSeen(paths[..|paths| - 1]);
    }
  }

  lemma {:induction false} SeenIgnores(paths: seq<Path>, missed: set<Path>, p: Path)
    requires p !in paths
    ensures Seen(paths, missed + {p}) == Seen(paths, missed)
  {
    if paths != [] {
      SeenIgnores(paths[..|paths| - 1], missed, p);
    }
  }

  lemma DiskTokensAppend(img: Image, paths: seq<Path>, p: Path)
    ensures DiskTokens(img, paths + [p])
            == DiskTokens(img, paths) + match TokenAt(img, p) case Some(t) => [t] case None => []
  {
    assert (paths + [p])[..|paths|] == paths;
  }

  lemma {:induction false} SeenAreOnDisk(img: Image, paths: seq<Path>, missed: set<Path>)
    ensures forall t | t in DiskTokens(img, Seen(paths, missed)) :: t in DiskTokens(img, paths)
  {
    if paths != [] {
      var n := |paths| - 1;
      SeenAreOnDisk(img, paths[..n], missed);
      DiskTokensAppend(img, Seen(paths[..n], missed), paths[n]);
      if paths[n] in missed {
        assert Seen(paths, missed) == Seen(paths[..n], missed);
      }
    }
  }

  /** Each of these could not be read, as the log shows. */
  ghost predicate Missed(log: seq<Op>, from: nat, missed: set<Path>) {
    forall p | p in missed :: exists j | from <= j < |log| :: log[j] == Unread(p)
  }

  lemma MissedStill(log: seq<Op>, longer: seq<Op>, from: nat, since: nat, missed: set<Path>)
    requires log <= longer && from <= since && Missed(log, since, missed)
    ensures Missed(longer, from, missed)
  {
    forall p | p in missed ensures exists j | from <= j < |longer| :: longer[j] == Unread(p) {
      var j :| since <= j < |log| && log[j] == Unread(p);
      assert longer[j] == Unread(p);
    }
  }

  lemma NoneMissed(log: seq<Op>, from: nat, missed: set<Path>)
    requires Missed(log, from, missed)
    ensures AllRead(log, from) ==> missed == {}
  {
    if missed != {} {
      var p :| p in missed;
      var j :| from <= j < |log| && log[j] == Unread(p);
      assert log[j].Unread?;
    }
  }

  /** These paths have been read, all but the missed ones. */
  ghost predicate ReadSoFar(img: Image, log: seq<Op>, from: nat, paths: seq<Path>, tokens: seq<Token>,
                            missed: set<Path>) {
    && (forall p | p in missed :: p in paths)
    && Missed(log, from, missed) && tokens == DiskTokens(img, Seen(paths, missed))
  }

  lemma ReadNext(img: Image, log: seq<Op>, longer: seq<Op>, from: nat, paths: seq<Path>, p: Path,
                 tokens: seq<Token>, missed: set<Path>, t: Option<Token>)
    requires ReadSoFar(img, log, from, paths, tokens, missed) && from <= |log| && p !in paths
    requires longer in {log, log + [Unread(p)]} && t == if longer == log then TokenAt(img, p) else None
    ensures ReadSoFar(img, longer, from, paths + [p], match t case Some(x) => tokens + [x] case None => tokens,
                      if longer == log then missed else missed + {p})
  {
    MissedStill(log, longer, from, from, missed);
    SeenNext(paths, p, missed);
    if longer != log {
      assert longer[|log|] == Unread(p);
    } else {
      DiskTokensAppend(img, Seen(paths, missed), p);
    }
  }

  /** One more path is seen, unless it is missed. */
  lemma SeenNext(paths: seq<Path>, p: Path, missed: set<Path>)
    requires p !in paths && forall q | q in missed :: q in paths
    ensures Seen(paths + [p], missed) == Seen(paths, missed) + [p]
    ensures Seen(paths + [p], missed + {p}) == Seen(paths, missed)
  {
    assert (paths + [p])[..|paths|] == paths;
    SeenIgnores(paths, missed, p);
    assert p !in missed;
    assert Seen(paths, missed) + [] == Seen(paths, missed);
  }

  /** oauthTokenPaths, read one after the other: the tokens of those that could be read. */
  method ReadSurfaces(m: Machine) returns (tokens: seq<Token>, ghost missed: set<Path>)
    requires m.Valid()
    modifies m`log
    ensures m.Valid() && old(m.log) <= m.log
    ensures forall p | p in missed :: p in SURFACES
    ensures Missed(m.log, |old(m.log)|, missed) && (AllRead(m.log, |old(m.log)|) ==> missed == {})
    ensures tokens == DiskTokens(m.files, Seen(SURFACES, missed))
  {
    tokens, missed := [], {};
    ghost var n := |m.log|;
    for i := 0 to |SURFACES|
      invariant m.Valid() && old(m.log) <= m.log && ReadSoFar(m.files, m.log, n, SURFACES[..i], tokens, missed)
    {
      ghost var log := m.log;
      var token := ReadToken(m, SURFACES[i]);
      SurfacesTo(i);
      ReadNext(m.files, log, m.log, n, SURFACES[..i], SURFACES[i], tokens, missed, token);
      missed := if m.log == log then missed else missed + {SURFACES[i]};
      match token
      case Some(t) => tokens := tokens + [t];
      case None =>
    }
    assert SURFACES[..|SURFACES|] == SURFACES;
    NoneMissed(m.log, n, missed);
  }

  lemma SurfacesTo(i: nat)
    requires i < |SURFACES|
    ensures SURFACES[i] !in SURFACES[..i] && SURFACES[..i + 1] == SURFACES[..i] + [SURFACES[i]]
  {
    assert SURFACES == [CliToken, IdeToken, JetskiToken];
  }

  // ----- the current session -----

  /** tokenIsStrictlyFresher. */
  predicate StrictlyFresher(existing: Token, candidate: Token) {
    && existing != candidate && Usable(candidate)
    && (!existing.wrapped || (existing.expiry.Some? && candidate.expiry.Some?
       && existing.expiry.value < candidate.expiry.value))
  }

  /** The first surface token that holds a session. */
  function FirstSession(tokens: seq<Token>): Option<Token> {
    if tokens == [] then None
    else if HasSession(tokens[0]) then Some(tokens[0])
    else FirstSession(tokens[1..])
  }

  lemma {:induction false} FirstSessionAppend(tokens: seq<Token>, t: Token)
    ensures FirstSession(tokens + [t]) ==
            if FirstSession(tokens).Some? then FirstSession(tokens) else if HasSession(t) then Some(t) else None
  {
    if tokens == [] {
      assert tokens + [t] == [t];
    } else {
      assert (tokens + [t])[1..] == tokens[1..] + [t];
      FirstSessionAppend(tokens[1..], t);
    }
  }

  /**
   readOAuthToken: of the session on the first surface that has one, the freshest copy on
   any surface.
   */
  method ReadOAuthToken(tokens: seq<Token>) returns (best: Option<Token>)
    ensures best.Some? <==> FirstSession(tokens).Some?
    ensures best.Some? ==> var first := FirstSession(tokens).value;
              && best.value in tokens && HasSession(best.value)
              && (RefreshOf(first) == "" ==> best == Some(first))
              && RefreshOf(best.value) == RefreshOf(first)
              && (RefreshOf(first) != "" ==> forall t | t in tokens && Usable(t) && RefreshOf(t) == RefreshOf(first) ::
                    t.expiry.Some? && first.expiry.Some? ==>
                        best.value.expiry.Some? && t.expiry.value <= best.value.expiry.value)
              && (first.expiry.None? ==> best == Some(first))
  {
    best := None;
    var bestRefresh := "";
    assert tokens[..0] == [];
    for i := 0 to |tokens|
      invariant best.Some? <==> FirstSession(tokens[..i]).Some?
      invariant best.Some? ==> var first := FirstSession(tokens[..i]).value;
                  && bestRefresh == RefreshOf(first) == RefreshOf(best.value)
                  && best.value in tokens[..i] && HasSession(best.value)
                  && (bestRefresh == "" ==> best == Some(first))
                  && (bestRefresh != "" ==> best.value.wrapped)
                  && (bestRefresh != "" ==> forall t | t in tokens[..i] && Usable(t) && RefreshOf(t) == bestRefresh ::
                        t.expiry.Some? && first.expiry.Some? ==>
                            best.value.expiry.Some? && t.expiry.value <= best.value.expiry.value)
                  && (first.expiry.Some? ==> best.value.expiry.Some?)
                  && (first.expiry.None? ==> best == Some(first))
    {
      var candidate := tokens[i];
      assert tokens[..i + 1] == tokens[..i] + [candidate];
      FirstSessionAppend(tokens[..i], candidate);
      FirstSessionIn(tokens[..i]);
      if HasSession(candidate) {
        if best == None {
          best, bestRefresh := Some(candidate), RefreshOf(candidate);
        } else if bestRefresh != "" && RefreshOf(candidate) == bestRefresh && StrictlyFresher(best.value, candidate) {
          best := Some(candidate);
        }
      }
    }
    assert tokens[..|tokens|] == tokens;
  }

  lemma {:induction false} FirstSessionIn(tokens: seq<Token>)
    ensures FirstSession(tokens).None? ==> forall t | t in tokens :: !HasSession(t)
    ensures FirstSession(tokens).Some? ==>
              exists i :: 0 <= i < |tokens| && tokens[i] == FirstSession(tokens).value && HasSession(tokens[i])
                          && forall j | 0 <= j < i :: !HasSession(tokens[j])
  {
    if tokens != [] {
      FirstSessionIn(tokens[1..]);
      assert forall t | t in tokens :: t == tokens[0] || t in tokens[1..];
    }
  }

  // ----- writing a session -----

  /** The identity file after switching to e: the former active address joins the old ones. */
  function NextIdentity(file: Option<Content>, e: Email): Content {
    match file
    case Some(ActiveJson(active, previous)) =>
      var list := if active != e && active !in previous then [active] + previous else previous;
      ActiveJson(e, Others(list, e))
    case _ => ActiveJson(e, [])
  }

  function Others(list: seq<Email>, e: Email): (r: seq<Email>)
    ensures forall x :: x in r <==> x in list && x != e
  {
    if list == [] then []
    else
      assert forall x :: x in list <==> x == list[0] || x in list[1..];
      if list[0] == e then Others(list[1..], e) else [list[0]] + Others(list[1..], e)
  }

  /** No address the identity file knew is forgotten by a switch, and the new one is only active. */
  lemma IdentitiesKept(active: Email, previous: seq<Email>, e: Email, x: Email)
    ensures var next := NextIdentity(Some(ActiveJson(active, previous)), e);
            next.active == e && (x in next.previous <==> x != e && (x == active || x in previous))
  {
  }

  /** The session files hold `token`, and the identity file e if it was asked for. */
  ghost predicate SessionWritten(before: Image, after: Image, token: Token, email: Option<Email>) {
    && (forall p | IsSurface(p) :: Lookup(after, p) == Some(TokenJson(Canonical(token))))
    && SaysTheSame(Canonical(token), token)
    && Lookup(after, OAuthCreds) == Some(CredsJson(token.access, token.refresh))
    && Lookup(after, GoogleAccounts) == (if email.Some?
       then Some(NextIdentity(Lookup(before, GoogleAccounts), email.value)) else Lookup(before, GoogleAccounts))
  }

  /** The tokens differ in the text of their JSON at most, and the first has the text agy-swap writes. */
  predicate SaysTheSame(written: Token, token: Token) {
    && written.wrapped == token.wrapped && written.access == token.access && written.refresh == token.refresh
    && written.expiry == token.expiry && written.hint == token.hint && written.form == 0
  }

  ghost predicate SameSession(a: Image, b: Image) {
    forall p | IsSessionFile(p) :: Lookup(a, p) == Lookup(b, p)
  }

  /** The images agree on everything that is not a session file. */
  ghost predicate SameRest(a: Image, b: Image) {
    forall p | !IsSessionFile(p) :: Lookup(a, p) == Lookup(b, p)
  }

  function SessionPaths(identity: bool): seq<Path> {
    SURFACES + [OAuthCreds] + if identity then [GoogleAccounts] else []
  }

  /** Every session file is as in base, unless putting that very file back failed. */
  ghost predicate PutBack(base: Image, img: Image, log: seq<Op>, from: nat) {
    forall p | IsSessionFile(p) :: Lookup(img, p) == Lookup(base, p) || WriteFailed(log, from, p, Lookup(base, p))
  }

  /** The operations since `from` all worked, but for the last one if `ok` is false. */
  ghost predicate StoppedAtFailure(log: seq<Op>, from: nat, ok: bool) {
    (ok || from < |log|) && forall j | from <= j < |log| :: Worked(log[j]) == (ok || j < |log| - 1)
  }

  /**
   writeOAuthFiles. When a write fails the snapshot goes back, file by file: a session file
   is as it was unless its own roll-back write failed.
   */
  method WriteOAuthFiles(m: Machine, token: Token, email: Option<Email>) returns (ok: bool)
    requires m.Valid()
    modifies m
    ensures m.Valid() && SameRest(old(m.files), m.files) && old(m.log) <= m.log
    ensures ok ==> token.wrapped && token.access != "" && SessionWritten(old(m.files), m.files, token, email)
    ensures AllWorked(m.log, |old(m.log)|) && token.wrapped && token.access != "" ==> ok
    ensures !ok ==> PutBack(old(m.files), m.files, m.log, |old(m.log)|)
    ensures !Usable(token) ==> m.files == old(m.files) && m.trail == old(m.trail)
  {
    ghost var base, n := m.files, |m.log|;
    ok := false;
    if !Usable(token) {
      return;
    }
    var paths := SessionPaths(email.Some?);
    var snapOk, snapshot := Import.SnapshotFiles(m, paths);
    if !snapOk {
      return;
    }
    ok := WriteSession(m, token, email);
    if ok {
      return;
    }
    ghost var mid, log := m.files, m.log;
    assert !Worked(log[|log| - 1]);
    var restored := Import.RestoreFiles(m, snapshot);
    WorkedBefore(log, m.log, n, n);
    forall p | IsSessionFile(p) ensures Lookup(m.files, p) == Lookup(base, p)
        || WriteFailed(m.log, n, p, Lookup(base, p)) {
      if p in snapshot && WriteFailed(m.log, |log|, p, snapshot[p]) {
        WriteFailedSince(m.log, m.log, n, |log|, p, snapshot[p]);
      } else {
        assert p in snapshot || Lookup(m.files, p) == Lookup(mid, p);
      }
    }
    forall p | !IsSessionFile(p) ensures Lookup(base, p) == Lookup(m.files, p) {
      assert p !in snapshot && Lookup(m.files, p) == Lookup(mid, p);
    }
  }

  /** The writes of writeOAuthFiles, up to the first failure. */
  method WriteSession(m: Machine, token: Token, email: Option<Email>) returns (ok: bool)
    requires m.Valid()
    modifies m
    ensures m.Valid() && SameRest(old(m.files), m.files)
    ensures email == None ==> Lookup(m.files, GoogleAccounts) == Lookup(old(m.files), GoogleAccounts)
    ensures ok ==> SessionWritten(old(m.files), m.files, token, email)
    ensures old(m.log) <= m.log && StoppedAtFailure(m.log, |old(m.log)|, ok)
  {
    ok := WriteSurfaces(m, token);
    if ok {
      ok := m.AtomicWrite(OAuthCreds, CredsJson(token.access, token.refresh));
    }
    if ok && email.Some? {
      ok := m.AtomicWrite(GoogleAccounts, NextIdentity(Lookup(m.files, GoogleAccounts), email.value));
    }
  }

  /** The token files, one after the other, up to the first failure. */
  method WriteSurfaces(m: Machine, token: Token) returns (ok: bool)
    requires m.Valid()
    modifies m
    ensures m.Valid()
    ensures forall p | !IsSurface(p) :: Lookup(m.files, p) == Lookup(old(m.files), p)
    ensures ok ==> forall p | IsSurface(p) :: Lookup(m.files, p) == Some(TokenJson(Canonical(token)))
    ensures old(m.log) <= m.log && StoppedAtFailure(m.log, |old(m.log)|, ok)
  {
    ghost var n := |m.log|;
    for i := 0 to |SURFACES|
      invariant m.Valid() && old(m.log) <= m.log && StoppedAtFailure(m.log, n, true)
      invariant forall p | !IsSurface(p) :: Lookup(m.files, p) == Lookup(old(m.files), p)
      invariant forall k | 0 <= k < i :: Lookup(m.files, SURFACES[k]) == Some(TokenJson(Canonical(token)))
    {
      var written := m.AtomicWrite(SURFACES[i], TokenJson(Canonical(token)));
      if !written {
        return false;
      }
    }
    forall p | IsSurface(p) ensures Lookup(m.files, p) == Some(TokenJson(Canonical(token))) {
      assert p == SURFACES[0] || p == SURFACES[1] || p == SURFACES[2];
    }
    ok := true;
  }

  // ----- switching -----

  /** The credential store backend: how it prepares a session, None if it takes tokens as they are. */
  datatype Backend = Direct | Preparing(prepared: Option<Token>)

  function KeyringContent(session: Option<Token>): Option<Content> {
    match session case Some(t) => Some(TokenJson(t)) case None => None
  }

  method SetKeyring(m: Machine, token: Token) returns (ok: bool)
    requires m.Valid()
    modifies m`files, m`trail, m`log
    ensures m.Valid() && SameBut(old(m.files), m.files, Keyring)
    ensures m.log == old(m.log) + [Op(Keyring, KeyringContent(Some(token)), ok)]
    ensures TokenAt(m.files, Keyring) == Some(token)
            || (!ok && Lookup(m.files, Keyring) == Lookup(old(m.files), Keyring))
  {
    var stored: bool := *;
    ok := false;
    if stored {
      m.files := m.files[Keyring := TokenJson(token)];
      ok := *;
    }
    m.log := m.log + [Op(Keyring, KeyringContent(Some(token)), ok)];
    m.trail := m.trail + [m.files];
  }

  /** Put the credential store back; the result of the source's call is ignored there. */
  method RestoreKeyring(m: Machine, previous: Option<Token>)
    requires m.Valid()
    modifies m`files, m`trail, m`log
    ensures m.Valid() && SameBut(old(m.files), m.files, Keyring)
    ensures old(m.log) <= m.log && AllRead(m.log, |old(m.log)|)
    ensures TokenAt(m.files, Keyring) == previous || WriteFailed(m.log, |old(m.log)|, Keyring, KeyringContent(previous))
  {
    var ok;
    if previous.Some? {
      ok := SetKeyring(m, previous.value);
    } else {
      ok := m.Remove(Keyring);
    }
    assert m.log[|old(m.log)|] == Op(Keyring, KeyringContent(previous), ok);
  }

  // ----- what a switch decides -----

  /** How a write of the credential store went. */
  datatype SetOutcome = NotStored | StoredUnreported | StoredOk

  /** What a switch runs into: whether its two reads of the store work, its write, and those of the files. */
  datatype Luck = Luck(read1: bool, write: SetOutcome, read2: bool, files: bool)

  datatype SwitchEnd = SwitchEnd(ok: bool, store: Option<Token>)

  /**
   The decision of applyUnlocked: what it reports, and what the credential store holds in the
   end if the writes that put it back work. A store that cannot be read counts as empty.
   `optional` says that it may stay empty.
   */
  function Switched(store: Option<Token>, prepared: Token, luck: Luck, optional: bool): SwitchEnd {
    var previous := if luck.read1 then store else None;
    if previous == Some(prepared) then SwitchEnd(luck.files, store)
    else
      var written := if luck.write.NotStored? then store else Some(prepared);
      var current := if luck.read2 then written else None;
      if luck.write.StoredOk? || current == Some(prepared)
          then SwitchEnd(luck.files, if luck.files then written else previous)
      else if previous.Some? then SwitchEnd(false, if current != previous then previous else written)
      else if current.Some? || !optional then SwitchEnd(false, written)
      else SwitchEnd(luck.files, written)
  }

  /** On success the store holds the new session, or was empty and may stay so; on failure it is as before. */
  predicate Transaction(store: Option<Token>, prepared: Token, optional: bool, end: SwitchEnd) {
    if end.ok then end.store == Some(prepared) || (optional && store == None && end.store == None)
    else end.store == store
  }

  /**
   Whatever becomes of the writes, a switch is a transaction exactly if the store can be read
   when it should be: before the switch if it holds a session, and after a failed write if it
   held none.
   */
  lemma SwitchIsTransactionIff(store: Option<Token>, prepared: Token, read1: bool, read2: bool, optional: bool)
    ensures (forall write, files ::
               Transaction(store, prepared, optional,
                           Switched(store, prepared, Luck(read1, write, read2, files), optional)))
            <==> (read1 || store.None?) && (read2 || store.Some?)
  {
    if store.Some? && !read1 {
      assert !Transaction(store, prepared, optional,
                          Switched(store, prepared, Luck(read1, StoredOk, read2, false), optional));
    }
    if store.None? && !read2 {
      assert !Transaction(store, prepared, optional,
                          Switched(store, prepared, Luck(read1, StoredUnreported, read2, false), optional));
    }
  }

  /** The old session stays in a store that can be neither read nor written, and the switch succeeds. */
  lemma UnreadSessionStays(former: Token, prepared: Token)
    requires former != prepared
    ensures Switched(Some(former), prepared, Luck(false, NotStored, false, true), true) == SwitchEnd(true, Some(former))
  {
  }

  /** The old session was not seen, so the roll-back of a failed switch deletes it. */
  lemma UnreadSessionIsDeleted(former: Token, prepared: Token, read2: bool, optional: bool)
    ensures Switched(Some(former), prepared, Luck(false, StoredOk, read2, false), optional) == SwitchEnd(false, None)
  {
  }

  /** An unreported write into an empty store is not noticed, and stays after the switch has failed. */
  lemma UnnoticedWriteStays(prepared: Token, optional: bool)
    ensures Switched(None, prepared, Luck(true, StoredUnreported, false, false), optional)
            == SwitchEnd(false, Some(prepared))
  {
  }

  // ----- switching, step by step -----

  /** What the log says of a switch fits what it ran into. */
  ghost predicate Fits(log: seq<Op>, from: nat, luck: Luck) {
    && (!luck.read1 || !luck.read2 ==> exists j | from <= j < |log| :: log[j] == Unread(Keyring))
    && (AllRead(log, from) ==> luck.read1 && luck.read2)
  }

  /** Its writes failed only where the log shows it. */
  ghost predicate WritesFit(log: seq<Op>, from: nat, store: Option<Token>, prepared: Token, token: Token, luck: Luck) {
    && (luck.write.StoredOk? || (luck.read1 && store == Some(prepared))
        || WriteFailed(log, from, Keyring, KeyringContent(Some(prepared))))
    && (AllWorked(log, from) && token.wrapped && token.access != "" ==> luck.files)
  }

  /**
   The end of a switch is the one decided on, given what it ran into; on failure the store may
   differ from it only if the write that puts it back failed.
   */
  ghost predicate EndsAs(base: Image, img: Image, log: seq<Op>, from: nat, prepared: Token, luck: Luck,
                         optional: bool, ok: bool) {
    var end := Switched(TokenAt(base, Keyring), prepared, luck, optional);
    && ok == end.ok
    && (TokenAt(img, Keyring) == end.store || (!ok && WriteFailed(log, from, Keyring, KeyringContent(end.store))))
  }

  /** The session agy-swap gives the credential store, if it can be prepared. */
  function Prepared(token: Token, backend: Backend): Option<Token> {
    match backend case Direct => Some(token) case Preparing(prepared) => prepared
  }

  /**
   applyUnlocked with the credential store as a second resource. A token of another account, or
   one that cannot be prepared, changes nothing. Otherwise the files hold the session on
   success, each of them is as before on failure unless its own roll-back write failed, and the
   store ends as decided. `luck` is what the switch ran into; it can miss a session only where
   the log shows a failed read.
   */
  method ApplySecure(m: Machine, token: Token, email: Email, backend: Backend, headless: bool)
    returns (ok: bool, ghost luck: Luck)
    requires m.Valid()
    modifies m
    ensures m.Valid() && forall p | !IsSessionFile(p) && p != Keyring :: Lookup(m.files, p) == Lookup(old(m.files), p)
    ensures old(m.log) <= m.log && Fits(m.log, |old(m.log)|, luck)
    ensures token.hint !in {None, Some(email)} || Prepared(token, backend) == None ==> !ok && m.files == old(m.files)
    ensures ok ==> SessionWritten(old(m.files), m.files, token, Some(email))
    ensures !ok ==> PutBack(old(m.files), m.files, m.log, |old(m.log)|)
    ensures token.hint in {None, Some(email)} && Prepared(token, backend).Some? ==>
              EndsAs(old(m.files), m.files, m.log, |old(m.log)|, Prepared(token, backend).value, luck,
                     backend.Direct? || headless, ok)
              && WritesFit(m.log, |old(m.log)|, TokenAt(old(m.files), Keyring), Prepared(token, backend).value, token,
                           luck)
  {
    ok, luck := false, Luck(true, NotStored, true, false);
    if token.hint.Some? && token.hint.value != email {
      return;
    }
    var prepared := token;
    if backend.Preparing? {
      if backend.prepared.None? {
        return;
      }
      prepared := backend.prepared.value;
    }
    ghost var n := |m.log|;
    var previous := ReadToken(m, Keyring);
    ghost var log, read1 := m.log, m.log == old(m.log);
    assert !read1 ==> log[n] == Unread(Keyring);
    if previous == Some(prepared) {
      ok := WriteOAuthFiles(m, token, Some(email));
      luck := Luck(true, NotStored, true, ok);
    } else {
      ok, luck := SwitchBoth(m, token, email, prepared, previous, backend.Direct? || headless, read1);
    }
    PutBackFrom(old(m.files), old(m.files), m.files, m.log, n, |log|);
    WorkedBefore(log, m.log, n, |log|);
    assert !read1 ==> m.log[n] == Unread(Keyring);
  }

  lemma FitsLater(log: seq<Op>, longer: seq<Op>, from: nat, luck: Luck, files: bool)
    requires Fits(log, from, luck) && log <= longer
    ensures Fits(longer, from, luck.(files := files))
  {
    if !luck.read1 || !luck.read2 {
      var j :| from <= j < |log| && log[j] == Unread(Keyring);
      assert longer[j] == Unread(Keyring);
      assert longer[j].Unread?;
    }
  }

  /** applyUnlocked once it has seen another session in the credential store. */
  method SwitchBoth(m: Machine, token: Token, email: Email, prepared: Token, previous: Option<Token>, optional: bool,
                    ghost read1: bool)
    returns (ok: bool, ghost luck: Luck)
    requires m.Valid() && previous != Some(prepared)
    requires previous == if read1 then TokenAt(m.files, Keyring) else None
    modifies m
    ensures m.Valid() && forall p | !IsSessionFile(p) && p != Keyring :: Lookup(m.files, p) == Lookup(old(m.files), p)
    ensures old(m.log) <= m.log && luck.read1 == read1 && Fits(m.log, |old(m.log)|, luck.(read1 := true))
    ensures ok ==> SessionWritten(old(m.files), m.files, token, Some(email))
    ensures !ok ==> PutBack(old(m.files), m.files, m.log, |old(m.log)|)
    ensures EndsAs(old(m.files), m.files, m.log, |old(m.log)|, prepared, luck, optional, ok)
    ensures luck.write.StoredOk? || WriteFailed(m.log, |old(m.log)|, Keyring, KeyringContent(Some(prepared)))
    ensures AllWorked(m.log, |old(m.log)|) && token.wrapped && token.access != "" ==> luck.files
  {
    ghost var base, n := m.files, |m.log|;
    ok, luck := false, Luck(read1, StoredOk, true, false);
    var updated := SetKeyring(m, prepared);
    assert m.log[n] == Op(Keyring, KeyringContent(Some(prepared)), updated);
    ghost var tried, first := m.log, updated;
    var goOn := true;
    if !updated {
      goOn, updated, luck := AfterFailedSet(m, prepared, previous, optional, base, n, luck);
      if !goOn {
        return;
      }
    }
    ghost var mid, log := m.files, m.log;
    ok := WriteOrRestore(m, token, email, updated, previous);
    luck := luck.(files := ok);
    PutBackFrom(base, mid, m.files, m.log, n, |log|);
    FitsLater(log, m.log, n, luck.(read1 := true), ok);
    WorkedBefore(log, m.log, n, |log|);
    assert m.log[n] == tried[n];
  }

  /**
   The credential store reported a failed write: read it again, to go on if it holds the
   session after all, or if it is empty and may stay so; otherwise put it back.
   */
  method AfterFailedSet(m: Machine, prepared: Token, previous: Option<Token>, optional: bool, ghost base: Image,
                        ghost n: nat, ghost before: Luck)
    returns (goOn: bool, updated: bool, ghost luck: Luck)
    requires m.Valid() && previous != Some(prepared) && n <= |m.log| && AllRead(m.log, n)
             && SameBut(base, m.files, Keyring)
    requires previous == if before.read1 then TokenAt(base, Keyring) else None
    requires TokenAt(m.files, Keyring) == Some(prepared) || Lookup(m.files, Keyring) == Lookup(base, Keyring)
    modifies m`files, m`trail, m`log
    ensures m.Valid() && old(m.log) <= m.log && SameBut(base, m.files, Keyring)
    ensures luck.read1 == before.read1 && luck.files == before.files && Fits(m.log, n, luck.(read1 := true))
    ensures luck.write == if TokenAt(old(m.files), Keyring) == Some(prepared) then StoredUnreported else NotStored
    ensures goOn <==> var current := if luck.read2 then TokenAt(old(m.files), Keyring) else None;
                      current == Some(prepared) || (previous == None && current == None && optional)
    ensures goOn ==> m.files == old(m.files)
                     && (updated <==> luck.read2 && TokenAt(m.files, Keyring) == Some(prepared))
    ensures !goOn ==> EndsAs(base, m.files, m.log, n, prepared, luck, optional, false)
  {
    ghost var log := m.log;
    goOn, updated := false, false;
    luck := before.(write := if TokenAt(m.files, Keyring) == Some(prepared) then StoredUnreported else NotStored);
    var current := ReadToken(m, Keyring);
    luck := luck.(read2 := m.log == log);
    assert !luck.read2 ==> m.log[|log|] == Unread(Keyring) && m.log[|log|].Unread?;
    if current == Some(prepared) {
      goOn, updated := true, true;
    } else if previous.Some? {
      if current != previous {
        ghost var between := m.log;
        RestoreKeyring(m, previous);
        FitsLater(between, m.log, n, luck.(read1 := true), luck.files);
      }
    } else {
      goOn := current == None && optional;
    }
  }

  /** The session files, and the credential store again if they could not be written. */
  method WriteOrRestore(m: Machine, token: Token, email: Email, updated: bool, previous: Option<Token>)
    returns (ok: bool)
    requires m.Valid()
    modifies m
    ensures m.Valid() && forall p | !IsSessionFile(p) && p != Keyring :: Lookup(m.files, p) == Lookup(old(m.files), p)
    ensures old(m.log) <= m.log
    ensures ok ==> SessionWritten(old(m.files), m.files, token, Some(email))
    ensures AllWorked(m.log, |old(m.log)|) && token.wrapped && token.access != "" ==> ok
    ensures !ok ==> PutBack(old(m.files), m.files, m.log, |old(m.log)|)
    ensures ok || !updated ==> Lookup(m.files, Keyring) == Lookup(old(m.files), Keyring)
    ensures !ok && updated ==>
              || TokenAt(m.files, Keyring) == previous
              || WriteFailed(m.log, |old(m.log)|, Keyring, KeyringContent(previous))
  {
    ghost var base, n := m.files, |m.log|;
    ok := WriteOAuthFiles(m, token, Some(email));
    if !ok && updated {
      ghost var files, written := m.files, m.log;
      RestoreKeyring(m, previous);
      WorkedBefore(written, m.log, n, n);
      PutBackLater(base, base, files, m.files, written, m.log, n);
      if WriteFailed(m.log, |written|, Keyring, KeyringContent(previous)) {
        WriteFailedSince(m.log, m.log, n, |written|, Keyring, KeyringContent(previous));
      }
    }
  }

  lemma PutBackFrom(base: Image, mid: Image, img: Image, log: seq<Op>, from: nat, since: nat)
    requires SameBut(base, mid, Keyring) && from <= since
    ensures PutBack(mid, img, log, since) ==> PutBack(base, img, log, from)
    ensures forall session :: WriteFailed(log, since, Keyring, session) ==> WriteFailed(log, from, Keyring, session)
  {
  }

  lemma PutBackLater(base: Image, mid: Image, img: Image, later: Image, log: seq<Op>, longer: seq<Op>, from: nat)
    requires PutBack(mid, img, log, from) && log <= longer && SameBut(base, mid, Keyring)
             && SameBut(img, later, Keyring)
    ensures PutBack(base, later, longer, from)
  {
    forall p | IsSessionFile(p) ensures Lookup(later, p) == Lookup(base, p)
        || WriteFailed(longer, from, p, Lookup(base, p)) {
      if WriteFailed(log, from, p, Lookup(mid, p)) {
        WriteFailedSince(log, longer, from, from, p, Lookup(mid, p));
      }
    }
  }

  /** applyUnlocked with the token files as the session store; the keyring copy is best effort. */
  method ApplyFiles(m: Machine, token: Token, email: Email, mirror: bool) returns (ok: bool)
    requires m.Valid()
    modifies m
    ensures m.Valid() && forall p | !IsSessionFile(p) && p != Keyring :: Lookup(m.files, p) == Lookup(old(m.files), p)
    ensures ok ==> token.hint in {None, Some(email)} && SessionWritten(old(m.files), m.files, token, Some(email))
    ensures ok || !mirror ==>
              || Lookup(m.files, Keyring) == Lookup(old(m.files), Keyring)
              || TokenAt(m.files, Keyring) == Some(token)
    ensures !ok ==> PutBack(old(m.files), m.files, m.log, |old(m.log)|)
    ensures !ok ==> Lookup(m.files, Keyring) == Lookup(old(m.files), Keyring)
    ensures old(m.log) <= m.log
    ensures ok && mirror ==>
              || TokenAt(m.files, Keyring) == Some(token)
              || WriteFailed(m.log, |old(m.log)|, Keyring, KeyringContent(Some(token)))
    ensures AllWorked(m.log, |old(m.log)|) && token.hint in {None, Some(email)} && token.wrapped && token.access != ""
            ==> ok
  {
    ok := false;
    if token.hint.Some? && token.hint.value != email {
      return;
    }
    ok := WriteOAuthFiles(m, token, Some(email));
    if ok && mirror {
      ghost var written, log := m.files, m.log;
      var mirrored := SetKeyring(m, token);
      assert SameBut(written, m.files, Keyring);
      assert m.log[|log|] == Op(Keyring, KeyringContent(Some(token)), mirrored);
      WorkedBefore(log, m.log, |old(m.log)|, |log|);
    }
  }

  /**
   clearUnlocked with the credential store: true exactly when no session is left among what
   could be read. Every session cell is gone unless its own removal failed, and nothing else goes.
   */
  method ClearSecure(m: Machine) returns (ok: bool, ghost missed: set<Path>)
    requires m.Valid()
    modifies m
    ensures m.Valid() && forall p | !IsSessionFile(p) && p != Keyring :: Lookup(m.files, p) == Lookup(old(m.files), p)
    ensures Missed(m.log, |old(m.log)|, missed) && (AllRead(m.log, |old(m.log)|) ==> missed == {})
    ensures ok <==>
              && (Keyring in missed || TokenAt(m.files, Keyring) == None)
              && FirstSession(DiskTokens(m.files, Seen(SURFACES, missed))) == None
    ensures forall p :: Lookup(m.files, p) in {None, Lookup(old(m.files), p)}
    ensures old(m.log) <= m.log
    ensures forall p | IsSessionFile(p) || p == Keyring ::
              Lookup(m.files, p) == None || WriteFailed(m.log, |old(m.log)|, p, None)
  {
    ghost var n := |m.log|;
    var removed := m.Remove(Keyring);
    assert m.log[n] == Op(Keyring, None, removed);
    var paths := SessionPaths(true);
    for i := 0 to |paths|
      invariant m.Valid() && old(m.log) <= m.log && AllRead(m.log, n)
      invariant RemovedOrFailed(m.files, m.log, n, [Keyring] + paths[..i])
      invariant forall p | !IsSessionFile(p) && p != Keyring :: Lookup(m.files, p) == Lookup(old(m.files), p)
      invariant forall p :: Lookup(m.files, p) in {None, Lookup(old(m.files), p)}
    {
      ghost var before, log := m.files, m.log;
      removed := m.Remove(paths[i]);
      assert m.log[|log|] == Op(paths[i], None, removed);
      RemoveNext(before, m.files, log, m.log, n, [Keyring] + paths[..i], paths[i]);
      assert [Keyring] + paths[..i + 1] == [Keyring] + paths[..i] + [paths[i]];
    }
    assert paths == [CliToken, IdeToken, JetskiToken, OAuthCreds, GoogleAccounts];
    ghost var log := m.log;
    var left;
    ok, left, missed := NoneLeft(m, n);
    RemovedLater(m.files, log, m.log, n, [Keyring] + paths);
  }

  /** Each of these cells is gone unless its own removal failed. */
  ghost predicate RemovedOrFailed(img: Image, log: seq<Op>, from: nat, paths: seq<Path>) {
    forall p | p in paths :: Lookup(img, p) == None || WriteFailed(log, from, p, None)
  }

  lemma RemovedLater(img: Image, log: seq<Op>, longer: seq<Op>, from: nat, paths: seq<Path>)
    requires RemovedOrFailed(img, log, from, paths) && log <= longer
    ensures RemovedOrFailed(img, longer, from, paths)
  {
    forall p | p in paths ensures Lookup(img, p) == None || WriteFailed(longer, from, p, None) {
      if WriteFailed(log, from, p, None) {
        WriteFailedSince(log, longer, from, from, p, None);
      }
    }
  }

  lemma RemoveNext(before: Image, img: Image, log: seq<Op>, longer: seq<Op>, from: nat, paths: seq<Path>, path: Path)
    requires RemovedOrFailed(before, log, from, paths) && from <= |log| < |longer| && log <= longer
    requires img in {before, before - {path}} && (longer[|log|] == Op(path, None, false) || img == before - {path})
    ensures RemovedOrFailed(img, longer, from, paths + [path])
  {
    RemovedLater(before, log, longer, from, paths);
    forall p | p in paths + [path] ensures Lookup(img, p) == None || WriteFailed(longer, from, p, None) {
    }
  }

  /** The two reads at the end of a clear. */
  method NoneLeft(m: Machine, ghost n: nat) returns (ok: bool, left: Option<Token>, ghost missed: set<Path>)
    requires m.Valid() && n <= |m.log|
    modifies m`log
    ensures m.Valid() && old(m.log) <= m.log
    ensures Missed(m.log, n, missed) && (AllRead(m.log, n) ==> missed == {})
    ensures ok <==>
              && (Keyring in missed || TokenAt(m.files, Keyring) == None)
              && FirstSession(DiskTokens(m.files, Seen(SURFACES, missed))) == None
  {
    ghost var log := m.log;
    var secure := ReadToken(m, Keyring);
    ghost var between := m.log;
    var tokens, unread := ReadSurfaces(m);
    missed := unread + if between != log then {Keyring} else {};
    left := ReadOAuthToken(tokens);
    ok := secure == None && left == None;
    MissedBoth(log, between, m.log, n, unread);
    NoneMissed(m.log, n, missed);
  }

  lemma MissedBoth(log: seq<Op>, between: seq<Op>, longer: seq<Op>, n: nat, unread: set<Path>)
    requires n <= |log| && between in {log, log + [Unread(Keyring)]} && between <= longer
    requires Missed(longer, |between|, unread) && forall p | p in unread :: p in SURFACES
    ensures var missed := unread + if between != log then {Keyring} else {};
            && Missed(longer, n, missed) && (Keyring in missed <==> between != log)
            && Seen(SURFACES, missed) == Seen(SURFACES, unread)
  {
    MissedStill(longer, longer, n, |between|, unread);
    assert Keyring !in SURFACES;
    if between != log {
      assert longer[|log|] == between[|log|] == Unread(Keyring);
      SeenIgnores(SURFACES, unread, Keyring);
    } else {
      assert unread + {} == unread;
    }
  }
}
