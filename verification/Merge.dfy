/** The merge rules of a backup import (internal/app/backup_service.go). */
module Merge {
  import opened Model

  /** A backup account without a token takes over the credential already saved for it. */
  function Inherit(existing: Doc, a: Account): (r: Account)
    ensures r.email == a.email
  {
    if a.tokenData == None && a.email in existing.byEmail then
      var saved := existing.byEmail[a.email];
      a.(tokenData := saved.tokenData, secretRef := if saved.secretRef.Some? then saved.secretRef else a.secretRef)
    else a
  }

  ghost predicate Listed(d: Doc) {
    forall e | e in d.order :: e in d.byEmail
  }

  /** The first n backup accounts merged into the existing ones. */
  ghost function Merged(existing: Doc, incoming: Doc, n: nat): Doc
    requires n <= |incoming.order| && Listed(incoming)
  {
    if n == 0 then existing
    else
      var e := incoming.order[n - 1];
      Put(Merged(existing, incoming, n - 1), e, Inherit(existing, incoming.byEmail[e]))
  }

  /** The addresses of s that are not in d, in the order of s. */
  ghost function NewIn(d: Doc, s: seq<Email>): seq<Email> {
    if s == [] then []
    else
      var before := NewIn(d, s[..|s| - 1]);
      if s[|s| - 1] in d.byEmail then before else before + [s[|s| - 1]]
  }

  /**
   Merging loses no account: one only one side knows is unchanged, and one both know is
   the backup's, with the saved credential where the backup has none.
   */
  lemma {:induction false} MergedAt(existing: Doc, incoming: Doc, n: nat, e: Email)
    requires n <= |incoming.order| && Listed(incoming)
    ensures var m := Merged(existing, incoming, n).byEmail;
            if e in incoming.order[..n] then e in m && m[e] == Inherit(existing, incoming.byEmail[e])
            else (e in m <==> e in existing.byEmail) && (e in m ==> m[e] == existing.byEmail[e])
  {
    if n > 0 {
      MergedAt(existing, incoming, n - 1, e);
      assert incoming.order[..n] == incoming.order[..n - 1] + [incoming.order[n - 1]];
    }
  }

  /** Existing accounts keep their place and new ones follow in backup order. */
  lemma {:induction false} MergeKeepsOrder(existing: Doc, incoming: Doc, n: nat)
    requires n <= |incoming.order| && Listed(incoming) && Distinct(incoming.order)
    ensures Merged(existing, incoming, n).order == existing.order + NewIn(existing, incoming.order[..n])
  {
    if n > 0 {
      MergeKeepsOrder(existing, incoming, n - 1);
      var e := incoming.order[n - 1];
      assert e !in incoming.order[..n - 1];
      MergedAt(existing, incoming, n - 1, e);
      NewInNext(existing, incoming.order, n - 1);
    }
  }

  lemma NewInNext(d: Doc, s: seq<Email>, n: nat)
    requires n < |s|
    ensures NewIn(d, s[..n + 1]) == NewIn(d, s[..n]) + if s[n] in d.byEmail then [] else [s[n]]
  {
    assert s[..n + 1][..n] == s[..n];
  }

  lemma {:induction false} MergedWellFormed(existing: Doc, incoming: Doc, n: nat)
    requires n <= |incoming.order| && WellFormed(existing) && WellFormed(incoming)
    ensures WellFormed(Merged(existing, incoming, n))
  {
    if n > 0 {
      MergedWellFormed(existing, incoming, n - 1);
      var e := incoming.order[n - 1];
      PutWellFormed(Merged(existing, incoming, n - 1), e, Inherit(existing, incoming.byEmail[e]));
    }
  }

  lemma PutWellFormed(d: Doc, e: Email, a: Account)
    requires WellFormed(d) && a.email == e
    ensures WellFormed(Put(d, e, a))
  {
    forall x ensures x in Put(d, e, a).order <==> x in Put(d, e, a).byEmail {
      assert x in d.order <==> x in d.byEmail;
    }
  }

  /** An account without any credential. */
  predicate Bare(a: Account) { a.tokenData.None? && a.secretRef.None? }

  /** Backup accounts are all present afterwards, so is every existing one, each with a credential it had. */
  lemma NothingIsDropped(existing: Doc, incoming: Doc, e: Email, vault: Vault)
    requires WellFormed(existing) && WellFormed(incoming)
    requires e in existing.byEmail || e in incoming.byEmail
    ensures var m := Merged(existing, incoming, |incoming.order|).byEmail;
            && e in m
            && (e !in incoming.byEmail ==> m[e] == existing.byEmail[e])
            && (e in incoming.byEmail && incoming.byEmail[e].tokenData.Some? ==> m[e] == incoming.byEmail[e])
            && (e in existing.byEmail && e in incoming.byEmail && Bare(incoming.byEmail[e]) ==>
                  && Resolve(m[e], vault) == Resolve(existing.byEmail[e], vault)
                  && m[e].notes == incoming.byEmail[e].notes)
  {
    MergedAt(existing, incoming, |incoming.order|, e);
    assert incoming.order[..|incoming.order|] == incoming.order;
  }

  // ----- settings -----

  predicate Binds(bindings: seq<Binding>, path: string) {
    exists i | 0 <= i < |bindings| :: bindings[i].path == path
  }

  /** The bindings of `current` whose path `into` does not bind yet, appended one by one. */
  function AppendMissing(into: seq<Binding>, current: seq<Binding>): seq<Binding> {
    if current == [] then into
    else
      var so := AppendMissing(into, current[..|current| - 1]);
      var b := current[|current| - 1];
      if Binds(so, b.path) then so else so + [b]
  }

  function MergedSettings(current: Settings, imported: Settings): Settings {
    imported.(aliases := current.aliases + imported.aliases,
              tags := current.tags + imported.tags,
              profiles := current.profiles + imported.profiles,
              targets := current.targets + imported.targets,
              bindings := AppendMissing(imported.bindings, current.bindings))
  }

  /** The binding in force for a path: the first one that names it. */
  function FirstFor(bindings: seq<Binding>, path: string): Option<Binding> {
    if bindings == [] then None
    else if bindings[0].path == path then Some(bindings[0])
    else FirstFor(bindings[1..], path)
  }

  lemma {:induction false} FirstForAppend(s: seq<Binding>, t: seq<Binding>, path: string)
    ensures FirstFor(s + t, path) == if Binds(s, path) then FirstFor(s, path) else FirstFor(t, path)
    ensures Binds(s, path) <==> FirstFor(s, path).Some?
    ensures Binds(s + t, path) <==> Binds(s, path) || Binds(t, path)
  {
    if s == [] {
      assert s + t == t;
    } else {
      FirstForAppend(s[1..], t, path);
      assert (s + t)[1..] == s[1..] + t;
      assert forall i | 0 <= i < |s| - 1 :: s[1..][i] == s[i + 1];
      assert forall i | 0 <= i < |t| :: (s + t)[|s| + i] == t[i];
      assert forall i | 0 <= i < |s| :: (s + t)[i] == s[i];
    }
  }

  /** Imported bindings stay in front, every path of either side is bound, imports win. */
  lemma {:induction false} BindingsConserve(into: seq<Binding>, current: seq<Binding>, path: string)
    ensures var r := AppendMissing(into, current);
            && into <= r
            && FirstFor(r, path) == (if Binds(into, path) then FirstFor(into, path) else FirstFor(current, path))
            && |r| <= |into| + |current|
  {
    FirstForAppend(into, [], path);
    assert into + [] == into;
    if current != [] {
      var before, b := current[..|current| - 1], current[|current| - 1];
      BindingsConserve(into, before, path);
      var so := AppendMissing(into, before);
      FirstForAppend(so, [b], path);
      FirstForAppend(before, [b], path);
      FirstForAppend(into, [], path);
      FirstForAppend(before, [], path);
      FirstForAppend(so, [], path);
      assert before + [b] == current && before + [] == before && so + [] == so;
    }
  }

  /** The collections become the union with imported entries winning; preferences are the import's. */
  lemma SettingsMergeIsUnion(current: Settings, imported: Settings, name: string, e: Email, path: string)
    ensures var m := MergedSettings(current, imported);
            && (name in m.aliases <==> name in current.aliases || name in imported.aliases)
            && (name in m.aliases ==> m.aliases[name] == if name in imported.aliases then imported.aliases[name]
               else current.aliases[name])
            && (e in m.tags <==> e in current.tags || e in imported.tags)
            && (e in m.tags ==> m.tags[e] == if e in imported.tags then imported.tags[e] else current.tags[e])
            && (name in m.profiles <==> name in current.profiles || name in imported.profiles)
            && (name in m.profiles ==> m.profiles[name] == if name in imported.profiles then imported.profiles[name]
               else current.profiles[name])
            && (name in m.targets <==> name in current.targets || name in imported.targets)
            && (name in m.targets ==> m.targets[name] == if name in imported.targets then imported.targets[name]
               else current.targets[name])
            && FirstFor(m.bindings, path) == (if Binds(imported.bindings, path) then FirstFor(imported.bindings, path)
               else FirstFor(current.bindings, path))
            && m.preferences == imported.preferences
  {
    BindingsConserve(imported.bindings, current.bindings, path);
  }

  /** `for k, v := range current`, in whatever order the map yields its keys. */
  method FillMissing<K(==), V>(current: map<K, V>, into: map<K, V>) returns (r: map<K, V>)
    ensures r == current + into
  {
    r := into;
    var todo := current.Keys;
    while todo != {}
      invariant todo <= current.Keys
      invariant r.Keys == into.Keys + (current.Keys - todo)
      invariant forall k | k in r :: r[k] == if k in into then into[k] else current[k]
    {
      var k :| k in todo;
      todo := todo - {k};
      if k !in r {
        r := r[k := current[k]];
      }
    }
  }

  method MergeBindings(into: seq<Binding>, current: seq<Binding>) returns (r: seq<Binding>)
    ensures r == AppendMissing(into, current)
  {
    r := into;
    for i := 0 to |current|
      invariant r == AppendMissing(into, current[..i])
    {
      var found := false;
      for j := 0 to |r|
        invariant found <==> Binds(r[..j], current[i].path)
      {
        assert r[..j + 1] == r[..j] + [r[j]];
        FirstForAppend(r[..j], [r[j]], current[i].path);
        assert Binds([r[j]], current[i].path) <==> r[j].path == current[i].path by {
          assert [r[j]][0] == r[j];
        }
        if current[i].path == r[j].path {
          found := true;
          break;
        }
      }
      assert found <==> Binds(r, current[i].path) by {
        assert r[..|r|] == r;
      }
      assert current[..i + 1][..i] == current[..i] && current[..i + 1][i] == current[i];
      if !found {
        r := r + [current[i]];
      }
    }
    assert current[..|current|] == current;
  }

  method MergeSettings(current: Settings, imported: Settings) returns (r: Settings)
    ensures r == MergedSettings(current, imported)
  {
    r := imported;
    var aliases := FillMissing(current.aliases, r.aliases);
    var tags := FillMissing(current.tags, r.tags);
    var profiles := FillMissing(current.profiles, r.profiles);
    var targets := FillMissing(current.targets, r.targets);
    var bindings := MergeBindings(r.bindings, current.bindings);
    r := r.(aliases := aliases, tags := tags, profiles := profiles, targets := targets, bindings := bindings);
  }
}
