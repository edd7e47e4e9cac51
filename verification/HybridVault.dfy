/** The account vault: vault.json in front of the older OS credential store (internal/app/vault.go). */
module HybridVault {
  import opened Model

  /** What the two stores hold, and the one map a reader of the hybrid vault sees. */
  datatype Pair = Pair(primary: Vault, fallback: Vault)

  function Presented(p: Pair): Vault { p.fallback + p.primary }

  /** How one operation went: which of its writes took effect. */
  datatype Op =
    | Get(ref: Ref, promoted: bool)
    | Set(ref: Ref, token: Token, stored: bool, cleared: bool)
    | Delete(ref: Ref, first: bool, second: bool)

  function Apply(p: Pair, op: Op): Pair {
    match op
    case Get(ref, promoted) =>
      if ref !in p.primary && ref in p.fallback && promoted then p.(primary := p.primary[ref := p.fallback[ref]]) else p
    case Set(ref, token, stored, cleared) =>
      if !stored then p
      else Pair(p.primary[ref := token], if cleared then p.fallback - {ref} else p.fallback)
    case Delete(ref, first, second) =>
      Pair(if first then p.primary - {ref} else p.primary, if second then p.fallback - {ref} else p.fallback)
  }

  /** The same operation on a single map. */
  function Ideal(v: Vault, op: Op): Vault {
    match op
    case Get(_, _) => v
    case Set(ref, token, stored, _) => if stored then v[ref := token] else v
    case Delete(ref, _, _) => v - {ref}
  }

  function ApplyAll(p: Pair, ops: seq<Op>): Pair {
    if ops == [] then p else Apply(ApplyAll(p, ops[..|ops| - 1]), ops[|ops| - 1])
  }

  function IdealAll(v: Vault, ops: seq<Op>): Vault {
    if ops == [] then v else Ideal(IdealAll(v, ops[..|ops| - 1]), ops[|ops| - 1])
  }

  predicate BothHalves(op: Op) { op.Delete? ==> op.first && op.second }

  /**
   The two stores act as one map over every sequence of operations, whatever promotions,
   writes and fallback deletions fail, as long as both halves of each Delete succeed.
   */
  lemma {:induction false} HybridRefinesOneMap(p: Pair, ops: seq<Op>)
    requires forall i | 0 <= i < |ops| :: BothHalves(ops[i])
    ensures Presented(ApplyAll(p, ops)) == IdealAll(Presented(p), ops)
  {
    if ops != [] {
      HybridRefinesOneMap(p, ops[..|ops| - 1]);
      assert BothHalves(ops[|ops| - 1]);
      StepRefines(ApplyAll(p, ops[..|ops| - 1]), ops[|ops| - 1]);
    }
  }

  lemma StepRefines(p: Pair, op: Op)
    requires BothHalves(op)
    ensures Presented(Apply(p, op)) == Ideal(Presented(p), op)
  {
    match op
    case Get(_, _) =>
    case Set(ref, token, stored, _) =>
    case Delete(ref, _, _) => DeleteRemovesIff(p, ref, true, true);
  }

  /** A Delete removes the entry exactly when neither store still holds it; others stay as they are. */
  lemma DeleteRemovesIff(p: Pair, ref: Ref, first: bool, second: bool)
    ensures var q := Apply(p, Delete(ref, first, second));
            && (Presented(q) == Presented(p) - {ref}
               <==> (first || ref !in p.primary) && (second || ref !in p.fallback))
            && Presented(q) - {ref} == Presented(p) - {ref}
            && (ref in Presented(q) <==> (!first && ref in p.primary) || (!second && ref in p.fallback))
  {
    var q := Apply(p, Delete(ref, first, second));
    assert ref in Presented(q) <==> (!first && ref in p.primary) || (!second && ref in p.fallback);
    assert ref !in Presented(p) - {ref};
    assert forall r | r != ref :: r in Presented(q) <==> r in Presented(p);
    assert ref !in Presented(q) ==> Presented(q) == Presented(p) - {ref};
  }

  /**
   A replaced token comes back: the fallback copy survives the Set that replaced it and
   then a Delete whose first half works, and Delete still reports success.
   */
  lemma ReplacedTokenComesBack(p: Pair, ref: Ref, token: Token)
    requires ref in p.fallback
    ensures Presented(ApplyAll(p, [Set(ref, token, true, false), Delete(ref, true, false)]))
            == Presented(p)[ref := p.fallback[ref]]
  {
    var ops := [Set(ref, token, true, false), Delete(ref, true, false)];
    assert ops[..1] == [Set(ref, token, true, false)] && ops[..1][..0] == [];
    assert ApplyAll(p, ops[..1]) == Apply(ApplyAll(p, []), ops[0]);
    assert ApplyAll(p, ops) == Pair(p.primary[ref := token] - {ref}, p.fallback);
  }

  /**
   Get reads the fallback and promotes in two steps. When another process sets the entry
   in between, the promotion undoes that Set unless both hold the same token.
   */
  lemma LatePromotion(p: Pair, ref: Ref, token: Token, cleared: bool)
    requires ref !in p.primary && ref in p.fallback
    ensures var q := Apply(p, Set(ref, token, true, cleared));
            Presented(q.(primary := q.primary[ref := p.fallback[ref]])) == Presented(q) <==> p.fallback[ref] == token
  {
    var q := Apply(p, Set(ref, token, true, cleared));
    var late := q.(primary := q.primary[ref := p.fallback[ref]]);
    assert Presented(late)[ref] == p.fallback[ref] && Presented(q)[ref] == token;
    if p.fallback[ref] == token {
      assert late.primary == q.primary;
    }
  }

  // ----- the stores -----

  datatype VaultFile = Missing | Corrupt | Entries(entries: Vault)

  /** A write of vault.json and what it reported. */
  datatype VaultWrite = VaultWrite(entries: Vault, ok: bool)

  /** What a Delete of vault.json should report: the file can be parsed, and what had to be written was. */
  ghost predicate Removed(before: VaultFile, ref: Ref, writes: seq<VaultWrite>, from: nat) {
    match before
    case Missing => true
    case Corrupt => false
    case Entries(m) => ref !in m || (from < |writes| && writes[from].ok)
  }

  /** vault.json. A file that cannot be parsed is never read from nor replaced. */
  class FileVault {
    var file: VaultFile
    ghost var writes: seq<VaultWrite>

    constructor (file: VaultFile)
      ensures this.file == file && writes == []
    {
      this.file, this.writes := file, [];
    }

    function Contents(): Vault
      reads this
    {
      match file case Entries(m) => m case _ => map[]
    }

    method ReadMap() returns (r: Option<Vault>)
      ensures r == if file == Corrupt then None else Some(Contents())
    {
      match file
      case Missing => return Some(map[]);
      case Corrupt => return None;
      case Entries(m) => return Some(m);
    }

    /** One atomic write; on failure the data may be in place all the same. */
    method WriteMap(m: Vault) returns (ok: bool)
      modifies this
      ensures file == Entries(m) || (!ok && file == old(file))
      ensures writes == old(writes) + [VaultWrite(m, ok)]
    {
      var replaced: bool := *;
      ok := false;
      if replaced {
        file := Entries(m);
        ok := *;
      }
      writes := writes + [VaultWrite(m, ok)];
    }

    method Get(ref: Ref) returns (r: Option<Token>)
      ensures r == if ref in Contents() then Some(Contents()[ref]) else None
    {
      var m := ReadMap();
      if m == None || ref !in m.value {
        return None;
      }
      return Some(m.value[ref]);
    }

    method Set(ref: Ref, token: Token) returns (ok: bool)
      modifies this
      ensures old(file) == Corrupt ==> !ok && file == Corrupt
      ensures ok ==> Contents() == old(Contents())[ref := token]
      ensures Contents() in {old(Contents()), old(Contents())[ref := token]}
      ensures writes == if old(file) == Corrupt then old(writes)
                        else old(writes) + [VaultWrite(old(Contents())[ref := token], ok)]
    {
      var m := ReadMap();
      if m == None {
        return false;
      }
      ok := WriteMap(m.value[ref := token]);
    }

    method Delete(ref: Ref) returns (ok: bool)
      modifies this
      ensures old(file) == Corrupt ==> !ok && file == Corrupt
      ensures ok ==> Contents() == old(Contents()) - {ref}
      ensures Contents() in {old(Contents()), old(Contents()) - {ref}}
      ensures writes == if ref !in old(Contents()) then old(writes)
                        else old(writes) + [VaultWrite(old(Contents()) - {ref}, ok)]
      ensures ok == Removed(old(file), ref, writes, |old(writes)|)
    {
      var m := ReadMap();
      if m == None {
        return false;
      }
      if ref !in m.value {
        return true;
      }
      ok := WriteMap(m.value - {ref});
    }
  }

  datatype VaultDelete = VaultDelete(ref: Ref, ok: bool)

  /** The OS credential store, whose writes may be refused. */
  class OsVault {
    var entries: Vault
    ghost var deletes: seq<VaultDelete>

    method Get(ref: Ref) returns (r: Option<Token>)
      ensures r == if ref in entries then Some(entries[ref]) else None
    {
      return if ref in entries then Some(entries[ref]) else None;
    }

    method Delete(ref: Ref) returns (ok: bool)
      modifies this
      ensures entries == if ok then old(entries) - {ref} else old(entries)
      ensures deletes == old(deletes) + [VaultDelete(ref, ok)]
    {
      ok := *;
      if ok {
        entries := entries - {ref};
      }
      deletes := deletes + [VaultDelete(ref, ok)];
    }
  }

  class HybridAccountVault {
    const primary: FileVault
    const fallback: OsVault?

    constructor (primary: FileVault, fallback: OsVault?)
      ensures this.primary == primary && this.fallback == fallback
    {
      this.primary, this.fallback := primary, fallback;
    }

    function Stores(): Pair
      reads primary, fallback
    {
      Pair(primary.Contents(), if fallback == null then map[] else fallback.entries)
    }

    method Get(ref: Ref) returns (r: Option<Token>, ghost promoted: bool)
      modifies primary
      ensures r == if ref in old(Presented(Stores())) then Some(old(Presented(Stores()))[ref]) else None
      ensures Stores() == Apply(old(Stores()), Op.Get(ref, promoted)) && Presented(Stores()) == old(Presented(Stores()))
      ensures old(primary.file) == Corrupt ==> primary.file == Corrupt
      ensures if ref !in old(Stores()).primary && r != None && old(primary.file) != Corrupt
              then
                var copy := old(Stores()).primary[ref := r.value];
                || primary.writes == old(primary.writes) + [VaultWrite(copy, false)]
                || (primary.writes == old(primary.writes) + [VaultWrite(copy, true)] && promoted)
              else primary.writes == old(primary.writes)
    {
      promoted := false;
      r := primary.Get(ref);
      if r != None {
        return;
      }
      if fallback != null {
        r := fallback.Get(ref);
        if r != None {
          var stored := primary.Set(ref, r.value);
          promoted := ref in primary.Contents();
        }
      }
    }

    method Set(ref: Ref, token: Token) returns (ok: bool, ghost stored: bool, ghost cleared: bool)
      modifies primary, fallback
      ensures Stores() == Apply(old(Stores()), Op.Set(ref, token, stored, cleared))
      ensures ok ==> stored
      ensures Presented(Stores()) in {old(Presented(Stores())), old(Presented(Stores()))[ref := token]}
      ensures ok ==> Presented(Stores()) == old(Presented(Stores()))[ref := token]
      ensures old(primary.file) == Corrupt ==> !ok && primary.file == Corrupt && Stores() == old(Stores())
      ensures primary.writes == if old(primary.file) == Corrupt then old(primary.writes)
                                else old(primary.writes) + [VaultWrite(old(Stores()).primary[ref := token], ok)]
      ensures fallback != null ==>
                fallback.deletes == old(fallback.deletes) + if ok then [VaultDelete(ref, cleared)] else []
    {
      ok := primary.Set(ref, token);
      stored := primary.Contents() == old(primary.Contents())[ref := token];
      cleared := false;
      if ok && fallback != null {
        cleared := fallback.Delete(ref);
      }
      assert Presented(Stores()) == if stored then old(Presented(Stores()))[ref := token] else old(Presented(Stores()));
    }

    /**
     True if either half worked: that alone does not mean the secret is gone. Afterwards
     vault.json holds no such entry unless writing it without the entry failed, and the fallback
     none unless its own deletion was refused.
     */
    method Delete(ref: Ref) returns (ok: bool, ghost first: bool, ghost second: bool)
      modifies primary, fallback
      ensures Stores() == Apply(old(Stores()), Op.Delete(ref, first, second))
      ensures first && second ==> Presented(Stores()) == old(Presented(Stores())) - {ref}
      ensures old(primary.file) == Corrupt ==> primary.file == Corrupt
      ensures ref in Stores().primary ==>
                primary.writes == old(primary.writes) + [VaultWrite(old(Stores()).primary - {ref}, false)]
      ensures fallback != null ==>
                && fallback.deletes == old(fallback.deletes) + [VaultDelete(ref, second)]
                && (ref in fallback.entries ==> !second)
      ensures ok <==> || Removed(old(primary.file), ref, primary.writes, |old(primary.writes)|)
                      || fallback == null || second
    {
      var pOk := primary.Delete(ref);
      var fOk := true;
      if fallback != null {
        fOk := fallback.Delete(ref);
      }
      first, second := primary.Contents() == old(primary.Contents()) - {ref}, fOk;
      assert first && second ==> Presented(Stores()) == old(Presented(Stores())) - {ref};
      ok := pOk || fOk;
    }
  }
}
