/**
 * The sequencer's merkle tree store: four trees of 32-byte leaves (read as naturals, so a zero
 * buffer is 0), a working copy that `put` changes and a committed copy that `rollback` restores.
 * The merkle root is an arbitrary function `hash` of a tree's contents.
 */
module WorldStateStore {
  type Leaf = nat

  /** `leaves` holds the non-zero leaves only, so equal contents are equal maps. */
  datatype Tree = Tree(leaves: map<nat, Leaf>, size: nat) {
    function Get(i: nat): Leaf {
      if i in leaves then leaves[i] else 0
    }

    function Put(i: nat, v: Leaf): Tree {
      Tree(if v == 0 then leaves - {i} else leaves[i := v], if i + 1 > size then i + 1 else size)
    }

    ghost predicate Valid() {
      forall i | i in leaves :: leaves[i] != 0 && i < size
    }
  }

  lemma SameContents(a: Tree, b: Tree)
    requires a.Valid() && b.Valid()
    requires forall i: nat :: a.Get(i) == b.Get(i)
    ensures a.leaves == b.leaves
  {
    forall i: nat
      ensures i in a.leaves <==> i in b.leaves
      ensures i in a.leaves ==> a.leaves[i] == b.leaves[i]
    {
      assert a.Get(i) == b.Get(i);
    }
  }

  datatype TreeId = DATA | NULL | ROOT | DEFI

  datatype Trees = Trees(data: Tree, nulls: Tree, roots: Tree, defi: Tree) {
    function At(id: TreeId): Tree {
      match id case DATA => data case NULL => nulls case ROOT => roots case DEFI => defi
    }

    function Put(id: TreeId, i: nat, v: Leaf): Trees {
      match id
      case DATA => this.(data := data.Put(i, v))
      case NULL => this.(nulls := nulls.Put(i, v))
      case ROOT => this.(roots := roots.Put(i, v))
      case DEFI => this.(defi := defi.Put(i, v))
    }

    ghost predicate Valid() {
      data.Valid() && nulls.Valid() && roots.Valid() && defi.Valid()
    }
  }

  class WorldStateDb {
    var working: Trees
    var committed: Trees
    const hash: map<nat, Leaf> -> Leaf

    constructor (stored: Trees, hash: map<nat, Leaf> -> Leaf)
      ensures working == committed == stored && this.hash == hash
    {
      working, committed := stored, stored;
      this.hash := hash;
    }

    function Get(id: TreeId, i: nat): Leaf reads this { working.At(id).Get(i) }

    function GetSize(id: TreeId): nat reads this { working.At(id).size }

    function GetRoot(id: TreeId): Leaf reads this { hash(working.At(id).leaves) }

    method Put(id: TreeId, i: nat, v: Leaf)
      modifies this`working
      ensures working == old(working).Put(id, i, v)
    {
      working := working.Put(id, i, v);
    }

    method Commit()
      modifies this`committed
      ensures committed == working
    {
      committed := working;
    }

    method Rollback()
      modifies this`working
      ensures working == committed
    {
      working := committed;
    }
  }
}
