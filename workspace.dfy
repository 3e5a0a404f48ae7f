// One base station's server-side workspace (cli_server/core/workspace/workspace.py).

module Workspace {
  import opened Wrappers
  import Tree

  /** `bts.get(key)`: an absent key reads as None, like a stored None. */
  function Read(vars: map<string, Option<string>>, key: string): Option<string>
  {
    if key in vars then vars[key] else None
  }

  /** A value written under a key is read back, and other keys read as before. */
  lemma ReadAfterWrite(vars: map<string, Option<string>>, key: string, v: Option<string>, other: string)
    ensures Read(vars[key := v], key) == v
    ensures other != key ==> Read(vars[key := v], other) == Read(vars, other)
  {
  }

  /** Every field of `w` other than its station variables `bts` is as it was. */
  twostate predicate SameRest(w: WorkSpace)
    reads w
  {
    w.cell == old(w.cell) && w.xmlTree == old(w.xmlTree) && w.matchTail == old(w.matchTail)
    && w.moClass == old(w.moClass) && w.prompt == old(w.prompt) && w.finalFile == old(w.finalFile)
  }

  /** Every field of `w` other than `bts` is as `__init__` leaves it. */
  predicate InitialRest(w: WorkSpace)
    reads w
  {
    w.cell == map[] && w.xmlTree.None? && w.matchTail.None? && w.moClass.None? && w.prompt.None? && w.finalFile.None?
  }

  class WorkSpace {
    var bts: map<string, Option<string>>
    var cell: map<string, Option<string>>
    var xmlTree: Option<Tree.CmData>
    var matchTail: Option<string>
    var moClass: Option<string>
    var prompt: Option<string>
    var finalFile: Option<string>

    constructor()
      ensures bts == map[] && cell == map[]
      ensures xmlTree.None? && matchTail.None? && moClass.None? && prompt.None? && finalFile.None?
    {
      bts, cell := map[], map[];
      xmlTree, matchTail, moClass, prompt, finalFile := None, None, None, None, None;
    }

    /** `set`: writes one key of the bts variables and nothing else. */
    method Set(key: string, v: Option<string>)
      modifies this
      ensures bts == old(bts)[key := v]
      ensures cell == old(cell) && xmlTree == old(xmlTree) && matchTail == old(matchTail)
      ensures moClass == old(moClass) && prompt == old(prompt) && finalFile == old(finalFile)
    {
      bts := bts[key := v];
    }

    function Get(key: string): (r: Option<string>)
      reads this
      ensures key !in bts ==> r.None?
      ensures key in bts ==> r == bts[key]
    {
      Read(bts, key)
    }
  }
}
