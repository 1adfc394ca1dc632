/** The set of paths a branch changed: what the engine compares branches by. */
module WriteSets {
  import opened Git

  class WriteSet {
    var paths: set<Path>

    constructor (ps: set<Path>)
      ensures paths == ps
    {
      paths := ps;
    }

    method Add(p: Path)
      modifies this
      ensures paths == old(paths) + {p}
    {
      paths := paths + {p};
    }

    /** Walks the smaller of the two sets and stops at the first shared path. */
    method Overlaps(other: WriteSet) returns (shared: bool)
      ensures shared <==> paths * other.paths != {}
    {
      var a, b := this.paths, other.paths;
      if |a| > |b| {
        a, b := b, a;
      }
      var rest := a;
      while rest != {}
        invariant rest <= a
        invariant forall p :: p in a && p !in rest ==> p !in b
        decreases rest
      {
        var p :| p in rest;
        if p in b {
          assert p in paths * other.paths;
          return true;
        }
        rest := rest - {p};
      }
      return false;
    }

    /** Adds every path of another branch's write-set, in any order. */
    method AddAll(ps: set<Path>)
      modifies this
      ensures paths == old(paths) + ps
    {
      var rest := ps;
      while rest != {}
        invariant rest <= ps
        invariant paths == old(paths) + (ps - rest)
        decreases rest
      {
        var p :| p in rest;
        Add(p);
        rest := rest - {p};
      }
    }
  }
}
