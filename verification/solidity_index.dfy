/** The inheritance part of the symbol index: does a contract, or one of its ancestors, hold a state
    variable of a given type? */
module SolidityIndex {
  import opened Reachability

  predicate Holds(table: map<string, set<string>>, contract: string, typeName: string) {
    contract in table && typeName in table[contract]
  }

  /** `table.setdefault(contract, set()).add(typeName)` */
  function WithType(table: map<string, set<string>>, contract: string, typeName: string): map<string, set<string>> {
    table[contract := (if contract in table then table[contract] else {}) + {typeName}]
  }

  lemma OneMoreType(table: map<string, set<string>>, contract: string, typeName: string, c: string, t: string)
    ensures Holds(WithType(table, contract, typeName), c, t) <==> Holds(table, c, t) || (c == contract && t == typeName)
  {
  }

  class SymbolIndex {
    var bases: map<string, seq<string>>
    var stateVarTypes: map<string, set<string>>

    constructor ()
      ensures bases == map[] && stateVarTypes == map[]
    {
      bases, stateVarTypes := map[], map[];
    }

    /** Records the bases and the state-variable types of one contract definition. A later definition of
        the same name replaces the bases only if it has any, and adds to the types. */
    method IndexContract(contract: string, baseNames: seq<string>, types: seq<string>)
      modifies this
      ensures bases == if baseNames == [] then old(bases) else old(bases)[contract := baseNames]
      ensures forall c, t :: Declares(c, t) <==> old(Declares(c, t)) || (c == contract && t in types)
    {
      if baseNames != [] {
        bases := bases[contract := baseNames];
      }
      ghost var was := stateVarTypes;
      for i := 0 to |types|
        invariant bases == if baseNames == [] then old(bases) else old(bases)[contract := baseNames]
        invariant forall c, t :: Holds(stateVarTypes, c, t) <==> Holds(was, c, t) || (c == contract && t in types[..i])
      {
        hide Holds;
        forall c, t { OneMoreType(stateVarTypes, contract, types[i], c, t); }
        assert types[..i + 1] == types[..i] + [types[i]];
        stateVarTypes := WithType(stateVarTypes, contract, types[i]);
      }
      assert types[..|types|] == types;
    }

    /** From each contract to each of its direct bases. */
    ghost function BaseArcs(): set<(string, string)>
      reads this
    {
      set c, i | c in bases && 0 <= i < |bases[c]| :: (c, bases[c][i])
    }

    ghost predicate Declares(contract: string, typeName: string)
      reads this
    {
      Holds(stateVarTypes, contract, typeName)
    }

    /** Each is a direct base of the one before it. */
    ghost predicate IsLineage(line: seq<string>)
      reads this
    {
      line != [] && forall i | 0 <= i < |line| - 1 :: line[i] in bases && line[i + 1] in bases[line[i]]
    }

    lemma ArcIsBase(c: string, d: string)
      ensures (c, d) in BaseArcs() <==> c in bases && d in bases[c]
    {
      if c in bases && d in bases[c] {
        var i :| 0 <= i < |bases[c]| && bases[c][i] == d;
        assert (c, bases[c][i]) in BaseArcs();
      }
    }

    lemma LineageIsPath(line: seq<string>)
      requires line != []
      ensures IsLineage(line) <==> IsPath(BaseArcs(), line[0], line[|line| - 1], line)
    {
      hide BaseArcs;
      var arcs := BaseArcs();
      if IsLineage(line) {
        forall i | 0 <= i < |line| - 1 ensures (line[i], line[i + 1]) in arcs {
          ArcIsBase(line[i], line[i + 1]);
        }
      }
      if IsPath(arcs, line[0], line[|line| - 1], line) {
        forall i | 0 <= i < |line| - 1 ensures line[i] in bases && line[i + 1] in bases[line[i]] {
          assert (line[i], line[i + 1]) in arcs;
          ArcIsBase(line[i], line[i + 1]);
        }
      }
    }

    /** What holds of a contract that is reached holds at the end of a line of its bases. */
    lemma ReachedIsInherited(contract: string, typeName: string)
      ensures (exists c :: Reaches(BaseArcs(), contract, c) && Declares(c, typeName)) <==>
              exists line | IsLineage(line) && line[0] == contract ::
                && line[|line| - 1] in stateVarTypes && typeName in stateVarTypes[line[|line| - 1]]
    {
      hide BaseArcs;
      if c :| Reaches(BaseArcs(), contract, c) && Declares(c, typeName) {
        var line :| IsPath(BaseArcs(), contract, c, line);
        LineageIsPath(line);
      }
      if line :| IsLineage(line) && line[0] == contract
                 && line[|line| - 1] in stateVarTypes && typeName in stateVarTypes[line[|line| - 1]] {
        LineageIsPath(line);
        assert Declares(line[|line| - 1], typeName);
      }
    }

    /** A worklist over the inheritance graph, which may hold cycles and names that are not indexed. */
    method ProvidesStateVarType(contract: string, typeName: string) returns (found: bool)
      ensures found <==> exists c :: Reaches(BaseArcs(), contract, c) && Declares(c, typeName)
      ensures found <==>
              exists line | IsLineage(line) && line[0] == contract ::
                && line[|line| - 1] in stateVarTypes && typeName in stateVarTypes[line[|line| - 1]]
    {
      ReachedIsInherited(contract, typeName);
      var seen: set<string> := {};
      var stack := [contract];
      ghost var arcs := BaseArcs();
      ghost var all := {contract} + set c, i | c in bases && 0 <= i < |bases[c]| :: bases[c][i];
      ReachesSelf(arcs, contract);
      while stack != []
        invariant contract in seen || contract in stack
        invariant forall c | c in stack :: c in all && Reaches(arcs, contract, c)
        invariant forall c | c in seen :: Reaches(arcs, contract, c) && !Declares(c, typeName)
        invariant forall c, d | c in seen && (c, d) in arcs :: d in seen || d in stack
        decreases all - seen, |stack|
      {
        var c := stack[|stack| - 1];
        ghost var was := stack;
        stack := stack[..|stack| - 1];
        assert was == stack + [c];
        if c in seen {
          continue;
        }
        seen := seen + {c};
        if c in stateVarTypes && typeName in stateVarTypes[c] {
          return true;
        }
        if c in bases {
          forall i | 0 <= i < |bases[c]| ensures Reaches(arcs, contract, bases[c][i]) {
            assert (c, bases[c][i]) in arcs;
            ReachesOn(arcs, contract, c, bases[c][i]);
          }
          stack := stack + bases[c];
        }
      }
      forall c | Reaches(arcs, contract, c) ensures !Declares(c, typeName) {
        ReachesStaysIn(arcs, seen, contract, c);
      }
      return false;
    }
  }
}
