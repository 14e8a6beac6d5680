/** The interference graph of register allocation: adjacency lists and degrees under node removal. */
module InterferenceGraph {

  // ----- counting neighbours -----

  /** How many of these nodes have not been removed. */
  function Remaining(ns: seq<nat>, removed: set<nat>): (r: nat)
    ensures r <= |ns|
  {
    if ns == [] then 0
    else Remaining(ns[..|ns| - 1], removed) + (if ns[|ns| - 1] in removed then 0 else 1)
  }

  predicate Ascending(ns: seq<nat>) { forall i, j | 0 <= i < j < |ns| :: ns[i] < ns[j] }

  lemma {:induction false} RemainingAtFirst(ns: seq<nat>)
    ensures Remaining(ns, {}) == |ns|
    decreases |ns|
  {
    if ns != [] { RemainingAtFirst(ns[..|ns| - 1]); }
  }

  /** Removing one more node takes one off the count exactly when it is a remaining neighbour. */
  lemma {:induction false} RemainingStep(ns: seq<nat>, removed: set<nat>, x: nat)
    requires Ascending(ns)
    ensures Remaining(ns, removed + {x}) == Remaining(ns, removed) - (if x in ns && x !in removed then 1 else 0)
    decreases |ns|
  {
    if ns != [] {
      var rest := ns[..|ns| - 1];
      RemainingStep(rest, removed, x);
      assert x in ns <==> x in rest || x == ns[|ns| - 1];
    }
  }

  function Left(ns: seq<nat>, removed: set<nat>): set<nat> { set x | x in ns && x !in removed }

  /** The count is the number of the nodes themselves. */
  lemma {:induction false} RemainingIsSize(ns: seq<nat>, removed: set<nat>)
    requires Ascending(ns)
    ensures Remaining(ns, removed) == |Left(ns, removed)|
    decreases |ns|
  {
    if ns == [] {
      assert Left(ns, removed) == {};
    } else {
      var rest, last := ns[..|ns| - 1], ns[|ns| - 1];
      RemainingIsSize(rest, removed);
      assert forall x :: x in ns <==> x in rest || x == last;
      assert last !in rest;
      if last in removed {
        assert Left(ns, removed) == Left(rest, removed);
      } else {
        assert Left(ns, removed) == Left(rest, removed) + {last};
      }
    }
  }

  /** The machine's unsigned decrement. */
  function Decremented(d: nat): nat { if d == 0 then 0xFFFF_FFFF_FFFF_FFFF else d - 1 }

  /** Taking one off a neighbour's degree is right exactly when the removed node was still there. */
  lemma CountAfter(ns: seq<nat>, removed: set<nat>, x: nat)
    requires Ascending(ns)
    ensures
      (if x in ns then Decremented(Remaining(ns, removed)) else Remaining(ns, removed)) ==
        Remaining(ns, removed + {x})
      <==> x !in ns || x !in removed
  {
    RemainingStep(ns, removed, x);
  }

  class Graph<Pseudo(==)> {
    var index: map<Pseudo, nat>
    var pseudos: seq<Pseudo>
    var matrix: array2<bool>
    var adjacency: seq<seq<nat>>
    var degrees: array<nat>
    ghost var removed: set<nat>

    constructor ()
      ensures Inverse() && pseudos == [] && fresh(matrix) && fresh(degrees)
    {
      index, pseudos, adjacency, removed := map[], [], [], {};
      matrix := new bool[0, 0];
      degrees := new nat[0];
    }

    // ----- nodes -----

    /** The two directions between registers and indices undo each other. */
    ghost predicate Inverse()
      reads this
    {
      && (forall p | p in index :: index[p] < |pseudos| && pseudos[index[p]] == p)
      && (forall i | 0 <= i < |pseudos| :: pseudos[i] in index && index[pseudos[i]] == i)
    }

    method Gather(reg: Pseudo)
      requires Inverse()
      modifies this`index, this`pseudos
      ensures Inverse() && reg in index
      ensures pseudos == if reg in old(index) then old(pseudos) else old(pseudos) + [reg]
    {
      if reg !in index {
        index := index[reg := |pseudos|];
        pseudos := pseudos + [reg];
      }
    }

    /**
     * Looking up a register that was never gathered invents index 0 for it:
     * the maps stay inverse exactly when it was gathered.
     */
    method Convert(reg: Pseudo) returns (i: nat)
      requires Inverse()
      modifies this`index
      ensures Inverse() <==> reg in old(index)
      ensures reg in old(index) ==> index == old(index) && i < |pseudos| && pseudos[i] == reg
      ensures reg !in old(index) ==> i == 0
    {
      if reg !in index {
        index := index[reg := 0];
        assert pseudos != [] ==> pseudos[0] in old(index);
      }
      i := index[reg];
    }

    // ----- edges -----

    function Size(): nat
      reads this`pseudos
    {
      |pseudos|
    }

    ghost predicate Sized()
      reads this`pseudos, this`degrees, this`matrix
    {
      matrix.Length0 == Size() && matrix.Length1 == Size() && degrees.Length == Size()
    }

    ghost predicate Symmetric()
      reads this, degrees, matrix
      requires Sized()
    {
      forall i, j | 0 <= i < Size() && 0 <= j < Size() :: matrix[i, j] == matrix[j, i]
    }

    method BuildGraph()
      modifies this
      ensures Sized() && Symmetric() && fresh(matrix) && fresh(degrees)
      ensures pseudos == old(pseudos) && index == old(index)
      ensures forall i, j | 0 <= i < Size() && 0 <= j < Size() :: !matrix[i, j]
    {
      matrix := new bool[|pseudos|, |pseudos|]((i, j) => false);
      degrees := new nat[|pseudos|];
    }

    method AddEdge(i: nat, j: nat)
      requires Sized() && Symmetric() && i < Size() && j < Size()
      modifies matrix
      ensures Symmetric()
      ensures forall k, l | 0 <= k < Size() && 0 <= l < Size() ::
        matrix[k, l] == (old(matrix[k, l]) || (k == i && l == j) || (k == j && l == i))
    {
      matrix[i, j] := true;
      matrix[j, i] := true;
    }

    /** An ascending list of all the other nodes that are connected. */
    ghost predicate IsNeighbourList(i: nat, ns: seq<nat>, upTo: nat)
      reads this, degrees, matrix
      requires Sized() && i < Size() && upTo <= Size()
    {
      Ascending(ns) && forall j: nat :: j in ns <==> j < upTo && j != i && matrix[i, j]
    }

    /** What the lists and the matrix have to do with each other while nodes are removed. */
    ghost predicate Consistent()
      reads this, degrees, matrix
    {
      && Sized() && Symmetric() && |adjacency| == Size()
      && (forall i | 0 <= i < Size() :: Ascending(adjacency[i]))
      && (forall i, j: nat | 0 <= i < Size() && j in adjacency[i] :: j < Size() && j != i && i in adjacency[j])
      && (forall i: nat, j: nat | i < Size() && j < Size() && i != j ::
            matrix[i, j] <==> j in adjacency[i] && i !in removed && j !in removed)
    }

    /** The degree of a node that is still there is the number of its neighbours that are. */
    ghost predicate Counted(i: nat)
      reads this, degrees
    {
      i < degrees.Length && i < |adjacency| && degrees[i] == Remaining(adjacency[i], removed)
    }

    ghost predicate AllCounted()
      reads this, degrees
    {
      forall i: nat | i < Size() && i !in removed :: Counted(i)
    }

    ghost predicate Built()
      reads this, degrees, matrix
    {
      Consistent() && AllCounted()
    }

    method BuildAdjacencyVectors()
      requires Sized() && Symmetric()
      modifies this`adjacency, this`removed, degrees
      ensures Built() && removed == {}
      ensures forall i: nat | i < Size() :: IsNeighbourList(i, adjacency[i], Size()) && degrees[i] == |adjacency[i]|
    {
      removed := {};
      adjacency := [];
      for i := 0 to Size()
        invariant Sized() && Symmetric() && |adjacency| == i && removed == {}
        invariant forall k: nat | k < i :: IsNeighbourList(k, adjacency[k], Size()) && degrees[k] == |adjacency[k]|
      {
        var ns: seq<nat> := [];
        for j := 0 to Size()
          invariant IsNeighbourList(i, ns, j)
        {
          if i != j && matrix[i, j] {
            assert forall k | 0 <= k < |ns| :: ns[k] in ns;
            ns := ns + [j];
          }
        }
        adjacency := adjacency + [ns];
        degrees[i] := |ns|;
      }
      forall i: nat | i < Size() ensures Counted(i) {
        assert IsNeighbourList(i, adjacency[i], Size());
        RemainingAtFirst(adjacency[i]);
      }
    }

    /** One neighbour of the node that is being removed. */
    method Disconnect(i: nat, j: nat)
      requires Sized() && i < Size() && j < Size()
      modifies matrix, degrees
      ensures forall k, l | 0 <= k < Size() && 0 <= l < Size() ::
        matrix[k, l] == (old(matrix[k, l]) && !(k == i && l == j) && !(k == j && l == i))
      ensures forall k | 0 <= k < Size() ::
        degrees[k] == if k == j then Decremented(old(degrees[k])) else old(degrees[k])
    {
      matrix[i, j] := false;
      matrix[j, i] := false;
      degrees[j] := Decremented(degrees[j]);
    }

    /** The loop over the neighbours. */
    method DisconnectAll(i: nat, ns: seq<nat>)
      requires Sized() && i < Size() && Ascending(ns) && i !in ns && forall j | j in ns :: j < Size()
      modifies matrix, degrees
      ensures forall k: nat, l: nat | k < Size() && l < Size() ::
        matrix[k, l] <==> old(matrix[k, l]) && !(k == i && l in ns) && !(l == i && k in ns)
      ensures forall k: nat | k < Size() ::
        degrees[k] == if k in ns then Decremented(old(degrees[k])) else old(degrees[k])
    {
      for n := 0 to |ns|
        invariant forall k: nat, l: nat | k < Size() && l < Size() ::
          matrix[k, l] <==> old(matrix[k, l]) && !(k == i && l in ns[..n]) && !(l == i && k in ns[..n])
        invariant forall k: nat | k < Size() ::
          degrees[k] == if k in ns[..n] then Decremented(old(degrees[k])) else old(degrees[k])
      {
        assert ns[n] in ns && ns[n] !in ns[..n];
        Disconnect(i, ns[n]);
        assert ns[..n + 1] == ns[..n] + [ns[n]];
      }
      assert ns[..|ns|] == ns;
    }

    /**
     * Removing a node disconnects it from everything. The others keep a degree
     * equal to the number of neighbours they have left exactly when the node
     * was still there, or had no neighbour left to miscount.
     */
    method RemoveNode(i: nat)
      requires Built() && i < Size()
      modifies matrix, degrees, this`removed
      ensures removed == old(removed) + {i} && degrees[i] == 0
      ensures forall j: nat | j < Size() && j != i :: !matrix[i, j] && !matrix[j, i]
      ensures Built() <==> i !in old(removed) || Remaining(adjacency[i], old(removed)) == 0
    {
      var ns := adjacency[i];
      ghost var before := removed;
      NeighboursFit(i);
      assert forall k: nat | k < Size() && k !in before :: old(Counted(k));
      DisconnectAll(i, ns);
      degrees[i] := 0;
      removed := before + {i};
      assert Consistent();
      forall k: nat | k < Size() && k !in removed ensures Counted(k) <==> k !in ns || i !in before {
        CountAfter(adjacency[k], before, i);
      }
      NoneRemaining(ns, before);
      if i in before && Remaining(ns, before) > 0 {
        ghost var k :| k in ns && k !in before;
        assert k < Size() && k !in removed && !Counted(k);
      }
    }

    /** A remaining node's degree is the number of other nodes it is still connected to. */
    lemma DegreeCountsConnections(i: nat)
      requires Built() && i < Size() && i !in removed
      ensures degrees[i] == |set j: nat | j < Size() && j != i && matrix[i, j]|
    {
      assert Counted(i);
      RemainingIsSize(adjacency[i], removed);
      var ns, connected := adjacency[i], set j: nat | j < Size() && j != i && matrix[i, j];
      NeighboursFit(i);
      forall j: nat | j in Left(ns, removed) ensures j in connected {
        assert j in ns && matrix[i, j];
      }
      forall j: nat | j in connected ensures j in Left(ns, removed) {}
      assert Left(ns, removed) == connected;
    }

    lemma NeighboursFit(i: nat)
      requires Built() && i < Size()
      ensures Ascending(adjacency[i]) && i !in adjacency[i]
      ensures forall j | j in adjacency[i] :: j < Size() && i in adjacency[j]
      ensures forall j | 0 <= j < Size() && i in adjacency[j] :: j in adjacency[i]
    {
    }
  }

  lemma {:induction false} NoneRemaining(ns: seq<nat>, removed: set<nat>)
    ensures Remaining(ns, removed) == 0 <==> forall x | x in ns :: x in removed
    decreases |ns|
  {
    if ns != [] {
      NoneRemaining(ns[..|ns| - 1], removed);
      assert forall x :: x in ns <==> x in ns[..|ns| - 1] || x == ns[|ns| - 1];
    }
  }
}
