/** Parents of structures, resolved round by round, and the sizes that rest on them. */
module Inheritance {
  import opened Common
  import opened Graphs

  /** A structure of the program that is not a class template. */
  datatype Decl = Decl(name: string, parent: Option<string>)

  datatype Outcome = Resolved | NotAStructure | InvalidTree

  /** Structure names are unique: a second definition is refused when structures are collected. */
  ghost predicate DistinctNames(ds: seq<Decl>) {
    forall i, j | 0 <= i < j < |ds| :: ds[i].name != ds[j].name
  }

  /** The declared parents of a structure end, within k steps, at one of these structures that has none. */
  predicate Ends(ds: seq<Decl>, name: string, k: nat)
    decreases k
  {
    exists i | 0 <= i < |ds| ::
      ds[i].name == name && (ds[i].parent.None? || (k > 0 && Ends(ds, ds[i].parent.value, k - 1)))
  }

  ghost predicate Founded(ds: seq<Decl>, name: string) { exists k: nat :: Ends(ds, name, k) }

  /** What earlier runs of the pass leave: parents as declared, of founded structures only. */
  ghost predicate Settled(ds: seq<Decl>, parents: map<string, string>) {
    forall n | n in parents :: Founded(ds, n) && exists i | 0 <= i < |ds| :: ds[i] == Decl(n, Some(parents[n]))
  }

  /** Parents as declared, and of all structures. */
  ghost predicate Complete(ds: seq<Decl>, parents: map<string, string>) {
    && Settled(ds, parents)
    && forall i | 0 <= i < |ds| :: Founded(ds, ds[i].name) && (ds[i].parent.Some? ==> ds[i].name in parents)
  }

  predicate KnownParent(d: Decl, known: set<string>, parents: map<string, string>) {
    d.parent.Some? && d.name !in parents ==> d.parent.value in known
  }

  ghost predicate KnownUpTo(ds: seq<Decl>, known: set<string>, parents: map<string, string>, n: nat) {
    forall i | 0 <= i < n && i < |ds| :: KnownParent(ds[i], known, parents)
  }

  /** Every parent that is still to be set is a structure. */
  ghost predicate AllKnown(ds: seq<Decl>, known: set<string>, parents: map<string, string>) {
    KnownUpTo(ds, known, parents, |ds|)
  }

  function Names(ds: seq<Decl>): set<string> { set i | 0 <= i < |ds| :: ds[i].name }

  lemma FoundedByParent(ds: seq<Decl>, i: nat)
    requires i < |ds| && (ds[i].parent.Some? ==> Founded(ds, ds[i].parent.value))
    ensures Founded(ds, ds[i].name)
  {
    if ds[i].parent.None? {
      assert Ends(ds, ds[i].name, 0);
    } else {
      var k: nat :| Ends(ds, ds[i].parent.value, k);
      assert Ends(ds, ds[i].name, k + 1);
    }
  }

  /** What a round tests of one structure. */
  ghost predicate Ready(d: Decl, parents: map<string, string>, resolved: set<string>) {
    d.name in parents || d.parent.None? || d.parent.value in resolved
  }

  ghost predicate DoneUpTo(
    ds: seq<Decl>, before: map<string, string>, start: set<string>, resolved: set<string>, n: nat)
  {
    forall i | 0 <= i < n && i < |ds| && Ready(ds[i], before, start) :: ds[i].name in resolved
  }

  lemma UpToNext(ds: seq<Decl>, known: set<string>, before: map<string, string>, start: set<string>,
                 earlier: set<string>, resolved: set<string>, i: nat)
    requires i < |ds| && earlier <= resolved
    requires DoneUpTo(ds, before, start, earlier, i) && (Ready(ds[i], before, start) ==> ds[i].name in resolved)
    requires KnownUpTo(ds, known, before, i) && KnownParent(ds[i], known, before)
    ensures DoneUpTo(ds, before, start, resolved, i + 1) && KnownUpTo(ds, known, before, i + 1)
  {
  }

  /** When a round adds nothing, everything founded has been resolved. */
  lemma {:induction false} StableIsAll(
    ds: seq<Decl>, parents: map<string, string>, resolved: set<string>, name: string, k: nat)
    requires DoneUpTo(ds, parents, resolved, resolved, |ds|) && Ends(ds, name, k)
    ensures name in resolved
    decreases k
  {
    var i :|
      0 <= i < |ds| && ds[i].name == name && (ds[i].parent.None? || (k > 0 && Ends(ds, ds[i].parent.value, k - 1)));
    if ds[i].parent.Some? { StableIsAll(ds, parents, resolved, ds[i].parent.value, k - 1); }
    assert Ready(ds[i], parents, resolved);
  }

  lemma SameSize(a: set<string>, b: set<string>)
    requires a <= b && |a| >= |b|
    ensures a == b
  {
    if x :| x in b && x !in a {
      SubsetSize(a, b - {x});
    }
  }

  lemma {:induction false} SubsetSize(a: set<string>, b: set<string>)
    requires a <= b
    ensures |a| <= |b|
    decreases a
  {
    if x :| x in a { SubsetSize(a - {x}, b - {x}); }
  }

  lemma {:induction false} NamesSize(ds: seq<Decl>)
    requires DistinctNames(ds)
    ensures |Names(ds)| == |ds|
    decreases |ds|
  {
    if ds != [] {
      var rest := ds[..|ds| - 1];
      NamesSize(rest);
      assert forall i | 0 <= i < |rest| :: rest[i].name == ds[i].name;
      assert Names(ds) == Names(rest) + {ds[|ds| - 1].name};
    }
  }

  class StructTable {
    const known: set<string>
    var parents: map<string, string>

    constructor (structs: set<string>)
      ensures known == structs && parents == map[]
    {
      known := structs;
      parents := map[];
    }

    /** What holds whenever a structure has just been looked at. */
    ghost predicate Progress(ds: seq<Decl>, before: map<string, string>, resolved: set<string>)
      reads this
    {
      && Settled(ds, parents)
      && resolved <= Names(ds) && (forall n | n in resolved :: Founded(ds, n))
      && (forall n | n in before :: n in parents && parents[n] == before[n])
      && (forall n | n in parents :: n in before || n in resolved)
      && (forall i | 0 <= i < |ds| && ds[i].name in resolved && ds[i].parent.Some? ::
            ds[i].name in parents && (ds[i].name in before || ds[i].parent.value in known))
    }

    /** One structure of one round. */
    method Visit(
      ds: seq<Decl>, i: nat, ghost before: map<string, string>, ghost start: set<string>, resolved: set<string>)
      returns (ok: bool, now: set<string>)
      requires i < |ds| && DistinctNames(ds) && Progress(ds, before, resolved) && start <= resolved
      modifies this`parents
      ensures Progress(ds, before, now) && resolved <= now
      ensures ok <==> KnownParent(ds[i], known, before)
      ensures ok && Ready(ds[i], before, start) ==> ds[i].name in now
    {
      var d := ds[i];
      ok, now := true, resolved;
      if d.name in parents || d.parent.None? {
        if d.parent.None? { FoundedByParent(ds, i); }
        now := resolved + {d.name};
      } else if d.parent.value !in known {
        ok := false;
      } else if d.parent.value in resolved {
        FoundedByParent(ds, i);
        parents := parents[d.name := d.parent.value];
        now := resolved + {d.name};
      }
    }

    /** One round over the structures. */
    method Round(ds: seq<Decl>, ghost before: map<string, string>, start: set<string>)
      returns (ok: bool, resolved: set<string>)
      requires DistinctNames(ds) && Progress(ds, before, start)
      modifies this`parents
      ensures Progress(ds, before, resolved) && start <= resolved
      ensures ok <==> AllKnown(ds, known, before)
      ensures ok ==> DoneUpTo(ds, before, start, resolved, |ds|)
    {
      resolved := start;
      for i := 0 to |ds|
        invariant Progress(ds, before, resolved) && start <= resolved
        invariant DoneUpTo(ds, before, start, resolved, i) && KnownUpTo(ds, known, before, i)
      {
        ghost var earlier := resolved;
        ok, resolved := Visit(ds, i, before, start, resolved);
        if !ok { return; }
        UpToNext(ds, known, before, start, earlier, resolved, i);
      }
      ok := true;
    }

    /**
     * Rounds over the structures until one adds nothing. It fails exactly
     * when a parent is no structure, or when the declared parents of some
     * structure do not end at one of these structures that has no parent: they
     * run into a cycle, or into a known structure that is not among these.
     * Otherwise every declared parent is set.
     */
    method ResolveParents(ds: seq<Decl>) returns (r: Outcome, rounds: nat)
      requires DistinctNames(ds) && Settled(ds, parents)
      modifies this`parents
      ensures r == NotAStructure <==> !AllKnown(ds, known, old(parents))
      ensures r == InvalidTree <==> AllKnown(ds, known, old(parents)) && !AllFounded(ds)
      ensures r == Resolved ==> Complete(ds, parents)
      ensures rounds <= |ds| + 1
    {
      ghost var before := parents;
      var resolved: set<string> := {};
      rounds := 0;
      while true
        invariant Progress(ds, before, resolved) && rounds <= |resolved| <= |ds|
        invariant rounds > 0 ==> AllKnown(ds, known, before)
        decreases |ds| - |resolved|
      {
        var start := resolved;
        rounds := rounds + 1;
        var ok;
        ok, resolved := Round(ds, before, start);
        NamesBound(ds, resolved);
        if !ok { return NotAStructure, rounds; }
        if |resolved| == |start| {
          SameSize(start, resolved);
          StableOutcome(ds, before, resolved);
          return if |resolved| != |ds| then InvalidTree else Resolved, rounds;
        }
        SubsetSize(start, resolved);
      }
    }
  }

  ghost predicate AllFounded(ds: seq<Decl>) { forall i | 0 <= i < |ds| :: Founded(ds, ds[i].name) }

  lemma NamesBound(ds: seq<Decl>, resolved: set<string>)
    requires DistinctNames(ds) && resolved <= Names(ds)
    ensures |resolved| <= |ds|
  {
    NamesSize(ds);
    SubsetSize(resolved, Names(ds));
  }

  /** When nothing more can be resolved, counting tells whether everything was. */
  lemma StableOutcome(ds: seq<Decl>, before: map<string, string>, resolved: set<string>)
    requires DistinctNames(ds) && DoneUpTo(ds, before, resolved, resolved, |ds|)
    requires resolved <= Names(ds) && forall n | n in resolved :: Founded(ds, n)
    ensures |resolved| == |ds| <==> AllFounded(ds)
    ensures |resolved| == |ds| ==> resolved == Names(ds)
  {
    NamesSize(ds);
    if |resolved| == |ds| {
      SameSize(resolved, Names(ds));
    } else {
      assert resolved != Names(ds);
      var n :| n in Names(ds) && n !in resolved;
      var i :| 0 <= i < |ds| && ds[i].name == n;
      if Founded(ds, n) {
        var k: nat :| Ends(ds, n, k);
        StableIsAll(ds, before, resolved, n, k);
      }
    }
  }

  // ----- cycles -----

  /** The parent graph, when all parents are declared. */
  ghost predicate ParentsDeclared(ds: seq<Decl>) {
    forall i | 0 <= i < |ds| && ds[i].parent.Some? :: exists j | 0 <= j < |ds| :: ds[j].name == ds[i].parent.value
  }

  ghost predicate IsParentGraph(ds: seq<Decl>, g: Graph) {
    && g.Keys == Names(ds)
    && forall i | 0 <= i < |ds| :: g[ds[i].name] == if ds[i].parent.Some? then [ds[i].parent.value] else []
  }

  ghost function ParentGraph(ds: seq<Decl>): (g: Graph)
    requires DistinctNames(ds)
    ensures IsParentGraph(ds, g)
  {
    map n | n in Names(ds) ::
      var i :| 0 <= i < |ds| && ds[i].name == n;
      if ds[i].parent.Some? then [ds[i].parent.value] else []
  }

  lemma ParentGraphClosed(ds: seq<Decl>, g: Graph)
    requires ParentsDeclared(ds) && IsParentGraph(ds, g)
    ensures Closed(g)
  {
    forall x, i | x in g && 0 <= i < |g[x]| ensures g[x][i] in g {
      var j :| 0 <= j < |ds| && ds[j].name == x;
    }
  }

  lemma EndsAt(ds: seq<Decl>, i: nat, k: nat)
    requires DistinctNames(ds) && i < |ds|
    ensures Ends(ds, ds[i].name, k) <==> ds[i].parent.None? || (k > 0 && Ends(ds, ds[i].parent.value, k - 1))
  {
  }

  lemma ChainAt(ds: seq<Decl>, g: Graph, i: nat, k: nat)
    requires IsParentGraph(ds, g) && Closed(g) && i < |ds| && ds[i].name in g
    ensures ds[i].parent.Some? ==> ds[i].parent.value in g
    ensures HasChain(g, ds[i].name, k + 1) <==> ds[i].parent.Some? && HasChain(g, ds[i].parent.value, k)
  {
    var succ := g[ds[i].name];
    if ds[i].parent.Some? {
      assert succ == [ds[i].parent.value] && g[ds[i].name][0] in g;
    }
  }

  lemma {:induction false} EndsIffNoChain(ds: seq<Decl>, g: Graph, name: string, k: nat)
    requires DistinctNames(ds) && IsParentGraph(ds, g) && Closed(g) && name in g
    ensures Ends(ds, name, k) <==> !HasChain(g, name, k + 1)
    decreases k
  {
    var i :| 0 <= i < |ds| && ds[i].name == name;
    EndsAt(ds, i, k);
    ChainAt(ds, g, i, k);
    if ds[i].parent.Some? && k > 0 { EndsIffNoChain(ds, g, ds[i].parent.value, k - 1); }
  }

  /** A structure is founded exactly when its declared parents do not run into a cycle. */
  lemma FoundedIffNoCycle(ds: seq<Decl>, name: string)
    requires DistinctNames(ds) && ParentsDeclared(ds) && name in Names(ds)
    ensures Closed(ParentGraph(ds))
    ensures Founded(ds, name) <==> !ReachesCycle(ParentGraph(ds), name)
  {
    var g := ParentGraph(ds);
    ParentGraphClosed(ds, g);
    if Founded(ds, name) {
      var k: nat :| Ends(ds, name, k);
      EndsIffNoChain(ds, g, name, k);
      if ReachesCycle(g, name) { CycleHasEndlessChain(g, name, k + 1); }
    } else {
      var n := |g.Keys|;
      EndsIffNoChain(ds, g, name, n);
      assert !Ends(ds, name, n);
      LongChainHasCycle(g, name, n + 1);
    }
  }

  // ----- sizes along the chain -----

  /** A structure, its declared parent, and so on to one without parent, none of them twice. */
  ghost predicate Lineage(ds: seq<Decl>, line: seq<string>) {
    && line != []
    && (forall j | 0 <= j < |line| - 1 :: Decl(line[j], Some(line[j + 1])) in ds)
    && Decl(line[|line| - 1], None) in ds
    && forall i, j | 0 <= i < j < |line| :: line[i] != line[j]
  }

  /** A structure has one such line at most. */
  lemma {:induction false} LineageIsUnique(ds: seq<Decl>, a: seq<string>, b: seq<string>)
    requires DistinctNames(ds) && Lineage(ds, a) && Lineage(ds, b) && a[0] == b[0]
    ensures a == b
    decreases |a|
  {
    assert FirstOf(a) in ds && FirstOf(b) in ds;
    if |a| > 1 {
      TailIsLine(ds, a);
      TailIsLine(ds, b);
      LineageIsUnique(ds, a[1..], b[1..]);
      assert a == [a[0]] + a[1..] && b == [b[0]] + b[1..];
    }
  }

  /** The declaration of the first structure in a line. */
  function FirstOf(line: seq<string>): Decl
    requires line != []
  {
    Decl(line[0], if |line| > 1 then Some(line[1]) else None)
  }

  lemma TailIsLine(ds: seq<Decl>, a: seq<string>)
    requires Lineage(ds, a) && |a| > 1
    ensures Lineage(ds, a[1..])
  {
    forall j | 0 <= j < |a[1..]| - 1 ensures Decl(a[1..][j], Some(a[1..][j + 1])) in ds {
      assert Decl(a[j + 1], Some(a[j + 2])) in ds;
    }
  }

  function SumOf(own: map<string, int>, names: seq<string>): int
    requires forall n | n in names :: n in own
  {
    if names == [] then 0 else SumOf(own, names[..|names| - 1]) + own[names[|names| - 1]]
  }

  lemma SumGrows(own: map<string, int>, names: seq<string>, n: string)
    requires (forall m | m in names :: m in own) && n in own
    ensures forall m | m in names + [n] :: m in own
    ensures SumOf(own, names + [n]) == SumOf(own, names) + own[n]
  {
    assert (names + [n])[..|names|] == names;
  }

  /** The exact number of steps to the top. */
  predicate Rank(ds: seq<Decl>, name: string, k: nat) { Ends(ds, name, k) && (k > 0 ==> !Ends(ds, name, k - 1)) }

  lemma {:induction false} HasRank(ds: seq<Decl>, name: string, k: nat) returns (r: nat)
    requires Ends(ds, name, k)
    ensures r <= k && Rank(ds, name, r)
  {
    if k > 0 && Ends(ds, name, k - 1) { r := HasRank(ds, name, k - 1); } else { r := k; }
  }

  lemma {:induction false} EndsLater(ds: seq<Decl>, name: string, k: nat, l: nat)
    requires Ends(ds, name, k) && k <= l
    ensures Ends(ds, name, l)
    decreases k
  {
    var i :|
      0 <= i < |ds| && ds[i].name == name && (ds[i].parent.None? || (k > 0 && Ends(ds, ds[i].parent.value, k - 1)));
    if ds[i].parent.Some? { EndsLater(ds, ds[i].parent.value, k - 1, l - 1); }
  }

  lemma RankIsUnique(ds: seq<Decl>, name: string, k: nat, l: nat)
    requires Rank(ds, name, k) && Rank(ds, name, l)
    ensures k == l
  {
    if k < l { EndsLater(ds, name, k, l - 1); } else if l < k { EndsLater(ds, name, l, k - 1); }
  }

  lemma RankOfParent(ds: seq<Decl>, i: nat, k: nat)
    requires DistinctNames(ds) && i < |ds| && Rank(ds, ds[i].name, k) && ds[i].parent.Some?
    ensures k > 0 && Rank(ds, ds[i].parent.value, k - 1)
  {
    EndsAt(ds, i, k);
    if k > 1 { EndsAt(ds, i, k - 1); }
  }

  /** The names from a structure up to where the loop is, with their distance from the top. */
  ghost predicate Climbed(ds: seq<Decl>, line: seq<string>, left: nat) {
    && line != []
    && (forall j | 0 <= j < |line| - 1 :: Decl(line[j], Some(line[j + 1])) in ds)
    && forall j | 0 <= j < |line| :: Rank(ds, line[j], left + (|line| - 1 - j))
  }

  lemma ClimbOn(ds: seq<Decl>, line: seq<string>, left: nat, i: nat)
    requires DistinctNames(ds) && Climbed(ds, line, left) && i < |ds|
    requires ds[i].name == line[|line| - 1] && ds[i].parent.Some?
    ensures left > 0 && Climbed(ds, line + [ds[i].parent.value], left - 1)
  {
    RankOfParent(ds, i, left);
    assert ds[i] == Decl(line[|line| - 1], ds[i].parent);
  }

  lemma ClimbedIsLine(ds: seq<Decl>, line: seq<string>, left: nat)
    requires Climbed(ds, line, left) && Decl(line[|line| - 1], None) in ds
    ensures Lineage(ds, line)
  {
    forall i, j | 0 <= i < j < |line| ensures line[i] != line[j] {
      if line[i] == line[j] { RankIsUnique(ds, line[i], left + (|line| - 1 - i), left + (|line| - 1 - j)); }
    }
  }

  /**
   * Once all parents are resolved, the loop up the parents ends for every
   * structure, and adds the own size of the structure and of each of its
   * ancestors up to the topmost once.
   */
  method TotalSize(table: StructTable, ds: seq<Decl>, own: map<string, int>, name: string)
    returns (total: int, ghost line: seq<string>)
    requires DistinctNames(ds) && Complete(ds, table.parents) && name in Names(ds) && Names(ds) <= own.Keys
    ensures Lineage(ds, line) && line[0] == name
    ensures (forall n | n in line :: n in own) && total == SumOf(own, line)
  {
    ghost var left := Start(ds, table.parents, own, name);
    var current := name;
    total := own[current];
    line := [name];
    while current in table.parents
      invariant Up(ds, own, line, left, name, current, total)
      decreases left
    {
      UpNext(ds, table.parents, own, line, left, name, current, total);
      current := table.parents[current];
      line := line + [current];
      left := left - 1;
      total := total + own[current];
    }
    TopHasNoParent(ds, table.parents, current, left);
    ClimbedIsLine(ds, line, left);
  }

  /** Where the loop is: at the last name of the line, with the sum over the line. */
  ghost predicate Up(
    ds: seq<Decl>, own: map<string, int>, line: seq<string>, left: nat, name: string, current: string, total: int) {
    && Climbed(ds, line, left) && line[0] == name && line[|line| - 1] == current
    && (forall n | n in line :: n in own) && total == SumOf(own, line)
  }

  lemma Start(ds: seq<Decl>, parents: map<string, string>, own: map<string, int>, name: string) returns (left: nat)
    requires Complete(ds, parents) && name in Names(ds) && Names(ds) <= own.Keys
    ensures Up(ds, own, [name], left, name, name, own[name])
  {
    var i :| 0 <= i < |ds| && ds[i].name == name;
    assert Founded(ds, ds[i].name);
    var k: nat :| Ends(ds, name, k);
    left := HasRank(ds, name, k);
    SumGrows(own, [], name);
    assert [] + [name] == [name];
  }

  lemma UpNext(
    ds: seq<Decl>, parents: map<string, string>, own: map<string, int>, line: seq<string>, left: nat, name: string,
    current: string, total: int)
    requires DistinctNames(ds) && Complete(ds, parents) && Names(ds) <= own.Keys && current in parents
    requires Up(ds, own, line, left, name, current, total)
    ensures var next := parents[current];
      left > 0 && next in own && Up(ds, own, line + [next], left - 1, name, next, total + own[next])
  {
    var next := parents[current];
    var i :| 0 <= i < |ds| && ds[i] == Decl(current, Some(next));
    ClimbOn(ds, line, left, i);
    assert (line + [next])[|line|] == next && Ends(ds, next, left - 1);
    SumGrows(own, line, next);
  }

  lemma TopHasNoParent(ds: seq<Decl>, parents: map<string, string>, name: string, k: nat)
    requires Complete(ds, parents) && Ends(ds, name, k) && name !in parents
    ensures Decl(name, None) in ds
  {
    var i :| 0 <= i < |ds| && ds[i].name == name;
    assert ds[i] == Decl(name, None);
  }
}
