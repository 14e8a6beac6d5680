/** The bounded check for structures nested in themselves, and the sizes it is meant to protect. */
module Nesting {
  import opened Common
  import opened Graphs

  /**
   * A member's type, as far as nesting and sizes see it, on one platform:
   * standard types, pointers and arrays without a length have a fixed size;
   * arrays with a length store it in a header.
   */
  datatype MemberType =
    | Plain(size: nat)
    | Structure(name: string)
    | Sized(element: MemberType, length: nat, header: nat)

  datatype Struct = Struct(members: seq<MemberType>, parent: Option<string>)

  type Structs = map<string, Struct>

  // ----- which structures a structure leads to -----

  /** The structure a member is, when it is one directly. */
  function Direct(t: MemberType): seq<string> { if t.Structure? then [t.name] else [] }

  /** The structure a member's size needs. */
  function Needed(t: MemberType): seq<string> {
    match t
    case Plain(_) => []
    case Structure(n) => [n]
    case Sized(e, _, _) => Needed(e)
  }

  function AllDirect(ts: seq<MemberType>, i: nat): seq<string>
    requires i <= |ts|
    decreases |ts| - i
  {
    if i == |ts| then [] else Direct(ts[i]) + AllDirect(ts, i + 1)
  }

  function AllNeeded(ts: seq<MemberType>, i: nat): seq<string>
    requires i <= |ts|
    decreases |ts| - i
  {
    if i == |ts| then [] else Needed(ts[i]) + AllNeeded(ts, i + 1)
  }

  /** What the check follows: members that are structures. */
  function Nested(ss: Structs): Graph { map n | n in ss :: AllDirect(ss[n].members, 0) }

  /** What a size follows: those, the elements of sized arrays, and the parent. */
  function SizeGraph(ss: Structs): Graph {
    map n | n in ss :: AllNeeded(ss[n].members, 0) + ParentNeeded(ss[n])
  }

  // ----- the check -----

  /** Every structure named by a member or as a parent is registered. */
  ghost predicate Registered(ss: Structs) { Closed(Nested(ss)) && Closed(SizeGraph(ss)) }

  lemma {:induction false} DirectAt(ts: seq<MemberType>, from: nat, i: nat)
    requires from <= i < |ts| && ts[i].Structure?
    ensures ts[i].name in AllDirect(ts, from)
    decreases i - from
  {
    if i > from { DirectAt(ts, from + 1, i); }
  }

  lemma {:induction false} DirectFrom(ts: seq<MemberType>, from: nat, n: string)
    requires from <= |ts| && n in AllDirect(ts, from)
    ensures exists i | 0 <= i < |ts| :: ts[i] == Structure(n)
    decreases |ts| - from
  {
    if ts[from] != Structure(n) { DirectFrom(ts, from + 1, n); }
  }

  lemma ChainByMember(ss: Structs, name: string, i: nat, left: nat)
    requires Closed(Nested(ss)) && name in ss && i < |ss[name].members| && ss[name].members[i].Structure?
    ensures ss[name].members[i].name in ss
    ensures HasChain(Nested(ss), ss[name].members[i].name, left) ==> HasChain(Nested(ss), name, left + 1)
  {
    var g := Nested(ss);
    DirectAt(ss[name].members, 0, i);
    var j :| 0 <= j < |g[name]| && g[name][j] == ss[name].members[i].name;
    assert g[name][j] in g;
  }

  /** The recursive search, which counts the steps that are left. */
  method IsNestedWithin(ss: Structs, name: string, left: nat) returns (r: bool)
    requires Closed(Nested(ss)) && name in ss
    ensures r <==> HasChain(Nested(ss), name, left)
    decreases left
  {
    if left == 0 { return true; }
    var members := ss[name].members;
    for i := 0 to |members|
      invariant forall j | 0 <= j < i && members[j].Structure? ::
        members[j].name in ss && !HasChain(Nested(ss), members[j].name, left - 1)
    {
      if members[i].Structure? {
        ChainByMember(ss, name, i, left - 1);
        var deeper := IsNestedWithin(ss, members[i].name, left - 1);
        if deeper { return true; }
      }
    }
    if HasChain(Nested(ss), name, left) {
      var i :| 0 <= i < |Nested(ss)[name]| && HasChain(Nested(ss), Nested(ss)[name][i], left - 1);
      DirectFrom(members, 0, Nested(ss)[name][i]);
    }
    r := false;
  }

  /** A chain of so many steps is there for every cycle, and for nothing else with no more structures. */
  method IsNestedBeyond(ss: Structs, name: string, limit: nat) returns (r: bool)
    requires Closed(Nested(ss)) && name in ss
    ensures r <==> HasChain(Nested(ss), name, limit)
    ensures ReachesCycle(Nested(ss), name) ==> r
    ensures |ss| <= limit ==> (r <==> ReachesCycle(Nested(ss), name))
  {
    r := IsNestedWithin(ss, name, limit);
    if ReachesCycle(Nested(ss), name) { CycleHasEndlessChain(Nested(ss), name, limit); }
    assert Nested(ss).Keys == ss.Keys;
    if |ss| <= limit { ChainsAreCycles(Nested(ss), name, limit); }
  }

  function Limit(): (n: nat)
    ensures n == 100
  {
    100
  }

  /**
   * The check refuses exactly the structures with a chain of 100 nested
   * members. So it refuses every nesting that comes back to itself, and with
   * no more than 100 structures it refuses nothing else.
   */
  method IsRecursivelyNested(ss: Structs, name: string) returns (r: bool)
    requires Closed(Nested(ss)) && name in ss
    ensures r <==> HasChain(Nested(ss), name, Limit())
    ensures ReachesCycle(Nested(ss), name) ==> r
    ensures |ss| <= 100 ==> (r <==> ReachesCycle(Nested(ss), name))
  {
    r := IsNestedBeyond(ss, name, Limit());
  }

  /** With more structures than the limit, a long nesting without any cycle is refused as well. */
  lemma LongNestingIsRefused(ss: Structs, w: seq<string>, limit: nat)
    requires Closed(Nested(ss)) && IsWalk(Nested(ss), w) && |w| > limit
    ensures HasChain(Nested(ss), w[0], limit)
  {
    ChainFromWalk(Nested(ss), w);
    ShorterChain(Nested(ss), w[0], |w| - 1, limit);
  }

  // ----- sizes -----

  /** The size of a structure, when the recursion ends within this many structures. */
  function SizeOfStruct(ss: Structs, name: string, depth: nat): Option<nat>
    decreases depth, 2
  {
    if depth == 0 || name !in ss then None
    else
      var own := SizeOfMembers(ss, ss[name].members, 0, depth);
      if own.None? || ss[name].parent.None? then own
      else
        var above := SizeOfStruct(ss, ss[name].parent.value, depth - 1);
        if above.None? then None else Some(own.value + above.value)
  }

  function SizeOfMembers(ss: Structs, ts: seq<MemberType>, i: nat, depth: nat): Option<nat>
    requires depth > 0 && i <= |ts|
    decreases depth, 1, |ts| - i
  {
    if i == |ts| then Some(0)
    else
      var first := SizeOfType(ss, ts[i], depth);
      var rest := SizeOfMembers(ss, ts, i + 1, depth);
      if first.None? || rest.None? then None else Some(first.value + rest.value)
  }

  function SizeOfType(ss: Structs, t: MemberType, depth: nat): Option<nat>
    requires depth > 0
    decreases depth, 0, t
  {
    match t
    case Plain(n) => Some(n)
    case Structure(n) => SizeOfStruct(ss, n, depth - 1)
    case Sized(e, n, header) =>
      var one := SizeOfType(ss, e, depth);
      if one.None? then None else Some(one.value * n + header)
  }

  // ----- what a size counts -----

  /** The single values and array headers a structure is made of, one after the other. */
  function CellsOfStruct(ss: Structs, name: string, depth: nat): seq<nat>
    decreases depth, 2
  {
    if depth == 0 || name !in ss then []
    else
      CellsOfMembers(ss, ss[name].members, 0, depth)
      + if ss[name].parent.Some? then CellsOfStruct(ss, ss[name].parent.value, depth - 1) else []
  }

  function CellsOfMembers(ss: Structs, ts: seq<MemberType>, i: nat, depth: nat): seq<nat>
    requires depth > 0 && i <= |ts|
    decreases depth, 1, |ts| - i
  {
    if i == |ts| then [] else CellsOfType(ss, ts[i], depth) + CellsOfMembers(ss, ts, i + 1, depth)
  }

  /** An array with a length holds its header and so many times its element. */
  function CellsOfType(ss: Structs, t: MemberType, depth: nat): seq<nat>
    requires depth > 0
    decreases depth, 0, t
  {
    match t
    case Plain(n) => [n]
    case Structure(n) => CellsOfStruct(ss, n, depth - 1)
    case Sized(e, n, header) => [header] + Times(CellsOfType(ss, e, depth), n)
  }

  function Times(cells: seq<nat>, n: nat): seq<nat> { if n == 0 then [] else cells + Times(cells, n - 1) }

  function Sum(cells: seq<nat>): nat { if cells == [] then 0 else cells[0] + Sum(cells[1..]) }

  lemma {:induction false} SumConcat(a: seq<nat>, b: seq<nat>)
    ensures Sum(a + b) == Sum(a) + Sum(b)
  {
    if a == [] {
      assert a + b == b;
    } else {
      assert (a + b)[1..] == a[1..] + b;
      SumConcat(a[1..], b);
    }
  }

  lemma {:induction false} SumTimes(cells: seq<nat>, n: nat)
    ensures Sum(Times(cells, n)) == Sum(cells) * n
  {
    if n > 0 {
      SumConcat(cells, Times(cells, n - 1));
      SumTimes(cells, n - 1);
    }
  }

  /** A size counts every value and every array header once. */
  lemma {:induction false} SizeCountsCells(ss: Structs, name: string, depth: nat)
    requires SizeOfStruct(ss, name, depth).Some?
    ensures SizeOfStruct(ss, name, depth).value == Sum(CellsOfStruct(ss, name, depth))
    decreases depth, 2
  {
    var s := ss[name];
    SizesCountCells(ss, s.members, 0, depth);
    if s.parent.Some? {
      SizeCountsCells(ss, s.parent.value, depth - 1);
      SumConcat(CellsOfMembers(ss, s.members, 0, depth), CellsOfStruct(ss, s.parent.value, depth - 1));
    } else {
      SumConcat(CellsOfMembers(ss, s.members, 0, depth), []);
    }
  }

  lemma {:induction false} SizesCountCells(ss: Structs, ts: seq<MemberType>, i: nat, depth: nat)
    requires depth > 0 && i <= |ts| && SizeOfMembers(ss, ts, i, depth).Some?
    ensures SizeOfMembers(ss, ts, i, depth).value == Sum(CellsOfMembers(ss, ts, i, depth))
    decreases depth, 1, |ts| - i
  {
    if i < |ts| {
      TypeSizeCountsCells(ss, ts[i], depth);
      SizesCountCells(ss, ts, i + 1, depth);
      SumConcat(CellsOfType(ss, ts[i], depth), CellsOfMembers(ss, ts, i + 1, depth));
    }
  }

  lemma {:induction false} TypeSizeCountsCells(ss: Structs, t: MemberType, depth: nat)
    requires depth > 0 && SizeOfType(ss, t, depth).Some?
    ensures SizeOfType(ss, t, depth).value == Sum(CellsOfType(ss, t, depth))
    decreases depth, 0, t
  {
    match t
    case Plain(n) => assert [n][1..] == [];
    case Structure(n) => SizeCountsCells(ss, n, depth - 1);
    case Sized(e, n, header) =>
      TypeSizeCountsCells(ss, e, depth);
      SumTimes(CellsOfType(ss, e, depth), n);
      SumConcat([header], Times(CellsOfType(ss, e, depth), n));
      assert [header][1..] == [];
  }

  // ----- when there is a size -----

  ghost predicate Short(g: Graph, x: string, n: nat)
    requires Closed(g)
  {
    x in g && !HasChain(g, x, n)
  }

  /** No chain of n steps starts at any of these structures. */
  ghost predicate AllShort(g: Graph, xs: seq<string>, n: nat)
    requires Closed(g)
  {
    forall i | 0 <= i < |xs| :: Short(g, xs[i], n)
  }

  lemma ShortConcat(g: Graph, xs: seq<string>, ys: seq<string>, n: nat)
    requires Closed(g)
    ensures AllShort(g, xs + ys, n) <==> AllShort(g, xs, n) && AllShort(g, ys, n)
  {
    forall i | 0 <= i < |xs| ensures xs[i] == (xs + ys)[i] {}
    forall i | 0 <= i < |ys| ensures ys[i] == (xs + ys)[|xs| + i] {}
  }

  lemma ShortNext(g: Graph, x: string, n: nat)
    requires Closed(g) && x in g
    ensures HasChain(g, x, n + 1) <==> !AllShort(g, g[x], n)
  {
  }

  lemma OneShort(g: Graph, x: string, n: nat)
    requires Closed(g)
    ensures AllShort(g, [x], n) <==> Short(g, x, n)
  {
    assert [x][0] == x;
  }

  lemma SizeSplits(ss: Structs, name: string, depth: nat)
    requires depth > 0 && name in ss
    ensures SizeOfStruct(ss, name, depth).Some? <==>
      SizeOfMembers(ss, ss[name].members, 0, depth).Some? && ParentHasSize(ss, ss[name], depth - 1)
  {
  }

  predicate ParentHasSize(ss: Structs, s: Struct, depth: nat) {
    s.parent.None? || SizeOfStruct(ss, s.parent.value, depth).Some?
  }

  lemma MembersSplit(ss: Structs, ts: seq<MemberType>, i: nat, depth: nat)
    requires depth > 0 && i < |ts|
    ensures SizeOfMembers(ss, ts, i, depth).Some? <==>
      SizeOfType(ss, ts[i], depth).Some? && SizeOfMembers(ss, ts, i + 1, depth).Some?
  {
  }

  lemma SizeOfArray(ss: Structs, e: MemberType, n: nat, header: nat, depth: nat)
    requires depth > 0
    ensures SizeOfType(ss, Sized(e, n, header), depth).Some? <==> SizeOfType(ss, e, depth).Some?
    ensures Needed(Sized(e, n, header)) == Needed(e)
  {
  }

  lemma SizeOfMember(ss: Structs, name: string, depth: nat)
    requires depth > 0
    ensures SizeOfType(ss, Structure(name), depth) == SizeOfStruct(ss, name, depth - 1)
    ensures Needed(Structure(name)) == [name]
  {
  }

  /** What a structure's size needs, in terms of a graph. */
  ghost predicate Follows(ss: Structs, g: Graph) { forall n :: FollowsAt(ss, g, n) }

  predicate FollowsAt(ss: Structs, g: Graph, n: string) {
    (n in g <==> n in ss) && (n in g ==> g[n] == AllNeeded(ss[n].members, 0) + ParentNeeded(ss[n]))
  }

  lemma GraphFollows(ss: Structs)
    ensures Follows(ss, SizeGraph(ss))
  {
  }

  lemma {:induction false} TypeSizeIff(ss: Structs, g: Graph, t: MemberType, depth: nat)
    requires Closed(g) && Follows(ss, g) && depth > 0
    ensures SizeOfType(ss, t, depth).Some? <==> AllShort(g, Needed(t), depth - 1)
    decreases depth, 0, t
  {
    match t
    case Plain(_) =>
    case Structure(name) =>
      SizeOfMember(ss, name, depth);
      OneShort(g, name, depth - 1);
      StructSizeWhenKnown(ss, g, name, depth - 1);
    case Sized(e, n, header) =>
      SizeOfArray(ss, e, n, header, depth);
      TypeSizeIff(ss, g, e, depth);
  }

  lemma {:induction false} StructSizeWhenKnown(ss: Structs, g: Graph, name: string, depth: nat)
    requires Closed(g) && Follows(ss, g)
    ensures SizeOfStruct(ss, name, depth).Some? <==> Short(g, name, depth)
    decreases depth, 3
  {
    assert FollowsAt(ss, g, name);
    if name in ss { StructSizeIff(ss, g, name, depth); }
  }

  lemma {:induction false} MembersSizeIff(ss: Structs, g: Graph, ts: seq<MemberType>, i: nat, depth: nat)
    requires Closed(g) && Follows(ss, g) && depth > 0 && i <= |ts|
    ensures SizeOfMembers(ss, ts, i, depth).Some? <==> AllShort(g, AllNeeded(ts, i), depth - 1)
    decreases depth, 1, |ts| - i
  {
    if i < |ts| {
      MembersSplit(ss, ts, i, depth);
      TypeSizeIff(ss, g, ts[i], depth);
      MembersSizeIff(ss, g, ts, i + 1, depth);
      ShortConcat(g, Needed(ts[i]), AllNeeded(ts, i + 1), depth - 1);
    }
  }

  function ParentNeeded(s: Struct): seq<string> { if s.parent.Some? then [s.parent.value] else [] }

  lemma {:induction false} ParentSizeIff(ss: Structs, g: Graph, s: Struct, depth: nat)
    requires Closed(g) && Follows(ss, g)
    ensures ParentHasSize(ss, s, depth) <==> AllShort(g, ParentNeeded(s), depth)
    decreases depth, 4
  {
    if s.parent.Some? {
      OneShort(g, s.parent.value, depth);
      StructSizeWhenKnown(ss, g, s.parent.value, depth);
    }
  }

  /** A size comes out within a depth exactly when no chain of size steps is that long. */
  lemma {:induction false} StructSizeIff(ss: Structs, g: Graph, name: string, depth: nat)
    requires Closed(g) && Follows(ss, g) && name in ss && name in g
    ensures SizeOfStruct(ss, name, depth).Some? <==> !HasChain(g, name, depth)
    decreases depth, 2
  {
    assert FollowsAt(ss, g, name);
    if depth > 0 {
      var s := ss[name];
      SizeSplits(ss, name, depth);
      MembersSizeIff(ss, g, s.members, 0, depth);
      ParentSizeIff(ss, g, s, depth - 1);
      ShortConcat(g, AllNeeded(s.members, 0), ParentNeeded(s), depth - 1);
      ShortNext(g, name, depth - 1);
    }
  }

  /** The recursion over sizes ends, for some depth. */
  ghost predicate HasSize(ss: Structs, name: string) { exists d: nat :: SizeOfStruct(ss, name, d).Some? }

  /** Sizes exist exactly when members, array elements and parents never come back. */
  lemma SizeIffNoCycle(ss: Structs, name: string)
    requires Closed(SizeGraph(ss)) && name in ss
    ensures HasSize(ss, name) <==> !ReachesCycle(SizeGraph(ss), name)
  {
    var g := SizeGraph(ss);
    GraphFollows(ss);
    if HasSize(ss, name) {
      var d: nat :| SizeOfStruct(ss, name, d).Some?;
      StructSizeIff(ss, SizeGraph(ss), name, d);
      if ReachesCycle(g, name) { CycleHasEndlessChain(g, name, d); }
    } else {
      var n := |g.Keys|;
      StructSizeIff(ss, SizeGraph(ss), name, n);
      LongChainHasCycle(g, name, n);
    }
  }

  // ----- what the check is worth -----

  /** No parents, and no arrays with a length around structures. */
  ghost predicate MembersOnly(ss: Structs) {
    forall n | n in ss :: ss[n].parent.None? && forall i | 0 <= i < |ss[n].members| :: !ss[n].members[i].Sized?
  }

  lemma {:induction false} SameSuccessors(ts: seq<MemberType>, i: nat)
    requires i <= |ts| && forall k | 0 <= k < |ts| :: !ts[k].Sized?
    ensures AllNeeded(ts, i) == AllDirect(ts, i)
    decreases |ts| - i
  {
    if i < |ts| { SameSuccessors(ts, i + 1); }
  }

  /** Without parents and arrays of structures, a structure the check accepts has a size. */
  lemma AcceptedHasSize(ss: Structs, name: string, limit: nat)
    requires Registered(ss) && name in ss && MembersOnly(ss) && !HasChain(Nested(ss), name, limit)
    ensures HasSize(ss, name) && SizeOfStruct(ss, name, limit).Some?
  {
    forall n | n in ss ensures SizeGraph(ss)[n] == Nested(ss)[n] { SameSuccessors(ss[n].members, 0); }
    assert SizeGraph(ss) == Nested(ss);
    GraphFollows(ss);
    StructSizeIff(ss, SizeGraph(ss), name, limit);
  }

  lemma OneMember(t: MemberType)
    ensures AllDirect([t], 0) == Direct(t) && AllNeeded([t], 0) == Needed(t)
  {
    assert AllDirect([t], 1) == [] && AllNeeded([t], 1) == [];
    assert Direct(t) + [] == Direct(t) && Needed(t) + [] == Needed(t);
  }

  lemma BackToItself(g: Graph, x: string, y: string)
    requires x in g && y in g && g[x] == [y] && g[y] == [x]
    ensures ReachesCycle(g, x)
  {
    var w := [x, y, x];
    assert y in g[x] && x in g[y];
    assert IsWalk(g, w) && w[0] == w[2] && Repeats(w);
  }

  /** A structure holding an array of itself passes the check, and has no size. */
  lemma ArrayOfItselfIsAccepted(name: string, length: nat, header: nat, limit: nat)
    requires limit > 0
    ensures var ss := map[name := Struct([Sized(Structure(name), length, header)], None)];
      Registered(ss) && !HasChain(Nested(ss), name, limit) && !HasSize(ss, name)
  {
    var member := Sized(Structure(name), length, header);
    var ss := map[name := Struct([member], None)];
    OneMember(member);
    assert Needed(Structure(name)) == [name];
    assert Nested(ss)[name] == [] && SizeGraph(ss)[name] == [name];
    BackToItself(SizeGraph(ss), name, name);
    SizeIffNoCycle(ss, name);
  }

  /** So does a structure that inherits from one it is a member of. */
  lemma MemberOfItsParentIsAccepted(name: string, parent: string, limit: nat)
    requires limit > 1 && name != parent
    ensures var ss := map[name := Struct([], Some(parent)), parent := Struct([Structure(name)], None)];
      Registered(ss) && !HasChain(Nested(ss), name, limit) && !HasChain(Nested(ss), parent, limit) && !HasSize(ss, name)
  {
    var child, owner := Struct([], Some(parent)), Struct([Structure(name)], None);
    var ss := map[name := child, parent := owner];
    OneMember(Structure(name));
    var g, h := Nested(ss), SizeGraph(ss);
    assert g[name] == [] && g[parent] == [name];
    assert h[name] == [parent] && h[parent] == [name];
    assert Closed(g) && Closed(h);
    BackToItself(h, name, parent);
    SizeIffNoCycle(ss, name);
    assert !HasChain(g, name, limit - 1) && !HasChain(g, name, limit);
  }
}
