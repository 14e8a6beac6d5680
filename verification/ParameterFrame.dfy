/** The parameters of a function: offsets that stay packed while parameters come and go. */
module ParameterFrame {

  datatype Position = Parameter(offset: int) | Elsewhere

  datatype Variable = Variable(size: nat, position: Position)

  /** A parameter that is still there, in order of insertion, and where it sits. */
  datatype Param = Param(name: string, size: nat, offset: int)

  predicate DistinctNames(ps: seq<Param>) { forall i, j | 0 <= i < j < |ps| :: ps[i].name != ps[j].name }

  /** Each parameter starts where the one before it ends, the first one at the base. */
  predicate Tiled(base: int, ps: seq<Param>) {
    && (ps != [] ==> ps[0].offset == base)
    && (forall i | 0 <= i < |ps| - 1 :: ps[i].offset + ps[i].size == ps[i + 1].offset)
  }

  function End(base: int, ps: seq<Param>): int {
    if ps == [] then base else ps[|ps| - 1].offset + ps[|ps| - 1].size
  }

  /** The parameters without one of them; the later ones have moved down by its size. */
  function Without(ps: seq<Param>, k: nat): (qs: seq<Param>)
    requires k < |ps|
    ensures |qs| == |ps| - 1
  {
    seq(|ps| - 1, i requires 0 <= i < |ps| - 1 =>
      if i < k then ps[i] else ps[i + 1].(offset := ps[i + 1].offset - ps[k].size))
  }

  lemma {:induction false} Ascends(base: int, ps: seq<Param>, i: nat, j: nat)
    requires Tiled(base, ps) && i < j < |ps|
    ensures ps[i].offset + ps[i].size <= ps[j].offset
    decreases j - i
  {
    if i + 1 < j {
      Ascends(base, ps, i + 1, j);
      assert ps[i].offset + ps[i].size == ps[i + 1].offset;
    }
  }

  lemma WithoutIsTiled(base: int, ps: seq<Param>, k: nat)
    requires Tiled(base, ps) && k < |ps|
    ensures Tiled(base, Without(ps, k)) && End(base, Without(ps, k)) == End(base, ps) - ps[k].size
  {
    assert k > 0 ==> ps[k - 1].offset + ps[k - 1].size == ps[k - 1 + 1].offset;
    assert k + 1 < |ps| ==> ps[k].offset + ps[k].size == ps[k + 1].offset;
  }

  /** The size of the first n parameters. */
  function Sum(ps: seq<Param>, n: nat): nat
    requires n <= |ps|
  {
    if n == 0 then 0 else Sum(ps, n - 1) + ps[n - 1].size
  }

  /** An offset is the base plus the sizes of the parameters inserted earlier and still there. */
  lemma {:induction false} OffsetIsSum(base: int, ps: seq<Param>, n: nat)
    requires Tiled(base, ps) && n <= |ps|
    ensures n < |ps| ==> ps[n].offset == base + Sum(ps, n)
    ensures n == |ps| ==> End(base, ps) == base + Sum(ps, n)
    decreases n
  {
    if n > 0 {
      OffsetIsSum(base, ps, n - 1);
      assert n < |ps| ==> ps[n - 1].offset + ps[n - 1].size == ps[n - 1 + 1].offset;
    }
  }

  // ----- the table of variables -----

  /** A parameter sits in the table where it should. */
  predicate At(vs: map<string, Variable>, p: Param) {
    p.name in vs && vs[p.name] == Variable(p.size, Parameter(p.offset))
  }

  predicate AllAt(vs: map<string, Variable>, ps: seq<Param>) { forall i | 0 <= i < |ps| :: At(vs, ps[i]) }

  ghost predicate Listed(ps: seq<Param>, name: string) { exists i | 0 <= i < |ps| :: ps[i].name == name }

  ghost predicate AllListed(vs: map<string, Variable>, ps: seq<Param>) {
    forall n | n in vs && vs[n].position.Parameter? :: Listed(ps, n)
  }

  /** The parameters of the table are exactly these, packed from the base in this order. */
  ghost predicate Packed(base: int, vs: map<string, Variable>, ps: seq<Param>) {
    Tiled(base, ps) && DistinctNames(ps) && AllAt(vs, ps) && AllListed(vs, ps)
  }

  lemma AddedStaysPacked(base: int, vs: map<string, Variable>, ps: seq<Param>, name: string, size: nat)
    requires Packed(base, vs, ps) && name !in vs
    ensures Packed(base, vs[name := Variable(size, Parameter(End(base, ps)))], ps + [Param(name, size, End(base, ps))])
  {
    var p := Param(name, size, End(base, ps));
    var ws, qs := vs[name := Variable(size, Parameter(End(base, ps)))], ps + [p];
    forall i | 0 <= i < |ps| ensures At(ws, ps[i]) && ps[i].name != name { assert At(vs, ps[i]); }
    forall n | n in ws && ws[n].position.Parameter? ensures Listed(qs, n) { AddedListed(vs, ps, p, n); }
  }

  lemma AddedListed(vs: map<string, Variable>, ps: seq<Param>, p: Param, n: string)
    requires AllListed(vs, ps) && (n == p.name || (n in vs && vs[n].position.Parameter?))
    ensures Listed(ps + [p], n)
  {
    if n == p.name {
      assert (ps + [p])[|ps|].name == n;
    } else {
      var i :| 0 <= i < |ps| && ps[i].name == n;
      assert (ps + [p])[i].name == n;
    }
  }

  /** What the loop over the variables does to one of them. */
  function Shifted(v: Variable, offset: int, size: nat): Variable {
    if v.position.Parameter? && v.position.offset > offset
    then v.(position := Parameter(v.position.offset - size))
    else v
  }

  function ShiftedAll(vs: map<string, Variable>, offset: int, size: nat): (ws: map<string, Variable>)
    ensures ws.Keys == vs.Keys
    ensures forall n | n in vs && vs[n].position.Elsewhere? :: ws[n] == vs[n]
  {
    map n | n in vs :: Shifted(vs[n], offset, size)
  }

  lemma RestIsAt(base: int, vs: map<string, Variable>, ps: seq<Param>, k: nat)
    requires Tiled(base, ps) && DistinctNames(ps) && AllAt(vs, ps) && k < |ps|
    ensures AllAt(ShiftedAll(vs - {ps[k].name}, ps[k].offset, ps[k].size), Without(ps, k))
  {
    var ws, qs := ShiftedAll(vs - {ps[k].name}, ps[k].offset, ps[k].size), Without(ps, k);
    forall i: nat | i < |qs| ensures At(ws, qs[i]) {
      if i < k {
        Ascends(base, ps, i, k);
        assert At(vs, ps[i]) && ps[i].name != ps[k].name && qs[i] == ps[i];
      } else {
        Ascends(base, ps, k, i + 1);
        assert At(vs, ps[i + 1]) && ps[i + 1].name != ps[k].name;
      }
    }
  }

  lemma RestIsListed(vs: map<string, Variable>, ps: seq<Param>, k: nat)
    requires AllListed(vs, ps) && k < |ps|
    ensures AllListed(ShiftedAll(vs - {ps[k].name}, ps[k].offset, ps[k].size), Without(ps, k))
  {
    var ws := ShiftedAll(vs - {ps[k].name}, ps[k].offset, ps[k].size);
    forall n | n in ws && ws[n].position.Parameter? ensures Listed(Without(ps, k), n) {
      assert n in vs && vs[n].position.Parameter?;
      var j :| 0 <= j < |ps| && ps[j].name == n;
      var i := if j < k then j else j - 1;
      assert Without(ps, k)[i].name == n;
    }
  }

  lemma RestIsDistinct(ps: seq<Param>, k: nat)
    requires DistinctNames(ps) && k < |ps|
    ensures DistinctNames(Without(ps, k))
  {
  }

  /** Moving down by the size of a removed parameter whatever lies above it closes its gap, and no other. */
  lemma RemovedStaysPacked(base: int, vs: map<string, Variable>, ps: seq<Param>, k: nat)
    requires Packed(base, vs, ps) && k < |ps|
    ensures Packed(base, ShiftedAll(vs - {ps[k].name}, ps[k].offset, ps[k].size), Without(ps, k))
  {
    WithoutIsTiled(base, ps, k);
    RestIsDistinct(ps, k);
    RestIsAt(base, vs, ps, k);
    RestIsListed(vs, ps, k);
  }

  class FunctionContext {
    const base: nat
    var currentParameter: int
    var variables: map<string, Variable>
    ghost var params: seq<Param>

    /** The return address, and the saved frame pointer unless it is omitted. */
    constructor (word: nat, omitFramePointer: bool)
      ensures Valid() && params == [] && base == if omitFramePointer then word else 2 * word
    {
      base := if omitFramePointer then word else 2 * word;
      currentParameter := if omitFramePointer then word else 2 * word;
      variables := map[];
      params := [];
    }

    ghost predicate Valid()
      reads this
    {
      Packed(base, variables, params) && currentParameter == End(base, params)
    }

    method AddParameter(name: string, size: nat)
      requires Valid() && name !in variables
      modifies this
      ensures Valid() && params == old(params) + [Param(name, size, old(currentParameter))]
      ensures name in variables && variables == old(variables)[name := variables[name]]
    {
      AddedStaysPacked(base, variables, params, name, size);
      params := params + [Param(name, size, currentParameter)];
      variables := variables[name := Variable(size, Parameter(currentParameter))];
      currentParameter := currentParameter + size;
    }

    /** The loop over all variables, in whatever order the table yields them. */
    method Shift(offset: int, size: nat)
      modifies this`variables
      ensures variables == ShiftedAll(old(variables), offset, size)
    {
      var todo := variables.Keys;
      while todo != {}
        invariant variables.Keys == old(variables).Keys && todo <= variables.Keys
        invariant forall n | n in variables ::
          variables[n] == if n in todo then old(variables)[n] else Shifted(old(variables)[n], offset, size)
      {
        var n :| n in todo;
        todo := todo - {n};
        var v := variables[n];
        if v.position.Parameter? {
          if v.position.offset > offset {
            variables := variables[n := v.(position := Parameter(v.position.offset - size))];
          }
        }
      }
    }

    /** Removing a parameter: the others stay packed, in the same order, and other variables stay where they are. */
    method RemoveParameter(name: string, ghost k: nat)
      requires Valid() && k < |params| && params[k].name == name
      modifies this
      ensures Valid() && params == Without(old(params), k)
      ensures variables.Keys == old(variables).Keys - {name}
      ensures forall n | n in variables && old(variables)[n].position.Elsewhere? :: variables[n] == old(variables)[n]
    {
      assert At(variables, params[k]);
      RemovedStaysPacked(base, variables, params, k);
      WithoutIsTiled(base, params, k);
      var v := variables[name];
      variables := variables - {name};
      Shift(v.position.offset, v.size);
      currentParameter := currentParameter - v.size;
      params := Without(params, k);
    }
  }
}
