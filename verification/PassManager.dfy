/** The pass manager and the template engine: passes that instantiate templates while they run. */
module PassManager {
  import opened Common
  import opened Instances

  /** What a pass asks for while it visits a unit; `Reject` is a semantic error. */
  datatype Request =
    | FunctionOf(context: string, name: string, args: seq<string>)
    | ClassOf(name: string, args: seq<string>)
    | Reject

  /**
   * What the passes do, as far as the pass manager can tell, and in what order
   * the table of class templates lists its entries.
   */
  datatype World = World(
    asks: (nat, Id, seq<Block>) -> seq<Request>,
    refuses: (nat, seq<Block>) -> bool,
    isSimple: nat -> bool,
    mangle: (string, seq<string>) -> string,
    entries: seq<Block> -> seq<Class>,
    limit: nat)

  /** Whether these functions hold a template of this name and number of parameters. */
  predicate HasTemplate(fs: seq<Function>, name: string, arity: nat) {
    exists i | 0 <= i < |fs| :: fs[i].arity > 0 && fs[i].name == name && fs[i].arity == arity
  }

  /** The search for it. */
  method FindTemplate(fs: seq<Function>, name: string, arity: nat) returns (found: bool)
    ensures found <==> HasTemplate(fs, name, arity)
  {
    for i := 0 to |fs|
      invariant forall j | 0 <= j < i :: !(fs[j].arity > 0 && fs[j].name == name && fs[j].arity == arity)
    {
      if fs[i].arity > 0 && fs[i].name == name && fs[i].arity == arity { return true; }
    }
    found := false;
  }

  predicate HasFreeTemplate(bs: seq<Block>, name: string, arity: nat) {
    exists i | 0 <= i < |bs| :: bs[i].Free? && bs[i].f.arity > 0 && bs[i].f.name == name && bs[i].f.arity == arity
  }

  method FindFreeTemplate(bs: seq<Block>, name: string, arity: nat) returns (found: bool)
    ensures found <==> HasFreeTemplate(bs, name, arity)
  {
    for i := 0 to |bs|
      invariant forall j | 0 <= j < i ::
        !(bs[j].Free? && bs[j].f.arity > 0 && bs[j].f.name == name && bs[j].f.arity == arity)
    {
      if bs[i].Free? && bs[i].f.arity > 0 && bs[i].f.name == name && bs[i].f.arity == arity { return true; }
    }
    found := false;
  }

  // ----- looking a class template up -----

  /** The first entry of a name in the table of class templates. */
  function FirstNamed(es: seq<Class>, name: string, from: nat): (r: Option<nat>)
    requires from <= |es|
    ensures r.Some? ==> from <= r.value < |es| && es[r.value].name == name
    ensures r.Some? ==> forall i | from <= i < r.value :: es[i].name != name
    ensures r.None? ==> forall i | from <= i < |es| :: es[i].name != name
    decreases |es| - from
  {
    if from == |es| then None else if es[from].name == name then Some(from) else FirstNamed(es, name, from + 1)
  }

  /** The first entry with so many parameters, whatever its name. */
  function FirstFitting(es: seq<Class>, arity: nat, from: nat): (r: Option<nat>)
    requires from <= |es|
    ensures r.Some? ==> from <= r.value < |es| && es[r.value].arity == arity
    ensures r.Some? ==> forall i | from <= i < r.value :: es[i].arity != arity
    ensures r.None? ==> forall i | from <= i < |es| :: es[i].arity != arity
    decreases |es| - from
  {
    if from == |es| then None else if es[from].arity == arity then Some(from) else FirstFitting(es, arity, from + 1)
  }

  /**
   * The entry a request is instantiated from: the walk starts at the first
   * entry of the name, and goes on to the end of the table.
   */
  function Walk(es: seq<Class>, name: string, arity: nat): (r: Option<nat>)
    ensures r.Some? ==> r.value < |es| && es[r.value].arity == arity
  {
    var first := FirstNamed(es, name, 0);
    if first.None? then None else FirstFitting(es, arity, first.value)
  }

  /** Entries of one name stand together, as in a hash table; the order is arbitrary otherwise. */
  ghost predicate Grouped(es: seq<Class>) {
    forall i, j, k | 0 <= i < j < k < |es| && es[i].name == es[k].name :: es[j].name == es[i].name
  }

  predicate HasEntry(es: seq<Class>, name: string, arity: nat) {
    exists i | 0 <= i < |es| :: es[i].name == name && es[i].arity == arity
  }

  /** The walk ends at an entry of the requested name exactly when there is one with the right number of parameters. */
  lemma WalkStaysHome(es: seq<Class>, name: string, arity: nat)
    requires Grouped(es)
    ensures HasEntry(es, name, arity) <==> Walk(es, name, arity).Some? && es[Walk(es, name, arity).value].name == name
  {
    if i :| 0 <= i < |es| && es[i].name == name && es[i].arity == arity {
      var first, found := FirstNamed(es, name, 0).value, FirstFitting(es, arity, FirstNamed(es, name, 0).value).value;
      assert first <= found <= i;
      if first < found < i { assert es[first].name == es[i].name; }
    }
  }

  lemma {:induction false} SkipsUnfitting(es: seq<Class>, arity: nat, from: nat, to: nat)
    requires from <= to <= |es|
    ensures FirstFitting(es, arity, from) == FirstFitting(es, arity, to) <==> NoneFits(es, arity, from, to)
    decreases |es| - from
  {
    if from < to { SkipsUnfitting(es, arity, from + 1, to); }
  }

  predicate NoneFits(es: seq<Class>, arity: nat, from: nat, to: nat) {
    forall i | from <= i < to && i < |es| :: es[i].arity != arity
  }

  /**
   * Two names reach the same entry exactly when no entry fits from the first
   * entry of the one name up to the first of the other: their keys then mean
   * one class, which the memo allows to be instantiated twice with the same
   * arguments.
   */
  lemma WalksMeet(es: seq<Class>, name: string, other: string, arity: nat)
    requires FirstNamed(es, name, 0).Some? && FirstNamed(es, other, 0).Some?
    ensures
      var p, q := FirstNamed(es, name, 0).value, FirstNamed(es, other, 0).value;
      Walk(es, name, arity) == Walk(es, other, arity) <==> NoneFits(es, arity, p, q) && NoneFits(es, arity, q, p)
  {
    var p, q := FirstNamed(es, name, 0).value, FirstNamed(es, other, 0).value;
    if p <= q { SkipsUnfitting(es, arity, p, q); } else { SkipsUnfitting(es, arity, q, p); }
  }

  /** Requests that have an entry of their own never meet at one: there different keys mean different classes. */
  lemma KeysMeanClasses(es: seq<Class>, name: string, other: string, arity: nat)
    requires Grouped(es) && name != other && HasEntry(es, name, arity) && HasEntry(es, other, arity)
    ensures Walk(es, name, arity) != Walk(es, other, arity)
  {
    WalkStaysHome(es, name, arity);
    WalkStaysHome(es, other, arity);
  }

  /** A table in which they meet: the one name has no entry that fits and stands in front of the other. */
  lemma OneClassTwoKeys(a: Class, b: Class, arity: nat)
    requires a.name != b.name && a.arity != arity && b.arity == arity
    ensures Grouped([a, b])
    ensures Walk([a, b], a.name, arity) == Walk([a, b], b.name, arity) == Some(1)
  {
    var es := [a, b];
    assert FirstNamed(es, b.name, 1) == Some(1);
    WalksMeet(es, a.name, b.name, arity);
  }

  /** The instance of a class template; it bears the template's own name. */
  function InstanceOf(w: World, template: Class, key: Id, args: seq<string>): (c: Class)
    ensures c.id == key
  {
    Class(key, template.name, w.mangle(template.name, args), 0, Members(template.members, key))
  }

  /**
   * What an instance of a class template is: it bears the template's name and
   * the mangled name of that name with the arguments, is no template, and has
   * a copy of every member, which belongs to the new key.
   */
  ghost predicate Instantiates(w: World, template: Class, key: Id, args: seq<string>, c: Class) {
    && c.id == key && c.name == template.name && c.mangled == w.mangle(template.name, args) && c.arity == 0
    && |c.members| == |template.members|
    && forall k | 0 <= k < |c.members| ::
      && c.members[k].id == MemberOf(key, k)
      && c.members[k].name == template.members[k].name && c.members[k].arity == template.members[k].arity
  }

  /** A new class and those of its members that are no templates have had these passes. */
  ghost predicate HasCaughtUp(h: History, c: Class, ps: seq<nat>) {
    && Passes(h, c.id) == ps
    && forall k | 0 <= k < |c.members| && c.members[k].arity == 0 :: Passes(h, c.members[k].id) == ps
  }

  lemma BlockHasCaughtUp(h: History, c: Class, ps: seq<nat>)
    requires c.arity == 0 && BlockHas(h, Struct(c), ps)
    ensures HasCaughtUp(h, c, ps)
  {
    var b := Struct(c);
    assert Live(b, 0) && SlotId(b, 0) == c.id;
    forall k | 0 <= k < |c.members| && c.members[k].arity == 0 ensures Passes(h, c.members[k].id) == ps {
      assert Live(b, k + 1) && SlotId(b, k + 1) == c.members[k].id;
    }
  }

  /** Whether there is a function template to instantiate for a request. */
  predicate HasFunctionTemplate(bs: seq<Block>, context: string, name: string, arity: nat) {
    if context == "" then HasFreeTemplate(bs, name, arity)
    else
      var found := FirstClass(bs, context, 0);
      found.Some? && HasTemplate(bs[found.value].c.members, name, arity)
  }

  /**
   * A request that was granted: there was a template for it, and its instance
   * has been made. A name without any entry left that fits is passed over in
   * silence.
   */
  predicate Served(w: World, bs: seq<Block>, r: Request, made: set<Id>) {
    match r
    case Reject => false
    case FunctionOf(context, name, args) =>
      HasFunctionTemplate(bs, context, name, |args|) && FunctionInstance(context, name, args) in made
    case ClassOf(name, args) =>
      && FirstNamed(w.entries(bs), name, 0).Some?
      && (Walk(w.entries(bs), name, |args|).Some? ==> ClassInstance(name, args) in made)
  }

  /** A request that must fail: an error, or nothing to instantiate. */
  predicate Unserved(w: World, bs: seq<Block>, r: Request) {
    match r
    case Reject => true
    case FunctionOf(context, name, args) => !HasFunctionTemplate(bs, context, name, |args|)
    case ClassOf(name, _) => forall i | 0 <= i < |w.entries(bs)| :: w.entries(bs)[i].name != name
  }

  /** The memo entry of a request. */
  function KeyOf(r: Request): Option<Id> {
    match r
    case Reject => None
    case FunctionOf(context, name, args) => Some(FunctionInstance(context, name, args))
    case ClassOf(name, args) => Some(ClassInstance(name, args))
  }

  /** Some pass over some unit makes the request. */
  ghost predicate Asked(w: World, r: Request) { exists p, id, bs :: r in w.asks(p, id, bs) }

  ghost predicate Wanted(w: World, key: Id) { exists r :: Asked(w, r) && KeyOf(r) == Some(key) }

  // ----- why a run can fail -----

  /** None of the first n passes refuses the program. */
  predicate AcceptedUpTo(w: World, ps: seq<nat>, bs: seq<Block>, n: nat) {
    forall j | 0 <= j < n && j < |ps| :: !w.refuses(ps[j], bs)
  }

  predicate Accepted(w: World, ps: seq<nat>, bs: seq<Block>) { AcceptedUpTo(w, ps, bs, |ps|) }

  lemma AcceptedNext(w: World, ps: seq<nat>, bs: seq<Block>, n: nat)
    requires n < |ps| && AcceptedUpTo(w, ps, bs, n) && !w.refuses(ps[n], bs)
    ensures AcceptedUpTo(w, ps, bs, n + 1)
  {
  }

  ghost predicate Refusal(w: World, ps: seq<nat>, bs: seq<Block>) { exists p | p in ps :: w.refuses(p, bs) }

  ghost predicate Rejects(w: World, ps: seq<nat>, bs: seq<Block>, made: set<Id>, p: nat, id: Id, r: Request) {
    p in ps && Rooted(id, made) && r in w.asks(p, id, bs) && Unserved(w, bs, r)
  }

  ghost predicate Rejection(w: World, ps: seq<nat>, bs: seq<Block>, made: set<Id>) {
    exists p, id, r :: Rejects(w, ps, bs, made, p, id, r)
  }

  /**
   * A pass refuses the program; or a pass over a unit of it makes a request
   * that must fail; or classes nested beyond the limit; or instantiations
   * nested beyond the stack.
   */
  ghost predicate Blamed(w: World, ps: seq<nat>, s: Snapshot, nested: nat, stack: nat) {
    Refusal(w, ps, s.blocks) || Rejection(w, ps, s.blocks, s.made) || s.depth > w.limit || nested > stack
  }

  lemma BlameStays(w: World, ps: seq<nat>, a: Snapshot, b: Snapshot, t: set<Id>, m: nat, n: nat, stack: nat)
    requires Blamed(w, ps, a, m, stack) && Grown(a, b, t) && m <= n
    ensures Blamed(w, ps, b, n, stack)
  {
    if Rejection(w, ps, a.blocks, a.made) {
      var p, id, r :| Rejects(w, ps, a.blocks, a.made, p, id, r);
      RootedGrows(id, a.made, b.made);
      assert Rejects(w, ps, b.blocks, b.made, p, id, r);
    }
  }

  lemma BlameWidens(w: World, ps: seq<nat>, qs: seq<nat>, s: Snapshot, nested: nat, stack: nat)
    requires Blamed(w, ps, s, nested, stack) && forall p | p in ps :: p in qs
    ensures Blamed(w, qs, s, nested, stack)
  {
    if Rejection(w, ps, s.blocks, s.made) {
      var p, id, r :| Rejects(w, ps, s.blocks, s.made, p, id, r);
      assert Rejects(w, qs, s.blocks, s.made, p, id, r);
    }
  }

  // ----- runs that must succeed -----

  predicate Harmless(w: World, bs: seq<Block>, r: Request, keys: set<Id>) {
    !Unserved(w, bs, r) && KeyOf(r).value in keys
  }

  /** Nothing is refused, no request must fail, and all requests are for these keys. */
  ghost predicate Tame(w: World, keys: set<Id>) {
    && (forall p, bs :: !w.refuses(p, bs))
    && (forall p, id, bs, r | r in w.asks(p, id, bs) :: Harmless(w, bs, r, keys))
  }

  lemma {:induction false} DistinctFit(xs: seq<Id>, keys: set<Id>)
    requires (forall i | 0 <= i < |xs| :: xs[i] in keys) && forall i, j | 0 <= i < j < |xs| :: xs[i] != xs[j]
    ensures |xs| <= |keys|
  {
    if xs != [] {
      forall i | 0 <= i < |xs[1..]| ensures xs[1..][i] in keys - {xs[0]} { assert xs[1..][i] == xs[i + 1]; }
      DistinctFit(xs[1..], keys - {xs[0]});
    }
  }

  /** In a tame world no more instances are made than there are keys, so no run is to blame. */
  lemma TameIsBlameless(w: World, keys: set<Id>, ps: seq<nat>, s: Snapshot, nested: nat, stack: nat)
    requires Tame(w, keys) && |keys| <= stack && |keys| <= w.limit
    requires Sound(s) && s.depth <= |s.created| && nested <= |s.created| && forall key | key in s.made :: Wanted(w, key)
    ensures !Blamed(w, ps, s, nested, stack)
  {
    forall i | 0 <= i < |s.created| ensures s.created[i] in keys {
      var r :| Asked(w, r) && KeyOf(r) == Some(s.created[i]);
      var p, id, bs :| r in w.asks(p, id, bs);
    }
    DistinctFit(s.created, keys);
    forall p, id, r | r in w.asks(p, id, s.blocks) ensures !Unserved(w, s.blocks, r) {
      assert Harmless(w, s.blocks, r, keys);
    }
    assert !Rejection(w, ps, s.blocks, s.made);
  }

  predicate AllServed(w: World, bs: seq<Block>, requests: seq<Request>, made: set<Id>, n: nat) {
    forall k | 0 <= k < n && k < |requests| :: Served(w, bs, requests[k], made)
  }

  lemma ServedNext(w: World, bs: seq<Block>, requests: seq<Request>, made: set<Id>, more: set<Id>, n: nat)
    requires n < |requests| && AllServed(w, bs, requests, made, n) && made <= more && Served(w, bs, requests[n], more)
    ensures AllServed(w, bs, requests, more, n + 1)
  {
    forall k | 0 <= k < n ensures Served(w, bs, requests[k], more) { assert Served(w, bs, requests[k], made); }
  }

  /** Every function, structure and member that is no template, nor in one, has had these passes. */
  ghost predicate EachHas(h: History, bs: seq<Block>, ps: seq<nat>) {
    && (forall i | 0 <= i < |bs| && bs[i].Free? && bs[i].f.arity == 0 :: Passes(h, bs[i].f.id) == ps)
    && (forall i | 0 <= i < |bs| && bs[i].Struct? && bs[i].c.arity == 0 :: HasCaughtUp(h, bs[i].c, ps))
  }

  lemma EachHasIt(h: History, bs: seq<Block>, ps: seq<nat>)
    requires ProgramHas(h, bs, ps)
    ensures EachHas(h, bs, ps)
  {
    forall i | 0 <= i < |bs| && bs[i].Free? && bs[i].f.arity == 0 ensures Passes(h, bs[i].f.id) == ps {
      assert IsSlot(bs, i, 0) && LiveAt(bs, i, 0) && IdAt(bs, i, 0) == bs[i].f.id;
    }
    forall i | 0 <= i < |bs| && bs[i].Struct? && bs[i].c.arity == 0 ensures HasCaughtUp(h, bs[i].c, ps) {
      assert BlockHas(h, bs[i], ps) by {
        forall k: nat | k < SlotCount(bs[i]) && Live(bs[i], k) ensures Passes(h, SlotId(bs[i], k)) == ps {
          assert IsSlot(bs, i, k) && LiveAt(bs, i, k) && IdAt(bs, i, k) == SlotId(bs[i], k);
        }
      }
      BlockHasCaughtUp(h, bs[i].c, ps);
    }
  }

  /** The passes that are applied unit by unit. */
  function Ordinary(w: World, ps: seq<nat>): seq<nat> {
    if ps == [] then []
    else Ordinary(w, ps[..|ps| - 1]) + (if w.isSimple(ps[|ps| - 1]) then [] else [ps[|ps| - 1]])
  }

  /** A program before its first pass. */
  ghost predicate SourceProgram(bs: seq<Block>) {
    Distinct(bs) && ProgramRooted(bs, {})
  }

  // ----- instances without end -----

  /** The type argument of the k-th instance: a pointer of so many levels. */
  function Argument(k: nat): seq<string> { ["I" + seq(k, _ => '*')] }

  function Deep(k: nat): Id { FunctionInstance("", "f", Argument(k)) }

  /** A function template that calls its own instance for a pointer to its parameter. */
  ghost predicate Endless(w: World) {
    && (forall p: nat, bs :: w.asks(p, Whole, bs) == [FunctionOf("", "f", Argument(0))])
    && (forall p: nat, k: nat, bs :: w.asks(p, Deep(k), bs) == [FunctionOf("", "f", Argument(k + 1))])
  }

  /** Such a world, whatever else the program holds. */
  function EndlessWorld(limit: nat): World {
    World(
      (p, id, bs) =>
        if id == Whole then [FunctionOf("", "f", Argument(0))]
        else if id.FunctionInstance? && |id.args| == 1 then [FunctionOf("", "f", [id.args[0] + "*"])]
        else [],
      (p, bs) => false, p => false, (name, args) => name, bs => [], limit)
  }

  lemma EndlessWorldIsEndless(limit: nat)
    ensures Endless(EndlessWorld(limit))
  {
    forall p: nat, k: nat, bs
      ensures EndlessWorld(limit).asks(p, Deep(k), bs) == [FunctionOf("", "f", Argument(k + 1))]
    {
      assert Argument(k)[0] + "*" == Argument(k + 1)[0];
    }
  }

  ghost predicate NoneFrom(made: set<Id>, k: nat) { forall j: nat | j >= k :: Deep(j) !in made }

  /** Instantiating the key asks for ever deeper instances, none of which is there. */
  ghost predicate Doomed(w: World, made: set<Id>, key: Id) {
    Endless(w) && exists k: nat :: key == Deep(k) && NoneFrom(made, k)
  }

  /** So does a pass over this unit. */
  ghost predicate AsksDoomed(w: World, made: set<Id>, id: Id) {
    Endless(w) && ((id == Whole && NoneFrom(made, 0)) || exists k: nat :: id == Deep(k) && NoneFrom(made, k + 1))
  }

  lemma DoomGoesOn(w: World, made: set<Id>, key: Id)
    requires Doomed(w, made, key)
    ensures key !in made && AsksDoomed(w, made + {key}, key)
  {
    var k: nat :| key == Deep(k) && NoneFrom(made, k);
    forall j: nat | j >= k + 1 ensures Deep(j) !in made + {key} {
      assert |Argument(j)[0]| == j + 1 && |Argument(k)[0]| == k + 1;
    }
    assert NoneFrom(made + {key}, k + 1);
  }

  lemma DoomIsAskedFor(w: World, made: set<Id>, p: nat, id: Id, bs: seq<Block>)
    requires AsksDoomed(w, made, id)
    ensures |w.asks(p, id, bs)| == 1 && RequestDoomed(w, made, w.asks(p, id, bs)[0])
  {
    if id == Whole && NoneFrom(made, 0) {
      assert w.asks(p, Whole, bs) == [FunctionOf("", "f", Argument(0))];
      assert Doomed(w, made, Deep(0));
    } else {
      var k: nat :| id == Deep(k) && NoneFrom(made, k + 1);
      assert w.asks(p, Deep(k), bs) == [FunctionOf("", "f", Argument(k + 1))];
      assert Doomed(w, made, Deep(k + 1));
    }
  }

  ghost predicate RequestDoomed(w: World, made: set<Id>, r: Request) {
    r.FunctionOf? && Doomed(w, made, FunctionInstance(r.context, r.name, r.args))
  }

  class PassManager {
    const w: World
    var applied: seq<nat>
    var blocks: seq<Block>
    var classes: seq<Class>
    var functions: seq<(string, Function)>
    var made: set<Id>
    var depth: nat
    ghost var settled: set<Id>
    ghost var created: seq<Id>
    ghost var deepest: nat
    ghost var nested: nat
    ghost var history: History

    ghost function Snap(): Snapshot
      reads this
    {
      Snapshot(applied, blocks, classes, functions, made, settled, created, depth, history)
    }

    ghost predicate Valid()
      reads this
    {
      Sound(Snap()) && Accounted()
    }

    /** No instance is made unasked, and neither classes nor instantiations nest deeper than there are instances. */
    ghost predicate Accounted()
      reads `created, `made, `depth, `deepest, `nested
    {
      && deepest <= w.limit && depth <= |created| && nested <= |created|
      && forall key | key in made :: Wanted(w, key)
    }

    constructor (world: World, program: seq<Block>)
      requires SourceProgram(program)
      ensures Between(Snap()) && Valid() && w == world && blocks == program && applied == [] && created == []
      ensures made == {} && depth == 0 && nested == 0
    {
      w := world;
      applied, blocks, classes, functions := [], program, [], [];
      made, depth := {}, 0;
      settled, created, deepest, nested, history := {}, [], 0, 0, map[];
    }

    /** One pass on one unit, with the instantiations it asks for on the way. */
    method Apply(p: nat, id: Id, stack: nat, ghost open: nat, ghost level: nat) returns (ok: bool)
      requires Valid() && Rooted(id, made) && open <= depth && level <= |created| && p in applied
      modifies this
      ensures Valid() && Grown(old(Snap()), Snap(), {id})
      ensures Passes(history, id) == Passes(old(history), id) + [p]
      ensures ok ==> Settles(old(Snap()), Snap())
      ensures ok ==> AllServed(w, blocks, w.asks(p, id, blocks), made, |w.asks(p, id, blocks)|)
      ensures !ok ==> Blamed(w, applied, Snap(), nested, level + stack)
      ensures nested >= old(nested)
      ensures applied != [] && AsksDoomed(w, old(made), id) ==> !ok && depth == old(depth)
      decreases stack, 5
    {
      ghost var a := Snap();
      if AsksDoomed(w, made, id) { DoomIsAskedFor(w, made, p, id, blocks); }
      Recorded(a, id, p);
      history := history[id := Passes(history, id) + [p]];
      ghost var passes := Passes(history, id);
      var requests := w.asks(p, id, blocks);
      ok := true;
      for k := 0 to |requests|
        invariant Valid() && open <= depth && level <= |created|
        invariant Grown(a, Snap(), {id}) && Settles(a, Snap()) && Passes(history, id) == passes
        invariant AllServed(w, blocks, requests, made, k) && nested >= old(nested)
        invariant k == 0 ==> made == a.made && depth == a.depth
        invariant applied != [] && AsksDoomed(w, a.made, id) ==> k == 0
      {
        ghost var b := Snap();
        RootedGrows(id, a.made, made);
        assert Asked(w, requests[k]);
        ok := Serve(requests[k], stack, open, level);
        GrownTransitive(a, b, Snap(), {id}, {});
        if !ok {
          RootedGrows(id, b.made, made);
          if Unserved(w, blocks, requests[k]) { assert Rejects(w, applied, blocks, made, p, id, requests[k]); }
          return;
        }
        SettlesTransitive(a, b, Snap(), {id}, {});
        ServedNext(w, blocks, requests, b.made, made, k);
      }
    }

    method Serve(r: Request, stack: nat, ghost open: nat, ghost level: nat) returns (ok: bool)
      requires Valid() && open <= depth && level <= |created| && Asked(w, r)
      modifies this
      ensures Valid() && Grown(old(Snap()), Snap(), {})
      ensures ok ==> Settles(old(Snap()), Snap()) && Served(w, blocks, r, made)
      ensures applied != [] && RequestDoomed(w, old(made), r) ==> !ok && depth == old(depth)
      ensures !ok ==> Unserved(w, blocks, r) || Blamed(w, applied, Snap(), nested, level + stack)
      ensures nested >= old(nested)
      ensures KeyOf(r).Some? && KeyOf(r).value in old(made) && !Unserved(w, blocks, r) ==>
        ok && Snap() == old(Snap()) && nested == old(nested) && deepest == old(deepest)
      decreases stack, 4
    {
      match r
      case Reject => ok := false;
      case FunctionOf(context, name, args) => ok := CheckFunction(context, name, args, stack, open, level);
      case ClassOf(name, args) => ok := CheckType(name, args, stack, open, level);
    }

    method CheckFunction(
      context: string, name: string, args: seq<string>, stack: nat, ghost open: nat, ghost level: nat)
      returns (ok: bool)
      requires Valid() && open <= depth && level <= |created| && Asked(w, FunctionOf(context, name, args))
      modifies this
      ensures Valid() && Grown(old(Snap()), Snap(), {})
      ensures ok ==> Settles(old(Snap()), Snap()) && Served(w, blocks, FunctionOf(context, name, args), made)
      ensures applied != [] && Doomed(w, old(made), FunctionInstance(context, name, args)) ==>
        !ok && depth == old(depth)
      ensures !ok ==>
        Unserved(w, blocks, FunctionOf(context, name, args)) || Blamed(w, applied, Snap(), nested, level + stack)
      ensures nested >= old(nested)
      ensures
        KeyOf(FunctionOf(context, name, args)).value in old(made)
        && !Unserved(w, blocks, FunctionOf(context, name, args)) ==>
        ok && Snap() == old(Snap()) && nested == old(nested) && deepest == old(deepest)
      decreases stack, 3
    {
      if context == "" {
        ok := FindFreeTemplate(blocks, name, |args|);
      } else {
        var found := FirstClass(blocks, context, 0);
        ok := false;
        if found.Some? {
          ok := FindTemplate(blocks[found.value].c.members, name, |args|);
        }
      }
      if ok {
        assert KeyOf(FunctionOf(context, name, args)) == Some(FunctionInstance(context, name, args));
        ok := InstantiateFunction(context, name, args, stack, open, level);
      }
    }

    method InstantiateFunction(
      context: string, name: string, args: seq<string>, stack: nat, ghost open: nat, ghost level: nat)
      returns (ok: bool)
      requires Valid() && open <= depth && level <= |created| && (context != "" ==> HasClass(blocks, context))
      requires Wanted(w, FunctionInstance(context, name, args))
      modifies this
      ensures Valid() && Grown(old(Snap()), Snap(), {})
      ensures ok ==> Settles(old(Snap()), Snap())
      ensures ok ==> FunctionInstance(context, name, args) in made
      ensures ok && FunctionInstance(context, name, args) !in old(made) ==>
        && Passes(history, FunctionInstance(context, name, args)) == applied && Accepted(w, applied, blocks)
        && functions != []
        && functions[|functions| - 1] == (context, Function(FunctionInstance(context, name, args), name, 0))
      ensures applied != [] && Doomed(w, old(made), FunctionInstance(context, name, args)) ==>
        !ok && depth == old(depth)
      ensures !ok ==> Blamed(w, applied, Snap(), nested, level + stack)
      ensures nested >= old(nested)
      ensures FunctionInstance(context, name, args) in old(made) ==>
        ok && Snap() == old(Snap()) && nested == old(nested) && deepest == old(deepest)
      decreases stack, 2
    {
      var key := FunctionInstance(context, name, args);
      if Doomed(w, made, key) { DoomGoesOn(w, made, key); }
      if key in made { return true; }
      ghost var before := Snap();
      made := made + {key};
      created := created + [key];
      nested := if level + 1 > nested then level + 1 else nested;
      InsertedSound(before, Snap(), key);
      if stack == 0 {
        GrownFromBefore(before, Snap(), Snap(), key, {});
        return false;
      }
      ok := FunctionInstantiated(Function(key, name, 0), context, stack - 1, open, level + 1, before);
    }

    /** All the passes applied so far, on a function that has had none. */
    method CatchUpFunction(id: Id, stack: nat, ghost open: nat, ghost level: nat) returns (ok: bool)
      requires Valid() && open <= depth && level <= |created| && Rooted(id, made) && Passes(history, id) == []
      modifies this
      ensures Valid() && Grown(old(Snap()), Snap(), {id})
      ensures ok ==> Settles(old(Snap()), Snap()) && Passes(history, id) == applied && Accepted(w, applied, blocks)
      ensures !ok ==> Blamed(w, applied, Snap(), nested, level + stack)
      ensures nested >= old(nested)
      ensures applied != [] && AsksDoomed(w, old(made), id) ==> !ok && depth == old(depth)
      decreases stack, 6
    {
      ghost var start := Snap();
      ok := true;
      for j := 0 to |applied|
        invariant Valid() && open <= depth && level <= |created| && applied == start.applied
        invariant Grown(start, Snap(), {id}) && Settles(start, Snap()) && Passes(history, id) == applied[..j]
        invariant AcceptedUpTo(w, applied, blocks, j)
        invariant nested >= old(nested)
        invariant j == 0 ==> made == start.made && depth == start.depth
        invariant applied != [] && AsksDoomed(w, start.made, id) ==> j == 0
      {
        ghost var b := Snap();
        if w.refuses(applied[j], blocks) { return false; }
        AcceptedNext(w, applied, blocks, j);
        RootedGrows(id, start.made, made);
        ok := Apply(applied[j], id, stack, open, level);
        GrownTransitive(start, b, Snap(), {id}, {id});
        if !ok { return; }
        SettlesTransitive(start, b, Snap(), {id}, {id});
        assert applied[..j + 1] == applied[..j] + [applied[j]];
      }
      assert applied[..|applied|] == applied;
    }

    /** A new function catches up, and waits to be added to the program. */
    method FunctionInstantiated(
      f: Function, context: string, stack: nat, ghost open: nat, ghost level: nat, ghost before: Snapshot)
      returns (ok: bool)
      requires Valid() && Sound(before) && Inserted(before, Snap(), f.id) && before.depth == depth
      requires open <= depth && level <= |created|
      requires f.id.FunctionInstance? && f.arity == 0 && (context != "" ==> HasClass(blocks, context))
      modifies this
      ensures Valid() && Grown(before, Snap(), {}) && f.id in made
      ensures ok ==> Settles(before, Snap()) && functions != [] && functions[|functions| - 1] == (context, f)
      ensures ok ==> Passes(history, f.id) == applied && Accepted(w, applied, blocks)
      ensures !ok ==> Blamed(w, applied, Snap(), nested, level + stack)
      ensures nested >= old(nested)
      ensures applied != [] && AsksDoomed(w, old(made), f.id) ==> !ok && depth == old(depth)
      decreases stack, 7
    {
      ghost var start := Snap();
      NewHasNoPasses(before, f.id);
      ok := CatchUpFunction(f.id, stack, open, level);
      GrownFromBefore(before, start, Snap(), f.id, {f.id});
      if ok {
        QueueFunction(before, start, Snap(), f, context);
        functions := functions + [(context, f)];
      }
    }

    method CheckType(name: string, args: seq<string>, stack: nat, ghost open: nat, ghost level: nat) returns (ok: bool)
      requires Valid() && open <= depth && level <= |created| && Asked(w, ClassOf(name, args))
      modifies this
      ensures Valid() && Grown(old(Snap()), Snap(), {})
      ensures ok ==> Settles(old(Snap()), Snap()) && Served(w, blocks, ClassOf(name, args), made)
      ensures ok && ClassInstance(name, args) !in old(made) && Walk(w.entries(blocks), name, |args|).Some? ==>
        var template := w.entries(blocks)[Walk(w.entries(blocks), name, |args|).value];
        && classes != [] && Instantiates(w, template, ClassInstance(name, args), args, classes[|classes| - 1])
        && HasCaughtUp(history, classes[|classes| - 1], applied) && Accepted(w, applied, blocks)
      ensures !ok ==> Unserved(w, blocks, ClassOf(name, args)) || Blamed(w, applied, Snap(), nested, level + stack)
      ensures nested >= old(nested)
      ensures KeyOf(ClassOf(name, args)).value in old(made) && !Unserved(w, blocks, ClassOf(name, args)) ==>
        ok && Snap() == old(Snap()) && nested == old(nested) && deepest == old(deepest)
      decreases stack, 3
    {
      var entries := w.entries(blocks);
      var first := FirstNamed(entries, name, 0);
      if first.None? { return false; }
      var found := FirstFitting(entries, |args|, first.value);
      var key := ClassInstance(name, args);
      assert KeyOf(ClassOf(name, args)) == Some(key);
      if found.None? || key in made { return true; }
      ok := InstantiateClass(InstanceOf(w, entries[found.value], key, args), stack, open, level);
    }

    /** The memo entry first, then the passes. */
    method InstantiateClass(c: Class, stack: nat, ghost open: nat, ghost level: nat) returns (ok: bool)
      requires Valid() && open <= depth && level <= |created| && Wanted(w, c.id)
      requires c.id !in made && Pristine(c)
      modifies this
      ensures Valid() && Grown(old(Snap()), Snap(), {}) && c.id in made
      ensures ok ==> Settles(old(Snap()), Snap()) && classes != [] && classes[|classes| - 1] == c
      ensures ok ==> HasCaughtUp(history, c, applied) && Accepted(w, applied, blocks)
      ensures !ok ==> Blamed(w, applied, Snap(), nested, level + stack)
      ensures nested >= old(nested)
      decreases stack, 2
    {
      ghost var before := Snap();
      made := made + {c.id};
      created := created + [c.id];
      nested := if level + 1 > nested then level + 1 else nested;
      InsertedSound(before, Snap(), c.id);
      if stack == 0 {
        GrownFromBefore(before, Snap(), Snap(), c.id, {});
        return false;
      }
      ok := StructInstantiated(c, stack - 1, open, level + 1, before);
    }

    /** All the passes applied so far, on a class that has had none. */
    method CatchUp(c: Class, stack: nat, ghost open: nat, ghost level: nat) returns (ok: bool)
      requires Valid() && open <= depth && level <= |created| && c.arity == 0
      requires BlockRooted(Struct(c), made) && DistinctIn(Struct(c)) && BlockHas(history, Struct(c), [])
      modifies this
      ensures Valid() && Grown(old(Snap()), Snap(), IdsOf(Struct(c)))
      ensures ok ==> Settles(old(Snap()), Snap()) && BlockHas(history, Struct(c), applied)
      ensures ok ==> Accepted(w, applied, blocks)
      ensures !ok ==> Blamed(w, applied, Snap(), nested, level + stack)
      ensures nested >= old(nested)
      decreases stack, 8
    {
      ghost var start := Snap();
      ghost var ids := IdsOf(Struct(c));
      ok := true;
      for j := 0 to |applied|
        invariant Valid() && open <= depth && level <= |created| && applied == start.applied
        invariant Grown(start, Snap(), ids) && Settles(start, Snap()) && BlockHas(history, Struct(c), applied[..j])
        invariant AcceptedUpTo(w, applied, blocks, j)
        invariant nested >= old(nested)
      {
        ghost var b := Snap();
        if w.refuses(applied[j], blocks) { return false; }
        AcceptedNext(w, applied, blocks, j);
        BlockRootedGrows(Struct(c), start.made, made);
        IdsAreRooted(Struct(c), start.made);
        ok := ApplyToClass(applied[j], c, stack, open, level);
        GrownTransitive(start, b, Snap(), ids, ids);
        if !ok { return; }
        SettlesTransitive(start, b, Snap(), ids, ids);
        OnePassMore(b.history, history, Struct(c), applied[..j], applied[j]);
        assert applied[..j + 1] == applied[..j] + [applied[j]];
      }
      assert applied[..|applied|] == applied;
    }

    /** One level deeper, unless the limit is passed; the depth is not taken back then. */
    method IncDepth(ghost key: Id, ghost open: nat, ghost before: Snapshot) returns (ok: bool)
      requires Valid() && Sound(before) && Inserted(before, Snap(), key) && before.depth == depth < |created|
      requires open <= depth
      modifies `depth, `deepest
      ensures depth == old(depth) + 1 && (ok <==> depth <= w.limit)
      ensures Valid() && Inserted(before, Snap(), key)
    {
      depth := depth + 1;
      InsertedSound(before, Snap(), key);
      ok := depth <= w.limit;
      if ok { deepest := if open + 1 > deepest then open + 1 else deepest; }
    }

    /** A new class catches up one level deeper, and waits to be added to the program. */
    method StructInstantiated(c: Class, stack: nat, ghost open: nat, ghost level: nat, ghost before: Snapshot)
      returns (ok: bool)
      requires Valid() && Sound(before) && Inserted(before, Snap(), c.id) && before.depth == depth
      requires open <= depth && level <= |created|
      requires Pristine(c) && depth < |created|
      modifies this
      ensures Valid() && Grown(before, Snap(), {}) && c.id in made
      ensures ok ==> Settles(before, Snap()) && classes != [] && classes[|classes| - 1] == c
      ensures ok ==> HasCaughtUp(history, c, applied) && Accepted(w, applied, blocks)
      ensures !ok ==> Blamed(w, applied, Snap(), nested, level + stack)
      ensures nested >= old(nested)
      decreases stack, 9
    {
      ghost var ids := IdsOf(Struct(c));
      NotRootedBefore(c, before.made);
      ok := IncDepth(c.id, open, before);
      ghost var start := Snap();
      GrownFromBefore(before, start, start, c.id, ids);
      if !ok { return; }
      NewClass(before, start, c);
      ok := CatchUp(c, stack, open + 1, level);
      GrownFromBefore(before, start, Snap(), c.id, ids);
      if ok {
        BlockHasCaughtUp(history, c, applied);
        DecDepth(c, before, start);
      }
    }

    /** The depth goes back, and the class waits. */
    method DecDepth(c: Class, ghost before: Snapshot, ghost start: Snapshot)
      requires Valid() && Sound(before) && Inserted(before, start, c.id) && start.depth == before.depth + 1
      requires Grown(start, Snap(), IdsOf(Struct(c))) && Settles(start, Snap()) && Pristine(c)
      requires BlockHas(history, Struct(c), applied)
      modifies `depth, `classes
      ensures Valid() && Grown(before, Snap(), {}) && Settles(before, Snap())
      ensures classes == old(classes) + [c] && depth == old(depth) - 1
    {
      QueueClass(before, start, Snap(), c);
      depth := depth - 1;
      classes := classes + [c];
    }

    /** One pass on one member of a class, unless it is a template. */
    method ApplyToMember(
      p: nat, c: Class, j: nat, stack: nat, ghost open: nat, ghost level: nat, ghost a: Snapshot)
      returns (ok: bool)
      requires Valid() && open <= depth && level <= |created| && p in applied && c.arity == 0 && j < |c.members|
      requires BlockRooted(Struct(c), a.made) && DistinctIn(Struct(c))
      requires Grown(a, Snap(), IdsOf(Struct(c))) && Settles(a, Snap())
      requires Advanced(a.history, history, Struct(c), p, j + 1)
      modifies this
      ensures Valid() && Grown(a, Snap(), IdsOf(Struct(c)))
      ensures ok ==> Settles(a, Snap()) && Advanced(a.history, history, Struct(c), p, j + 2)
      ensures !ok ==> Blamed(w, applied, Snap(), nested, level + stack)
      ensures nested >= old(nested)
      decreases stack, 6
    {
      ghost var b, id := Snap(), SlotId(Struct(c), j + 1);
      if c.members[j].arity > 0 {
        AdvancedTemplate(a.history, history, Struct(c), p, j + 1);
        return true;
      }
      assert id in IdsOf(Struct(c)) && Rooted(id, a.made);
      RootedGrows(id, a.made, made);
      ok := Apply(p, c.members[j].id, stack, open, level);
      GrownTransitive(a, b, Snap(), IdsOf(Struct(c)), {id});
      if ok {
        SettlesTransitive(a, b, Snap(), IdsOf(Struct(c)), {id});
        BlockRootedGrows(Struct(c), a.made, b.made);
        AdvancedNext(a, b, Snap(), Struct(c), p, j + 1);
      }
    }

    /** One pass on a class: the class itself, then its members that are not templates. */
    method ApplyToClass(p: nat, c: Class, stack: nat, ghost open: nat, ghost level: nat) returns (ok: bool)
      requires Valid() && open <= depth && level <= |created| && p in applied && c.arity == 0
      requires BlockRooted(Struct(c), made) && DistinctIn(Struct(c))
      modifies this
      ensures Valid() && Grown(old(Snap()), Snap(), IdsOf(Struct(c)))
      ensures ok ==> Settles(old(Snap()), Snap()) && Advanced(old(history), history, Struct(c), p, SlotCount(Struct(c)))
      ensures !ok ==> Blamed(w, applied, Snap(), nested, level + stack)
      ensures nested >= old(nested)
      decreases stack, 7
    {
      ghost var a := Snap();
      ghost var ids := IdsOf(Struct(c));
      assert SlotId(Struct(c), 0) == c.id && c.id in ids;
      ok := Apply(p, c.id, stack, open, level);
      GrownTransitive(a, a, Snap(), ids, {c.id});
      if !ok { return; }
      AdvancedOne(a, Snap(), Struct(c), p, 0);
      for j := 0 to |c.members|
        invariant Valid() && open <= depth && level <= |created|
        invariant Grown(a, Snap(), ids) && Settles(a, Snap()) && Advanced(a.history, history, Struct(c), p, j + 1)
        invariant nested >= old(nested)
      {
        ok := ApplyToMember(p, c, j, stack, open, level, a);
        if !ok { return; }
      }
    }

    /** One pass on one block of the program. */
    method ApplyToBlock(p: nat, b: Block, stack: nat) returns (ok: bool)
      requires Valid() && BlockRooted(b, made) && DistinctIn(b) && p in applied
      modifies this
      ensures Valid() && Grown(old(Snap()), Snap(), IdsOf(b))
      ensures ok ==> Settles(old(Snap()), Snap()) && Advanced(old(history), history, b, p, SlotCount(b))
      ensures !ok ==> Blamed(w, applied, Snap(), nested, stack)
      ensures nested >= old(nested)
    {
      ghost var a := Snap();
      ok := true;
      if b.Struct? {
        if b.c.arity == 0 {
          ok := ApplyToClass(p, b.c, stack, 0, 0);
        }
      } else if b.f.arity == 0 {
        assert SlotId(b, 0) == b.f.id && b.f.id in IdsOf(b);
        ok := Apply(p, b.f.id, stack, 0, 0);
        GrownTransitive(a, a, Snap(), IdsOf(b), {b.f.id});
        AdvancedOne(a, Snap(), b, p, 0);
      }
    }

    /** One pass on the whole program; a block that fails does not stop the others. */
    method ApplyToProgram(p: nat, stack: nat) returns (valid: bool)
      requires Valid() && applied != [] && Last(applied) == p && ProgramHas(history, blocks, ButLast(applied))
      modifies this
      ensures Valid() && Grown(old(Snap()), Snap(), {Whole} + AllIds(blocks))
      ensures valid ==> Settles(old(Snap()), Snap()) && ProgramHas(history, blocks, applied)
      ensures AsksDoomed(w, old(made), Whole) ==> !valid && depth == old(depth)
      ensures !valid ==> Blamed(w, applied, Snap(), nested, stack)
      ensures nested >= old(nested)
    {
      ghost var a := Snap();
      ghost var ids := {Whole} + AllIds(blocks);
      valid := Apply(p, Whole, stack, 0, 0);
      GrownTransitive(a, a, Snap(), ids, {Whole});
      if !valid { return; }
      HalfwayStarts(a, Snap());
      for i := 0 to |blocks|
        invariant Valid() && blocks == a.blocks && applied == a.applied && Grown(a, Snap(), ids)
        invariant valid ==> Settles(a, Snap()) && Halfway(Snap(), i)
        invariant !valid ==> Blamed(w, applied, Snap(), nested, stack)
        invariant nested >= old(nested)
      {
        ghost var b, m := Snap(), nested;
        BlockOfProgram(b, a.made, i);
        BlockRootedGrows(blocks[i], a.made, made);
        var ok := ApplyToBlock(p, blocks[i], stack);
        GrownTransitive(a, b, Snap(), ids, IdsOf(blocks[i]));
        if ok && valid {
          SettlesTransitive(a, b, Snap(), ids, IdsOf(blocks[i]));
          HalfwayNext(b, Snap(), i);
        } else {
          if !valid { BlameStays(w, applied, b, Snap(), IdsOf(blocks[i]), m, nested, stack); }
          valid := false;
        }
      }
    }

    method AddClasses(ghost a: Snapshot)
      requires Collectable(a) && Placing(a, blocks, settled, 0, 0) && classes == a.classes && blocks == a.blocks
      modifies `blocks, `settled
      ensures Placing(a, blocks, settled, |a.classes|, 0)
      ensures blocks == WithClasses(a.blocks, a.classes)
      ensures Appended(a.blocks, a.classes, blocks, |a.classes|)
    {
      for k := 0 to |classes|
        invariant Placing(a, blocks, settled, k, 0) && blocks == WithClasses(a.blocks, classes[..k])
        invariant Appended(a.blocks, classes, blocks, k)
      {
        assert classes[..k + 1][..k] == classes[..k];
        PlaceClass(a, blocks, settled, k);
        AppendedNext(a.blocks, classes, blocks, k);
        blocks := blocks + [Struct(classes[k])];
        settled := settled + {classes[k].id};
      }
      assert classes[..|classes|] == classes;
    }

    method AddFunctions(ghost a: Snapshot)
      requires Collectable(a) && Placing(a, blocks, settled, |a.classes|, 0) && functions == a.functions
      modifies `blocks, `settled
      ensures Placing(a, blocks, settled, |a.classes|, |a.functions|)
      ensures blocks == WithFunctions(old(blocks), a.functions)
      ensures Extends(old(blocks), blocks) && AllAtHome(blocks, a.functions, |a.functions|)
    {
      ghost var start := blocks;
      for k := 0 to |functions|
        invariant Placing(a, blocks, settled, |a.classes|, k) && blocks == WithFunctions(start, functions[..k])
        invariant Extends(start, blocks) && AllAtHome(blocks, functions, k)
      {
        assert functions[..k + 1][..k] == functions[..k];
        PlaceFunction(a, blocks, settled, k);
        AllAtHomeNext(blocks, functions, k);
        ExtendsTransitive(start, blocks, Placed(blocks, functions[k].0, functions[k].1));
        var (context, f) := functions[k];
        if context == "" {
          blocks := blocks + [Free(f)];
        } else {
          var n := FirstClass(blocks, context, 0);
          if n.Some? {
            var c := blocks[n.value].c;
            blocks := blocks[n.value := Struct(c.(members := c.members + [f]))];
          }
        }
        settled := settled + {f.id};
      }
      assert functions[..|functions|] == functions;
    }

    method AddInstances(ghost a: Snapshot)
      requires Collectable(a) && a == Snap()
      modifies `blocks, `settled
      ensures Placing(a, blocks, settled, |a.classes|, |a.functions|)
      ensures blocks == WithFunctions(WithClasses(a.blocks, a.classes), a.functions)
      ensures Collected(a.blocks, a.classes, a.functions, blocks)
    {
      PlacingStarts(a);
      AddClasses(a);
      ghost var middle := blocks;
      AddFunctions(a);
      CollectedInTurn(a.blocks, a.classes, a.functions, middle, blocks);
    }

    /**
     * The instances that wait are added to the program: classes first, in
     * their order, then functions, members into their structure.
     */
    method Flush()
      requires Collectable(Snap())
      modifies `blocks, `classes, `functions, `settled
      ensures Snap() == Flushed(old(Snap()), WithFunctions(WithClasses(old(blocks), old(classes)), old(functions)))
      ensures Between(Snap()) && Keeps(old(blocks), blocks)
      ensures Collected(old(blocks), old(classes), old(functions), blocks)
    {
      ghost var a := Snap();
      AddInstances(a);
      FlushedBetween(a, blocks, settled);
      classes, functions := [], [];
      settled := made;
      assert Snap() == Flushed(a, blocks);
    }

    /** One turn of the loop over the passes. */
    method RunPass(p: nat, stack: nat) returns (ok: bool)
      requires Valid() && Between(Snap())
      modifies this
      ensures Valid() && applied == old(applied) + (if w.isSimple(p) then [] else [p])
      ensures ok ==> Between(Snap())
      ensures !ok ==> (w.isSimple(p) && w.refuses(p, blocks)) || Blamed(w, applied, Snap(), nested, stack)
      ensures w.isSimple(p) ==> ok == !w.refuses(p, blocks) && Snap() == old(Snap())
      ensures nested >= old(nested)
      ensures ok ==> Keeps(old(blocks), blocks)
      ensures !w.isSimple(p) && AsksDoomed(w, old(made), Whole) ==> !ok && depth == old(depth)
    {
      if w.isSimple(p) {
        ok := !w.refuses(p, blocks);
      } else {
        ghost var before := Snap();
        applied := applied + [p];
        Started(before, p);
        ghost var a := Snap();
        ok := ApplyToProgram(p, stack);
        if ok {
          PassedOver(a, Snap());
          Flush();
        }
      }
    }

    /**
     * A whole run. When it succeeds, every unit of the final program, born
     * with it or made on the way, has had exactly the ordinary passes, in
     * their order; every key instantiated is in the program, and none was
     * instantiated twice. Class instantiations never nested beyond the limit,
     * whether it succeeded or not. Function instantiations have no limit: one
     * that asks for ever new ones ends the run, at whatever depth of classes.
     * When the run fails, one of the causes in `Blamed` is there.
     */
    method RunPasses(passes: seq<nat>, stack: nat) returns (ok: bool)
      requires Valid() && Between(Snap()) && applied == []
      modifies this
      ensures Valid() && deepest <= w.limit
      ensures Once(created, made)
      ensures ok ==> applied == Ordinary(w, passes) && Between(Snap())
      ensures ok ==> EachHas(history, blocks, Ordinary(w, passes))
      ensures ok ==> forall key | key in made :: InProgram(blocks, key)
      ensures ok ==> Keeps(old(blocks), blocks)
      ensures !ok ==> Blamed(w, passes, Snap(), nested, stack)
      ensures AsksDoomed(w, old(made), Whole) && Ordinary(w, passes) != [] ==> !ok && depth == old(depth)
    {
      ok := true;
      for k := 0 to |passes|
        invariant Valid() && Between(Snap()) && applied == Ordinary(w, passes[..k]) && Keeps(old(blocks), blocks)
        invariant forall p | p in applied :: p in passes
        invariant applied == [] ==> made == old(made) && depth == old(depth)
        invariant AsksDoomed(w, old(made), Whole) ==> applied == []
      {
        assert passes[..k + 1][..k] == passes[..k];
        ghost var before := blocks;
        ok := RunPass(passes[k], stack);
        if !ok {
          if Blamed(w, applied, Snap(), nested, stack) { BlameWidens(w, applied, passes, Snap(), nested, stack); }
          return;
        }
        KeepsTransitive(old(blocks), before, blocks);
      }
      assert passes[..|passes|] == passes;
      EachHasIt(history, blocks, Ordinary(w, passes));
    }
  }

  /** With enough stack and depth for the instances a world can ask for, every run succeeds. */
  method TameRun(manager: PassManager, passes: seq<nat>, stack: nat, ghost keys: set<Id>) returns (ok: bool)
    requires manager.Valid() && Between(manager.Snap()) && manager.applied == []
    requires Tame(manager.w, keys) && |keys| <= stack && |keys| <= manager.w.limit
    modifies manager
    ensures ok && manager.applied == Ordinary(manager.w, passes) && Between(manager.Snap())
  {
    ok := manager.RunPasses(passes, stack);
    TameIsBlameless(manager.w, keys, passes, manager.Snap(), manager.nested, stack);
  }

  /**
   * Function instances nest without bound: with a template that calls its own
   * instance for a pointer to its parameter no run succeeds, however much
   * stack there is, and the limit on classes has no part in it.
   */
  method EndlessRun(program: seq<Block>, passes: seq<nat>, stack: nat, limit: nat)
    returns (manager: PassManager, ok: bool)
    requires SourceProgram(program) && passes != []
    ensures manager.w == EndlessWorld(limit) && Endless(manager.w)
    ensures !ok && manager.depth == 0
  {
    EndlessWorldIsEndless(limit);
    manager := new PassManager(EndlessWorld(limit), program);
    assert AsksDoomed(manager.w, manager.made, Whole);
    ok := manager.RunPasses(passes, stack);
  }

  lemma Started(s: Snapshot, p: nat)
    requires Between(s)
    ensures var r := s.(applied := s.applied + [p]);
      Sound(r) && Last(r.applied) == p && ProgramHas(r.history, r.blocks, ButLast(r.applied))
  {
    assert ButLast(s.applied + [p]) == s.applied;
  }

  /** After a pass, everything made during it is known and waits with all its passes. */
  lemma PassedOver(a: Snapshot, s: Snapshot)
    requires Sound(s) && Settles(a, s) && a.classes == [] && a.functions == [] && a.depth == 0
    requires s.blocks == a.blocks && (forall key | key in a.made :: InProgram(a.blocks, key))
    requires ProgramHas(s.history, s.blocks, s.applied)
    ensures Collectable(s)
  {
  }
}
