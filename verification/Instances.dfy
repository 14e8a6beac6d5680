/** Units of a program, and the bookkeeping of template instances while passes run. */
module Instances {
  import opened Common

  /** What passes are applied to: the program itself, source units, instances, and members of structures. */
  datatype Id =
    | Whole
    | Source(n: nat)
    | FunctionInstance(context: string, name: string, args: seq<string>)
    | ClassInstance(name: string, args: seq<string>)
    | MemberOf(owner: Id, index: nat)

  /** A function, constructor or destructor; a template when it has template parameters. */
  datatype Function = Function(id: Id, name: string, arity: nat)

  datatype Class = Class(id: Id, name: string, mangled: string, arity: nat, members: seq<Function>)

  datatype Block = Free(f: Function) | Struct(c: Class)

  // ----- positions in a program -----

  function SlotCount(b: Block): nat { if b.Free? then 1 else 1 + |b.c.members| }

  function SlotId(b: Block, k: nat): Id
    requires k < SlotCount(b)
  {
    if b.Free? then b.f.id else if k == 0 then b.c.id else b.c.members[k - 1].id
  }

  /** Passes skip templates, and everything inside a class template. */
  predicate Live(b: Block, k: nat)
    requires k < SlotCount(b)
  {
    if b.Free? then b.f.arity == 0
    else b.c.arity == 0 && (k == 0 || b.c.members[k - 1].arity == 0)
  }

  function IdsOf(b: Block): set<Id> { set k: nat | k < SlotCount(b) :: SlotId(b, k) }

  predicate IsSlot(bs: seq<Block>, i: nat, k: nat) { i < |bs| && k < SlotCount(bs[i]) }

  function IdAt(bs: seq<Block>, i: nat, k: nat): Id
    requires IsSlot(bs, i, k)
  {
    SlotId(bs[i], k)
  }

  predicate LiveAt(bs: seq<Block>, i: nat, k: nat)
    requires IsSlot(bs, i, k)
  {
    Live(bs[i], k)
  }

  ghost predicate DistinctIn(b: Block) {
    forall k: nat, l: nat | k < SlotCount(b) && l < SlotCount(b) && SlotId(b, k) == SlotId(b, l) :: k == l
  }

  ghost predicate Distinct(bs: seq<Block>) {
    forall i: nat, k: nat, j: nat, l: nat | IsSlot(bs, i, k) && IsSlot(bs, j, l) && IdAt(bs, i, k) == IdAt(bs, j, l) ::
      i == j && k == l
  }

  // ----- instances -----

  /** Whether a unit belongs to the source or to an instance among these. */
  predicate Rooted(id: Id, made: set<Id>) {
    match id
    case FunctionInstance(_, _, _) => id in made
    case ClassInstance(_, _) => id in made
    case MemberOf(owner, _) => Rooted(owner, made)
    case _ => true
  }

  lemma {:induction false} RootedGrows(id: Id, made: set<Id>, more: set<Id>)
    requires Rooted(id, made) && made <= more
    ensures Rooted(id, more)
  {
    if id.MemberOf? { RootedGrows(id.owner, made, more); }
  }

  ghost predicate BlockRooted(b: Block, made: set<Id>) {
    forall k: nat | k < SlotCount(b) :: Rooted(SlotId(b, k), made)
  }

  ghost predicate ProgramRooted(bs: seq<Block>, made: set<Id>) {
    forall i: nat, k: nat | IsSlot(bs, i, k) :: Rooted(IdAt(bs, i, k), made) && IdAt(bs, i, k) != Whole
  }

  ghost predicate InProgram(bs: seq<Block>, id: Id) {
    exists i: nat, k: nat :: IsSlot(bs, i, k) && IdAt(bs, i, k) == id
  }

  predicate HasClass(bs: seq<Block>, mangled: string) {
    FirstClass(bs, mangled, 0).Some?
  }

  /** The first structure of a mangled name that is not a class template. */
  function FirstClass(bs: seq<Block>, mangled: string, from: nat): (r: Option<nat>)
    requires from <= |bs|
    ensures r.Some? ==> from <= r.value < |bs| && bs[r.value].Struct? && bs[r.value].c.arity == 0
    ensures r.Some? ==> bs[r.value].c.mangled == mangled
    ensures r.Some? <==>
      exists i :: from <= i < |bs| && bs[i].Struct? && bs[i].c.arity == 0 && bs[i].c.mangled == mangled
    decreases |bs| - from
  {
    if from == |bs| then None
    else if bs[from].Struct? && bs[from].c.arity == 0 && bs[from].c.mangled == mangled then Some(from)
    else FirstClass(bs, mangled, from + 1)
  }

  /** The members of a class template, copied for an instance. */
  function Members(template: seq<Function>, owner: Id): (ms: seq<Function>)
    ensures |ms| == |template|
    ensures forall k | 0 <= k < |ms| :: ms[k] == Function(MemberOf(owner, k), template[k].name, template[k].arity)
  {
    seq(|template|, k requires 0 <= k < |template| => Function(MemberOf(owner, k), template[k].name, template[k].arity))
  }

  /** A class as instantiation makes it. */
  ghost predicate Pristine(c: Class) {
    && c.id.ClassInstance? && c.arity == 0
    && forall k | 0 <= k < |c.members| :: c.members[k].id == MemberOf(c.id, k)
  }

  // ----- what has been done to whom -----

  /** The passes applied to each unit, in order. */
  type History = map<Id, seq<nat>>

  function Passes(h: History, id: Id): seq<nat> { if id in h then h[id] else [] }

  ghost predicate BlockHas(h: History, b: Block, ps: seq<nat>) {
    forall k: nat | k < SlotCount(b) && Live(b, k) :: Passes(h, SlotId(b, k)) == ps
  }

  ghost predicate ProgramHas(h: History, bs: seq<Block>, ps: seq<nat>) {
    forall i: nat, k: nat | IsSlot(bs, i, k) && LiveAt(bs, i, k) :: Passes(h, IdAt(bs, i, k)) == ps
  }

  /** The pass manager and the template engine at one moment. */
  datatype Snapshot = Snapshot(
    applied: seq<nat>,
    blocks: seq<Block>,
    classes: seq<Class>,
    functions: seq<(string, Function)>,
    made: set<Id>,
    settled: set<Id>,
    created: seq<Id>,
    depth: nat,
    history: History)

  /** Instances waiting to be added to the program. */
  ghost predicate WaitingClass(s: Snapshot, i: nat) {
    i < |s.classes| && s.classes[i].id in s.made && s.classes[i].id !in s.settled && Pristine(s.classes[i])
  }

  ghost predicate WaitingFunction(s: Snapshot, i: nat) {
    && i < |s.functions|
    && s.functions[i].1.id in s.made && s.functions[i].1.id !in s.settled
    && s.functions[i].1.id.FunctionInstance? && s.functions[i].1.arity == 0
    && (s.functions[i].0 != "" ==> HasClass(s.blocks, s.functions[i].0))
  }

  ghost predicate Waiting(s: Snapshot) {
    && (forall i: nat | i < |s.classes| :: WaitingClass(s, i))
    && (forall i: nat | i < |s.functions| :: WaitingFunction(s, i))
    && (forall i: nat, j: nat | i < j < |s.classes| :: s.classes[i].id != s.classes[j].id)
    && (forall i: nat, j: nat | i < j < |s.functions| :: s.functions[i].1.id != s.functions[j].1.id)
  }

  /** No key has been instantiated twice. */
  ghost predicate Once(created: seq<Id>, made: set<Id>) {
    && (forall i | 0 <= i < |created| :: created[i] in made)
    && (forall i, j | 0 <= i < j < |created| :: created[i] != created[j])
  }

  /** What holds at every moment of every run, failed or not. */
  ghost predicate Sound(s: Snapshot) {
    && Once(s.created, s.made)
    && s.settled <= s.made
    && (forall id | id in s.history :: Rooted(id, s.made))
    && Distinct(s.blocks) && ProgramRooted(s.blocks, s.settled)
    && Waiting(s)
  }

  /** A step that touches only these units and instances made during it. */
  ghost predicate Grown(a: Snapshot, b: Snapshot, touched: set<Id>) {
    && b.applied == a.applied && b.blocks == a.blocks && b.settled == a.settled
    && a.made <= b.made && |a.created| <= |b.created| && a.depth <= b.depth
    && |a.classes| <= |b.classes| && b.classes[..|a.classes|] == a.classes
    && |a.functions| <= |b.functions| && b.functions[..|a.functions|] == a.functions
    && (forall i: nat | |a.classes| <= i < |b.classes| :: b.classes[i].id !in a.made)
    && (forall i: nat | |a.functions| <= i < |b.functions| :: b.functions[i].1.id !in a.made)
    && (forall id | Rooted(id, a.made) && id !in touched :: Passes(b.history, id) == Passes(a.history, id))
  }

  ghost predicate Arrived(b: Snapshot, classes: nat, functions: nat, key: Id) {
    || (exists i: nat :: classes <= i < |b.classes| && b.classes[i].id == key)
    || (exists i: nat :: functions <= i < |b.functions| && b.functions[i].1.id == key)
  }

  /** A step that succeeded: every instance made in it waits, and has had all the passes applied so far. */
  ghost predicate Settles(a: Snapshot, b: Snapshot) {
    && b.depth == a.depth
    && (forall i: nat | |a.classes| <= i < |b.classes| :: BlockHas(b.history, Struct(b.classes[i]), b.applied))
    && (forall i: nat | |a.functions| <= i < |b.functions| :: Passes(b.history, b.functions[i].1.id) == b.applied)
    && (forall key | key in b.made && key !in a.made :: Arrived(b, |a.classes|, |a.functions|, key))
  }

  /** Steps compose: what the second touches is touched by the whole, or was made by the first. */
  lemma GrownTransitive(a: Snapshot, b: Snapshot, c: Snapshot, t: set<Id>, u: set<Id>)
    requires Grown(a, b, t) && Grown(b, c, u)
    requires forall id | id in u :: id in t || !Rooted(id, a.made)
    ensures Grown(a, c, t)
  {
    forall id | Rooted(id, a.made) && id !in t ensures Passes(c.history, id) == Passes(a.history, id) {
      RootedGrows(id, a.made, b.made);
    }
    forall i: nat | i < |b.classes| ensures c.classes[i] == b.classes[i] {
      assert c.classes[i] == c.classes[..|b.classes|][i];
    }
    forall i: nat | i < |b.functions| ensures c.functions[i] == b.functions[i] {
      assert c.functions[i] == c.functions[..|b.functions|][i];
    }
  }

  /** What a step did not touch keeps its passes, and a waiting class keeps all of its members'. */
  lemma WaitingKept(b: Snapshot, c: Snapshot, u: set<Id>, made: set<Id>, i: nat)
    requires WaitingClass(b, i) && Grown(b, c, u) && b.classes[i].id !in made
    requires (forall id | id in u :: Rooted(id, made)) && made <= b.made
    requires BlockHas(b.history, Struct(b.classes[i]), b.applied)
    ensures i < |c.classes| && c.classes[i] == b.classes[i] && BlockHas(c.history, Struct(c.classes[i]), c.applied)
  {
    assert c.classes[i] == c.classes[..|b.classes|][i];
    var k := b.classes[i];
    forall n: nat | n < SlotCount(Struct(k)) && Live(Struct(k), n)
      ensures Passes(c.history, SlotId(Struct(k), n)) == c.applied
    {
      assert n > 0 ==> k.members[n - 1].id == MemberOf(k.id, n - 1);
      var id := SlotId(Struct(k), n);
      assert Rooted(k.id, b.made) && !Rooted(k.id, made);
      assert id == k.id || (id.MemberOf? && id.owner == k.id);
      assert Passes(b.history, id) == b.applied;
    }
  }

  /** Successful steps compose, as long as the second touches only units that were there at the start. */
  lemma SettlesTransitive(a: Snapshot, b: Snapshot, c: Snapshot, t: set<Id>, u: set<Id>)
    requires Sound(b) && Grown(a, b, t) && Settles(a, b) && Grown(b, c, u) && Settles(b, c)
    requires forall id | id in u :: Rooted(id, a.made)
    ensures Settles(a, c)
  {
    forall i: nat | |a.classes| <= i < |c.classes| ensures BlockHas(c.history, Struct(c.classes[i]), c.applied) {
      if i < |b.classes| {
        assert WaitingClass(b, i);
        WaitingKept(b, c, u, a.made, i);
      }
    }
    forall i: nat | |a.functions| <= i < |c.functions|
      ensures Passes(c.history, c.functions[i].1.id) == c.applied
    {
      if i < |b.functions| {
        assert WaitingFunction(b, i) && c.functions[i] == c.functions[..|b.functions|][i];
      }
    }
    forall key | key in c.made && key !in a.made ensures Arrived(c, |a.classes|, |a.functions|, key) {
      if key in b.made { ArrivedKept(b, c, u, |a.classes|, |a.functions|, key); }
    }
  }

  lemma ArrivedKept(b: Snapshot, c: Snapshot, u: set<Id>, classes: nat, functions: nat, key: Id)
    requires Grown(b, c, u) && Arrived(b, classes, functions, key)
    ensures Arrived(c, classes, functions, key)
  {
    if i: nat :| classes <= i < |b.classes| && b.classes[i].id == key {
      assert c.classes[..|b.classes|][i] == c.classes[i];
    } else {
      var i: nat :| functions <= i < |b.functions| && b.functions[i].1.id == key;
      assert c.functions[..|b.functions|][i] == c.functions[i];
    }
  }

  // ----- making an instance -----

  /** The memo entry is the only thing an instantiation leaves before its passes run. */
  ghost predicate Inserted(a: Snapshot, b: Snapshot, key: Id) {
    && key !in a.made && b.made == a.made + {key} && b.created == a.created + [key]
    && b.applied == a.applied && b.blocks == a.blocks && b.settled == a.settled
    && b.classes == a.classes && b.functions == a.functions && b.history == a.history
    && a.depth <= b.depth
  }

  lemma InsertedSound(a: Snapshot, b: Snapshot, key: Id)
    requires Sound(a) && Inserted(a, b, key)
    ensures Sound(b)
  {
    forall id | id in b.history ensures Rooted(id, b.made) { RootedGrows(id, a.made, b.made); }
    forall i: nat | i < |b.classes| ensures WaitingClass(b, i) { assert WaitingClass(a, i); }
    forall i: nat | i < |b.functions| ensures WaitingFunction(b, i) { assert WaitingFunction(a, i); }
  }

  /** The instance is new: no pass has seen it. */
  lemma NewHasNoPasses(a: Snapshot, id: Id)
    requires Sound(a) && !Rooted(id, a.made)
    ensures Passes(a.history, id) == []
  {
  }

  /** Seen from before the memo entry, the passes on the new instance touch nothing. */
  lemma GrownFromBefore(a: Snapshot, start: Snapshot, s: Snapshot, key: Id, t: set<Id>)
    requires Inserted(a, start, key) && Grown(start, s, t)
    requires forall id | id in t :: !Rooted(id, a.made)
    ensures Grown(a, s, {})
  {
    forall id | Rooted(id, a.made) ensures Passes(s.history, id) == Passes(a.history, id) {
      RootedGrows(id, a.made, start.made);
    }
  }

  function WithFunction(s: Snapshot, f: Function, context: string): Snapshot {
    s.(functions := s.functions + [(context, f)])
  }

  lemma FunctionNotYetWaiting(a: Snapshot, start: Snapshot, s: Snapshot, key: Id, t: set<Id>, i: nat)
    requires Sound(a) && Inserted(a, start, key) && Grown(start, s, t) && i < |s.functions|
    ensures s.functions[i].1.id != key
  {
    if i < |a.functions| {
      assert WaitingFunction(a, i) && s.functions[i] == s.functions[..|a.functions|][i];
    }
  }

  lemma QueueFunctionWaits(a: Snapshot, start: Snapshot, s: Snapshot, f: Function, context: string)
    requires Sound(a) && Waiting(s) && Inserted(a, start, f.id) && Grown(start, s, {f.id}) && start.settled <= a.made
    requires f.id.FunctionInstance? && f.arity == 0 && (context != "" ==> HasClass(s.blocks, context))
    ensures Waiting(WithFunction(s, f, context))
  {
    var r := WithFunction(s, f, context);
    forall i: nat | i < |r.classes| ensures WaitingClass(r, i) { assert WaitingClass(s, i); }
    forall i: nat | i < |s.functions| ensures r.functions[i] == s.functions[i] && s.functions[i].1.id != f.id {
      FunctionNotYetWaiting(a, start, s, f.id, {f.id}, i);
    }
    forall i: nat | i < |r.functions| ensures WaitingFunction(r, i) {
      if i < |s.functions| { assert WaitingFunction(s, i); }
    }
  }

  lemma QueueFunctionSettles(a: Snapshot, start: Snapshot, s: Snapshot, f: Function, context: string)
    requires Inserted(a, start, f.id) && start.depth == a.depth
    requires Grown(start, s, {f.id}) && Settles(start, s) && Passes(s.history, f.id) == s.applied
    ensures Settles(a, WithFunction(s, f, context))
  {
    var r := WithFunction(s, f, context);
    forall key | key in r.made && key !in a.made ensures Arrived(r, |a.classes|, |a.functions|, key) {
      if key == f.id {
        assert r.functions[|s.functions|].1.id == key;
      } else {
        assert Arrived(s, |a.classes|, |a.functions|, key);
        ArrivedLonger(s, r, |a.classes|, |a.functions|, key);
      }
    }
  }

  /** A function that has had its passes is queued. */
  lemma QueueFunction(a: Snapshot, start: Snapshot, s: Snapshot, f: Function, context: string)
    requires Sound(a) && Sound(s) && Inserted(a, start, f.id) && start.depth == a.depth
    requires Grown(start, s, {f.id}) && Settles(start, s) && Passes(s.history, f.id) == s.applied
    requires f.id.FunctionInstance? && f.arity == 0 && (context != "" ==> HasClass(s.blocks, context))
    ensures Sound(WithFunction(s, f, context))
    ensures Grown(a, WithFunction(s, f, context), {}) && Settles(a, WithFunction(s, f, context))
  {
    GrownFromBefore(a, start, s, f.id, {f.id});
    QueueFunctionWaits(a, start, s, f, context);
    QueueFunctionSettles(a, start, s, f, context);
    var r := WithFunction(s, f, context);
    assert r.functions[..|a.functions|] == s.functions[..|a.functions|];
  }

  lemma ArrivedLonger(s: Snapshot, r: Snapshot, classes: nat, functions: nat, key: Id)
    requires Arrived(s, classes, functions, key)
    requires |s.classes| <= |r.classes| && forall i: nat | i < |s.classes| :: r.classes[i] == s.classes[i]
    requires |s.functions| <= |r.functions| && forall i: nat | i < |s.functions| :: r.functions[i] == s.functions[i]
    ensures Arrived(r, classes, functions, key)
  {
    if i: nat :| classes <= i < |s.classes| && s.classes[i].id == key {
      assert r.classes[i].id == key;
    } else {
      var i: nat :| functions <= i < |s.functions| && s.functions[i].1.id == key;
      assert r.functions[i].1.id == key;
    }
  }

  function Queued(s: Snapshot, c: Class, depth: nat): Snapshot { s.(classes := s.classes + [c], depth := depth) }

  lemma NotYetWaiting(a: Snapshot, start: Snapshot, s: Snapshot, c: Class, t: set<Id>, i: nat)
    requires Sound(a) && Inserted(a, start, c.id) && Grown(start, s, t) && i < |s.classes|
    ensures s.classes[i].id != c.id
  {
    if i < |a.classes| {
      assert WaitingClass(a, i) && s.classes[i] == s.classes[..|a.classes|][i];
    }
  }

  lemma QueueClassWaits(a: Snapshot, start: Snapshot, s: Snapshot, c: Class)
    requires Sound(a) && Waiting(s) && Inserted(a, start, c.id) && Grown(start, s, IdsOf(Struct(c)))
    requires Pristine(c) && start.settled <= a.made
    ensures Waiting(Queued(s, c, a.depth))
  {
    var r := Queued(s, c, a.depth);
    forall i: nat | i < |r.functions| ensures WaitingFunction(r, i) { assert WaitingFunction(s, i); }
    forall i: nat | i < |s.classes| ensures r.classes[i] == s.classes[i] && s.classes[i].id != c.id {
      NotYetWaiting(a, start, s, c, IdsOf(Struct(c)), i);
    }
    forall i: nat | i < |r.classes| ensures WaitingClass(r, i) {
      if i < |s.classes| { assert WaitingClass(s, i); }
    }
  }

  lemma QueueClassSettles(a: Snapshot, start: Snapshot, s: Snapshot, c: Class)
    requires Inserted(a, start, c.id) && Grown(start, s, IdsOf(Struct(c))) && Settles(start, s)
    requires BlockHas(s.history, Struct(c), s.applied)
    ensures Settles(a, Queued(s, c, a.depth))
  {
    var r := Queued(s, c, a.depth);
    forall i: nat | |a.classes| <= i < |r.classes| ensures BlockHas(r.history, Struct(r.classes[i]), r.applied) {
      if i < |s.classes| { assert r.classes[i] == s.classes[i]; }
    }
    forall key | key in r.made && key !in a.made ensures Arrived(r, |a.classes|, |a.functions|, key) {
      if key == c.id {
        assert r.classes[|s.classes|].id == key;
      } else {
        assert Arrived(s, |a.classes|, |a.functions|, key);
        ArrivedLonger(s, r, |a.classes|, |a.functions|, key);
      }
    }
  }

  /** A class that has had its passes is queued, and the depth goes back. */
  lemma QueueClass(a: Snapshot, start: Snapshot, s: Snapshot, c: Class)
    requires Sound(a) && Sound(s) && Inserted(a, start, c.id) && start.depth == a.depth + 1
    requires Grown(start, s, IdsOf(Struct(c))) && Settles(start, s) && BlockHas(s.history, Struct(c), s.applied)
    requires Pristine(c)
    ensures Sound(Queued(s, c, a.depth)) && Grown(a, Queued(s, c, a.depth), {}) && Settles(a, Queued(s, c, a.depth))
  {
    NotRootedBefore(c, a.made);
    GrownFromBefore(a, start, s, c.id, IdsOf(Struct(c)));
    QueueClassWaits(a, start, s, c);
    QueueClassSettles(a, start, s, c);
    var r := Queued(s, c, a.depth);
    assert r.classes[..|a.classes|] == s.classes[..|a.classes|];
  }

  lemma NotRootedBefore(c: Class, made: set<Id>)
    requires Pristine(c) && c.id !in made
    ensures forall id | id in IdsOf(Struct(c)) :: !Rooted(id, made)
  {
    forall id | id in IdsOf(Struct(c)) ensures !Rooted(id, made) {
      assert id == c.id || (id.MemberOf? && id.owner == c.id);
    }
  }

  lemma BlockRootedGrows(b: Block, made: set<Id>, more: set<Id>)
    requires BlockRooted(b, made) && made <= more
    ensures BlockRooted(b, more)
  {
    forall k: nat | k < SlotCount(b) ensures Rooted(SlotId(b, k), more) { RootedGrows(SlotId(b, k), made, more); }
  }

  lemma IdsAreRooted(b: Block, made: set<Id>)
    requires BlockRooted(b, made)
    ensures forall id | id in IdsOf(b) :: Rooted(id, made)
  {
  }

  lemma NewClass(a: Snapshot, start: Snapshot, c: Class)
    requires Sound(a) && Inserted(a, start, c.id) && Pristine(c)
    ensures BlockRooted(Struct(c), start.made) && DistinctIn(Struct(c)) && BlockHas(start.history, Struct(c), [])
  {
    forall k: nat | k < SlotCount(Struct(c))
      ensures Rooted(SlotId(Struct(c), k), start.made) && Passes(start.history, SlotId(Struct(c), k)) == []
    {
      assert k > 0 ==> c.members[k - 1].id == MemberOf(c.id, k - 1);
      NewHasNoPasses(a, SlotId(Struct(c), k));
    }
  }

  // ----- one pass over a block -----

  /** The first n units of a block have had one more pass, the others have not. */
  ghost predicate Advanced(h: History, g: History, b: Block, p: nat, n: nat) {
    forall k: nat | k < SlotCount(b) && Live(b, k) ::
      Passes(g, SlotId(b, k)) == Passes(h, SlotId(b, k)) + (if k < n then [p] else [])
  }

  lemma AdvancedOne(a: Snapshot, s: Snapshot, b: Block, p: nat, n: nat)
    requires n == 0 && DistinctIn(b) && BlockRooted(b, a.made) && Grown(a, s, {SlotId(b, 0)})
    requires Passes(s.history, SlotId(b, 0)) == Passes(a.history, SlotId(b, 0)) + [p]
    ensures Advanced(a.history, s.history, b, p, 1)
  {
    forall k: nat | 0 < k < SlotCount(b) ensures Passes(s.history, SlotId(b, k)) == Passes(a.history, SlotId(b, k)) {
      assert SlotId(b, k) != SlotId(b, 0);
    }
  }

  lemma AdvancedNext(a: Snapshot, s: Snapshot, t: Snapshot, b: Block, p: nat, n: nat)
    requires n < SlotCount(b) && DistinctIn(b) && BlockRooted(b, s.made)
    requires Advanced(a.history, s.history, b, p, n) && Grown(s, t, {SlotId(b, n)}) && Live(b, n)
    requires Passes(t.history, SlotId(b, n)) == Passes(s.history, SlotId(b, n)) + [p]
    ensures Advanced(a.history, t.history, b, p, n + 1)
  {
    forall k: nat | k < SlotCount(b) && Live(b, k)
      ensures Passes(t.history, SlotId(b, k)) == Passes(a.history, SlotId(b, k)) + (if k < n + 1 then [p] else [])
    {
      assert Rooted(SlotId(b, k), s.made);
      if k != n { assert SlotId(b, k) != SlotId(b, n); }
    }
  }

  lemma AdvancedTemplate(h: History, g: History, b: Block, p: nat, n: nat)
    requires Advanced(h, g, b, p, n) && n < SlotCount(b) && !Live(b, n)
    ensures Advanced(h, g, b, p, n + 1)
  {
  }

  lemma OnePassMore(h: History, g: History, b: Block, ps: seq<nat>, p: nat)
    requires BlockHas(h, b, ps) && Advanced(h, g, b, p, SlotCount(b))
    ensures BlockHas(g, b, ps + [p])
  {
  }

  function Record(s: Snapshot, id: Id, p: nat): Snapshot {
    s.(history := s.history[id := Passes(s.history, id) + [p]])
  }

  lemma Recorded(s: Snapshot, id: Id, p: nat)
    requires Sound(s) && Rooted(id, s.made)
    ensures Sound(Record(s, id, p)) && Grown(s, Record(s, id, p), {id}) && Settles(s, Record(s, id, p))
  {
    var r := Record(s, id, p);
    forall i: nat | i < |r.classes| ensures WaitingClass(r, i) { assert WaitingClass(s, i); }
    forall i: nat | i < |r.functions| ensures WaitingFunction(r, i) { assert WaitingFunction(s, i); }
  }

  // ----- one pass over the program -----

  function AllIds(bs: seq<Block>): set<Id> { set i: nat, k: nat | i < |bs| && k < SlotCount(bs[i]) :: SlotId(bs[i], k) }

  function Last(ps: seq<nat>): nat
    requires ps != []
  {
    ps[|ps| - 1]
  }

  function ButLast(ps: seq<nat>): seq<nat>
    requires ps != []
  {
    ps[..|ps| - 1]
  }

  /** The units of the first n blocks have had the last of the applied passes, the others have not. */
  ghost predicate Halfway(s: Snapshot, n: nat)
    requires s.applied != []
  {
    forall i: nat, k: nat | IsSlot(s.blocks, i, k) && LiveAt(s.blocks, i, k) ::
      Passes(s.history, IdAt(s.blocks, i, k)) == if i < n then s.applied else ButLast(s.applied)
  }

  lemma BlockOfProgram(s: Snapshot, made: set<Id>, i: nat)
    requires Sound(s) && s.settled <= made && i < |s.blocks|
    ensures BlockRooted(s.blocks[i], made) && DistinctIn(s.blocks[i])
    ensures forall id | id in IdsOf(s.blocks[i]) :: Rooted(id, made) && id in AllIds(s.blocks)
  {
    var b := s.blocks[i];
    forall k: nat | k < SlotCount(b) ensures Rooted(SlotId(b, k), made) {
      assert IsSlot(s.blocks, i, k) && IdAt(s.blocks, i, k) == SlotId(b, k);
      RootedGrows(SlotId(b, k), s.settled, made);
    }
    forall k: nat, l: nat | k < SlotCount(b) && l < SlotCount(b) && SlotId(b, k) == SlotId(b, l) ensures k == l {
      assert IdAt(s.blocks, i, k) == IdAt(s.blocks, i, l);
    }
  }

  /** The pass on the program itself leaves its units where they were. */
  lemma HalfwayStarts(s: Snapshot, t: Snapshot)
    requires Sound(s) && Grown(s, t, {Whole}) && s.applied != [] && ProgramHas(s.history, s.blocks, ButLast(s.applied))
    ensures Halfway(t, 0)
  {
    forall i: nat, k: nat | IsSlot(t.blocks, i, k) && LiveAt(t.blocks, i, k)
      ensures Passes(t.history, IdAt(t.blocks, i, k)) == ButLast(t.applied)
    {
      RootedGrows(IdAt(s.blocks, i, k), s.settled, s.made);
    }
  }

  lemma HalfwayNext(s: Snapshot, t: Snapshot, n: nat)
    requires Sound(s) && s.applied != [] && Halfway(s, n) && n < |s.blocks|
    requires Grown(s, t, IdsOf(s.blocks[n]))
    requires Advanced(s.history, t.history, s.blocks[n], Last(s.applied), SlotCount(s.blocks[n]))
    ensures Halfway(t, n + 1)
  {
    forall i: nat, k: nat | IsSlot(t.blocks, i, k) && LiveAt(t.blocks, i, k)
      ensures Passes(t.history, IdAt(t.blocks, i, k)) == if i < n + 1 then t.applied else ButLast(t.applied)
    {
      var id := IdAt(s.blocks, i, k);
      assert IsSlot(s.blocks, i, k) && LiveAt(s.blocks, i, k);
      RootedGrows(id, s.settled, s.made);
      if i == n {
        assert ButLast(s.applied) + [Last(s.applied)] == s.applied;
      } else {
        OtherBlock(s, n, i, k);
      }
    }
  }

  lemma OtherBlock(s: Snapshot, n: nat, i: nat, k: nat)
    requires Sound(s) && n < |s.blocks| && i != n && IsSlot(s.blocks, i, k)
    ensures IdAt(s.blocks, i, k) !in IdsOf(s.blocks[n])
  {
    forall l: nat | l < SlotCount(s.blocks[n]) ensures SlotId(s.blocks[n], l) != IdAt(s.blocks, i, k) {
      assert IsSlot(s.blocks, n, l) && IdAt(s.blocks, n, l) == SlotId(s.blocks[n], l);
    }
  }

  // ----- adding instances to the program -----

  ghost predicate Laid(bs: seq<Block>, settled: set<Id>, h: History, ps: seq<nat>) {
    Distinct(bs) && ProgramRooted(bs, settled) && ProgramHas(h, bs, ps)
  }

  /** Nothing that was in a program is lost. */
  ghost predicate Keeps(bs: seq<Block>, cs: seq<Block>) {
    && (forall id | InProgram(bs, id) :: InProgram(cs, id))
    && (forall m | HasClass(bs, m) :: HasClass(cs, m))
  }

  /** A unit of an instance that is not in the program yet. */
  ghost predicate Outside(id: Id, settled: set<Id>, key: Id) {
    !Rooted(id, settled) && Rooted(id, settled + {key}) && id != Whole
  }

  lemma OldSlots(bs: seq<Block>, b: Block, i: nat, k: nat)
    requires IsSlot(bs + [b], i, k)
    ensures i < |bs| ==>
      && IsSlot(bs, i, k) && IdAt(bs + [b], i, k) == IdAt(bs, i, k)
      && (LiveAt(bs + [b], i, k) <==> LiveAt(bs, i, k))
    ensures i >= |bs| ==>
      && i == |bs| && k < SlotCount(b) && IdAt(bs + [b], i, k) == SlotId(b, k)
      && (LiveAt(bs + [b], i, k) <==> Live(b, k))
  {
  }

  lemma KeepsAppend(bs: seq<Block>, b: Block)
    ensures Keeps(bs, bs + [b])
    ensures InProgram(bs + [b], SlotId(b, 0))
  {
    var cs := bs + [b];
    forall id | InProgram(bs, id) ensures InProgram(cs, id) {
      var i: nat, k: nat :| IsSlot(bs, i, k) && IdAt(bs, i, k) == id;
      assert IsSlot(cs, i, k) && IdAt(cs, i, k) == id;
    }
    forall m | HasClass(bs, m) ensures HasClass(cs, m) {
      var i :| 0 <= i < |bs| && bs[i].Struct? && bs[i].c.arity == 0 && bs[i].c.mangled == m;
      assert cs[i] == bs[i];
    }
    assert IsSlot(cs, |bs|, 0) && IdAt(cs, |bs|, 0) == SlotId(b, 0);
  }

  lemma AppendBlock(bs: seq<Block>, settled: set<Id>, h: History, ps: seq<nat>, b: Block, key: Id)
    requires Laid(bs, settled, h, ps) && DistinctIn(b) && BlockHas(h, b, ps)
    requires forall k: nat | k < SlotCount(b) :: Outside(SlotId(b, k), settled, key)
    ensures Laid(bs + [b], settled + {key}, h, ps)
  {
    var cs := bs + [b];
    forall i: nat, k: nat | IsSlot(cs, i, k)
      ensures Rooted(IdAt(cs, i, k), settled + {key}) && IdAt(cs, i, k) != Whole
      ensures LiveAt(cs, i, k) ==> Passes(h, IdAt(cs, i, k)) == ps
    {
      OldSlots(bs, b, i, k);
      if i < |bs| { RootedGrows(IdAt(bs, i, k), settled, settled + {key}); }
    }
    forall i: nat, k: nat, j: nat, l: nat | IsSlot(cs, i, k) && IsSlot(cs, j, l) && IdAt(cs, i, k) == IdAt(cs, j, l)
      ensures i == j && k == l
    {
      OldSlots(bs, b, i, k);
      OldSlots(bs, b, j, l);
    }
  }

  lemma AppendClass(bs: seq<Block>, settled: set<Id>, h: History, ps: seq<nat>, c: Class)
    requires Laid(bs, settled, h, ps) && Pristine(c) && c.id !in settled && BlockHas(h, Struct(c), ps)
    ensures Laid(bs + [Struct(c)], settled + {c.id}, h, ps)
    ensures Keeps(bs, bs + [Struct(c)]) && InProgram(bs + [Struct(c)], c.id)
  {
    var b := Struct(c);
    forall k: nat | k < SlotCount(b) ensures Outside(SlotId(b, k), settled, c.id) {
      assert SlotId(b, k) == c.id || SlotId(b, k) == MemberOf(c.id, k - 1);
    }
    AppendBlock(bs, settled, h, ps, b, c.id);
    KeepsAppend(bs, b);
  }

  lemma AppendFunction(bs: seq<Block>, settled: set<Id>, h: History, ps: seq<nat>, f: Function)
    requires Laid(bs, settled, h, ps) && f.id.FunctionInstance? && f.id !in settled && Passes(h, f.id) == ps
    ensures Laid(bs + [Free(f)], settled + {f.id}, h, ps)
    ensures Keeps(bs, bs + [Free(f)]) && InProgram(bs + [Free(f)], f.id)
  {
    AppendBlock(bs, settled, h, ps, Free(f), f.id);
    KeepsAppend(bs, Free(f));
  }

  /** A structure with one more member. */
  function WithMember(bs: seq<Block>, n: nat, f: Function): seq<Block>
    requires n < |bs| && bs[n].Struct?
  {
    bs[n := Struct(bs[n].c.(members := bs[n].c.members + [f]))]
  }

  lemma MemberSlots(bs: seq<Block>, n: nat, f: Function, i: nat, k: nat)
    requires n < |bs| && bs[n].Struct? && IsSlot(WithMember(bs, n, f), i, k)
    ensures var cs := WithMember(bs, n, f);
      if i == n && k == SlotCount(bs[n]) then IdAt(cs, i, k) == f.id
      else IsSlot(bs, i, k) && IdAt(cs, i, k) == IdAt(bs, i, k) && (LiveAt(cs, i, k) <==> LiveAt(bs, i, k))
  {
  }

  lemma KeepsMember(bs: seq<Block>, n: nat, f: Function)
    requires n < |bs| && bs[n].Struct?
    ensures Keeps(bs, WithMember(bs, n, f)) && InProgram(WithMember(bs, n, f), f.id)
  {
    var cs := WithMember(bs, n, f);
    forall id | InProgram(bs, id) ensures InProgram(cs, id) {
      var i: nat, k: nat :| IsSlot(bs, i, k) && IdAt(bs, i, k) == id;
      assert IsSlot(cs, i, k);
      MemberSlots(bs, n, f, i, k);
    }
    forall m | HasClass(bs, m) ensures HasClass(cs, m) {
      var i :| 0 <= i < |bs| && bs[i].Struct? && bs[i].c.arity == 0 && bs[i].c.mangled == m;
      assert cs[i].Struct? && cs[i].c.arity == 0 && cs[i].c.mangled == m;
    }
    assert IsSlot(cs, n, SlotCount(bs[n]));
    MemberSlots(bs, n, f, n, SlotCount(bs[n]));
  }

  lemma AddMember(bs: seq<Block>, settled: set<Id>, h: History, ps: seq<nat>, n: nat, f: Function)
    requires Laid(bs, settled, h, ps) && f.id.FunctionInstance? && f.id !in settled && Passes(h, f.id) == ps
    requires n < |bs| && bs[n].Struct?
    ensures Laid(WithMember(bs, n, f), settled + {f.id}, h, ps)
  {
    var cs := WithMember(bs, n, f);
    forall i: nat, k: nat | IsSlot(cs, i, k)
      ensures Rooted(IdAt(cs, i, k), settled + {f.id}) && IdAt(cs, i, k) != Whole
      ensures LiveAt(cs, i, k) ==> Passes(h, IdAt(cs, i, k)) == ps
    {
      MemberSlots(bs, n, f, i, k);
      if i != n || k < SlotCount(bs[n]) { RootedGrows(IdAt(bs, i, k), settled, settled + {f.id}); }
    }
    forall i: nat, k: nat, j: nat, l: nat | IsSlot(cs, i, k) && IsSlot(cs, j, l) && IdAt(cs, i, k) == IdAt(cs, j, l)
      ensures i == j && k == l
    {
      MemberSlots(bs, n, f, i, k);
      MemberSlots(bs, n, f, j, l);
    }
  }

  lemma KeepsTransitive(a: seq<Block>, b: seq<Block>, c: seq<Block>)
    requires Keeps(a, b) && Keeps(b, c)
    ensures Keeps(a, c)
  {
  }

  /** The first so many waiting classes and functions have been added, and nothing else. */
  ghost predicate Placing(a: Snapshot, bs: seq<Block>, settled: set<Id>, classes: nat, functions: nat) {
    && Laid(bs, settled, a.history, a.applied) && Keeps(a.blocks, bs) && settled <= a.made
    && (forall i: nat | classes <= i < |a.classes| :: a.classes[i].id !in settled)
    && (forall i: nat | functions <= i < |a.functions| :: a.functions[i].1.id !in settled)
    && (forall i: nat | i < classes && i < |a.classes| :: InProgram(bs, a.classes[i].id))
    && (forall i: nat | i < functions && i < |a.functions| :: InProgram(bs, a.functions[i].1.id))
  }

  lemma PlacingStarts(a: Snapshot)
    requires Sound(a) && ProgramHas(a.history, a.blocks, a.applied)
    ensures Placing(a, a.blocks, a.settled, 0, 0)
  {
    forall i: nat | i < |a.classes| ensures a.classes[i].id !in a.settled { assert WaitingClass(a, i); }
    forall i: nat | i < |a.functions| ensures a.functions[i].1.id !in a.settled { assert WaitingFunction(a, i); }
  }

  lemma PlaceClass(a: Snapshot, bs: seq<Block>, settled: set<Id>, k: nat)
    requires Waiting(a) && k < |a.classes| && Placing(a, bs, settled, k, 0)
    requires BlockHas(a.history, Struct(a.classes[k]), a.applied)
    ensures Placing(a, bs + [Struct(a.classes[k])], settled + {a.classes[k].id}, k + 1, 0)
  {
    var c := a.classes[k];
    assert WaitingClass(a, k);
    AppendClass(bs, settled, a.history, a.applied, c);
    forall i: nat | i < |a.functions| ensures a.functions[i].1.id != c.id { assert WaitingFunction(a, i); }
  }

  /** Where a function instance goes: after the program, or into the structure it was instantiated in. */
  function Placed(bs: seq<Block>, context: string, f: Function): seq<Block> {
    if context == "" then bs + [Free(f)]
    else if HasClass(bs, context) then WithMember(bs, FirstClass(bs, context, 0).value, f)
    else bs
  }

  function WithClasses(bs: seq<Block>, cs: seq<Class>): seq<Block> {
    if cs == [] then bs else WithClasses(bs, cs[..|cs| - 1]) + [Struct(cs[|cs| - 1])]
  }

  function WithFunctions(bs: seq<Block>, fs: seq<(string, Function)>): seq<Block> {
    if fs == [] then bs else Placed(WithFunctions(bs, fs[..|fs| - 1]), fs[|fs| - 1].0, fs[|fs| - 1].1)
  }

  // ----- where instances are put -----

  /** The same block, with members added at most. */
  predicate SameBlock(b: Block, c: Block) {
    if b.Free? then c == b
    else c.Struct? && c.c == b.c.(members := c.c.members) && b.c.members <= c.c.members
  }

  /** Blocks stay where they are, and others come behind. */
  ghost predicate Extends(bs: seq<Block>, cs: seq<Block>) {
    |bs| <= |cs| && forall i | 0 <= i < |bs| :: SameBlock(bs[i], cs[i])
  }

  lemma ExtendsTransitive(a: seq<Block>, b: seq<Block>, c: seq<Block>)
    requires Extends(a, b) && Extends(b, c)
    ensures Extends(a, c)
  {
    forall i | 0 <= i < |a| ensures SameBlock(a[i], c[i]) { assert SameBlock(a[i], b[i]) && SameBlock(b[i], c[i]); }
  }

  predicate IsStructure(b: Block, mangled: string) { b.Struct? && b.c.arity == 0 && b.c.mangled == mangled }

  /** A free function is a block of its own; any other is a member of the first structure of its context's name. */
  ghost predicate AtHome(bs: seq<Block>, context: string, f: Function) {
    if context == "" then Free(f) in bs
    else exists i :: HomeAt(bs, context, f, i)
  }

  ghost predicate HomeAt(bs: seq<Block>, context: string, f: Function, i: int) {
    && 0 <= i < |bs| && IsStructure(bs[i], context) && f in bs[i].c.members
    && forall j | 0 <= j < i :: !IsStructure(bs[j], context)
  }

  lemma HomeStays(bs: seq<Block>, cs: seq<Block>, context: string, f: Function)
    requires Extends(bs, cs) && AtHome(bs, context, f)
    ensures AtHome(cs, context, f)
  {
    if context == "" {
      var i :| 0 <= i < |bs| && bs[i] == Free(f);
      assert SameBlock(bs[i], cs[i]);
    } else {
      var i :| HomeAt(bs, context, f, i);
      forall j | 0 <= j < i ensures !IsStructure(cs[j], context) { assert SameBlock(bs[j], cs[j]); }
      assert SameBlock(bs[i], cs[i]);
      assert HomeAt(cs, context, f, i);
    }
  }

  lemma PlacedAtHome(bs: seq<Block>, context: string, f: Function)
    requires context == "" || HasClass(bs, context)
    ensures Extends(bs, Placed(bs, context, f)) && AtHome(Placed(bs, context, f), context, f)
  {
    var cs := Placed(bs, context, f);
    if context == "" {
      assert cs[|bs|] == Free(f);
    } else {
      var n := FirstClass(bs, context, 0).value;
      assert cs[n].c.members[|bs[n].c.members|] == f;
      FirstIsFirst(bs, context, 0);
      assert forall j | 0 <= j < n :: cs[j] == bs[j];
      assert HomeAt(cs, context, f, n);
    }
  }

  lemma {:induction false} FirstIsFirst(bs: seq<Block>, mangled: string, from: nat)
    requires from <= |bs| && FirstClass(bs, mangled, from).Some?
    ensures forall j | from <= j < FirstClass(bs, mangled, from).value :: !IsStructure(bs[j], mangled)
    decreases |bs| - from
  {
    if !IsStructure(bs[from], mangled) { FirstIsFirst(bs, mangled, from + 1); }
  }

  /** The first n of these functions are where they belong. */
  ghost predicate AllAtHome(bs: seq<Block>, fs: seq<(string, Function)>, n: nat) {
    forall k | 0 <= k < n && k < |fs| :: AtHome(bs, fs[k].0, fs[k].1)
  }

  lemma AllAtHomeNext(bs: seq<Block>, fs: seq<(string, Function)>, n: nat)
    requires n < |fs| && AllAtHome(bs, fs, n) && (fs[n].0 == "" || HasClass(bs, fs[n].0))
    ensures var cs := Placed(bs, fs[n].0, fs[n].1); AllAtHome(cs, fs, n + 1) && Extends(bs, cs)
  {
    var cs := Placed(bs, fs[n].0, fs[n].1);
    PlacedAtHome(bs, fs[n].0, fs[n].1);
    forall k | 0 <= k < n ensures AtHome(cs, fs[k].0, fs[k].1) { HomeStays(bs, cs, fs[k].0, fs[k].1); }
  }

  /** The program with the first n of these classes behind it. */
  ghost predicate Appended(bs: seq<Block>, classes: seq<Class>, cs: seq<Block>, n: nat) {
    && n <= |classes| && |cs| == |bs| + n && bs <= cs
    && forall k | 0 <= k < n :: cs[|bs| + k] == Struct(classes[k])
  }

  lemma AppendedNext(bs: seq<Block>, classes: seq<Class>, cs: seq<Block>, n: nat)
    requires Appended(bs, classes, cs, n) && n < |classes|
    ensures Appended(bs, classes, cs + [Struct(classes[n])], n + 1)
  {
  }

  /**
   * The program bs with what waited: its blocks stay where they are, the
   * classes come behind them in their order, and every function is where it
   * belongs.
   */
  ghost predicate Collected(bs: seq<Block>, classes: seq<Class>, functions: seq<(string, Function)>, cs: seq<Block>) {
    && Extends(bs, cs) && |bs| + |classes| <= |cs|
    && (forall k | 0 <= k < |classes| :: SameBlock(Struct(classes[k]), cs[|bs| + k]))
    && AllAtHome(cs, functions, |functions|)
  }

  lemma CollectedInTurn(
    bs: seq<Block>, classes: seq<Class>, functions: seq<(string, Function)>, middle: seq<Block>, cs: seq<Block>)
    requires Appended(bs, classes, middle, |classes|) && Extends(middle, cs) && AllAtHome(cs, functions, |functions|)
    ensures Collected(bs, classes, functions, cs)
  {
    assert forall i | 0 <= i < |bs| :: SameBlock(bs[i], middle[i]);
    ExtendsTransitive(bs, middle, cs);
    forall k | 0 <= k < |classes| ensures SameBlock(Struct(classes[k]), cs[|bs| + k]) {
      assert SameBlock(middle[|bs| + k], cs[|bs| + k]);
    }
  }

  lemma PlaceFunction(a: Snapshot, bs: seq<Block>, settled: set<Id>, k: nat)
    requires Waiting(a) && k < |a.functions| && Placing(a, bs, settled, |a.classes|, k)
    requires Passes(a.history, a.functions[k].1.id) == a.applied
    ensures a.functions[k].0 == "" || HasClass(bs, a.functions[k].0)
    ensures
      var (context, f) := a.functions[k];
      Placing(a, Placed(bs, context, f), settled + {f.id}, |a.classes|, k + 1)
  {
    var context, f := a.functions[k].0, a.functions[k].1;
    assert WaitingFunction(a, k);
    if context == "" {
      AppendFunction(bs, settled, a.history, a.applied, f);
    } else {
      var n := FirstClass(bs, context, 0).value;
      AddMember(bs, settled, a.history, a.applied, n, f);
      KeepsMember(bs, n, f);
    }
  }

  /** The program after its waiting instances were added. */
  function Flushed(a: Snapshot, bs: seq<Block>): Snapshot {
    a.(blocks := bs, classes := [], functions := [], settled := a.made)
  }

  /**
   * Between two passes: every unit of the program has had exactly the passes
   * applied so far, in order; every key ever instantiated is in the program,
   * and nothing waits.
   */
  ghost predicate Between(s: Snapshot) {
    && Sound(s)
    && s.classes == [] && s.functions == []
    && s.settled == s.made && s.depth == 0
    && ProgramHas(s.history, s.blocks, s.applied)
    && forall key | key in s.made :: InProgram(s.blocks, key)
  }

  /** A pass has been over the whole program: all units, and all that wait, have had it. */
  ghost predicate Collectable(s: Snapshot) {
    && Sound(s) && s.depth == 0
    && ProgramHas(s.history, s.blocks, s.applied)
    && (forall i: nat | i < |s.classes| :: BlockHas(s.history, Struct(s.classes[i]), s.applied))
    && (forall i: nat | i < |s.functions| :: Passes(s.history, s.functions[i].1.id) == s.applied)
    && (forall key | key in s.made :: InProgram(s.blocks, key) || Arrived(s, 0, 0, key))
  }

  lemma FlushedBetween(a: Snapshot, bs: seq<Block>, settled: set<Id>)
    requires Collectable(a) && Placing(a, bs, settled, |a.classes|, |a.functions|)
    ensures Between(Flushed(a, bs)) && Keeps(a.blocks, bs)
  {
    forall i: nat, k: nat | IsSlot(bs, i, k) ensures Rooted(IdAt(bs, i, k), a.made) {
      RootedGrows(IdAt(bs, i, k), settled, a.made);
    }
  }
}
