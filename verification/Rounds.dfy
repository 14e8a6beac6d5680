/** The rounds an actual run of a lowered loop takes, and what holds at the start of each. */
module Rounds {
  import opened Common
  import opened Ast
  import opened Semantics
  import opened ValueFacts
  import opened Desugar
  import opened Scoping
  import opened Preservation

  // ----- the rounds of a run -----

  /** The states in which a run of `do body while(c)` starts its rounds. */
  function DoRounds(I: Interp, n: nat, body: seq<Stmt>, c: Value, st: State): (rs: seq<State>)
    ensures |rs| <= n
    decreases n
  {
    if n == 0 then [] else
    var o := ExecSeq(I, n, body, st);
    if !o.Normal? then [st] else
    var r := Eval(I, c, o.st);
    if r.Ok? && r.v == BoolV(true) then [st] + DoRounds(I, n - 1, body, c, r.st) else [st]
  }

  /** The rounds of the loop a statement comes down to: what precedes it runs first, and its guard must hold. */
  function RoundsOf(I: Interp, n: nat, s: Stmt, st: State): (rs: seq<State>)
    decreases s, 1
  {
    match s
    case DoWhile(body, c) => DoRounds(I, n, body, c, st)
    case Scope(body) => RoundsIn(I, n, body, st)
    case If(arms, _) =>
      if |arms| != 1 then [] else
      var r := Eval(I, arms[0].cond, st);
      if r.Ok? && r.v == BoolV(true) then RoundsIn(I, n, arms[0].body, r.st) else []
    case _ => []
  }

  function RoundsIn(I: Interp, n: nat, ss: seq<Stmt>, st: State): (rs: seq<State>)
    decreases ss, 0
  {
    if ss == [] then []
    else if |ss| == 1 then RoundsOf(I, n, ss[0], st)
    else
      var o := Exec(I, n, ss[0], st);
      if o.Normal? then RoundsIn(I, n, ss[1..], o.st) else []
  }

  /** The body of the last round that started came to its end. */
  predicate LastEnds(I: Interp, n: nat, body: seq<Stmt>, rs: seq<State>)
    requires |rs| <= n
  {
    rs != [] ==> ExecSeq(I, n - (|rs| - 1), body, rs[|rs| - 1]).Normal?
  }

  lemma RoundsInPair(I: Interp, n: nat, s: Stmt, t: Stmt, st: State, next: State)
    requires Exec(I, n, s, st) == Normal(next)
    ensures RoundsIn(I, n, [s, t], st) == RoundsOf(I, n, t, next)
  {
    assert [s, t][1..] == [t];
  }

  lemma RoundsGuarded(I: Interp, n: nat, c: Value, body: seq<Stmt>, st: State)
    ensures RoundsOf(I, n, Guarded(c, body), st) ==
      var r := Eval(I, c, st);
      if r.Ok? && r.v == BoolV(true) then DoRounds(I, n, body, c, r.st) else []
  {
    var r := Eval(I, c, st);
    if r.Ok? { assert RoundsIn(I, n, [DoWhile(body, c)], r.st) == DoRounds(I, n, body, c, r.st); }
  }

  /**
   * What a run of a loop due to take so many rounds amounts to: never more of
   * them; it ends normally exactly when it took them all and the last one came
   * to its end; and when it took fewer, the last one did not, or the fuel was
   * used up.
   */
  predicate Accounts(I: Interp, n: nat, body: seq<Stmt>, total: nat, rs: seq<State>, o: Outcome) {
    && |rs| <= total && |rs| <= n
    && (o.Normal? <==> |rs| == total && LastEnds(I, n, body, rs))
    && (|rs| < total && LastEnds(I, n, body, rs) ==> |rs| == n)
  }

  /** One more round in front. */
  lemma AccountsLater(I: Interp, n: nat, body: seq<Stmt>, total: nat, st: State, rs: seq<State>, o: Outcome)
    requires n > 0 && total > 0 && Accounts(I, n - 1, body, total, rs, o) && ExecSeq(I, n, body, st).Normal?
    ensures Accounts(I, n, body, total + 1, [st] + rs, o)
  {
    assert rs != [] ==> ([st] + rs)[|rs|] == rs[|rs| - 1];
  }

  /** One round of a loop whose test changes nothing. */
  lemma DoStep(I: Interp, n: nat, body: seq<Stmt>, c: Value, st: State, again: bool)
    requires n > 0
    requires var o := ExecSeq(I, n, body, st); o.Normal? ==> Eval(I, c, o.st) == Ok(BoolV(again), o.st)
    ensures
      var o, rs, p := ExecSeq(I, n, body, st), DoRounds(I, n, body, c, st), Exec(I, n, DoWhile(body, c), st);
      if o.Normal? && again
      then rs == [st] + DoRounds(I, n - 1, body, c, o.st) && p == Exec(I, n - 1, DoWhile(body, c), o.st)
      else rs == [st] && p == o && Accounts(I, n, body, 1, rs, p)
  {
  }

  // ----- foreach -----

  function Total(from: int, to: int): nat { if from <= to then to - from + 1 else 0 }

  function ForeachBody(s: Stmt): seq<Stmt>
    requires s.Foreach?
  {
    LoweredSeq(s.body) + [Increment(s.name)]
  }

  /** The part of `Fit` that is about the body. */
  ghost predicate BodyFits(I: Interp, s: Stmt, H: set<string>)
    requires s.Foreach?
  {
    s.name in H && FitIn(I, s.body, H - {s.name}) && KeepsIn(s.body, Local(s.name), false)
  }

  /** A body that ends leaves the variable alone, and is followed by the increment. */
  lemma ForeachBodyEnds(I: Interp, n: nat, s: Stmt, H: set<string>, k: int, st: State)
    requires World(I) && s.Foreach? && BodyFits(I, s, H) && Get(st, Local(s.name)) == Some(IntV(k))
    ensures ExecSeq(I, n, ForeachBody(s), st).Normal? <==> ExecSeq(I, n, LoweredSeq(s.body), st).Normal?
    ensures var o, next := ExecSeq(I, n, ForeachBody(s), st), Wrap(I, k + 1);
      o.Normal? ==>
        && Get(o.st, Local(s.name)) == Some(IntV(next))
        && Eval(I, ForeachTest(s), o.st) == Ok(BoolV(next <= s.to), o.st)
  {
    LoweredSeqKeeps(I, s.body, H - {s.name}, Local(s.name), false);
    SeqKeeps(I, n, LoweredSeq(s.body), st, Local(s.name), false);
    ExecConcat(I, n, LoweredSeq(s.body), [Increment(s.name)], st);
    var p := ExecSeq(I, n, LoweredSeq(s.body), st);
    if p.Normal? {
      var next := Wrap(I, k + 1);
      ExecOne(I, n, Increment(s.name), p.st);
      ExecIncrement(I, n, s.name, k, p.st);
      EvalForeachTest(I, s, next, Set(p.st, Local(s.name), IntV(next)));
    }
  }

  ghost predicate Counts(rs: seq<State>, x: string, k: int) {
    forall j | 0 <= j < |rs| :: Get(rs[j], Local(x)) == Some(IntV(k + j))
  }

  lemma CountsLater(st: State, rs: seq<State>, x: string, k: int)
    requires Get(st, Local(x)) == Some(IntV(k)) && Counts(rs, x, k + 1)
    ensures Counts([st] + rs, x, k)
  {
    forall j | 0 <= j < |rs| + 1 ensures Get(([st] + rs)[j], Local(x)) == Some(IntV(k + j)) {
      if j > 0 { assert ([st] + rs)[j] == rs[j - 1]; }
    }
  }

  /** The rounds from value k on. */
  ghost predicate ForeachRun(I: Interp, n: nat, s: Stmt, k: int, st: State)
    requires s.Foreach? && k <= s.to
  {
    var rs := DoRounds(I, n, ForeachBody(s), ForeachTest(s), st);
    var o := Exec(I, n, DoWhile(ForeachBody(s), ForeachTest(s)), st);
    Counts(rs, s.name, k) && Accounts(I, n, ForeachBody(s), Total(k, s.to), rs, o)
  }

  lemma ForeachNext(I: Interp, n: nat, s: Stmt, k: int, st: State, next: State)
    requires s.Foreach? && n > 0 && k + 1 <= s.to && Get(st, Local(s.name)) == Some(IntV(k))
    requires ExecSeq(I, n, ForeachBody(s), st) == Normal(next) && Eval(I, ForeachTest(s), next) == Ok(BoolV(true), next)
    requires ForeachRun(I, n - 1, s, k + 1, next)
    ensures ForeachRun(I, n, s, k, st)
  {
    var body, c := ForeachBody(s), ForeachTest(s);
    DoStep(I, n, body, c, st, true);
    var rest := DoRounds(I, n - 1, body, c, next);
    CountsLater(st, rest, s.name, k);
    AccountsLater(I, n, body, Total(k + 1, s.to), st, rest, Exec(I, n - 1, DoWhile(body, c), next));
  }

  lemma ForeachLast(I: Interp, n: nat, s: Stmt, k: int, st: State)
    requires s.Foreach? && k <= s.to && Get(st, Local(s.name)) == Some(IntV(k))
    requires n > 0 && ExecSeq(I, n, ForeachBody(s), st).Normal? ==>
      k == s.to &&
      var next := ExecSeq(I, n, ForeachBody(s), st).st;
      Eval(I, ForeachTest(s), next) == Ok(BoolV(false), next)
    ensures ForeachRun(I, n, s, k, st)
  {
    if n > 0 { DoStep(I, n, ForeachBody(s), ForeachTest(s), st, false); }
  }

  lemma {:induction false} ForeachRoundsFrom(I: Interp, n: nat, s: Stmt, H: set<string>, k: int, st: State)
    requires World(I) && s.Foreach? && BodyFits(I, s, H) && Countable(I, s.from, s.to)
    requires s.from <= k <= s.to && Get(st, Local(s.name)) == Some(IntV(k))
    ensures ForeachRun(I, n, s, k, st)
    decreases n
  {
    ForeachBodyEnds(I, n, s, H, k, st);
    var o := ExecSeq(I, n, ForeachBody(s), st);
    if n > 0 && o.Normal? && k + 1 <= s.to {
      ForeachRoundsFrom(I, n - 1, s, H, k + 1, o.st);
      ForeachNext(I, n, s, k, st, o.st);
    } else {
      ForeachLast(I, n, s, k, st);
    }
  }

  /** A lowered foreach tests its bounds, sets its variable and goes on with the loop. */
  lemma ForeachStarts(I: Interp, n: nat, s: Stmt, st: State)
    requires s.Foreach?
    ensures
      var rs, o, body := RoundsOf(I, n, Lowered(s), st), Exec(I, n, Lowered(s), st), ForeachBody(s);
      var st1 := Set(st, Local(s.name), IntV(s.from));
      if s.from <= s.to
      then rs == DoRounds(I, n, body, ForeachTest(s), st1) && o == Exec(I, n, DoWhile(body, ForeachTest(s)), st1)
      else rs == [] && o == Normal(st)
  {
    var loop := DoWhile(ForeachBody(s), ForeachTest(s));
    var init := Assignment(LocalVar(s.name), ASSIGN, Int(s.from));
    var test := Binary(Int(s.from), LESS_EQUALS, Int(s.to));
    assert Lowered(s) == If([Arm(test, [init, loop])], Absent);
    EvalBinary(I, Int(s.from), LESS_EQUALS, Int(s.to), st);
    ExecIfOne(I, n, test, [init, loop], st);
    if s.from <= s.to {
      var st1 := Set(st, Local(s.name), IntV(s.from));
      ExecAssignLocal(I, n, s.name, Int(s.from), st);
      ExecPair(I, n, init, loop, st);
      ExecOne(I, n, loop, st1);
      RoundsInPair(I, n, init, loop, st, st1);
    }
  }

  /**
   * In any run of a lowered foreach the j-th round starts with from + j in the
   * loop variable, and max(0, to - from + 1) rounds are due.
   */
  lemma ForeachRounds(I: Interp, n: nat, s: Stmt, H: set<string>, st: State)
    requires World(I) && s.Foreach? && Fit(I, s, H)
    ensures
      var rs, o := RoundsOf(I, n, Lowered(s), st), Exec(I, n, Lowered(s), st);
      && (forall j | 0 <= j < |rs| :: Get(rs[j], Local(s.name)) == Some(IntV(s.from + j)))
      && Accounts(I, n, ForeachBody(s), Total(s.from, s.to), rs, o)
  {
    ForeachStarts(I, n, s, st);
    if s.from <= s.to { ForeachRoundsFrom(I, n, s, H, s.from, Set(st, Local(s.name), IntV(s.from))); }
  }

  // ----- foreach up to the largest integer -----

  lemma WholeMultiples(m: int, d: int)
    requires m > 0
    ensures d == 0 || m * d >= m || m * d <= -m
  {
    if d >= 1 { assert m * (d - 1) >= 0; } else if d <= -1 { assert m * (d + 1) <= 0; }
  }

  lemma RemainderUnique(x: int, m: int, q: int, r: int)
    requires m > 0 && x == m * q + r && 0 <= r < m
    ensures x % m == r
  {
    var d := x / m - q;
    assert m * d == r - x % m;
    WholeMultiples(m, d);
  }

  /** Wrapping drops whole turns. */
  lemma WrapTurns(I: Interp, x: int) returns (turns: int)
    ensures Wrap(I, x) == x - turns * (2 * I.max + 2) && InRange(I, Wrap(I, x))
  {
    var m := 2 * I.max + 2;
    turns := if InRange(I, x) then 0 else (x + I.max + 1) / m;
  }

  lemma WrapUnique(I: Interp, x: int, turns: int)
    requires InRange(I, x)
    ensures Wrap(I, x + turns * (2 * I.max + 2)) == x
  {
    var m := 2 * I.max + 2;
    RemainderUnique(x + turns * m + I.max + 1, m, turns, x + I.max + 1);
    WholeMultiples(m, turns);
  }

  lemma WrapAdds(I: Interp, x: int, y: int)
    ensures Wrap(I, Wrap(I, x) + y) == Wrap(I, x + y)
  {
    var m := 2 * I.max + 2;
    var t := WrapTurns(I, x);
    var u := WrapTurns(I, x + y);
    assert Wrap(I, x) + y == Wrap(I, x + y) + (u - t) * m;
    WrapUnique(I, Wrap(I, x + y), u - t);
  }

  /** No state is the last: every round that ends is followed by another. */
  ghost predicate GoesOn(I: Interp, n: nat, body: seq<Stmt>, x: string, k: int, rs: seq<State>, o: Outcome) {
    && (forall j | 0 <= j < |rs| :: Get(rs[j], Local(x)) == Some(IntV(Wrap(I, k + j))))
    && !o.Normal? && |rs| <= n && (LastEnds(I, n, body, rs) ==> |rs| == n)
  }

  lemma GoesOnLater(I: Interp, n: nat, body: seq<Stmt>, x: string, k: int, st: State, rs: seq<State>, o: Outcome)
    requires n > 0 && InRange(I, k) && Get(st, Local(x)) == Some(IntV(k)) && ExecSeq(I, n, body, st).Normal?
    requires GoesOn(I, n - 1, body, x, Wrap(I, k + 1), rs, o)
    ensures GoesOn(I, n, body, x, k, [st] + rs, o)
  {
    var all := [st] + rs;
    forall j | 0 <= j < |all| ensures Get(all[j], Local(x)) == Some(IntV(Wrap(I, k + j))) {
      if j > 0 {
        assert all[j] == rs[j - 1];
        WrapAdds(I, k + 1, j - 1);
      }
    }
    assert rs != [] ==> all[|rs|] == rs[|rs| - 1];
  }

  ghost predicate ForeachOn(I: Interp, n: nat, s: Stmt, k: int, st: State)
    requires s.Foreach?
  {
    var rs := DoRounds(I, n, ForeachBody(s), ForeachTest(s), st);
    GoesOn(I, n, ForeachBody(s), s.name, k, rs, Exec(I, n, DoWhile(ForeachBody(s), ForeachTest(s)), st))
  }

  lemma ForeachOnNext(I: Interp, n: nat, s: Stmt, k: int, st: State, next: State)
    requires s.Foreach? && n > 0 && InRange(I, k) && Get(st, Local(s.name)) == Some(IntV(k))
    requires ExecSeq(I, n, ForeachBody(s), st) == Normal(next) && Eval(I, ForeachTest(s), next) == Ok(BoolV(true), next)
    requires ForeachOn(I, n - 1, s, Wrap(I, k + 1), next)
    ensures ForeachOn(I, n, s, k, st)
  {
    var body, c := ForeachBody(s), ForeachTest(s);
    DoStep(I, n, body, c, st, true);
    var rest := DoRounds(I, n - 1, body, c, next);
    GoesOnLater(I, n, body, s.name, k, st, rest, Exec(I, n - 1, DoWhile(body, c), next));
  }

  lemma ForeachBreaks(I: Interp, n: nat, s: Stmt, k: int, st: State)
    requires s.Foreach? && InRange(I, k) && Get(st, Local(s.name)) == Some(IntV(k))
    requires n > 0 ==> !ExecSeq(I, n, ForeachBody(s), st).Normal?
    ensures ForeachOn(I, n, s, k, st)
  {
    if n > 0 { DoStep(I, n, ForeachBody(s), ForeachTest(s), st, true); }
  }

  lemma {:induction false} ForeachGoesOn(I: Interp, n: nat, s: Stmt, H: set<string>, k: int, st: State)
    requires World(I) && s.Foreach? && BodyFits(I, s, H) && s.to == I.max
    requires InRange(I, k) && Get(st, Local(s.name)) == Some(IntV(k))
    ensures ForeachOn(I, n, s, k, st)
    decreases n
  {
    var next := Wrap(I, k + 1);
    var turns := WrapTurns(I, k + 1);
    ForeachBodyEnds(I, n, s, H, k, st);
    var o := ExecSeq(I, n, ForeachBody(s), st);
    if n > 0 && o.Normal? {
      ForeachGoesOn(I, n - 1, s, H, next, o.st);
      ForeachOnNext(I, n, s, k, st, o.st);
    } else {
      ForeachBreaks(I, n, s, k, st);
    }
  }

  /** Up to the largest integer, the variable wraps around and no run of the lowered foreach ends normally. */
  lemma ForeachWrapsAround(I: Interp, n: nat, s: Stmt, H: set<string>, st: State)
    requires World(I) && s.Foreach? && BodyFits(I, s, H) && InRange(I, s.from) && s.to == I.max
    ensures GoesOn(I, n, ForeachBody(s), s.name, s.from, RoundsOf(I, n, Lowered(s), st), Exec(I, n, Lowered(s), st))
  {
    ForeachStarts(I, n, s, st);
    ForeachGoesOn(I, n, s, H, s.from, Set(st, Local(s.name), IntV(s.from)));
  }

  /** A foreach that ends in the source ends in the lowered code exactly when it does not count that far. */
  lemma ForeachEndsIff(I: Interp, n: nat, s: Stmt, H: set<string>, st: State)
    requires World(I) && s.Foreach? && BodyFits(I, s, H) && InRange(I, s.from) && InRange(I, s.to)
    requires Exec(I, n, s, st).Normal?
    ensures (exists m: nat :: Exec(I, m, Lowered(s), st).Normal?) <==> s.from > s.to || s.to < I.max
  {
    if s.from > s.to || s.to < I.max {
      ForeachSame(I, n, s, H, st, st);
      assert Exec(I, n, Lowered(s), st).Normal?;
    } else {
      forall m: nat ensures !Exec(I, m, Lowered(s), st).Normal? { ForeachWrapsAround(I, m, s, H, st); }
    }
  }

  // ----- foreach in -----

  /** How many elements the array or string holds; none when there is no such variable. */
  function Elements(I: Interp, s: Stmt, st: State): nat
    requires s.ForeachIn?
  {
    var v := Get(st, s.arr);
    if v.Some? && SizeOf(I, Kind(s), v.value).Some? then SizeOf(I, Kind(s), v.value).value.n else 0
  }

  /** The size of the array or length of the string can be asked for. */
  predicate HasSize(I: Interp, s: Stmt, st: State)
    requires s.ForeachIn?
  {
    Eval(I, Builtin(Kind(s), Variable(s.arr)), st).Ok?
  }

  function ElementOf(v: Val, j: nat): Val
    requires (v.ArrV? && j < |v.elems|) || (v.StrV? && j < |v.s|)
  {
    if v.ArrV? then v.elems[j] else CharV(v.s[j])
  }

  function LoweredBody(s: Stmt): seq<Stmt>
    requires s.ForeachIn?
  {
    ForeachInBody(s, LoweredSeq(s.body))
  }

  /** In this state the iterator is j, and the round's first statement puts element j in the loop variable. */
  predicate StartsAt(I: Interp, n: nat, s: Stmt, len: nat, st: State, j: nat)
    requires s.ForeachIn?
  {
    && Get(st, Local(s.iter)) == Some(IntV(j)) && j < len == Elements(I, s, st)
    && Exec(I, n, LoweredBody(s)[0], st) == Normal(Set(st, Local(s.name), ElementOf(Get(st, s.arr).value, j)))
  }

  ghost predicate StartAll(I: Interp, n: nat, s: Stmt, len: nat, rs: seq<State>, k: nat)
    requires s.ForeachIn?
  {
    forall j | 0 <= j < |rs| :: StartsAt(I, n, s, len, rs[j], k + j)
  }

  lemma ElementDeclared(I: Interp, n: nat, s: Stmt, len: nat, st: State, j: nat)
    requires s.ForeachIn? && Get(st, Local(s.iter)) == Some(IntV(j)) && j < len == Elements(I, s, st)
    ensures forall m: nat :: StartsAt(I, m, s, len, st, j)
  {
    var v := ElementOf(Get(st, s.arr).value, j);
    forall m: nat ensures StartsAt(I, m, s, len, st, j) {
      ExecElementDeclaration(I, m, s, j, v, st);
      assert LoweredBody(s)[0] == ForeachInBody(s, [])[0];
    }
  }

  /** A body that ends keeps the iterator and the number of elements, and the increment and the test follow. */
  lemma ElementBodyEnds(I: Interp, n: nat, s: Stmt, H: set<string>, k: nat, len: nat, st: State)
    requires World(I) && s.ForeachIn? && Fit(I, s, H)
    requires Get(st, Local(s.iter)) == Some(IntV(k)) && k < len == Elements(I, s, st)
    ensures var o := ExecSeq(I, n, LoweredBody(s), st);
      o.Normal? ==>
        && Get(o.st, Local(s.iter)) == Some(IntV(k + 1)) && Elements(I, s, o.st) == len
        && Eval(I, ForeachCondition(s.iter, s.arr, s.isArray), o.st) == Ok(BoolV(k + 1 < len), o.st)
  {
    var v := ElementOf(Get(st, s.arr).value, k);
    var st1 := Set(st, Local(s.name), v);
    ExecForeachInBody(I, n, s, k, v, st);
    LoweredSeqKeeps(I, s.body, H - {s.name}, Local(s.iter), false);
    LoweredSeqKeeps(I, s.body, H - {s.name}, s.arr, s.isArray);
    SeqKeeps(I, n, LoweredSeq(s.body), st1, Local(s.iter), false);
    SeqKeeps(I, n, LoweredSeq(s.body), st1, s.arr, s.isArray);
    var p := ExecSeq(I, n, LoweredSeq(s.body), st1);
    if p.Normal? {
      ExecIncrement(I, n, s.iter, k, p.st);
      EvalForeachInTest(I, s, k + 1, len, Set(p.st, Local(s.iter), IntV(k + 1)));
    }
  }

  lemma StartLater(I: Interp, n: nat, m: nat, s: Stmt, len: nat, st: State, rs: seq<State>, k: nat)
    requires s.ForeachIn? && StartsAt(I, n, s, len, st, k) && StartAll(I, m, s, len, rs, k + 1)
    ensures StartAll(I, n, s, len, [st] + rs, k)
  {
    forall j | 0 <= j < |rs| + 1 ensures StartsAt(I, n, s, len, ([st] + rs)[j], k + j) {
      if j > 0 {
        assert ([st] + rs)[j] == rs[j - 1] && StartsAt(I, m, s, len, rs[j - 1], k + 1 + (j - 1));
        ElementDeclared(I, n, s, len, rs[j - 1], k + j);
      }
    }
  }

  /** The rounds from the k-th element on. */
  ghost predicate ElementRun(I: Interp, n: nat, s: Stmt, k: nat, len: nat, st: State)
    requires s.ForeachIn? && k <= len
  {
    var c := ForeachCondition(s.iter, s.arr, s.isArray);
    var rs, o := DoRounds(I, n, LoweredBody(s), c, st), Exec(I, n, DoWhile(LoweredBody(s), c), st);
    StartAll(I, n, s, len, rs, k) && Accounts(I, n, LoweredBody(s), len - k, rs, o)
  }

  lemma ElementNext(I: Interp, n: nat, s: Stmt, k: nat, len: nat, st: State, next: State)
    requires s.ForeachIn? && n > 0 && k + 1 < len && StartsAt(I, n, s, len, st, k)
    requires ExecSeq(I, n, LoweredBody(s), st) == Normal(next)
    requires Eval(I, ForeachCondition(s.iter, s.arr, s.isArray), next) == Ok(BoolV(true), next)
    requires ElementRun(I, n - 1, s, k + 1, len, next)
    ensures ElementRun(I, n, s, k, len, st)
  {
    var body, c := LoweredBody(s), ForeachCondition(s.iter, s.arr, s.isArray);
    DoStep(I, n, body, c, st, true);
    var rest := DoRounds(I, n - 1, body, c, next);
    StartLater(I, n, n - 1, s, len, st, rest, k);
    AccountsLater(I, n, body, len - (k + 1), st, rest, Exec(I, n - 1, DoWhile(body, c), next));
  }

  lemma ElementLast(I: Interp, n: nat, s: Stmt, k: nat, len: nat, st: State)
    requires s.ForeachIn? && k < len && StartsAt(I, n, s, len, st, k)
    requires n > 0 && ExecSeq(I, n, LoweredBody(s), st).Normal? ==>
      k + 1 == len &&
      var next := ExecSeq(I, n, LoweredBody(s), st).st;
      Eval(I, ForeachCondition(s.iter, s.arr, s.isArray), next) == Ok(BoolV(false), next)
    ensures ElementRun(I, n, s, k, len, st)
  {
    if n > 0 { DoStep(I, n, LoweredBody(s), ForeachCondition(s.iter, s.arr, s.isArray), st, false); }
  }

  lemma {:induction false} ElementRoundsFrom(I: Interp, n: nat, s: Stmt, H: set<string>, k: nat, len: nat, st: State)
    requires World(I) && s.ForeachIn? && Fit(I, s, H)
    requires Get(st, Local(s.iter)) == Some(IntV(k)) && k < len == Elements(I, s, st)
    ensures ElementRun(I, n, s, k, len, st)
    decreases n
  {
    ElementDeclared(I, n, s, len, st, k);
    ElementBodyEnds(I, n, s, H, k, len, st);
    var o := ExecSeq(I, n, LoweredBody(s), st);
    if n > 0 && o.Normal? && k + 1 < len {
      ElementRoundsFrom(I, n - 1, s, H, k + 1, len, o.st);
      ElementNext(I, n, s, k, len, st, o.st);
    } else {
      ElementLast(I, n, s, k, len, st);
    }
  }

  /**
   * The same for a lowered foreach-in: in the j-th round the iterator is j and
   * the loop variable receives element j of the array or string as it then is.
   * As many rounds are due as it has elements. Without such an array the run
   * fails before any round.
   */
  lemma ForeachInRounds(I: Interp, n: nat, s: Stmt, H: set<string>, st: State)
    requires World(I) && s.ForeachIn? && Fit(I, s, H)
    ensures
      var rs, o, len := RoundsOf(I, n, Lowered(s), st), Exec(I, n, Lowered(s), st), Elements(I, s, st);
      && (forall j | 0 <= j < |rs| :: StartsAt(I, n, s, len, rs[j], j))
      && if HasSize(I, s, st) then Accounts(I, n, LoweredBody(s), len, rs, o) else rs == [] && o == Fault
  {
    var c, st1 := ForeachCondition(s.iter, s.arr, s.isArray), Set(st, Local(s.iter), IntV(0));
    var init, loop := Assignment(LocalVar(s.iter), ASSIGN, Int(0)), Guarded(c, LoweredBody(s));
    EvalSize(I, s, st);
    EvalSize(I, s, st1);
    assert Get(st1, s.arr) == Get(st, s.arr);
    ExecAssignLocal(I, n, s.iter, Int(0), st);
    RoundsInPair(I, n, init, loop, st, st1);
    assert RoundsOf(I, n, Lowered(s), st) == RoundsOf(I, n, loop, st1);
    RoundsGuarded(I, n, c, LoweredBody(s), st1);
    ForeachInUnfolds(I, n, s, st);
    ExecGuarded(I, n, c, LoweredBody(s), st1);
    if HasSize(I, s, st) {
      var len := Elements(I, s, st);
      EvalForeachInTest(I, s, 0, len, st1);
      if 0 < len { ElementRoundsFrom(I, n, s, H, 0, len, st1); }
    } else {
      ForeachInStuck(I, n, s, st, st);
      EvalBinary(I, LocalVar(s.iter), LESS, Builtin(Kind(s), Variable(s.arr)), st1);
    }
  }
}
