/** Types, their mangled names, and the unique decodability of both types and functions. */
module Mangling {
  import opened Common

  datatype Base = BOOL | INT | CHAR | FLOAT | STRING | VOID

  datatype Type =
    | Standard(base: Base, isConst: bool)
    | Custom(name: string)
    | Template(name: string, args: seq<Type>)
    | Array(elem: Type, length: Option<nat>)
    | Pointer(target: Type)

  // ----- equality of types -----

  /** Equality as the compiler decides it: array lengths and constness do not count. */
  predicate SameType(a: Type, b: Type) {
    match a
    case Array(x, _) => b.Array? && SameType(x, b.elem)
    case Pointer(x) => b.Pointer? && SameType(x, b.target)
    case Custom(n) => b.Custom? && n == b.name
    case Standard(k, _) => b.Standard? && k == b.base
    case Template(n, xs) => b.Template? && n == b.name && SameTypes(xs, b.args)
  }

  predicate SameTypes(xs: seq<Type>, ys: seq<Type>) {
    |xs| == |ys| && forall k | 0 <= k < |xs| :: SameType(xs[k], ys[k])
  }

  // ----- decimal numbers -----

  predicate IsDigit(c: char) { '0' <= c <= '9' }

  function Digit(n: nat): char
    requires n < 10
  {
    '0' + n as char
  }

  function Digits(n: nat): (s: string)
    ensures s != [] && forall c | c in s :: IsDigit(c)
  {
    if n < 10 then [Digit(n)] else Digits(n / 10) + [Digit(n % 10)]
  }

  function DigitValue(c: char): nat
    requires IsDigit(c)
  {
    c as int - '0' as int
  }

  /** The number a string of digits denotes. */
  function Number(s: string): nat
    requires forall c | c in s :: IsDigit(c)
  {
    if s == [] then 0 else
    assert s[|s| - 1] in s;
    10 * Number(s[..|s| - 1]) + DigitValue(s[|s| - 1])
  }

  lemma {:induction false} NumberOfDigits(n: nat)
    ensures Number(Digits(n)) == n
  {
    var s := Digits(n);
    if n < 10 {
      assert s[..0] == [];
    } else {
      NumberOfDigits(n / 10);
      assert s[..|s| - 1] == Digits(n / 10);
    }
  }

  /** What follows a number must not look like one. */
  predicate NoDigitFirst(s: string) { s != [] ==> !IsDigit(s[0]) }

  /** If one of two equal strings starts with a longer run of digits, the other goes on with a digit. */
  lemma RunGoesOn(a: string, r: string, b: string, s: string)
    requires a + r == b + s && (forall c | c in b :: IsDigit(c)) && |a| < |b|
    ensures r != [] && IsDigit(r[0])
  {
    assert (b + s)[|a|] == b[|a|] && b[|a|] in b;
    assert |a + r| > |a| && (a + r)[|a|] == r[0];
  }

  lemma DigitsUnique(n: nat, m: nat, r: string, s: string)
    requires Digits(n) + r == Digits(m) + s && NoDigitFirst(r) && NoDigitFirst(s)
    ensures n == m && r == s
  {
    var a, b := Digits(n), Digits(m);
    if |a| < |b| {
      RunGoesOn(a, r, b, s);
    } else if |b| < |a| {
      RunGoesOn(b, s, a, r);
    } else {
      SplitEqual(a, r, b, s);
      NumberOfDigits(n);
      NumberOfDigits(m);
    }
  }

  lemma SplitEqual(a: string, r: string, b: string, s: string)
    requires a + r == b + s && |a| == |b|
    ensures a == b && r == s
  {
    assert a == (a + r)[..|a|] && b == (b + s)[..|b|];
    assert r == (a + r)[|a|..] && s == (b + s)[|b|..];
  }

  // ----- mangling of types -----

  function BaseLetter(b: Base): char {
    match b
    case INT => 'I'
    case CHAR => 'C'
    case STRING => 'S'
    case BOOL => 'B'
    case FLOAT => 'F'
    case VOID => 'V'
  }

  function Counted(name: string): string { Digits(|name|) + name }

  function Mangle(t: Type): (s: string)
    ensures s != [] && !IsDigit(s[0])
    decreases t, 1
  {
    match t
    case Array(x, _) => "A" + Mangle(x)
    case Pointer(x) => "P" + Mangle(x)
    case Standard(b, _) => [BaseLetter(b)]
    case Custom(n) => "U" + Counted(n)
    case Template(n, xs) => "T" + Counted(n) + Digits(|xs|) + MangleAll(xs)
  }

  function MangleAll(ts: seq<Type>): (s: string)
    ensures ts == [] <==> s == []
    ensures NoDigitFirst(s)
    decreases ts, 0
  {
    if ts == [] then "" else Mangle(ts[0]) + MangleAll(ts[1..])
  }

  /** The names identifiers allow: not empty, and not starting with a digit. */
  predicate GoodName(n: string) { n != [] && !IsDigit(n[0]) }

  predicate Named(t: Type) {
    match t
    case Array(x, _) => Named(x)
    case Pointer(x) => Named(x)
    case Standard(_, _) => true
    case Custom(n) => GoodName(n)
    case Template(n, xs) => GoodName(n) && NamedAll(xs)
  }

  predicate NamedAll(ts: seq<Type>) { forall t | t in ts :: Named(t) }

  lemma CountedUnique(n: string, m: string, r: string, s: string)
    requires GoodName(n) && GoodName(m) && Counted(n) + r == Counted(m) + s
    ensures n == m && r == s
  {
    assert Counted(n) + r == Digits(|n|) + (n + r);
    assert Counted(m) + s == Digits(|m|) + (m + s);
    DigitsUnique(|n|, |m|, n + r, m + s);
    SplitEqual(n, r, m, s);
  }

  /** A number of template arguments and the arguments: no digit can be mistaken for an argument. */
  lemma CountUnique(n: nat, m: nat, r: string, s: string)
    requires Digits(n) + r == Digits(m) + s
    requires n == 0 || NoDigitFirst(r)
    requires m == 0 || NoDigitFirst(s)
    ensures n == m && r == s
  {
    if n == 0 || m == 0 {
      LeadingZero(n);
      LeadingZero(m);
      assert (Digits(n) + r)[0] == Digits(n)[0] && (Digits(m) + s)[0] == Digits(m)[0];
      SplitEqual(Digits(n), r, Digits(m), s);
    } else {
      DigitsUnique(n, m, r, s);
    }
  }

  lemma {:induction false} LeadingZero(n: nat)
    ensures Digits(n)[0] == '0' <==> n == 0
  {
    if n >= 10 { LeadingZero(n / 10); }
  }

  lemma Uncons(c: char, a: string, d: char, b: string)
    requires [c] + a == [d] + b
    ensures c == d && a == b
  {
    SplitEqual([c], a, [d], b);
  }

  /** A mangled type: a letter for its kind, and the rest. */
  function Letter(t: Type): char {
    match t
    case Array(_, _) => 'A'
    case Pointer(_) => 'P'
    case Standard(b, _) => BaseLetter(b)
    case Custom(_) => 'U'
    case Template(_, _) => 'T'
  }

  function Tail(t: Type): string {
    match t
    case Array(x, _) => Mangle(x)
    case Pointer(x) => Mangle(x)
    case Standard(_, _) => ""
    case Custom(n) => Counted(n)
    case Template(n, xs) => Counted(n) + (Digits(|xs|) + MangleAll(xs))
  }

  lemma SplitTemplate(n: string, xs: seq<Type>)
    ensures Mangle(Template(n, xs)) == "T" + Tail(Template(n, xs))
  {
    Assoc("T" + Counted(n), Digits(|xs|), MangleAll(xs));
    Assoc("T", Counted(n), Digits(|xs|) + MangleAll(xs));
  }

  lemma SplitMangle(t: Type, r: string)
    ensures Mangle(t) + r == [Letter(t)] + (Tail(t) + r)
  {
    if t.Template? { SplitTemplate(t.name, t.args); }
    assert Mangle(t) == [Letter(t)] + Tail(t);
    Assoc([Letter(t)], Tail(t), r);
  }

  lemma Assoc(a: string, b: string, c: string)
    ensures (a + b) + c == a + (b + c)
  {
  }

  lemma LetterKind(a: Type, b: Type)
    requires Letter(a) == Letter(b)
    ensures (a.Array? <==> b.Array?) && (a.Pointer? <==> b.Pointer?) && (a.Custom? <==> b.Custom?)
    ensures (a.Template? <==> b.Template?) && (a.Standard? ==> b.Standard? && a.base == b.base)
  {
  }

  /**
   * Mangled types are prefix-free, and decode to equal types: whatever follows
   * them, two of them can only begin the same string when the types are equal.
   */
  lemma {:induction false} MangleUnique(a: Type, b: Type, r: string, s: string)
    requires Named(a) && Named(b) && Mangle(a) + r == Mangle(b) + s
    ensures SameType(a, b) && r == s
    decreases a, 1
  {
    SplitMangle(a, r);
    SplitMangle(b, s);
    Uncons(Letter(a), Tail(a) + r, Letter(b), Tail(b) + s);
    LetterKind(a, b);
    match a
    case Array(x, _) => MangleUnique(x, b.elem, r, s);
    case Pointer(x) => MangleUnique(x, b.target, r, s);
    case Standard(_, _) => assert "" + r == r && "" + s == s;
    case Custom(n) => CountedUnique(n, b.name, r, s);
    case Template(n, xs) =>
      var ra, rb := MangleAll(xs) + r, MangleAll(b.args) + s;
      Assoc(Counted(n), Digits(|xs|) + MangleAll(xs), r);
      Assoc(Counted(b.name), Digits(|b.args|) + MangleAll(b.args), s);
      Assoc(Digits(|xs|), MangleAll(xs), r);
      Assoc(Digits(|b.args|), MangleAll(b.args), s);
      CountedUnique(n, b.name, Digits(|xs|) + ra, Digits(|b.args|) + rb);
      CountUnique(|xs|, |b.args|, ra, rb);
      MangleAllUnique(xs, b.args, r, s);
  }

  lemma {:induction false} MangleAllUnique(xs: seq<Type>, ys: seq<Type>, r: string, s: string)
    requires NamedAll(xs) && NamedAll(ys) && |xs| == |ys| && MangleAll(xs) + r == MangleAll(ys) + s
    ensures SameTypes(xs, ys) && r == s
    decreases xs, 0
  {
    if xs == [] {
      assert "" + r == r && "" + s == s;
    } else {
      var ra, rb := MangleAll(xs[1..]) + r, MangleAll(ys[1..]) + s;
      Assoc(Mangle(xs[0]), MangleAll(xs[1..]), r);
      Assoc(Mangle(ys[0]), MangleAll(ys[1..]), s);
      MangleUnique(xs[0], ys[0], ra, rb);
      MangleAllUnique(xs[1..], ys[1..], r, s);
    }
  }

  lemma {:induction false} SameTypeSameMangle(a: Type, b: Type)
    requires SameType(a, b)
    ensures Mangle(a) == Mangle(b)
    decreases a, 1
  {
    match a
    case Array(x, _) => SameTypeSameMangle(x, b.elem);
    case Pointer(x) => SameTypeSameMangle(x, b.target);
    case Template(_, xs) => SameTypesSameMangle(xs, b.args);
    case _ =>
  }

  lemma {:induction false} SameTypesSameMangle(xs: seq<Type>, ys: seq<Type>)
    requires SameTypes(xs, ys)
    ensures MangleAll(xs) == MangleAll(ys)
    decreases xs, 0
  {
    if xs != [] {
      SameTypeSameMangle(xs[0], ys[0]);
      SameTypesSameMangle(xs[1..], ys[1..]);
    }
  }

  /** Two types have the same mangled name exactly when they are equal. */
  lemma MangleDecidesEquality(a: Type, b: Type)
    requires Named(a) && Named(b)
    ensures Mangle(a) == Mangle(b) <==> SameType(a, b)
  {
    if Mangle(a) == Mangle(b) {
      MangleUnique(a, b, "", "");
    } else if SameType(a, b) {
      SameTypeSameMangle(a, b);
    }
  }

  // ----- mangling of functions -----

  datatype Signature =
    | Free(name: string, params: seq<Type>)
    | Member(owner: Type, name: string, params: seq<Type>)
    | Constructor(owner: Type, params: seq<Type>)
    | Destructor(owner: Type)

  function MangleSignature(f: Signature): string {
    match f
    case Free(n, ps) => "_F" + Counted(n) + MangleAll(ps)
    case Member(o, n, ps) => "_M" + Mangle(o) + Counted(n) + MangleAll(ps)
    case Constructor(o, ps) => "_C" + Mangle(o) + MangleAll(ps)
    case Destructor(o) => "_D" + Mangle(o)
  }

  predicate NamedSignature(f: Signature) {
    match f
    case Free(n, ps) => GoodName(n) && NamedAll(ps)
    case Member(o, n, ps) => Named(o) && GoodName(n) && NamedAll(ps)
    case Constructor(o, ps) => Named(o) && NamedAll(ps)
    case Destructor(o) => Named(o)
  }

  /** The same function as far as overloading goes. */
  predicate SameSignature(f: Signature, g: Signature) {
    match f
    case Free(n, ps) => g.Free? && n == g.name && SameTypes(ps, g.params)
    case Member(o, n, ps) => g.Member? && SameType(o, g.owner) && n == g.name && SameTypes(ps, g.params)
    case Constructor(o, ps) => g.Constructor? && SameType(o, g.owner) && SameTypes(ps, g.params)
    case Destructor(o) => g.Destructor? && SameType(o, g.owner)
  }

  /** Parameter lists decode without a count: where one ends, nothing is left. */
  lemma {:induction false} ParametersUnique(xs: seq<Type>, ys: seq<Type>)
    requires NamedAll(xs) && NamedAll(ys) && MangleAll(xs) == MangleAll(ys)
    ensures SameTypes(xs, ys)
    decreases |xs|
  {
    if xs != [] && ys != [] {
      MangleUnique(xs[0], ys[0], MangleAll(xs[1..]), MangleAll(ys[1..]));
      ParametersUnique(xs[1..], ys[1..]);
    }
  }

  /** Mangled functions are equal exactly when kind, owner, name and parameter types are. */
  lemma SignatureUnique(f: Signature, g: Signature)
    requires NamedSignature(f) && NamedSignature(g)
    ensures MangleSignature(f) == MangleSignature(g) <==> SameSignature(f, g)
  {
    if MangleSignature(f) == MangleSignature(g) {
      DecodeSignature(f, g);
    } else if SameSignature(f, g) {
      if !f.Free? { SameTypeSameMangle(f.owner, g.owner); }
      if !f.Destructor? { SameTypesSameMangle(f.params, g.params); }
    }
  }

  function Rest(f: Signature): string {
    match f
    case Free(n, ps) => Counted(n) + MangleAll(ps)
    case Member(o, n, ps) => Mangle(o) + (Counted(n) + MangleAll(ps))
    case Constructor(o, ps) => Mangle(o) + MangleAll(ps)
    case Destructor(o) => Mangle(o) + ""
  }

  function KindLetter(f: Signature): char {
    match f
    case Free(_, _) => 'F'
    case Member(_, _, _) => 'M'
    case Constructor(_, _) => 'C'
    case Destructor(_) => 'D'
  }

  lemma SplitSignature(f: Signature)
    ensures MangleSignature(f) == ['_', KindLetter(f)] + Rest(f)
  {
    match f
    case Free(n, ps) => assert "_F" + Counted(n) + MangleAll(ps) == "_F" + (Counted(n) + MangleAll(ps));
    case Member(o, n, ps) =>
      assert "_M" + Mangle(o) + Counted(n) + MangleAll(ps) == "_M" + (Mangle(o) + (Counted(n) + MangleAll(ps)));
    case Constructor(o, ps) => assert "_C" + Mangle(o) + MangleAll(ps) == "_C" + (Mangle(o) + MangleAll(ps));
    case Destructor(o) => assert Mangle(o) + "" == Mangle(o);
  }

  lemma DecodeSignature(f: Signature, g: Signature)
    requires NamedSignature(f) && NamedSignature(g) && MangleSignature(f) == MangleSignature(g)
    ensures SameSignature(f, g)
  {
    SplitSignature(f);
    SplitSignature(g);
    SplitEqual(['_', KindLetter(f)], Rest(f), ['_', KindLetter(g)], Rest(g));
    assert ['_', KindLetter(f)][1] == ['_', KindLetter(g)][1];
    match f
    case Free(n, ps) =>
      CountedUnique(n, g.name, MangleAll(ps), MangleAll(g.params));
      ParametersUnique(ps, g.params);
    case Member(o, n, ps) =>
      MangleUnique(o, g.owner, Counted(n) + MangleAll(ps), Counted(g.name) + MangleAll(g.params));
      CountedUnique(n, g.name, MangleAll(ps), MangleAll(g.params));
      ParametersUnique(ps, g.params);
    case Constructor(o, ps) =>
      MangleUnique(o, g.owner, MangleAll(ps), MangleAll(g.params));
      ParametersUnique(ps, g.params);
    case Destructor(o) => MangleUnique(o, g.owner, "", "");
  }

  // ----- the overloads that loop over parameters -----

  datatype Parameter = Parameter(name: string, ty: Type)

  function DeclaredOne(p: Parameter): seq<Type> { if p.name != "this" then [p.ty] else [] }

  /** The types of the parameters other than `this`. */
  function Declared(ps: seq<Parameter>): seq<Type> {
    if ps == [] then [] else DeclaredOne(ps[0]) + Declared(ps[1..])
  }

  /** The first parameter of a member function is left out of its name, and every other one is in it. */
  lemma ThisIsSkipped(receiver: Type, params: seq<Parameter>)
    requires forall p | p in params :: p.name != "this"
    ensures var declared := Declared([Parameter("this", receiver)] + params);
      |declared| == |params| && forall k | 0 <= k < |params| :: declared[k] == params[k].ty
  {
    var all := [Parameter("this", receiver)] + params;
    assert all[1..] == params;
    OthersAreDeclared(params);
  }

  lemma {:induction false} OthersAreDeclared(params: seq<Parameter>)
    requires forall p | p in params :: p.name != "this"
    ensures |Declared(params)| == |params| && forall k | 0 <= k < |params| :: Declared(params)[k] == params[k].ty
  {
    if params != [] {
      OthersAreDeclared(params[1..]);
      forall k | 0 <= k < |params| ensures Declared(params)[k] == params[k].ty {
        if k > 0 { assert Declared(params)[k] == Declared(params[1..])[k - 1]; }
      }
    }
  }

  lemma AssocTypes(a: seq<Type>, b: seq<Type>, c: seq<Type>)
    ensures (a + b) + c == a + (b + c)
  {
  }

  lemma {:induction false} DeclaredAppend(ps: seq<Parameter>, p: Parameter)
    ensures Declared(ps + [p]) == Declared(ps) + DeclaredOne(p)
  {
    var qs := ps + [p];
    if ps == [] {
      assert qs[1..] == [] && Declared(qs[1..]) == [];
    } else {
      assert qs[0] == ps[0] && qs[1..] == ps[1..] + [p];
      DeclaredAppend(ps[1..], p);
      AssocTypes(DeclaredOne(ps[0]), Declared(ps[1..]), DeclaredOne(p));
    }
  }

  lemma {:induction false} MangleAllAppend(ts: seq<Type>, t: Type)
    ensures MangleAll(ts + [t]) == MangleAll(ts) + Mangle(t)
  {
    if ts == [] {
      assert [t][1..] == [] && MangleAll([t]) == Mangle(t) + MangleAll([]);
    } else {
      assert (ts + [t])[0] == ts[0] && (ts + [t])[1..] == ts[1..] + [t];
      MangleAllAppend(ts[1..], t);
    }
  }

  function Callable(name: string, types: seq<Type>, owner: Option<Type>): Signature {
    if owner.Some? then Member(owner.value, name, types) else Free(name, types)
  }

  /** The name built where a function is declared, from its parameters. */
  method MangleDeclaration(name: string, params: seq<Parameter>, owner: Option<Type>) returns (s: string)
    ensures s == MangleSignature(Callable(name, Declared(params), owner))
  {
    if owner.Some? {
      s := "_M" + Mangle(owner.value);
    } else {
      s := "_F";
    }
    s := s + Digits(|name|);
    s := s + name;
    ghost var head := s;
    assert head == (if owner.Some? then "_M" + Mangle(owner.value) else "_F") + Counted(name);
    for k := 0 to |params|
      invariant s == head + MangleAll(Declared(params[..k]))
    {
      assert params[..k + 1] == params[..k] + [params[k]];
      DeclaredAppend(params[..k], params[k]);
      assert Declared(params[..k]) + [] == Declared(params[..k]);
      if params[k].name != "this" {
        MangleAllAppend(Declared(params[..k]), params[k].ty);
        Assoc(head, MangleAll(Declared(params[..k])), Mangle(params[k].ty));
        s := s + Mangle(params[k].ty);
      }
    }
    assert params[..|params|] == params;
  }

  /** The name built where a function is called, from the types of the arguments. */
  method MangleCall(name: string, types: seq<Type>, owner: Option<Type>) returns (s: string)
    ensures s == MangleSignature(Callable(name, types, owner))
  {
    if owner.Some? {
      s := "_M" + Mangle(owner.value);
    } else {
      s := "_F";
    }
    s := s + Digits(|name|);
    s := s + name;
    ghost var head := s;
    assert head == (if owner.Some? then "_M" + Mangle(owner.value) else "_F") + Counted(name);
    for k := 0 to |types|
      invariant s == head + MangleAll(types[..k])
    {
      assert types[..k + 1] == types[..k] + [types[k]];
      MangleAllAppend(types[..k], types[k]);
      Assoc(head, MangleAll(types[..k]), Mangle(types[k]));
      s := s + Mangle(types[k]);
    }
    assert types[..|types|] == types;
  }

  /** Call sites find declarations: the two names agree exactly when the argument types are the parameter types. */
  method DeclarationMeetsCall(name: string, params: seq<Parameter>, types: seq<Type>, owner: Option<Type>)
    returns (declared: string, called: string)
    requires GoodName(name) && NamedAll(types) && NamedAll(Declared(params)) && (owner.Some? ==> Named(owner.value))
    ensures declared == called <==> SameTypes(Declared(params), types)
  {
    declared := MangleDeclaration(name, params, owner);
    called := MangleCall(name, types, owner);
    var f, g := Callable(name, Declared(params), owner), Callable(name, types, owner);
    SignatureUnique(f, g);
    if owner.Some? {
      MangleDecidesEquality(owner.value, owner.value);
    }
  }
}
