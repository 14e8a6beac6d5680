/** The cursor parser that turns mangled names back into readable ones. */
module Demangling {
  import opened Mangling

  // ----- reading characters -----

  /** Reads at or beyond the end are modelled as the terminating null. */
  function CharAt(m: string, o: nat): char { if o < |m| then m[o] else '\0' }

  /** What is left of m at a cursor. */
  function From(m: string, o: nat): string { if o <= |m| then m[o..] else "" }

  function First(s: string): char { if s == [] then '\0' else s[0] }

  function After(s: string): string { if s == [] then [] else s[1..] }

  lemma FromStep(m: string, o: nat)
    ensures After(From(m, o)) == From(m, o + 1)
    ensures First(From(m, o)) == CharAt(m, o)
    ensures From(m, o) == [] <==> o >= |m|
  {
  }

  function DigitRun(s: string): (d: string)
    ensures |d| <= |s|
  {
    if s != [] && IsDigit(s[0]) then [s[0]] + DigitRun(s[1..]) else ""
  }

  lemma {:induction false} RunIsDigits(s: string)
    ensures forall c | c in DigitRun(s) :: IsDigit(c)
  {
    if s != [] && IsDigit(s[0]) { RunIsDigits(s[1..]); }
  }

  function AfterRun(s: string): (r: string)
    ensures |r| <= |s|
  {
    if s != [] && IsDigit(s[0]) then AfterRun(s[1..]) else s
  }

  function Length(s: string): nat {
    RunIsDigits(s);
    Number(DigitRun(s))
  }

  function Take(s: string, n: nat): string {
    if n == 0 then "" else [First(s)] + Take(After(s), n - 1)
  }

  function Drop(s: string, n: nat): (r: string)
    ensures |r| <= |s|
  {
    if n == 0 then s else Drop(After(s), n - 1)
  }

  function NameAt(s: string): string { Take(AfterRun(s), Length(s)) }
  function AfterName(s: string): string { Drop(AfterRun(s), Length(s)) }

  // ----- the grammar the parser follows -----

  function Core(c: char): string {
    match c
    case 'I' => "int"
    case 'C' => "char"
    case 'S' => "str"
    case 'B' => "bool"
    case 'F' => "float"
    case _ => ""
  }

  /** The text after an optional letter. */
  function Skip(s: string, c: char): (r: string)
    ensures |r| <= |s|
  {
    if First(s) == c then After(s) else s
  }

  function Suffix(isArray: bool, isPointer: bool): string {
    (if isArray then "[]" else "") + (if isPointer then "&" else "")
  }

  /** The spelling of the type at the start of s, and what follows it. */
  function Extract(s: string): (r: (string, string))
    ensures |r.1| <= |s| && (s != [] ==> |r.1| < |s|)
    decreases |s|, 1
  {
    var inner := ExtractCore(Skip(Skip(s, 'A'), 'P'));
    (inner.0 + Suffix(First(s) == 'A', First(Skip(s, 'A')) == 'P'), inner.1)
  }

  /** The same for a type without layers. */
  function ExtractCore(s: string): (r: (string, string))
    ensures |r.1| <= |s| && (s != [] ==> |r.1| < |s|)
    decreases |s|, 0
  {
    var rest := After(s);
    if First(s) == 'U' then (NameAt(rest), AfterName(rest))
    else if First(s) == 'T' then
      var count := AfterName(rest);
      var args := ExtractAll(AfterRun(count), Length(count));
      (NameAt(rest) + "<" + args.0 + ">", args.1)
    else (Core(First(s)), rest)
  }

  /** n types, separated by commas. */
  function ExtractAll(s: string, n: nat): (r: (string, string))
    ensures |r.1| <= |s|
    decreases |s|, 2, n
  {
    if n == 0 then ("", s) else
    var first := Extract(s);
    var rest := ExtractAll(first.1, n - 1);
    (first.0 + (if n > 1 then ", " else "") + rest.0, rest.1)
  }

  /** The parameters that are left, with the separator test of the source: more than one character to come. */
  function Parameters(s: string): string
    decreases |s|
  {
    if s == [] then "" else
    var t := Extract(s);
    t.0 + (if |t.1| > 1 then ", " else "") + Parameters(t.1)
  }

  function Readable(m: string): string
    requires |m| >= 2
  {
    var rest := m[2..];
    if m[..2] == "_M" then Extract(rest).0 + "::" + SignatureAt(Extract(rest).1)
    else "" + SignatureAt(rest)
  }

  function SignatureAt(s: string): string { NameAt(s) + "(" + Parameters(AfterName(s)) + ")" }

  // ----- the parser -----

  lemma RunStep(length: string, s: string)
    requires s != [] && IsDigit(s[0])
    ensures (length + [s[0]]) + DigitRun(After(s)) == length + DigitRun(s)
    ensures AfterRun(After(s)) == AfterRun(s)
  {
    Assoc(length, [s[0]], DigitRun(After(s)));
  }

  method ReadLength(m: string, i: nat) returns (n: nat, j: nat)
    ensures n == Length(From(m, i)) && From(m, j) == AfterRun(From(m, i))
  {
    var length := "";
    j := i;
    ghost var text, rest := From(m, i), From(m, i);
    while j < |m|
      invariant rest == From(m, j)
      invariant length + DigitRun(rest) == DigitRun(text)
      invariant AfterRun(rest) == AfterRun(text)
      decreases |m| - j
    {
      FromStep(m, j);
      if IsDigit(m[j]) {
        RunStep(length, rest);
        length := length + [m[j]];
      } else {
        break;
      }
      rest := After(rest);
      j := j + 1;
    }
    FromStep(m, j);
    assert length == DigitRun(text) by { assert length + "" == length; }
    RunIsDigits(text);
    n := Number(length);
  }

  method GetNameFromLength(m: string, i: nat) returns (name: string, j: nat)
    ensures name == NameAt(From(m, i)) && From(m, j) == AfterName(From(m, i))
  {
    var l, start := ReadLength(m, i);
    j := start;
    name := "";
    ghost var text, rest := From(m, start), From(m, start);
    ghost var left := l;
    while j < start + l
      invariant j + left == start + l && rest == From(m, j)
      invariant name + Take(rest, left) == Take(text, l)
      invariant Drop(rest, left) == Drop(text, l)
    {
      FromStep(m, j);
      TakeStep(name, rest, left);
      name := name + [CharAt(m, j)];
      rest := After(rest);
      left := left - 1;
      j := j + 1;
    }
    NothingTaken(name, rest);
  }

  lemma NothingTaken(name: string, rest: string)
    ensures name + Take(rest, 0) == name && Drop(rest, 0) == rest
  {
  }

  lemma TakeStep(name: string, s: string, n: nat)
    requires n > 0
    ensures (name + [First(s)]) + Take(After(s), n - 1) == name + Take(s, n)
    ensures Drop(After(s), n - 1) == Drop(s, n)
  {
    Assoc(name, [First(s)], Take(After(s), n - 1));
  }

  method ExtractType(m: string, cursor: nat) returns (ss: string, o: nat)
    ensures ss == Extract(From(m, cursor)).0 && From(m, o) == Extract(From(m, cursor)).1
    decreases |From(m, cursor)|, 1
  {
    o := cursor;
    ghost var whole := From(m, cursor);
    FromStep(m, o);
    var current := CharAt(m, o);
    var isArray := false;
    if current == 'A' {
      isArray := true;
      o := o + 1;
      FromStep(m, o);
      current := CharAt(m, o);
    }
    assert From(m, o) == Skip(whole, 'A');
    var isPointer := false;
    if current == 'P' {
      isPointer := true;
      o := o + 1;
    }
    assert From(m, o) == Skip(Skip(whole, 'A'), 'P');
    ss, o := ExtractInner(m, o);
    ghost var body := ss;
    if isArray {
      ss := ss + "[]";
    }
    if isPointer {
      ss := ss + "&";
    }
    assert ss == body + Suffix(isArray, isPointer);
  }

  /** The type inside the layers. */
  method ExtractInner(m: string, cursor: nat) returns (ss: string, o: nat)
    ensures ss == ExtractCore(From(m, cursor)).0 && From(m, o) == ExtractCore(From(m, cursor)).1
    decreases |From(m, cursor)|, 0
  {
    FromStep(m, cursor);
    var current := CharAt(m, cursor);
    o := cursor + 1;
    ss := "";
    if current == 'I' {
      ss := "int";
    } else if current == 'C' {
      ss := "char";
    } else if current == 'S' {
      ss := "str";
    } else if current == 'B' {
      ss := "bool";
    } else if current == 'F' {
      ss := "float";
    } else if current == 'U' {
      ss, o := GetNameFromLength(m, o);
    } else if current == 'T' {
      ss, o := GetNameFromLength(m, o);
      ss := ss + "<";
      var params, args;
      params, o := ReadLength(m, o);
      args, o := ExtractArguments(m, o, params);
      ss := ss + args;
      ss := ss + ">";
    }
  }

  lemma Regroup(a: string, b: string, c: string, d: string)
    ensures ((a + b) + c) + d == a + ((b + c) + d)
  {
    Assoc(a + b, c, d);
    Assoc(a, b, c + d);
    Assoc(b, c, d);
  }

  lemma ExtractAllStep(ss: string, s: string, n: nat)
    requires n > 0
    ensures var t := Extract(s);
      && (ss + t.0 + (if n > 1 then ", " else "")) + ExtractAll(t.1, n - 1).0 == ss + ExtractAll(s, n).0
      && ExtractAll(t.1, n - 1).1 == ExtractAll(s, n).1
  {
    var t := Extract(s);
    Regroup(ss, t.0, if n > 1 then ", " else "", ExtractAll(t.1, n - 1).0);
  }

  /** The loop over the arguments of a template type. */
  method ExtractArguments(m: string, cursor: nat, params: nat) returns (ss: string, o: nat)
    ensures ss == ExtractAll(From(m, cursor), params).0 && From(m, o) == ExtractAll(From(m, cursor), params).1
    decreases |From(m, cursor)|, 2
  {
    ss, o := "", cursor;
    ghost var whole, rest := From(m, cursor), From(m, cursor);
    var i := 0;
    while i < params
      invariant 0 <= i <= params && rest == From(m, o) && |rest| <= |whole|
      invariant ss + ExtractAll(rest, params - i).0 == ExtractAll(whole, params).0
      invariant ExtractAll(rest, params - i).1 == ExtractAll(whole, params).1
    {
      ExtractAllStep(ss, rest, params - i);
      var one;
      one, o := ExtractType(m, o);
      rest := From(m, o);
      ss := ss + one;
      if i + 1 < params {
        ss := ss + ", ";
      } else {
        assert ss + "" == ss;
      }
      i := i + 1;
    }
    assert ss + "" == ss;
  }

  method Unmangle(m: string) returns (function_: string)
    requires |m| >= 2
    ensures function_ == Readable(m)
  {
    var prefix := [m[0]];
    prefix := prefix + [m[1]];
    assert prefix == m[..2];
    var o: nat := 2;
    function_ := "";
    if prefix == "_M" {
      var owner;
      owner, o := ExtractType(m, o);
      function_ := function_ + (owner + "::");
      assert function_ == owner + "::";
    }
    var signature := UnmangleSignature(m, o);
    function_ := function_ + signature;
  }

  /** The name and the parameters. */
  method UnmangleSignature(m: string, start: nat) returns (s: string)
    ensures s == SignatureAt(From(m, start))
  {
    var name, o := GetNameFromLength(m, start);
    s := name;
    s := s + "(";
    var parameters := UnmangleParameters(m, o);
    s := s + parameters;
    s := s + ")";
  }

  lemma ParametersStep(ss: string, s: string)
    requires s != []
    ensures var t := Extract(s);
      (ss + t.0 + (if |t.1| > 1 then ", " else "")) + Parameters(t.1) == ss + Parameters(s)
  {
    var t := Extract(s);
    var separator := if |t.1| > 1 then ", " else "";
    assert Parameters(s) == t.0 + separator + Parameters(t.1);
  }

  /** The loop over the parameters. */
  method UnmangleParameters(m: string, start: nat) returns (s: string)
    ensures s == Parameters(From(m, start))
  {
    var o: nat := start;
    s := "";
    ghost var rest := From(m, o);
    while o < |m|
      invariant rest == From(m, o)
      invariant s + Parameters(rest) == Parameters(From(m, start))
      decreases |rest|
    {
      FromStep(m, o);
      ParametersStep(s, rest);
      var t;
      t, o := ExtractType(m, o);
      rest := From(m, o);
      s := s + t;
      assert |rest| > 1 <==> o + 1 < |m|;
      if o + 1 < |m| {
        s := s + ", ";
      } else {
        assert s + "" == s;
      }
    }
    FromStep(m, o);
    assert s + "" == s;
  }

  // ----- the types the parser can read -----

  /** Good names everywhere, and templates with arguments: the types programs can write. */
  predicate Sane(t: Type)
    decreases t, 1
  {
    match t
    case Standard(_, _) => true
    case Custom(n) => GoodName(n)
    case Template(n, xs) => GoodName(n) && xs != [] && SaneAll(xs)
    case Array(x, _) => Sane(x)
    case Pointer(x) => Sane(x)
  }

  predicate SaneAll(ts: seq<Type>)
    decreases ts, 0
  {
    ts == [] || (Sane(ts[0]) && SaneAll(ts[1..]))
  }

  /** A type without array or pointer layer on the outside. */
  predicate Plain(t: Type)
    decreases t, 0
  {
    match t
    case Standard(_, _) => true
    case Custom(n) => GoodName(n)
    case Template(n, xs) => GoodName(n) && xs != [] && ShapedAll(xs)
    case _ => false
  }

  /** At most one array layer outside at most one pointer layer, at every depth. */
  predicate Shaped(t: Type)
    decreases t, 1
  {
    match t
    case Pointer(x) => Plain(x)
    case Array(x, _) => Plain(x) || (x.Pointer? && Plain(x.target))
    case _ => Plain(t)
  }

  predicate ShapedAll(ts: seq<Type>)
    decreases ts, 0
  {
    ts == [] || (Shaped(ts[0]) && ShapedAll(ts[1..]))
  }

  predicate NoVoid(t: Type)
    decreases t, 1
  {
    match t
    case Standard(b, _) => !b.VOID?
    case Custom(_) => true
    case Template(_, xs) => NoVoidAll(xs)
    case Array(x, _) => NoVoid(x)
    case Pointer(x) => NoVoid(x)
  }

  predicate NoVoidAll(ts: seq<Type>)
    decreases ts, 0
  {
    ts == [] || (NoVoid(ts[0]) && NoVoidAll(ts[1..]))
  }

  /** The types the parser can read: such layers only, and no void. */
  predicate Layered(t: Type) { Shaped(t) && NoVoid(t) }

  predicate LayeredAll(ts: seq<Type>) { ShapedAll(ts) && NoVoidAll(ts) }

  function BaseName(b: Base, void: string): string {
    match b
    case INT => "int"
    case CHAR => "char"
    case STRING => "str"
    case BOOL => "bool"
    case FLOAT => "float"
    case VOID => void
  }

  /** The spelling of a type, with a word for void. */
  function SpellWith(t: Type, void: string): string
    decreases t, 1
  {
    match t
    case Standard(b, _) => BaseName(b, void)
    case Custom(n) => n
    case Template(n, xs) => n + "<" + SpellAllWith(xs, void) + ">"
    case Pointer(x) => SpellWith(x, void) + "&"
    case Array(x, _) => if x.Pointer? then SpellWith(x.target, void) + "[]&" else SpellWith(x, void) + "[]"
  }

  function SpellAllWith(ts: seq<Type>, void: string): string
    decreases ts, 0
  {
    if ts == [] then ""
    else SpellWith(ts[0], void) + (if |ts| > 1 then ", " else "") + SpellAllWith(ts[1..], void)
  }

  function Spell(t: Type): string { SpellWith(t, "void") }

  function SpellAll(ts: seq<Type>): string { SpellAllWith(ts, "void") }

  /** A parser that has no word for void falls short exactly where void occurs. */
  lemma {:induction false} VoidIsMissed(t: Type)
    ensures |SpellWith(t, "")| <= |Spell(t)|
    ensures |SpellWith(t, "")| == |Spell(t)| <==> NoVoid(t)
    ensures NoVoid(t) ==> SpellWith(t, "") == Spell(t)
    decreases t, 1
  {
    match t
    case Standard(_, _) =>
    case Custom(_) =>
    case Template(_, xs) => VoidIsMissedInAll(xs);
    case Pointer(x) => VoidIsMissed(x);
    case Array(x, _) => if x.Pointer? { VoidIsMissed(x.target); } else { VoidIsMissed(x); }
  }

  lemma {:induction false} VoidIsMissedInAll(ts: seq<Type>)
    ensures |SpellAllWith(ts, "")| <= |SpellAll(ts)|
    ensures |SpellAllWith(ts, "")| == |SpellAll(ts)| <==> NoVoidAll(ts)
    ensures NoVoidAll(ts) ==> SpellAllWith(ts, "") == SpellAll(ts)
    decreases ts, 0
  {
    if ts != [] {
      VoidIsMissed(ts[0]);
      VoidIsMissedInAll(ts[1..]);
    }
  }

  /** Reading back a run of digits. */
  lemma {:induction false} ReadRun(d: string, r: string)
    requires (forall c | c in d :: IsDigit(c)) && NoDigitFirst(r)
    ensures DigitRun(d + r) == d && AfterRun(d + r) == r
  {
    if d == [] {
      assert d + r == r;
    } else {
      assert (d + r)[0] == d[0] && d[0] in d && (d + r)[1..] == d[1..] + r;
      ReadRun(d[1..], r);
    }
  }

  lemma ReadNumber(n: nat, r: string)
    requires NoDigitFirst(r)
    ensures Length(Digits(n) + r) == n && AfterRun(Digits(n) + r) == r
  {
    ReadRun(Digits(n), r);
    NumberOfDigits(n);
  }

  lemma {:induction false} TakeAll(n: string, r: string)
    ensures Take(n + r, |n|) == n && Drop(n + r, |n|) == r
  {
    if n == [] {
      assert n + r == r;
    } else {
      assert (n + r)[0] == n[0] && (n + r)[1..] == n[1..] + r;
      TakeAll(n[1..], r);
    }
  }

  /** Reading back a counted name. */
  lemma ReadName(n: string, r: string)
    requires GoodName(n)
    ensures NameAt(Counted(n) + r) == n && AfterName(Counted(n) + r) == r
  {
    assert Counted(n) + r == Digits(|n|) + (n + r);
    ReadNumber(|n|, n + r);
    TakeAll(n, r);
  }

  lemma PlainStart(t: Type)
    requires Plain(t)
    ensures Letter(t) != 'A' && Letter(t) != 'P'
  {
  }

  /** What follows the letter of a template: its name, the number of its arguments, and these. */
  lemma TemplateReads(n: string, xs: seq<Type>, r: string)
    requires GoodName(n) && xs != []
    ensures var t := After(Mangle(Template(n, xs)) + r);
      NameAt(t) == n && Length(AfterName(t)) == |xs| && AfterRun(AfterName(t)) == MangleAll(xs) + r
  {
    var t := Template(n, xs);
    SplitMangle(t, r);
    var s := [Letter(t)] + (Tail(t) + r);
    assert After(s) == Tail(t) + r;
    Assoc(Counted(n), Digits(|xs|) + MangleAll(xs), r);
    Assoc(Digits(|xs|), MangleAll(xs), r);
    ReadName(n, Digits(|xs|) + (MangleAll(xs) + r));
    assert (MangleAll(xs) + r)[0] == MangleAll(xs)[0];
    ReadNumber(|xs|, MangleAll(xs) + r);
  }

  lemma FirstOfMangle(t: Type, r: string)
    ensures First(Mangle(t) + r) == Letter(t) && After(Mangle(t) + r) == Tail(t) + r
  {
    SplitMangle(t, r);
    assert ([Letter(t)] + (Tail(t) + r))[1..] == Tail(t) + r;
  }

  lemma {:induction false} CoreInverts(t: Type, r: string)
    requires Plain(t)
    ensures ExtractCore(Mangle(t) + r) == (SpellWith(t, ""), r)
    decreases t, 1
  {
    FirstOfMangle(t, r);
    match t
    case Standard(_, _) => assert "" + r == r;
    case Custom(n) => ReadName(n, r);
    case Template(n, xs) =>
      TemplateReads(n, xs, r);
      ExtractAllInverts(xs, r);
  }

  lemma SkipOne(c: char, d: char, s: string)
    ensures Skip([c] + s, d) == if c == d then s else [c] + s
    ensures First([c] + s) == c
  {
    assert ([c] + s)[1..] == s;
  }

  /** What the layers in front of a type add to its spelling. */
  lemma Layers(s: string, text: string, r: string)
    requires ExtractCore(s) == (text, r) && First(s) != 'A' && First(s) != 'P'
    ensures Extract(s) == (text, r)
    ensures Extract(['A'] + s) == (text + "[]", r)
    ensures Extract(['P'] + s) == (text + "&", r)
    ensures Extract(['A'] + (['P'] + s)) == (text + "[]&", r)
  {
    SkipOne('A', 'A', s);
    SkipOne('P', 'A', s);
    SkipOne('P', 'P', s);
    SkipOne('A', 'A', ['P'] + s);
    assert Suffix(false, false) == "" && text + "" == text;
    assert Suffix(true, false) == "[]" && Suffix(false, true) == "&" && Suffix(true, true) == "[]&";
  }

  lemma {:induction false} BareInverts(t: Type, r: string)
    requires Plain(t)
    ensures ExtractCore(Mangle(t) + r) == (SpellWith(t, ""), r)
    ensures First(Mangle(t) + r) != 'A' && First(Mangle(t) + r) != 'P'
    decreases t, 2
  {
    CoreInverts(t, r);
    SplitMangle(t, r);
    PlainStart(t);
  }

  /** On types with such layers the parser stops right after the mangled type, but spells void as nothing. */
  lemma {:induction false} ExtractInverts(t: Type, r: string)
    requires Shaped(t)
    ensures Extract(Mangle(t) + r) == (SpellWith(t, ""), r)
    decreases t, 3
  {
    var core :=
      if t.Pointer? then t.target
      else if !t.Array? then t
      else if t.elem.Pointer? then t.elem.target
      else t.elem;
    BareInverts(core, r);
    Layers(Mangle(core) + r, SpellWith(core, ""), r);
    if t.Array? || t.Pointer? { SplitMangle(t, r); }
    if t.Array? && t.elem.Pointer? { SplitMangle(t.elem, r); }
  }

  lemma {:induction false} ExtractAllInverts(ts: seq<Type>, r: string)
    requires ShapedAll(ts)
    ensures ExtractAll(MangleAll(ts) + r, |ts|) == (SpellAllWith(ts, ""), r)
    decreases ts, 0
  {
    if ts == [] {
      assert "" + r == r;
    } else {
      Assoc(Mangle(ts[0]), MangleAll(ts[1..]), r);
      ExtractInverts(ts[0], MangleAll(ts[1..]) + r);
      ExtractAllInverts(ts[1..], r);
    }
  }

  /** The parser yields the spelling of a mangled type and stops right after it, whatever follows. */
  lemma ExtractInvertsMangle(t: Type, r: string)
    requires Layered(t)
    ensures Extract(Mangle(t) + r) == (Spell(t), r)
  {
    ExtractInverts(t, r);
    VoidIsMissed(t);
  }

  // ----- and no others -----

  lemma {:induction false} MangleAllConcat(xs: seq<Type>, ys: seq<Type>)
    ensures MangleAll(xs + ys) == MangleAll(xs) + MangleAll(ys)
    decreases |xs|
  {
    if xs == [] {
      assert xs + ys == ys && "" + MangleAll(ys) == MangleAll(ys);
    } else {
      assert (xs + ys)[0] == xs[0] && (xs + ys)[1..] == xs[1..] + ys;
      MangleAllConcat(xs[1..], ys);
      Assoc(Mangle(xs[0]), MangleAll(xs[1..]), MangleAll(ys));
    }
  }

  lemma {:induction false} SaneConcat(xs: seq<Type>, ys: seq<Type>)
    requires SaneAll(xs) && SaneAll(ys)
    ensures SaneAll(xs + ys)
    decreases |xs|
  {
    if xs == [] {
      assert xs + ys == ys;
    } else {
      assert (xs + ys)[0] == xs[0] && (xs + ys)[1..] == xs[1..] + ys;
      SaneConcat(xs[1..], ys);
    }
  }

  /** Up to two layers are taken off, whatever they are. */
  function Uncovered(t: Type): Type {
    var u := if t.Array? then t.elem else t;
    if u.Pointer? then u.target else u
  }

  lemma UncoveredIsParsed(t: Type, r: string)
    ensures Extract(Mangle(t) + r).1 == ExtractCore(Mangle(Uncovered(t)) + r).1
  {
    var u := if t.Array? then t.elem else t;
    FirstOfMangle(t, r);
    FirstOfMangle(u, r);
    assert Skip(Mangle(t) + r, 'A') == Mangle(u) + r;
    assert Skip(Mangle(u) + r, 'P') == Mangle(Uncovered(t)) + r;
  }

  lemma UncoveredIsSane(t: Type)
    requires Sane(t)
    ensures Sane(Uncovered(t))
  {
  }

  lemma JustOne(t: Type)
    ensures MangleAll([t]) == Mangle(t) && SaneAll([t]) == Sane(t)
  {
    assert [t][1..] == [];
    assert Mangle(t) + "" == Mangle(t);
  }

  lemma ShapedIsCovered(t: Type)
    requires Sane(t) && Plain(Uncovered(t))
    ensures Shaped(t)
  {
  }

  lemma LayerLeaves(t: Type, r: string)
    requires t.Array? || t.Pointer?
    ensures ExtractCore(Mangle(t) + r).1 == MangleAll([if t.Array? then t.elem else t.target]) + r
  {
    FirstOfMangle(t, r);
    JustOne(if t.Array? then t.elem else t.target);
  }

  lemma LeafLeaves(t: Type, r: string)
    requires Sane(t) && (t.Standard? || t.Custom?)
    ensures ExtractCore(Mangle(t) + r).1 == MangleAll([]) + r
  {
    FirstOfMangle(t, r);
    assert "" + r == r;
    if t.Custom? { ReadName(t.name, r); }
  }

  lemma TemplateLeaves(n: string, xs: seq<Type>, r: string)
    requires GoodName(n) && xs != []
    ensures ExtractCore(Mangle(Template(n, xs)) + r).1 == ExtractAll(MangleAll(xs) + r, |xs|).1
  {
    FirstOfMangle(Template(n, xs), r);
    TemplateReads(n, xs, r);
  }

  /**
   * The parser leaves a list of whole types in front of what follows, and a
   * type it cannot read leaves something.
   */
  lemma {:induction false} LeftByOne(t: Type, r: string) returns (extra: seq<Type>)
    requires Sane(t)
    ensures SaneAll(extra) && Extract(Mangle(t) + r).1 == MangleAll(extra) + r
    ensures !Shaped(t) ==> extra != []
    decreases |Mangle(t)|, 0
  {
    var core := Uncovered(t);
    UncoveredIsSane(t);
    UncoveredIsParsed(t, r);
    match core
    case Array(x, _) =>
      extra := [x];
      LayerLeaves(core, r);
      JustOne(x);
    case Pointer(x) =>
      extra := [x];
      LayerLeaves(core, r);
      JustOne(x);
    case Template(n, xs) =>
      TemplateLeaves(n, xs, r);
      TemplateLength(t);
      extra := LeftByAll(xs, |xs|, r);
      ShapedFirstIsAll(xs, |xs|);
      if extra == [] { ShapedIsCovered(t); }
    case _ =>
      extra := [];
      LeafLeaves(core, r);
      ShapedIsCovered(t);
  }

  lemma TemplateLength(t: Type)
    requires Uncovered(t).Template?
    ensures |MangleAll(Uncovered(t).args)| < |Mangle(t)|
  {
  }

  ghost predicate ShapedFirst(ts: seq<Type>, n: nat) { forall i | 0 <= i < n && i < |ts| :: Shaped(ts[i]) }

  lemma {:induction false} ShapedFirstIsAll(ts: seq<Type>, n: nat)
    requires n == |ts|
    ensures ShapedFirst(ts, n) <==> ShapedAll(ts)
    decreases |ts|
  {
    if ts != [] {
      ShapedFirstIsAll(ts[1..], n - 1);
      ShapedFirstNext(ts, n);
    }
  }

  lemma ShapedFirstNext(ts: seq<Type>, n: nat)
    requires 0 < n <= |ts|
    ensures ShapedFirst(ts, n) <==> Shaped(ts[0]) && ShapedFirst(ts[1..], n - 1)
  {
    if Shaped(ts[0]) && ShapedFirst(ts[1..], n - 1) {
      forall i | 0 <= i < n ensures Shaped(ts[i]) { if i > 0 { assert ts[i] == ts[1..][i - 1]; } }
    }
  }

  lemma ExtractAllRest(s: string, n: nat)
    requires n > 0
    ensures ExtractAll(s, n).1 == ExtractAll(Extract(s).1, n - 1).1
  {
  }

  /** What one type leaves, and the types after it. */
  lemma NextList(ts: seq<Type>, first: seq<Type>, r: string)
    requires SaneAll(ts) && ts != [] && SaneAll(first)
    requires Extract(MangleAll(ts) + r).1 == MangleAll(first) + (MangleAll(ts[1..]) + r)
    ensures SaneAll(first + ts[1..]) && Extract(MangleAll(ts) + r).1 == MangleAll(first + ts[1..]) + r
    ensures |MangleAll(first + ts[1..])| < |MangleAll(ts)|
  {
    MangleAllConcat(first, ts[1..]);
    Assoc(MangleAll(first), MangleAll(ts[1..]), r);
    SaneConcat(first, ts[1..]);
    assert MangleAll(ts) + r != [];
    assert |Extract(MangleAll(ts) + r).1| < |MangleAll(ts) + r|;
  }

  lemma {:induction false} LeftByAll(ts: seq<Type>, n: nat, r: string) returns (extra: seq<Type>)
    requires SaneAll(ts) && n <= |ts|
    ensures SaneAll(extra) && ExtractAll(MangleAll(ts) + r, n).1 == MangleAll(extra) + r
    ensures |extra| >= |ts| - n && (|extra| == |ts| - n ==> ShapedFirst(ts, n))
    decreases |MangleAll(ts)|, 1
  {
    if n == 0 {
      extra := ts;
    } else {
      Assoc(Mangle(ts[0]), MangleAll(ts[1..]), r);
      var first := LeftByOne(ts[0], MangleAll(ts[1..]) + r);
      NextList(ts, first, r);
      ExtractAllRest(MangleAll(ts) + r, n);
      extra := LeftByAll(first + ts[1..], n - 1, r);
      if |extra| == |ts| - n {
        assert first + ts[1..] == ts[1..];
        ShapedFirstNext(ts, n);
      }
    }
  }

  /** Exactly these types are read back: with any other the text or the place where the parser stops is wrong. */
  lemma ExtractInvertsExactly(t: Type, r: string)
    requires Sane(t)
    ensures Extract(Mangle(t) + r) == (Spell(t), r) <==> Layered(t)
  {
    if Layered(t) {
      ExtractInvertsMangle(t, r);
    } else if Shaped(t) {
      ExtractInverts(t, r);
      VoidIsMissed(t);
    } else {
      var extra := LeftByOne(t, r);
      assert MangleAll(extra) != "";
    }
  }

  /** A template without arguments is read back exactly when no digit follows it: its count runs into one. */
  lemma EmptyTemplateRunsOn(n: string, r: string)
    requires GoodName(n)
    ensures var t := Template(n, []); Extract(Mangle(t) + r) == (Spell(t), r) <==> NoDigitFirst(r)
  {
    var t := Template(n, []);
    var z := Digits(0);
    var s := Mangle(t) + r;
    FirstOfMangle(t, r);
    assert Tail(t) == Counted(n) + z;
    Assoc(Counted(n), z, r);
    ReadName(n, z + r);
    var text := n + "<" + ExtractAll(AfterRun(z + r), Length(z + r)).0 + ">";
    assert ExtractCore(s) == (text, ExtractAll(AfterRun(z + r), Length(z + r)).1);
    Layers(s, text, ExtractCore(s).1);
    if NoDigitFirst(r) {
      ReadNumber(0, r);
      assert SpellAll([]) == "" && Spell(t) == n + "<" + "" + ">";
      assert text == Spell(t);
    } else {
      CountSwallows(r);
    }
  }

  lemma CountSwallows(r: string)
    requires !NoDigitFirst(r)
    ensures |AfterRun(Digits(0) + r)| < |r|
  {
    assert (Digits(0) + r)[1..] == r;
  }

  // ----- whole functions -----

  /** The parameters as the parser prints them: it forgets the last separator before a one-letter type. */
  function Printed(ts: seq<Type>): string {
    if ts == [] then ""
    else Spell(ts[0]) + (if |MangleAll(ts[1..])| > 1 then ", " else "") + Printed(ts[1..])
  }

  lemma {:induction false} ParametersInvert(ts: seq<Type>)
    requires LayeredAll(ts)
    ensures Parameters(MangleAll(ts)) == Printed(ts)
    decreases ts
  {
    if ts != [] {
      ExtractInvertsMangle(ts[0], MangleAll(ts[1..]));
      ParametersInvert(ts[1..]);
    }
  }

  /** Two or more types mangle to more than one character. */
  lemma {:induction false} MangleAllLength(ts: seq<Type>)
    ensures |ts| <= |MangleAll(ts)|
    ensures |ts| == 1 ==> MangleAll(ts) == Mangle(ts[0])
  {
    if ts != [] {
      MangleAllLength(ts[1..]);
      if |ts| == 1 { assert MangleAll(ts[1..]) == ""; }
    }
  }

  /** The separators are right unless the last of several parameters has a one-letter mangled name. */
  lemma {:induction false} PrintedIsSpelled(ts: seq<Type>)
    ensures Printed(ts) == SpellAll(ts) <==> |ts| < 2 || |Mangle(ts[|ts| - 1])| > 1
    ensures |Printed(ts)| <= |SpellAll(ts)|
    decreases ts
  {
    if ts != [] {
      var rest := ts[1..];
      PrintedIsSpelled(rest);
      MangleAllLength(rest);
      if |ts| > 1 {
        assert rest[|rest| - 1] == ts[|ts| - 1];
        var head := Spell(ts[0]) + ", ";
        if |MangleAll(rest)| > 1 {
          assert Printed(ts) == head + Printed(rest) && SpellAll(ts) == head + SpellAll(rest);
          SameTail(head, Printed(rest), SpellAll(rest));
        } else {
          assert |Printed(ts)| < |SpellAll(ts)|;
        }
      }
    }
  }

  lemma SameTail(h: string, a: string, b: string)
    ensures h + a == h + b <==> a == b
  {
    if h + a == h + b { SplitEqual(h, a, h, b); }
  }

  lemma SameHead(a: string, b: string, t: string)
    ensures a + t == b + t <==> a == b
  {
    if a + t == b + t { SplitEqual(a, t, b, t); }
  }

  function Head(f: Signature): string
    requires f.Free? || f.Member?
  {
    (if f.Member? then Spell(f.owner) + "::" else "") + f.name + "("
  }

  /** The signature as a reader would write it. */
  function Pretty(f: Signature): string
    requires f.Free? || f.Member?
  {
    Head(f) + SpellAll(f.params) + ")"
  }

  predicate ReadableSignature(f: Signature) {
    (f.Free? || f.Member?) && GoodName(f.name) && LayeredAll(f.params) && (f.Member? ==> Layered(f.owner))
  }

  lemma SignatureInverts(n: string, ps: seq<Type>)
    requires GoodName(n) && LayeredAll(ps)
    ensures SignatureAt(Counted(n) + MangleAll(ps)) == n + "(" + Printed(ps) + ")"
  {
    ReadName(n, MangleAll(ps));
    ParametersInvert(ps);
  }

  lemma ReadKind(k: char, rest: string)
    requires k == 'F' || k == 'M'
    ensures Readable(['_', k] + rest) ==
      if k == 'M' then Extract(rest).0 + "::" + SignatureAt(Extract(rest).1) else SignatureAt(rest)
  {
    var m := ['_', k] + rest;
    assert m[2..] == rest && m[..2] == ['_', k];
    assert "_M" == ['_', 'M'] && ['_', 'F'][1] != ['_', 'M'][1];
    assert "" + SignatureAt(rest) == SignatureAt(rest);
  }

  lemma ReadableInverts(f: Signature)
    requires ReadableSignature(f)
    ensures |MangleSignature(f)| >= 2
    ensures Readable(MangleSignature(f)) == Head(f) + Printed(f.params) + ")"
  {
    SplitSignature(f);
    ReadKind(KindLetter(f), Rest(f));
    SignatureInverts(f.name, f.params);
    var n, printed := f.name, Printed(f.params);
    if f.Member? {
      ExtractInvertsMangle(f.owner, Counted(n) + MangleAll(f.params));
      Qualified(Spell(f.owner) + "::", n, printed);
    } else {
      Qualified("", n, printed);
      assert "" + (n + "(" + printed + ")") == n + "(" + printed + ")";
    }
  }

  lemma Qualified(q: string, n: string, printed: string)
    ensures q + (n + "(" + printed + ")") == (q + n + "(") + printed + ")"
  {
  }

  /**
   * Unmangling a free or member function prints its signature exactly when it
   * has fewer than two parameters or its last one mangles to more than one
   * character.
   */
  lemma UnmangleInvertsMangle(f: Signature)
    requires ReadableSignature(f)
    ensures |MangleSignature(f)| >= 2
    ensures Readable(MangleSignature(f)) == Pretty(f) <==>
      |f.params| < 2 || |Mangle(f.params[|f.params| - 1])| > 1
  {
    ReadableInverts(f);
    PrintedIsSpelled(f.params);
    Assoc(Head(f), Printed(f.params), ")");
    Assoc(Head(f), SpellAll(f.params), ")");
    SameTail(Head(f), Printed(f.params) + ")", SpellAll(f.params) + ")");
    SameHead(Printed(f.params), SpellAll(f.params), ")");
  }

  lemma LayerIsNoCore(c: char, rest: string)
    requires c == 'A' || c == 'P'
    ensures ExtractCore([c] + rest) == ("", rest)
  {
    assert ([c] + rest)[1..] == rest;
  }

  /** Beyond those layers the parser goes wrong: a pointer to a pointer is cut short. */
  lemma NestedPointersAreCutShort(t: Type, r: string)
    ensures Extract(Mangle(Pointer(Pointer(t))) + r) == ("&", Mangle(t) + r)
  {
    var rest := Mangle(t) + r;
    var s := ['P'] + (['P'] + rest);
    assert Mangle(Pointer(Pointer(t))) + r == s;
    SkipOne('P', 'A', ['P'] + rest);
    SkipOne('P', 'P', ['P'] + rest);
    LayerIsNoCore('P', rest);
    assert "" + Suffix(false, true) == "&";
  }
}
