/** The mangled names the compiler writes down: they are those of the library functions they stand for. */
module Names {
  import opened Common
  import opened Mangling
  import opened Demangling
  import Semantics

  function Of(b: Base): Type { Standard(b, false) }

  /** The name of a free function. */
  function NameOf(name: string, params: seq<Type>): string { MangleSignature(Free(name, params)) }

  lemma CountedShort(name: string)
    requires |name| < 10
    ensures Counted(name) == [Digit(|name|)] + name
  {
  }

  lemma NoParameters()
    ensures MangleAll([]) == ""
  {
  }

  lemma OneParameter(t: Type)
    ensures MangleAll([t]) == Mangle(t)
  {
    assert [t][1..] == [];
    NoParameters();
  }

  lemma TwoParameters(t: Type, u: Type)
    ensures MangleAll([t, u]) == Mangle(t) + Mangle(u)
  {
    assert [t, u][1..] == [u];
    OneParameter(u);
  }

  /** The comparison a switch on strings calls. */
  lemma StringComparison()
    ensures Semantics.STR_EQUALS == NameOf("str_equals", [Of(STRING), Of(STRING)])
  {
    TwoParameters(Of(STRING), Of(STRING));
    assert Digits(10) == Digits(1) + [Digit(0)] && Digits(1) == [Digit(1)];
  }

  /** The functions of the library whose names are fixed. */
  lemma PrintAndRead()
    ensures NameOf("print", [Of(STRING)]) == "_F5printS"
    ensures NameOf("print", [Of(CHAR)]) == "_F5printC"
    ensures NameOf("print", [Of(INT)]) == "_F5printI"
    ensures NameOf("print", [Of(FLOAT)]) == "_F5printF"
    ensures NameOf("read_char", []) == "_F9read_char"
  {
    OneParameter(Of(STRING));
    OneParameter(Of(CHAR));
    OneParameter(Of(INT));
    OneParameter(Of(FLOAT));
    NoParameters();
    CountedShort("print");
    CountedShort("read_char");
  }

  /** The name of `free` is that of a function on a pointer to int, although it is declared with an int. */
  lemma Memory()
    ensures NameOf("alloc", [Of(INT)]) == "_F5allocI"
    ensures NameOf("free", [Pointer(Of(INT))]) == Semantics.FREE
    ensures NameOf("free", [Of(INT)]) != Semantics.FREE
  {
    OneParameter(Of(INT));
    OneParameter(Pointer(Of(INT)));
    CountedShort("alloc");
    CountedShort("free");
  }

  lemma MainAndTime()
    ensures NameOf("main", []) == "_F4main"
    ensures NameOf("main", [Array(Of(STRING), None)]) == "_F4mainAS"
    ensures NameOf("time", [Array(Of(INT), None)]) == "_F4timeAI"
    ensures NameOf("duration", [Array(Of(INT), None), Array(Of(INT), None)]) == "_F8durationAIAI"
  {
    NoParameters();
    OneParameter(Array(Of(STRING), None));
    OneParameter(Array(Of(INT), None));
    TwoParameters(Array(Of(INT), None), Array(Of(INT), None));
    CountedShort("main");
    CountedShort("time");
    CountedShort("duration");
  }

  /** The letters of the other types, and of the other kinds of functions. */
  lemma KindsOfNames()
    ensures NameOf("f", [Of(BOOL)]) == "_F1fB"
    ensures MangleSignature(Member(Custom("A"), "f", [Of(FLOAT)])) == "_MU1A1fF"
    ensures MangleSignature(Constructor(Custom("A"), [])) == "_CU1A"
    ensures MangleSignature(Destructor(Template("A", [Of(VOID)]))) == "_DT1A1V"
  {
    NoParameters();
    OneParameter(Of(BOOL));
    OneParameter(Of(FLOAT));
    OneParameter(Of(VOID));
    CountedShort("f");
    CountedShort("A");
    assert Digits(1) == [Digit(1)];
  }

  // ----- read back -----

  predicate ReadsAs(n: string, ts: seq<Type>, words: string) {
    |NameOf(n, ts)| >= 2 && Readable(NameOf(n, ts)) == n + "(" + words + ")"
  }

  lemma ReadBack(n: string, t: Type, words: string)
    requires GoodName(n) && Layered(t) && Spell(t) == words
    ensures ReadsAs(n, [t], words)
  {
    var f := Free(n, [t]);
    ReadableInverts(f);
    PrintedOne(t);
    assert Head(f) == n + "(";
  }

  lemma PrintedOne(t: Type)
    ensures Printed([t]) == Spell(t)
  {
    assert [t][1..] == [];
    NoParameters();
    assert Printed([]) == "";
  }

  /** What the unmangler prints for a function of one parameter. */
  lemma PrintedTypes(n: string)
    requires GoodName(n)
    ensures ReadsAs(n, [Of(INT)], "int") && ReadsAs(n, [Of(CHAR)], "char") && ReadsAs(n, [Of(FLOAT)], "float")
    ensures ReadsAs(n, [Of(STRING)], "str") && ReadsAs(n, [Of(BOOL)], "bool")
  {
    ReadBack(n, Of(INT), "int");
    ReadBack(n, Of(CHAR), "char");
    ReadBack(n, Of(FLOAT), "float");
    ReadBack(n, Of(STRING), "str");
    ReadBack(n, Of(BOOL), "bool");
  }

  /** Layers follow the type they are around. */
  lemma PrintedLayers(n: string, b: Base)
    requires GoodName(n) && b != VOID
    ensures ReadsAs(n, [Pointer(Of(b))], Spell(Of(b)) + "&") && ReadsAs(n, [Array(Of(b), None)], Spell(Of(b)) + "[]")
  {
    ReadBack(n, Pointer(Of(b)), Spell(Of(b)) + "&");
    ReadBack(n, Array(Of(b), None), Spell(Of(b)) + "[]");
  }

  lemma PrintedTwo(t: Type)
    requires |Mangle(t)| == 1
    ensures Printed([t, t]) == Spell(t) + Spell(t)
  {
    assert [t, t][1..] == [t];
    OneParameter(t);
    PrintedOne(t);
    assert Spell(t) + "" == Spell(t);
  }

  /** With two one-letter types, as in the comparison of strings, the separator is lost. */
  lemma PrintedPair(n: string, b: Base)
    requires GoodName(n) && b != VOID
    ensures ReadsAs(n, [Of(b), Of(b)], Spell(Of(b)) + Spell(Of(b)))
  {
    var f := Free(n, [Of(b), Of(b)]);
    assert f.params[1..] == [Of(b)] && [Of(b)][1..] == [];
    assert ShapedAll([]) && NoVoidAll([]) && LayeredAll(f.params);
    ReadableInverts(f);
    PrintedTwo(Of(b));
    assert Head(f) == n + "(";
  }
}
