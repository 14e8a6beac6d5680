/** The members of a structure: their collection, their order, and where they lie. */
module MemberLayout {
  import opened Common
  import opened Mangling

  // ----- collecting members -----

  /** A member as written; arrays carry their length when it is an integer literal. */
  datatype Field = Single(name: string, ty: Type) | ArrayOf(name: string, element: Type, length: Option<nat>)

  datatype Error = AlreadyDefined | Multidimensional | NotFixedSize

  datatype Member = Member(name: string, ty: Type)

  function MemberOf(f: Field): Member {
    if f.Single? then Member.Member(f.name, f.ty) else Member.Member(f.name, Array(f.element, f.length))
  }

  /** What is wrong with a field on its own. */
  predicate WellFormed(f: Field) { f.ArrayOf? ==> !f.element.Array? && f.length.Some? }

  ghost predicate DistinctFields(fs: seq<Field>, n: nat)
    requires n <= |fs|
  {
    forall i, j | 0 <= i < j < n :: fs[i].name != fs[j].name
  }

  /** The member keeps the name and type of its field; an array keeps its element type and its length. */
  predicate IsMemberOf(m: Member, f: Field) {
    && m.name == f.name
    && (f.Single? ==> m.ty == f.ty)
    && (f.ArrayOf? ==> m.ty.Array? && m.ty.elem == f.element && m.ty.length == f.length)
  }

  /** Collection succeeds exactly for distinct names and well-formed arrays, and keeps every field in order. */
  method Collect(fs: seq<Field>) returns (r: Result<seq<Member>, Error>)
    ensures r.Success? <==> DistinctFields(fs, |fs|) && forall f | f in fs :: WellFormed(f)
    ensures r.Success? ==> |r.value| == |fs| && forall i | 0 <= i < |fs| :: IsMemberOf(r.value[i], fs[i])
    ensures r == Failure(AlreadyDefined) ==> !DistinctFields(fs, |fs|)
  {
    var names, members := [], [];
    for n := 0 to |fs|
      invariant |names| == |members| == n && DistinctFields(fs, n)
      invariant forall i | 0 <= i < n :: names[i] == fs[i].name && IsMemberOf(members[i], fs[i]) && WellFormed(fs[i])
    {
      var f := fs[n];
      assert f in fs;
      if f.name in names {
        var i :| 0 <= i < |names| && names[i] == f.name;
        return Failure(AlreadyDefined);
      }
      names := names + [f.name];
      if f.ArrayOf? && f.element.Array? { return Failure(Multidimensional); }
      if f.ArrayOf? && f.length.None? { return Failure(NotFixedSize); }
      members := members + [MemberOf(f)];
    }
    r := Success(members);
  }

  // ----- the order -----

  /** Characters and booleans take one byte. */
  predicate IsByte(t: Type) { t.Standard? && (t.base == CHAR || t.base == BOOL) }

  /** The comparator of the sort. */
  predicate Less(a: Member, b: Member) {
    if IsByte(a.ty) then false else if IsByte(b.ty) then true else false
  }

  /** It is the strict weak order the sort asks for. */
  lemma LessIsStrictWeakOrder(a: Member, b: Member, c: Member)
    ensures !Less(a, a)
    ensures Less(a, b) && Less(b, c) ==> Less(a, c)
    ensures !Less(a, b) && !Less(b, a) && !Less(b, c) && !Less(c, b) ==> !Less(a, c) && !Less(c, a)
  {
  }

  /** Whatever sorts by the comparator: a permutation that never puts a lesser member later. */
  ghost predicate IsSortOf(before: seq<Member>, after: seq<Member>) {
    multiset(before) == multiset(after) && forall i, j | 0 <= i < j < |after| :: !Less(after[j], after[i])
  }

  /** How many leading members are not bytes. */
  function Wide(ms: seq<Member>): (n: nat)
    ensures n <= |ms|
  {
    if ms == [] || IsByte(ms[0].ty) then 0 else 1 + Wide(ms[1..])
  }

  lemma {:induction false} WideSplits(ms: seq<Member>)
    ensures forall i | 0 <= i < Wide(ms) :: !IsByte(ms[i].ty)
    ensures Wide(ms) < |ms| ==> IsByte(ms[Wide(ms)].ty)
    decreases |ms|
  {
    if ms != [] && !IsByte(ms[0].ty) {
      WideSplits(ms[1..]);
      forall i | 0 < i < Wide(ms) ensures !IsByte(ms[i].ty) { assert ms[i] == ms[1..][i - 1]; }
    }
  }

  /** A list is sorted exactly when all its characters and booleans come last. */
  lemma BytesComeLast(before: seq<Member>, after: seq<Member>)
    requires multiset(before) == multiset(after)
    ensures IsSortOf(before, after) <==> forall i | Wide(after) <= i < |after| :: IsByte(after[i].ty)
  {
    WideSplits(after);
  }

  // ----- where members lie -----

  function Sum(ms: seq<Member>, size: Type -> nat, n: nat): nat
    requires n <= |ms|
  {
    if n == 0 then 0 else Sum(ms, size, n - 1) + size(ms[n - 1].ty)
  }

  lemma {:induction false} SumGrows(ms: seq<Member>, size: Type -> nat, n: nat, m: nat)
    requires n <= m <= |ms|
    ensures Sum(ms, size, n) <= Sum(ms, size, m)
    ensures n < m ==> Sum(ms, size, n) + size(ms[n].ty) <= Sum(ms, size, m)
    decreases m - n
  {
    if n + 1 < m { SumGrows(ms, size, n + 1, m); }
  }

  ghost predicate DistinctMembers(ms: seq<Member>) { forall i, j | 0 <= i < j < |ms| :: ms[i].name != ms[j].name }

  method SelfSize(ms: seq<Member>, size: Type -> nat) returns (total: nat)
    ensures total == Sum(ms, size, |ms|)
  {
    total := 0;
    for i := 0 to |ms|
      invariant total == Sum(ms, size, i)
    {
      total := total + size(ms[i].ty);
    }
  }

  /** The offset of a member is the size of those before it; asking for another name is an error. */
  method MemberOffset(ms: seq<Member>, size: Type -> nat, name: string) returns (offset: Option<nat>)
    ensures offset.None? <==> forall i | 0 <= i < |ms| :: ms[i].name != name
    ensures forall k | 0 <= k < |ms| && ms[k].name == name && DistinctMembers(ms) :: offset == Some(Sum(ms, size, k))
  {
    var current := 0;
    for i := 0 to |ms|
      invariant current == Sum(ms, size, i)
      invariant forall j | 0 <= j < i :: ms[j].name != name
    {
      if ms[i].name == name { return Some(current); }
      current := current + size(ms[i].ty);
    }
    offset := None;
  }

  /** The member whose type is answered for an offset: the first that starts at it or after it, or the last. */
  function IndexFor(ms: seq<Member>, size: Type -> nat, offset: int, from: nat): (i: nat)
    requires from < |ms|
    ensures from <= i < |ms|
    decreases |ms| - from
  {
    if offset <= Sum(ms, size, from) || from == |ms| - 1 then from else IndexFor(ms, size, offset, from + 1)
  }

  method MemberType(ms: seq<Member>, size: Type -> nat, offset: int) returns (t: Type)
    requires ms != []
    ensures t == ms[IndexFor(ms, size, offset, 0)].ty
  {
    var current := 0;
    for i := 0 to |ms|
      invariant current == Sum(ms, size, i)
      invariant i < |ms| ==> IndexFor(ms, size, offset, 0) == IndexFor(ms, size, offset, i)
      invariant i == |ms| ==> IndexFor(ms, size, offset, 0) == |ms| - 1
    {
      if offset <= current { return ms[i].ty; }
      current := current + size(ms[i].ty);
    }
    t := ms[|ms| - 1].ty;
  }

  lemma {:induction false} IndexIsFirst(ms: seq<Member>, size: Type -> nat, offset: int, from: nat, k: nat)
    requires from <= k < |ms|
    ensures IndexFor(ms, size, offset, from) == k <==>
      (k == |ms| - 1 || offset <= Sum(ms, size, k)) && (k == from || offset > Sum(ms, size, k - 1))
    decreases |ms| - from
  {
    if from < k {
      if offset <= Sum(ms, size, from) {
        SumGrows(ms, size, from, k - 1);
      } else {
        IndexIsFirst(ms, size, offset, from + 1, k);
        if k == from + 1 { assert offset > Sum(ms, size, k - 1); }
      }
    } else if from < |ms| - 1 && offset > Sum(ms, size, from) {
      assert IndexFor(ms, size, offset, from) >= from + 1;
    }
  }

  /**
   * Asking for the type at a member's own offset finds that member exactly
   * when it is the first or the one before it takes up room.
   */
  lemma TypeAtOwnOffset(ms: seq<Member>, size: Type -> nat, k: nat)
    requires k < |ms|
    ensures IndexFor(ms, size, Sum(ms, size, k), 0) == k <==> k == 0 || size(ms[k - 1].ty) > 0
  {
    IndexIsFirst(ms, size, Sum(ms, size, k), 0, k);
  }

  /** A byte lies within a member. */
  predicate Owns(ms: seq<Member>, size: Type -> nat, k: nat, b: int) {
    k < |ms| && Sum(ms, size, k) <= b < Sum(ms, size, k) + size(ms[k].ty)
  }

  /** Beyond the first byte of a member, the answer is the type of the next one, if there is one. */
  lemma TypeInsideIsNext(ms: seq<Member>, size: Type -> nat, k: nat, b: nat)
    requires Owns(ms, size, k, b)
    ensures IndexFor(ms, size, b + 1, 0) == if k + 1 < |ms| then k + 1 else k
  {
    if k + 1 < |ms| {
      IndexIsFirst(ms, size, b + 1, 0, k + 1);
    } else {
      if k > 0 { SumGrows(ms, size, k - 1, k); }
      IndexIsFirst(ms, size, b + 1, 0, k);
    }
  }

  /** Every byte of a structure belongs to a member. */
  lemma {:induction false} ByteHasOwner(ms: seq<Member>, size: Type -> nat, b: nat, n: nat) returns (k: nat)
    requires n <= |ms| && b < Sum(ms, size, n)
    ensures k < n && Owns(ms, size, k, b)
    decreases n
  {
    if b < Sum(ms, size, n - 1) {
      k := ByteHasOwner(ms, size, b, n - 1);
    } else {
      k := n - 1;
    }
  }

  /** And to no other one. */
  lemma OwnerIsUnique(ms: seq<Member>, size: Type -> nat, b: nat, j: nat, k: nat)
    requires Owns(ms, size, j, b) && Owns(ms, size, k, b)
    ensures j == k
  {
    if j < k {
      SumGrows(ms, size, j, k);
    } else if k < j {
      SumGrows(ms, size, k, j);
    }
  }

  /** No byte beyond the size of the structure belongs to it. */
  lemma OwnedIsWithin(ms: seq<Member>, size: Type -> nat, b: nat, k: nat)
    requires Owns(ms, size, k, b)
    ensures b < Sum(ms, size, |ms|)
  {
    SumGrows(ms, size, k, |ms|);
  }

  /** A whole number of words. */
  ghost predicate Whole(n: nat, word: nat) { exists q: nat :: n == word * q }

  lemma WholeSum(a: nat, b: nat, word: nat)
    requires Whole(a, word) && Whole(b, word)
    ensures Whole(a + b, word)
  {
    var x: nat :| a == word * x;
    var y: nat :| b == word * y;
    assert a + b == word * (x + y);
  }

  /**
   * Why bytes go last: when everything else takes whole words, every wide
   * member starts at a whole word.
   */
  lemma {:induction false} WideMembersAligned(ms: seq<Member>, size: Type -> nat, word: nat, k: nat)
    requires k <= Wide(ms) && forall i | 0 <= i < |ms| && !IsByte(ms[i].ty) :: Whole(size(ms[i].ty), word)
    ensures Whole(Sum(ms, size, k), word)
    decreases k
  {
    if k == 0 {
      assert Sum(ms, size, 0) == word * 0;
    } else {
      WideMembersAligned(ms, size, word, k - 1);
      WideSplits(ms);
      WholeSum(Sum(ms, size, k - 1), size(ms[k - 1].ty), word);
    }
  }

  // ----- the sizes of standard types -----

  /** The platform's table, for words of so many bytes: a string is an address and a length. */
  function StandardSize(b: Base, word: nat): nat {
    match b
    case STRING => 2 * word
    case INT => word
    case FLOAT => word
    case CHAR => 1
    case BOOL => 1
    case VOID => 0
  }

  /** The tables of the two platforms, in the order of the base types. */
  lemma PlatformTables(word: nat)
    ensures var sizes := [StandardSize(STRING, word), StandardSize(INT, word), StandardSize(CHAR, word),
                          StandardSize(BOOL, word), StandardSize(FLOAT, word), StandardSize(VOID, word)];
      (word == 4 ==> sizes == [8, 4, 1, 1, 4, 0]) && (word == 8 ==> sizes == [16, 8, 1, 1, 8, 0])
  {
  }

  /** The members that go last are those of less than a word; the others take whole words. */
  lemma BytesAreShort(t: Type, word: nat)
    requires t.Standard? && t.base != VOID && word > 1
    ensures IsByte(t) <==> StandardSize(t.base, word) < word
    ensures !IsByte(t) ==> Whole(StandardSize(t.base, word), word)
  {
    assert word == word * 1 && 2 * word == word * 2;
  }

  /** A member of standard type, or a pointer or array without length: a word. */
  predicate Scalar(t: Type) { (t.Standard? && t.base != VOID) || t.Pointer? || (t.Array? && t.length.None?) }

  ghost predicate SizesAgree(size: Type -> nat, word: nat) {
    && (forall t: Type | t.Standard? :: size(t) == StandardSize(t.base, word))
    && (forall t: Type | t.Pointer? || (t.Array? && t.length.None?) :: size(t) == word)
  }

  /** So in a structure of such members every member of a word or more starts at a whole word. */
  lemma ScalarsAligned(ms: seq<Member>, size: Type -> nat, word: nat, k: nat)
    requires word > 1 && SizesAgree(size, word) && (forall i | 0 <= i < |ms| :: Scalar(ms[i].ty)) && k <= Wide(ms)
    ensures Whole(Sum(ms, size, k), word)
  {
    forall i | 0 <= i < |ms| && !IsByte(ms[i].ty) ensures Whole(size(ms[i].ty), word) {
      assert Scalar(ms[i].ty);
      if ms[i].ty.Standard? { BytesAreShort(ms[i].ty, word); } else { assert word == word * 1; }
    }
    WideMembersAligned(ms, size, word, k);
  }

  /** An array of characters is no byte to the comparator: of length 1, it leaves the next member off the words. */
  lemma CharactersMoveTheNext(a: string, b: string, size: Type -> nat, word: nat)
    requires word > 1 && SizesAgree(size, word) && size(Array(Standard(CHAR, false), Some(1))) == 1 * 1 + word
    ensures
      var ms := [Member.Member(a, Array(Standard(CHAR, false), Some(1))), Member.Member(b, Standard(INT, false))];
      IsSortOf(ms, ms) && !Whole(Sum(ms, size, 1), word)
  {
    var ms := [Member.Member(a, Array(Standard(CHAR, false), Some(1))), Member.Member(b, Standard(INT, false))];
    assert Sum(ms, size, 1) == Sum(ms, size, 0) + size(ms[0].ty) == word + 1;
    forall q: nat ensures word + 1 != word * q {
      if q >= 2 { assert word * (q - 2) >= 0; }
    }
  }
}
