/** packages/sdk/src/zk-proof.ts: `canonicalJson` and `sortKeys`, against the reference meaning of a
    JSON value in which an object is an unordered map. */
module CanonicalText {
  import opened Json
  import Money
  import Text

  /* ----- the meaning of a value ----- */

  datatype Meaning =
    | MNull
    | MBool(b: bool)
    | MNum(lexeme: string)
    | MStr(s: string)
    | MArr(items: seq<Meaning>)
    | MObj(fields: map<string, Meaning>)

  function MeaningOf(v: Json): Meaning
    decreases v, 0
  {
    match v
    case Null => MNull
    case Bool(b) => MBool(b)
    case Num(l) => MNum(l)
    case Str(s) => MStr(s)
    case Arr(items) => MArr(MeaningsOf(items))
    case Obj(members) => MObj(Fields(members))
  }

  function MeaningsOf(items: seq<Json>): (r: seq<Meaning>)
    ensures |r| == |items|
    decreases items
  {
    if items == [] then [] else [MeaningOf(items[0])] + MeaningsOf(items[1..])
  }

  function Fields(members: seq<Member>): map<string, Meaning>
    decreases members
  {
    if members == [] then map[] else Fields(members[1..])[members[0].key := MeaningOf(members[0].value)]
  }

  ghost predicate HasKey(members: seq<Member>, key: string) {
    exists i :: 0 <= i < |members| && members[i].key == key
  }

  lemma {:induction false} FieldsDomain(members: seq<Member>, key: string)
    ensures key in Fields(members) <==> HasKey(members, key)
  {
    hide MeaningOf;
    if members != [] {
      FieldsDomain(members[1..], key);
      if HasKey(members[1..], key) {
        var i :| 0 <= i < |members[1..]| && members[1..][i].key == key;
        assert members[i + 1].key == key;
      }
      if HasKey(members, key) && members[0].key != key {
        var i :| 0 <= i < |members| && members[i].key == key;
        assert members[1..][i - 1].key == key;
      }
    }
  }

  /* ----- the order in which an ECMAScript object lists its own keys ----- */

  /** A canonical array index, below 2^32 - 1. */
  predicate IsIndex(key: string) {
    Text.AllDigits(key) && key == Money.Digits(Money.ParseNat(key)) && Money.ParseNat(key) < 4294967295
  }

  /** The place of a character in UTF-16 order: the surrogate pairs of the supplementary planes sort
      below U+E000 and above U+D7FF. */
  function Utf16Rank(c: char): nat {
    if c as int < 0xD800 then c as int
    else if c as int < 0x10000 then c as int + 0x100000
    else c as int - 0x10000 + 0xD800
  }

  predicate CodeUnitLess(a: string, b: string) {
    b != [] && (a == [] || Utf16Rank(a[0]) < Utf16Rank(b[0]) || (a[0] == b[0] && CodeUnitLess(a[1..], b[1..])))
  }

  /** `CodeUnits` is the default order of `Array.prototype.sort`; `OwnKeys` is the order an object lists
      keys in when they were added in code unit order: indices first, in numeric order, then the rest. */
  /** A character in UTF-16: itself, or the two surrogates of one beyond the first plane. */
  function Units(c: char): seq<int> {
    var n := c as int;
    if n < 0x10000 then [n] else [0xD800 + (n - 0x10000) / 0x400, 0xDC00 + (n - 0x10000) % 0x400]
  }

  /** The surrogates carry the twenty bits of the code point, the high half first. */
  lemma SurrogatesAre(c: char)
    requires c as int >= 0x10000
    ensures var u := Units(c);
            && |u| == 2 && 0xD800 <= u[0] < 0xDC00 <= u[1] < 0xE000
            && c as int == 0x10000 + 0x400 * (u[0] - 0xD800) + (u[1] - 0xDC00)
  {
  }

  function Utf16(s: string): seq<int> {
    if s == [] then [] else Units(s[0]) + Utf16(s[1..])
  }

  /** The order in which `sort` compares: a proper prefix is less, and else the first unit that differs decides. */
  ghost predicate UnitsLess(a: seq<int>, b: seq<int>) {
    a < b || exists i :: DiffersAt(a, b, i)
  }

  predicate DiffersAt(a: seq<int>, b: seq<int>, i: int) {
    0 <= i < |a| && i < |b| && a[..i] == b[..i] && a[i] < b[i]
  }

  /** `CodeUnitLess` is that order on the UTF-16 texts. */
  lemma {:induction false} CodeUnitLessIsUtf16(a: string, b: string)
    ensures CodeUnitLess(a, b) <==> UnitsLess(Utf16(a), Utf16(b))
  {
    hide UnitsLess, Units, Utf16Rank;
    if a == [] || b == [] {
      EmptyUnits(a, b);
    } else if a[0] == b[0] {
      CodeUnitLessIsUtf16(a[1..], b[1..]);
      SameStart(Units(a[0]), Utf16(a[1..]), Utf16(b[1..]));
    } else {
      if Utf16Rank(a[0]) == Utf16Rank(b[0]) { RankIsInjective(a[0], b[0]); }
      if Utf16Rank(a[0]) < Utf16Rank(b[0]) {
        FirstCharDecides(a[0], Utf16(a[1..]), b[0], Utf16(b[1..]));
      } else {
        FirstCharDecides(b[0], Utf16(b[1..]), a[0], Utf16(a[1..]));
      }
    }
  }

  lemma EmptyUnits(a: string, b: string)
    requires a == [] || b == []
    ensures UnitsLess(Utf16(a), Utf16(b)) <==> a == [] && b != []
  {
  }

  lemma SameStart(u: seq<int>, x: seq<int>, y: seq<int>)
    ensures UnitsLess(u + x, u + y) <==> UnitsLess(x, y)
  {
    var a, b, n := u + x, u + y, |u|;
    assert a[n..] == x && b[n..] == y && a[..n] == b[..n] == u;
    assert forall i :: 0 <= i < n ==> a[i] == b[i];
    if i :| DiffersAt(a, b, i) {
      assert x[..i - n] == a[..i][n..] && y[..i - n] == b[..i][n..];
      assert DiffersAt(x, y, i - n);
    }
    if i :| DiffersAt(x, y, i) {
      assert a[..n + i] == u + x[..i] && b[..n + i] == u + y[..i];
      assert DiffersAt(a, b, n + i);
    }
    if x < y { assert b[..|a|] == u + y[..|x|]; }
    if a < b { assert y[..|x|] == b[..|a|][n..]; }
  }

  lemma FirstCharDecides(c: char, x: seq<int>, d: char, y: seq<int>)
    requires Utf16Rank(c) < Utf16Rank(d)
    ensures UnitsLess(Units(c) + x, Units(d) + y) && !UnitsLess(Units(d) + y, Units(c) + x)
  {
    var a, b := Units(c) + x, Units(d) + y;
    var k := if a[0] == b[0] then 1 else 0;
    FirstDifference(c, d);
    assert a[k] < b[k] && a[..k] == b[..k];
    assert DiffersAt(a, b, k);
    assert forall i :: k < i <= |a| && i <= |b| ==> a[..i][k] == a[k] && b[..i][k] == b[k];
    assert |b| <= |a| ==> a[..|b|][k] == a[k];
  }

  lemma FirstDifference(c: char, d: char)
    requires Utf16Rank(c) < Utf16Rank(d)
    ensures if Units(c)[0] == Units(d)[0] then |Units(c)| == |Units(d)| == 2 && Units(c)[1] < Units(d)[1]
            else Units(c)[0] < Units(d)[0]
  {
  }

  /** The keys that an object lists first: the decimal texts of the numbers below 2^32 - 1. */
  lemma IndexesAre(key: string, n: nat)
    ensures IsIndex(Money.Digits(n)) <==> n < 4_294_967_295
    ensures IsIndex(key) ==> key == Money.Digits(Money.ParseNat(key))
  {
  }

  datatype KeyOrder = CodeUnits | OwnKeys

  predicate Before(order: KeyOrder, a: string, b: string) {
    if order.CodeUnits? then CodeUnitLess(a, b)
    else if IsIndex(a) && IsIndex(b) then Money.ParseNat(a) < Money.ParseNat(b)
    else if IsIndex(a) || IsIndex(b) then IsIndex(a)
    else CodeUnitLess(a, b)
  }

  lemma RankIsInjective(a: char, b: char)
    requires Utf16Rank(a) == Utf16Rank(b)
    ensures a == b
  {
  }

  lemma {:induction false} CodeUnitTotal(a: string, b: string)
    ensures a == b || CodeUnitLess(a, b) || CodeUnitLess(b, a)
    ensures !(CodeUnitLess(a, b) && CodeUnitLess(b, a))
    ensures CodeUnitLess(a, b) ==> a != b
  {
    hide Utf16Rank;
    if a != [] && b != [] {
      if Utf16Rank(a[0]) == Utf16Rank(b[0]) { RankIsInjective(a[0], b[0]); }
      CodeUnitTotal(a[1..], b[1..]);
      assert a == [a[0]] + a[1..] && b == [b[0]] + b[1..];
    }
  }

  lemma {:induction false} CodeUnitTransitive(a: string, b: string, c: string)
    requires CodeUnitLess(a, b) && CodeUnitLess(b, c)
    ensures CodeUnitLess(a, c)
  {
    hide Utf16Rank;
    if a != [] && a[0] == b[0] == c[0] && CodeUnitLess(a[1..], b[1..]) && CodeUnitLess(b[1..], c[1..]) {
      CodeUnitTransitive(a[1..], b[1..], c[1..]);
    }
  }

  lemma BeforeIsTotal(order: KeyOrder, a: string, b: string)
    ensures a == b || Before(order, a, b) || Before(order, b, a)
    ensures !(Before(order, a, b) && Before(order, b, a))
    ensures Before(order, a, b) ==> a != b
  {
    hide CodeUnitLess, Money.Digits, Money.ParseNat;
    CodeUnitTotal(a, b);
  }

  lemma BeforeIsTransitive(order: KeyOrder, a: string, b: string, c: string)
    requires Before(order, a, b) && Before(order, b, c)
    ensures Before(order, a, c)
  {
    hide CodeUnitLess, Money.Digits, Money.ParseNat;
    if order.CodeUnits? || (!IsIndex(a) && !IsIndex(b) && !IsIndex(c)) { CodeUnitTransitive(a, b, c); }
  }

  predicate InOrder(order: KeyOrder, members: seq<Member>) {
    forall i, j :: 0 <= i < j < |members| ==> Before(order, members[i].key, members[j].key)
  }

  /* ----- sortKeys ----- */

  const PROTO := "__proto__"

  function Insert(order: KeyOrder, m: Member, members: seq<Member>): seq<Member> {
    if members == [] || Before(order, m.key, members[0].key) then [m] + members
    else [members[0]] + Insert(order, m, members[1..])
  }

  function Ordered(order: KeyOrder, members: seq<Member>): seq<Member> {
    if members == [] then [] else Insert(order, members[0], Ordered(order, members[1..]))
  }

  /** The value `sortKeys` builds, members listed as its own keys are: assigning to `__proto__` sets
      the prototype of the fresh object and creates no member. */
  function SortKeys(v: Json): Json
    decreases v, 0
  {
    match v
    case Arr(items) => Arr(SortItems(items))
    case Obj(members) => Obj(Ordered(OwnKeys, SortMembers(members)))
    case _ => v
  }

  function SortItems(items: seq<Json>): (r: seq<Json>)
    ensures |r| == |items|
    decreases items
  {
    if items == [] then [] else [SortKeys(items[0])] + SortItems(items[1..])
  }

  function SortMembers(members: seq<Member>): seq<Member>
    decreases members
  {
    if members == [] then []
    else if members[0].key == PROTO then SortMembers(members[1..])
    else [Member(members[0].key, SortKeys(members[0].value))] + SortMembers(members[1..])
  }

  function CanonicalJson(v: Json): string {
    Stringify(SortKeys(v))
  }

  /** The value without its `__proto__` members, at every depth. */
  function Kept(v: Json): Json
    decreases v, 0
  {
    match v
    case Arr(items) => Arr(KeptItems(items))
    case Obj(members) => Obj(KeptMembers(members))
    case _ => v
  }

  function KeptItems(items: seq<Json>): seq<Json>
    decreases items
  {
    if items == [] then [] else [Kept(items[0])] + KeptItems(items[1..])
  }

  function KeptMembers(members: seq<Member>): seq<Member>
    decreases members
  {
    if members == [] then []
    else if members[0].key == PROTO then KeptMembers(members[1..])
    else [Member(members[0].key, Kept(members[0].value))] + KeptMembers(members[1..])
  }

  ghost predicate ProtoFree(v: Json)
    decreases v
  {
    match v
    case Arr(items) => forall i :: 0 <= i < |items| ==> ProtoFree(items[i])
    case Obj(members) => forall i :: 0 <= i < |members| ==> members[i].key != PROTO && ProtoFree(members[i].value)
    case _ => true
  }

  /* ----- what sorting keeps ----- */

  lemma {:induction false} InsertKeys(order: KeyOrder, m: Member, members: seq<Member>)
    ensures multiset(Insert(order, m, members)) == multiset(members) + multiset{m}
  {
    hide Before;
    if members != [] && !Before(order, m.key, members[0].key) {
      InsertKeys(order, m, members[1..]);
      assert members == [members[0]] + members[1..];
    }
  }

  lemma {:induction false} OrderedIsAPermutation(order: KeyOrder, members: seq<Member>)
    ensures multiset(Ordered(order, members)) == multiset(members)
  {
    hide Insert;
    if members != [] {
      OrderedIsAPermutation(order, members[1..]);
      InsertKeys(order, members[0], Ordered(order, members[1..]));
      assert members == [members[0]] + members[1..];
    }
  }

  lemma SameMembersSameKeys(a: seq<Member>, b: seq<Member>, key: string)
    requires multiset(a) == multiset(b) && HasKey(a, key)
    ensures HasKey(b, key)
  {
    var i :| 0 <= i < |a| && a[i].key == key;
    assert a[i] in multiset(b);
    var j :| 0 <= j < |b| && b[j] == a[i];
  }

  lemma {:induction false} InsertOrders(order: KeyOrder, m: Member, members: seq<Member>)
    requires InOrder(order, members) && !HasKey(members, m.key)
    ensures InOrder(order, Insert(order, m, members))
  {
    hide Before;
    if members != [] {
      BeforeIsTotal(order, m.key, members[0].key);
      var tail := members[1..];
      if Before(order, m.key, members[0].key) {
        forall j | 0 <= j < |members| ensures Before(order, m.key, members[j].key) {
          if j > 0 { BeforeIsTransitive(order, m.key, members[0].key, members[j].key); }
        }
      } else {
        InsertOrders(order, m, tail);
        InsertKeys(order, m, tail);
        var out := Insert(order, m, tail);
        forall j | 0 <= j < |out| ensures Before(order, members[0].key, out[j].key) {
          assert out[j] in multiset(tail) + multiset{m};
          if out[j] != m {
            assert out[j] in tail;
          }
        }
      }
    }
  }

  lemma {:induction false} OrderedIsInOrder(order: KeyOrder, members: seq<Member>)
    requires DistinctKeys(members)
    ensures InOrder(order, Ordered(order, members))
  {
    hide Before, Insert;
    if members != [] {
      var rest := Ordered(order, members[1..]);
      OrderedIsInOrder(order, members[1..]);
      OrderedIsAPermutation(order, members[1..]);
      if HasKey(rest, members[0].key) { SameMembersSameKeys(rest, members[1..], members[0].key); }
      InsertOrders(order, members[0], rest);
    }
  }

  lemma {:induction false} InsertFields(order: KeyOrder, m: Member, members: seq<Member>)
    requires !HasKey(members, m.key)
    ensures Fields(Insert(order, m, members)) == Fields(members)[m.key := MeaningOf(m.value)]
  {
    hide Before, MeaningOf;
    if members == [] || Before(order, m.key, members[0].key) {
      assert ([m] + members)[1..] == members;
    } else {
      InsertFields(order, m, members[1..]);
      assert ([members[0]] + Insert(order, m, members[1..]))[1..] == Insert(order, m, members[1..]);
    }
  }

  /** Reordering members does not change which map they denote. */
  lemma {:induction false} OrderedFields(order: KeyOrder, members: seq<Member>)
    requires DistinctKeys(members)
    ensures Fields(Ordered(order, members)) == Fields(members)
  {
    hide Insert, MeaningOf;
    if members != [] {
      var rest := Ordered(order, members[1..]);
      OrderedFields(order, members[1..]);
      OrderedIsAPermutation(order, members[1..]);
      if HasKey(rest, members[0].key) { SameMembersSameKeys(rest, members[1..], members[0].key); }
      InsertFields(order, members[0], rest);
    }
  }

  lemma HeadIsLeast(order: KeyOrder, members: seq<Member>, m: Member)
    requires InOrder(order, members) && m in members
    ensures members[0] == m || Before(order, members[0].key, m.key)
  {
  }

  lemma EqualHeads(order: KeyOrder, a: seq<Member>, b: seq<Member>)
    requires InOrder(order, a) && InOrder(order, b) && multiset(a) == multiset(b) && a != []
    ensures b != [] && a[0] == b[0]
  {
    hide Before, InOrder;
    assert a[0] in multiset(b);
    assert b[0] in multiset(b);
    HeadIsLeast(order, a, b[0]);
    HeadIsLeast(order, b, a[0]);
    BeforeIsTotal(order, a[0].key, b[0].key);
  }

  lemma TailsAgree<T>(a: seq<T>, b: seq<T>)
    requires a != [] && b != [] && a[0] == b[0] && multiset(a) == multiset(b)
    ensures multiset(a[1..]) == multiset(b[1..])
  {
    assert a == [a[0]] + a[1..] && b == [b[0]] + b[1..];
    assert multiset(a[1..]) == multiset(a) - multiset{a[0]};
  }

  /** `Ordered` is the only way to list the same members in order. */
  lemma {:induction false} OrderIsUnique(order: KeyOrder, a: seq<Member>, b: seq<Member>)
    requires InOrder(order, a) && InOrder(order, b) && multiset(a) == multiset(b)
    ensures a == b
    decreases |a|
  {
    hide Before;
    if a == [] {
      assert |multiset(b)| == |b|;
    } else {
      EqualHeads(order, a, b);
      TailsAgree(a, b);
      OrderIsUnique(order, a[1..], b[1..]);
      assert a == [a[0]] + a[1..] && b == [b[0]] + b[1..];
    }
  }

  /* ----- SortKeys against the meaning ----- */

  lemma {:induction false} KeysKept(members: seq<Member>, key: string)
    ensures HasKey(SortMembers(members), key) <==> HasKey(members, key) && key != PROTO
    ensures HasKey(KeptMembers(members), key) <==> HasKey(members, key) && key != PROTO
  {
    hide SortKeys, Kept;
    if members != [] {
      var head, tail := members[0], members[1..];
      KeysKept(tail, key);
      assert members == [head] + tail;
      HasKeyCons(head, tail, key);
      HasKeyCons(Member(head.key, SortKeys(head.value)), SortMembers(tail), key);
      HasKeyCons(Member(head.key, Kept(head.value)), KeptMembers(tail), key);
    }
  }

  lemma HasKeyCons(m: Member, members: seq<Member>, key: string)
    ensures HasKey([m] + members, key) <==> m.key == key || HasKey(members, key)
  {
    var all := [m] + members;
    if m.key == key { assert all[0].key == key; }
    if HasKey(members, key) {
      var i :| 0 <= i < |members| && members[i].key == key;
      assert all[i + 1].key == key;
    }
    if HasKey(all, key) && m.key != key {
      var i :| 0 <= i < |all| && all[i].key == key;
      assert members[i - 1].key == key;
    }
  }

  lemma {:induction false} DistinctKept(members: seq<Member>)
    requires DistinctKeys(members)
    ensures DistinctKeys(SortMembers(members))
  {
    hide SortKeys;
    if members != [] {
      var head, rest := members[0], SortMembers(members[1..]);
      DistinctKept(members[1..]);
      KeysKept(members[1..], head.key);
      if head.key != PROTO {
        assert !HasKey(rest, head.key);
      }
    }
  }

  /** Sorting changes the meaning of a value only by dropping its `__proto__` members. */
  lemma {:induction false} SortKeepsMeaning(v: Json)
    requires WellFormed(v)
    ensures MeaningOf(SortKeys(v)) == MeaningOf(Kept(v))
    decreases v, 0
  {
    hide Ordered, SortMembers, KeptMembers, SortItems, KeptItems, Fields, MeaningsOf;
    match v {
      case Arr(items) => SortItemsKeepsMeaning(items);
      case Obj(members) =>
        SortMembersKeepsMeaning(members);
        DistinctKept(members);
        OrderedFields(OwnKeys, SortMembers(members));
      case _ =>
    }
  }

  lemma {:induction false} SortItemsKeepsMeaning(items: seq<Json>)
    requires forall i :: 0 <= i < |items| ==> WellFormed(items[i])
    ensures MeaningsOf(SortItems(items)) == MeaningsOf(KeptItems(items))
    decreases items
  {
    hide SortKeys, Kept, MeaningOf, WellFormed;
    if items != [] {
      SortKeepsMeaning(items[0]);
      SortItemsKeepsMeaning(items[1..]);
    }
  }

  lemma {:induction false} SortMembersKeepsMeaning(members: seq<Member>)
    requires forall i :: 0 <= i < |members| ==> WellFormed(members[i].value)
    ensures Fields(SortMembers(members)) == Fields(KeptMembers(members))
    decreases members
  {
    hide SortKeys, Kept, MeaningOf, WellFormed;
    if members != [] {
      SortKeepsMeaning(members[0].value);
      SortMembersKeepsMeaning(members[1..]);
    }
  }

  /** Every object in the value lists its members in order. */
  ghost predicate Canonical(v: Json)
    decreases v
  {
    match v
    case Num(l) => IsNumberText(l)
    case Arr(items) => forall i :: 0 <= i < |items| ==> Canonical(items[i])
    case Obj(members) => InOrder(OwnKeys, members) && forall i :: 0 <= i < |members| ==> Canonical(members[i].value)
    case _ => true
  }

  lemma {:induction false} SortIsCanonical(v: Json)
    requires WellFormed(v)
    ensures Canonical(SortKeys(v))
    decreases v, 0
  {
    hide Ordered, SortMembers, SortItems, InOrder;
    match v {
      case Arr(items) => SortItemsAreCanonical(items);
      case Obj(members) =>
        var sorted := SortMembers(members);
        SortMembersAreCanonical(members);
        DistinctKept(members);
        OrderedIsInOrder(OwnKeys, sorted);
        OrderedIsAPermutation(OwnKeys, sorted);
        forall i | 0 <= i < |Ordered(OwnKeys, sorted)| ensures Canonical(Ordered(OwnKeys, sorted)[i].value) {
          assert Ordered(OwnKeys, sorted)[i] in multiset(sorted);
        }
      case _ =>
    }
  }

  lemma {:induction false} SortItemsAreCanonical(items: seq<Json>)
    requires forall i :: 0 <= i < |items| ==> WellFormed(items[i])
    ensures forall i :: 0 <= i < |items| ==> Canonical(SortItems(items)[i])
    decreases items
  {
    hide SortKeys, WellFormed, Canonical;
    if items != [] {
      SortIsCanonical(items[0]);
      SortItemsAreCanonical(items[1..]);
    }
  }

  lemma {:induction false} SortMembersAreCanonical(members: seq<Member>)
    requires forall i :: 0 <= i < |members| ==> WellFormed(members[i].value)
    ensures forall m :: m in SortMembers(members) ==> Canonical(m.value)
    decreases members
  {
    hide SortKeys, WellFormed, Canonical;
    if members != [] {
      SortIsCanonical(members[0].value);
      SortMembersAreCanonical(members[1..]);
    }
  }

  /** A canonical value is well-formed, so its text can be read back. */
  /** The keys of a canonical object, one after the other: those that are indices come first and by number, the
      others in ascending UTF-16 code unit order. */
  lemma CanonicalKeysAscend(v: Json, i: nat, j: nat)
    requires WellFormed(v) && v.Obj? && i < j < |SortKeys(v).members|
    ensures var a, b := SortKeys(v).members[i].key, SortKeys(v).members[j].key;
            && (IsIndex(a) && IsIndex(b) ==> Money.ParseNat(a) < Money.ParseNat(b))
            && (!IsIndex(a) ==> !IsIndex(b) && UnitsLess(Utf16(a), Utf16(b)))
            && a != PROTO && b != PROTO
  {
    SortIsCanonical(v);
    var members := SortKeys(v).members;
    var a, b := members[i].key, members[j].key;
    hide SortKeys, IsIndex;
    assert Before(OwnKeys, a, b);
    CodeUnitLessIsUtf16(a, b);
    NoProtoKept(v, i);
    NoProtoKept(v, j);
  }

  lemma NoProtoKept(v: Json, i: nat)
    requires v.Obj? && i < |SortKeys(v).members|
    ensures SortKeys(v).members[i].key != PROTO
  {
    var members := SortMembers(v.members);
    OrderedIsAPermutation(OwnKeys, members);
    var m := Ordered(OwnKeys, members)[i];
    hide Ordered, SortMembers;
    assert m in multiset(members);
    KeysKept(v.members, PROTO);
    assert HasKey(members, m.key);
  }

  lemma {:induction false} CanonicalIsWellFormed(v: Json)
    requires Canonical(v)
    ensures WellFormed(v)
    decreases v
  {
    hide Before;
    match v {
      case Arr(items) =>
        forall i | 0 <= i < |items| ensures WellFormed(items[i]) { CanonicalIsWellFormed(items[i]); }
      case Obj(members) =>
        forall i, j | 0 <= i < j < |members| ensures members[i].key != members[j].key {
          BeforeIsTotal(OwnKeys, members[i].key, members[j].key);
        }
        forall i | 0 <= i < |members| ensures WellFormed(members[i].value) { CanonicalIsWellFormed(members[i].value); }
      case _ =>
    }
  }

  /** A meaning has one canonical value. */
  lemma {:induction false} CanonicalIsUnique(v: Json, w: Json)
    requires Canonical(v) && Canonical(w) && MeaningOf(v) == MeaningOf(w)
    ensures v == w
    decreases v, 0
  {
    hide InOrder, Fields, MeaningsOf;
    match v {
      case Arr(items) => CanonicalItemsAreUnique(items, w.items);
      case Obj(members) => CanonicalMembersAreUnique(members, w.members);
      case _ =>
    }
  }

  lemma {:induction false} CanonicalItemsAreUnique(a: seq<Json>, b: seq<Json>)
    requires forall i :: 0 <= i < |a| ==> Canonical(a[i])
    requires forall i :: 0 <= i < |b| ==> Canonical(b[i])
    requires MeaningsOf(a) == MeaningsOf(b)
    ensures a == b
    decreases a
  {
    hide Canonical, MeaningOf;
    assert |a| == |b|;
    if a != [] {
      var x, y := MeaningsOf(a[1..]), MeaningsOf(b[1..]);
      assert MeaningsOf(a)[0] == MeaningOf(a[0]) && MeaningsOf(b)[0] == MeaningOf(b[0]);
      assert x == MeaningsOf(a)[1..] && y == MeaningsOf(b)[1..];
      CanonicalIsUnique(a[0], b[0]);
      CanonicalItemsAreUnique(a[1..], b[1..]);
      assert a == [a[0]] + a[1..] && b == [b[0]] + b[1..];
    }
  }

  lemma FieldsMissing(members: seq<Member>, key: string)
    requires InOrder(OwnKeys, members) && (members == [] || Before(OwnKeys, key, members[0].key))
    ensures key !in Fields(members)
  {
    hide Before, Fields;
    FieldsDomain(members, key);
    if HasKey(members, key) {
      var i :| 0 <= i < |members| && members[i].key == key;
      BeforeIsTotal(OwnKeys, key, members[0].key);
    }
  }

  /** In order, the first key of a map's listing is its least. */
  lemma FirstKeysAgree(a: seq<Member>, b: seq<Member>)
    requires InOrder(OwnKeys, a) && InOrder(OwnKeys, b) && Fields(a) == Fields(b) && a != []
    ensures b != [] && a[0].key == b[0].key
  {
    hide Before, InOrder, MeaningOf;
    assert a[0].key in Fields(b);
    FieldsDomain(b, a[0].key);
    BeforeIsTotal(OwnKeys, a[0].key, b[0].key);
    if Before(OwnKeys, a[0].key, b[0].key) { FieldsMissing(b, a[0].key); }
    if Before(OwnKeys, b[0].key, a[0].key) { FieldsMissing(a, b[0].key); }
  }

  lemma RestOfFields(members: seq<Member>)
    requires InOrder(OwnKeys, members) && members != []
    ensures Fields(members[1..]) == Fields(members) - {members[0].key}
  {
    hide Before, MeaningOf;
    FieldsMissing(members[1..], members[0].key);
  }

  lemma {:induction false} CanonicalMembersAreUnique(a: seq<Member>, b: seq<Member>)
    requires InOrder(OwnKeys, a) && InOrder(OwnKeys, b) && Fields(a) == Fields(b)
    requires forall i :: 0 <= i < |a| ==> Canonical(a[i].value)
    requires forall i :: 0 <= i < |b| ==> Canonical(b[i].value)
    ensures a == b
    decreases a
  {
    hide Before, Canonical, MeaningOf;
    if a == [] {
      if b != [] { FirstKeysAgree(b, a); }
    } else {
      FirstKeysAgree(a, b);
      RestOfFields(a);
      RestOfFields(b);
      assert Fields(a)[a[0].key] == MeaningOf(a[0].value) && Fields(b)[b[0].key] == MeaningOf(b[0].value);
      CanonicalIsUnique(a[0].value, b[0].value);
      CanonicalMembersAreUnique(a[1..], b[1..]);
      assert a == [a[0]] + a[1..] && b == [b[0]] + b[1..];
    }
  }

  /* ----- main results ----- */

  /** Reading the canonical text back gives the same value up to the order of keys and `__proto__` members. */
  lemma CanonicalTextReadsBack(v: Json)
    requires WellFormed(v)
    ensures Parse(CanonicalJson(v)).Some?
    ensures MeaningOf(Parse(CanonicalJson(v)).value) == MeaningOf(Kept(v))
  {
    hide SortKeys, MeaningOf, Kept, Parse, Stringify, WellFormed;
    SortKeepsMeaning(v);
    SortIsCanonical(v);
    CanonicalIsWellFormed(SortKeys(v));
    StringifyRoundTrip(SortKeys(v));
  }

  /** `canonicalJson` is a complete invariant of what it keeps: two values have one text exactly when
      they are equal, up to key order at every depth, once `__proto__` members are dropped. */
  lemma CanonicalJsonIsComplete(v: Json, w: Json)
    requires WellFormed(v) && WellFormed(w)
    ensures CanonicalJson(v) == CanonicalJson(w) <==> MeaningOf(Kept(v)) == MeaningOf(Kept(w))
  {
    hide SortKeys, MeaningOf, Kept, Parse, Stringify, WellFormed, Canonical;
    CanonicalTextReadsBack(v);
    CanonicalTextReadsBack(w);
    if MeaningOf(Kept(v)) == MeaningOf(Kept(w)) {
      SortKeepsMeaning(v);
      SortKeepsMeaning(w);
      SortIsCanonical(v);
      SortIsCanonical(w);
      CanonicalIsUnique(SortKeys(v), SortKeys(w));
    }
  }

  /** Nothing is dropped exactly when no key at any depth is `__proto__`. */
  lemma {:induction false} KeptIsWhole(v: Json)
    ensures ProtoFree(v) <==> Kept(v) == v
    decreases v, 0
  {
    hide KeptItems, KeptMembers;
    match v {
      case Arr(items) => KeptItemsAreWhole(items);
      case Obj(members) => KeptMembersAreWhole(members);
      case _ =>
    }
  }

  lemma {:induction false} KeptItemsAreWhole(items: seq<Json>)
    ensures (forall i :: 0 <= i < |items| ==> ProtoFree(items[i])) <==> KeptItems(items) == items
    decreases items
  {
    hide Kept, ProtoFree;
    if items != [] {
      var tail := items[1..];
      KeptIsWhole(items[0]);
      KeptItemsAreWhole(tail);
      assert items == [items[0]] + tail;
      assert KeptItems(items) == [Kept(items[0])] + KeptItems(tail);
      if KeptItems(items) == items {
        assert KeptItems(items)[0] == items[0] && KeptItems(items)[1..] == tail;
        forall i | 0 <= i < |items| ensures ProtoFree(items[i]) { if i > 0 { assert items[i] == tail[i - 1]; } }
      }
    }
  }

  lemma {:induction false} FewerKept(members: seq<Member>)
    ensures |KeptMembers(members)| <= |members|
  {
    hide Kept;
    if members != [] { FewerKept(members[1..]); }
  }

  lemma {:induction false} KeptMembersAreWhole(members: seq<Member>)
    ensures (forall i :: 0 <= i < |members| ==> members[i].key != PROTO && ProtoFree(members[i].value)) <==>
            KeptMembers(members) == members
    decreases members
  {
    hide Kept, ProtoFree;
    if members != [] {
      var tail := members[1..];
      KeptIsWhole(members[0].value);
      KeptMembersAreWhole(tail);
      FewerKept(tail);
      assert members == [members[0]] + tail;
      if members[0].key != PROTO {
        var head := Member(members[0].key, Kept(members[0].value));
        assert KeptMembers(members) == [head] + KeptMembers(tail);
        if KeptMembers(members) == members {
          assert KeptMembers(members)[0] == members[0] && KeptMembers(members)[1..] == tail;
          forall i | 0 <= i < |members| ensures members[i].key != PROTO && ProtoFree(members[i].value) {
            if i > 0 { assert members[i] == tail[i - 1]; }
          }
        }
      }
    }
  }

  /** The law its documentation promises, on the values it holds for. */
  lemma CanonicalJsonIdentifiesReorderings(v: Json, w: Json)
    requires WellFormed(v) && WellFormed(w) && ProtoFree(v) && ProtoFree(w)
    ensures CanonicalJson(v) == CanonicalJson(w) <==> MeaningOf(v) == MeaningOf(w)
  {
    hide SortKeys, MeaningOf, Kept, Stringify, WellFormed, ProtoFree;
    CanonicalJsonIsComplete(v, w);
    KeptIsWhole(v);
    KeptIsWhole(w);
  }

  /** A `__proto__` member, as `JSON.parse` creates it, leaves no trace in the text. */
  lemma ProtoMemberIsLost(value: Json)
    requires WellFormed(value)
    ensures CanonicalJson(Obj([Member(PROTO, value)])) == CanonicalJson(Obj([]))
    ensures MeaningOf(Obj([Member(PROTO, value)])) != MeaningOf(Obj([]))
  {
    assert SortMembers([Member(PROTO, value)]) == [];
    assert PROTO in Fields([Member(PROTO, value)]);
  }
}
