/** packages/sdk/src/zk-proof.ts: `sortKeys` as the loop that fills a fresh object, and commitments
    opened by revealing the payload. SHA-256 of the UTF-8 text is the parameter `sha`. */
module ZkProof {
  import opened Json
  import opened CanonicalText
  import Money
  import Text

  /* ----- sortKeys, step by step ----- */

  /** An index key is listed before every other key and among the indices by value. */
  function PutIndex(own: seq<Member>, m: Member): seq<Member>
    requires IsIndex(m.key)
  {
    if own == [] || !IsIndex(own[0].key) || Money.ParseNat(m.key) < Money.ParseNat(own[0].key) then [m] + own
    else [own[0]] + PutIndex(own[1..], m)
  }

  /** `sorted[key] = value` on an object that has no such key yet, as a listing of its own members. */
  function Put(own: seq<Member>, m: Member): seq<Member> {
    if m.key == PROTO then own else if IsIndex(m.key) then PutIndex(own, m) else own + [m]
  }

  lemma {:induction false} PutIndexIsInsert(own: seq<Member>, m: Member)
    requires IsIndex(m.key)
    ensures PutIndex(own, m) == Insert(OwnKeys, m, own)
  {
    hide IsIndex;
    if own != [] { PutIndexIsInsert(own[1..], m); }
  }

  ghost predicate AllBelow(own: seq<Member>, key: string) {
    forall i :: 0 <= i < |own| ==> CodeUnitLess(own[i].key, key)
  }

  /** Adding keys in code unit order keeps the listing in own-key order. */
  lemma PutKeepsOrder(own: seq<Member>, m: Member)
    requires InOrder(OwnKeys, own) && AllBelow(own, m.key)
    ensures InOrder(OwnKeys, Put(own, m))
    ensures multiset(Put(own, m)) == multiset(own) + (if m.key == PROTO then multiset{} else multiset{m})
  {
    hide IsIndex, CodeUnitLess, PutIndex, Insert;
    if m.key != PROTO && IsIndex(m.key) {
      forall i | 0 <= i < |own| ensures own[i].key != m.key { CodeUnitTotal(own[i].key, m.key); }
      PutIndexIsInsert(own, m);
      InsertOrders(OwnKeys, m, own);
      InsertKeys(OwnKeys, m, own);
    }
  }

  lemma {:induction false} SortMembersAppend(a: seq<Member>, b: seq<Member>)
    ensures SortMembers(a + b) == SortMembers(a) + SortMembers(b)
  {
    hide SortKeys;
    if a == [] {
      assert a + b == b;
    } else {
      assert (a + b)[0] == a[0] && (a + b)[1..] == a[1..] + b;
      SortMembersAppend(a[1..], b);
    }
  }

  lemma {:induction false} SortMembersInsert(order: KeyOrder, m: Member, members: seq<Member>)
    ensures multiset(SortMembers(Insert(order, m, members))) ==
            multiset(SortMembers([m])) + multiset(SortMembers(members))
  {
    hide Before, SortMembers;
    if members == [] || Before(order, m.key, members[0].key) {
      SortMembersAppend([m], members);
    } else {
      SortMembersInsert(order, m, members[1..]);
      SortMembersAppend([members[0]], Insert(order, m, members[1..]));
      SortMembersAppend([members[0]], members[1..]);
      assert members == [members[0]] + members[1..];
    }
  }

  lemma {:induction false} SortMembersOrdered(order: KeyOrder, members: seq<Member>)
    ensures multiset(SortMembers(Ordered(order, members))) == multiset(SortMembers(members))
  {
    hide Insert, SortMembers;
    if members != [] {
      SortMembersOrdered(order, members[1..]);
      SortMembersInsert(order, members[0], Ordered(order, members[1..]));
      SortMembersAppend([members[0]], members[1..]);
      assert members == [members[0]] + members[1..];
    }
  }

  lemma SortMembersSingle(m: Member)
    ensures SortMembers([m]) == if m.key == PROTO then [] else [Member(m.key, SortKeys(m.value))]
  {
  }

  lemma OrderedMembers(order: KeyOrder, members: seq<Member>, i: nat)
    requires i < |Ordered(order, members)|
    ensures Ordered(order, members)[i] in members
  {
    OrderedIsAPermutation(order, members);
    assert Ordered(order, members)[i] in multiset(members);
  }

  /** What the loop over `Object.keys(record).sort()` has built after `i` keys. */
  ghost predicate Built(keys: seq<Member>, i: nat, own: seq<Member>)
    requires i <= |keys|
  {
    InOrder(OwnKeys, own) && multiset(own) == multiset(SortMembers(keys[..i])) &&
    forall j :: i <= j < |keys| ==> AllBelow(own, keys[j].key)
  }

  lemma BuiltNext(keys: seq<Member>, i: nat, own: seq<Member>)
    requires i < |keys| && InOrder(CodeUnits, keys) && Built(keys, i, own)
    ensures Built(keys, i + 1, Put(own, Member(keys[i].key, SortKeys(keys[i].value))))
  {
    hide SortKeys, SortMembers, CodeUnitLess, Put, IsIndex;
    var m := Member(keys[i].key, SortKeys(keys[i].value));
    var next := Put(own, m);
    PutKeepsOrder(own, m);
    assert keys[..i + 1] == keys[..i] + [keys[i]];
    SortMembersAppend(keys[..i], [keys[i]]);
    SortMembersSingle(keys[i]);
    forall j | i + 1 <= j < |keys| ensures AllBelow(next, keys[j].key) {
      assert Before(CodeUnits, keys[i].key, keys[j].key);
      forall x | 0 <= x < |next| ensures CodeUnitLess(next[x].key, keys[j].key) {
        assert next[x] in multiset(next);
        assert next[x] in multiset(own) || next[x] == m;
      }
    }
  }

  lemma BuiltAll(members: seq<Member>, own: seq<Member>)
    requires DistinctKeys(members) && Built(Ordered(CodeUnits, members), |Ordered(CodeUnits, members)|, own)
    ensures own == Ordered(OwnKeys, SortMembers(members))
  {
    hide SortKeys, SortMembers, InOrder, Ordered;
    var keys := Ordered(CodeUnits, members);
    assert keys[..|keys|] == keys;
    SortMembersOrdered(CodeUnits, members);
    DistinctKept(members);
    OrderedIsAPermutation(OwnKeys, SortMembers(members));
    OrderedIsInOrder(OwnKeys, SortMembers(members));
    OrderIsUnique(OwnKeys, own, Ordered(OwnKeys, SortMembers(members)));
  }

  /** `sortKeys`: the object filled key by key lists exactly the sorted members. */
  method SortKeysInto(v: Json) returns (sorted: Json)
    requires WellFormed(v)
    ensures sorted == SortKeys(v)
    decreases v
  {
    hide Ordered, SortMembers, Put, Built, CodeUnitLess, IsIndex;
    match v {
      case Arr(items) =>
        var mapped: seq<Json> := [];
        for i := 0 to |items|
          invariant mapped == SortItems(items[..i])
        {
          var item := SortKeysInto(items[i]);
          SortItemsAppend(items, i);
          mapped := mapped + [item];
        }
        assert items[..|items|] == items;
        sorted := Arr(mapped);
      case Obj(members) =>
        var keys := Ordered(CodeUnits, members);
        OrderedIsInOrder(CodeUnits, members);
        var own: seq<Member> := [];
        NothingBuilt(keys);
        for i := 0 to |keys|
          invariant Built(keys, i, own)
        {
          OrderedMembers(CodeUnits, members, i);
          var j :| 0 <= j < |members| && members[j] == keys[i];
          var value := SortKeysInto(members[j].value);
          BuiltNext(keys, i, own);
          own := Put(own, Member(keys[i].key, value));
        }
        BuiltAll(members, own);
        sorted := Obj(own);
      case _ => sorted := v;
    }
  }

  lemma NothingBuilt(keys: seq<Member>)
    ensures Built(keys, 0, [])
  {
  }

  lemma {:induction false} SortItemsAppend(items: seq<Json>, i: nat)
    requires i < |items|
    ensures SortItems(items[..i + 1]) == SortItems(items[..i]) + [SortKeys(items[i])]
  {
    hide SortKeys;
    if i > 0 {
      SortItemsAppend(items[1..], i - 1);
      assert items[1..][..i] == items[..i + 1][1..] && items[1..][..i - 1] == items[..i][1..];
    } else {
      assert items[..1][1..] == [] && items[..0] == [];
    }
  }

  /* ----- commitments ----- */

  type Sha = string -> seq<bv16>

  const ZK_PROOF_SCHEME := "sha256-commitment-opening"

  datatype OpeningProof = OpeningProof(scheme: string, payload: Json, blinding: string)

  function Preimage(payload: Json, blinding: string): string {
    blinding + CanonicalJson(payload)
  }

  function CommitmentOf(sha: Sha, payload: Json, blinding: string): seq<bv16> {
    sha(Preimage(payload, blinding))
  }

  ghost predicate Opens(sha: Sha, commitment: seq<bv16>, proof: OpeningProof) {
    proof.scheme == ZK_PROOF_SCHEME && proof.blinding != [] && commitment != [] &&
    commitment == CommitmentOf(sha, proof.payload, proof.blinding)
  }

  /** One step of the comparison: `diff |= a ^ b`. */
  function Differ(diff: bv16, a: bv16, b: bv16): bv16 {
    diff | (a ^ b)
  }

  lemma XorIsZero(a: bv16, b: bv16)
    ensures a ^ b == 0 <==> a == b
  {
  }

  lemma OrIsZero(a: bv16, b: bv16)
    ensures a | b == 0 <==> a == 0 && b == 0
  {
  }

  lemma OrOfXor(diff: bv16, a: bv16, b: bv16)
    ensures Differ(diff, a, b) == 0 <==> diff == 0 && a == b
  {
    XorIsZero(a, b);
    OrIsZero(diff, a ^ b);
  }

  ghost predicate AgreeUpTo<T>(a: seq<T>, b: seq<T>, i: nat)
    requires i <= |a| == |b|
  {
    forall k :: 0 <= k < i ==> a[k] == b[k]
  }

  lemma AgreeExtends<T>(a: seq<T>, b: seq<T>, i: nat)
    requires i < |a| == |b|
    ensures AgreeUpTo(a, b, i + 1) <==> AgreeUpTo(a, b, i) && a[i] == b[i]
  {
  }

  lemma AgreeNext(a: seq<bv16>, b: seq<bv16>, i: nat, diff: bv16)
    requires i < |a| == |b| && (diff == 0 <==> AgreeUpTo(a, b, i))
    ensures Differ(diff, a[i], b[i]) == 0 <==> AgreeUpTo(a, b, i + 1)
  {
    hide AgreeUpTo, Differ;
    OrOfXor(diff, a[i], b[i]);
    AgreeExtends(a, b, i);
  }

  /** The constant-time loop: its accumulated difference is zero exactly when the digests are equal. */
  method SameDigest(expected: seq<bv16>, commitment: seq<bv16>) returns (same: bool)
    requires |expected| == |commitment|
    ensures same <==> expected == commitment
  {
    hide AgreeUpTo, Differ;
    var diff: bv16 := 0;
    assert AgreeUpTo(expected, commitment, 0) by { AgreeAtStart(expected, commitment); }
    for i := 0 to |expected|
      invariant diff == 0 <==> AgreeUpTo(expected, commitment, i)
    {
      AgreeNext(expected, commitment, i, diff);
      diff := Differ(diff, expected[i], commitment[i]);
    }
    AgreeAtEnd(expected, commitment);
    return diff == 0;
  }

  lemma AgreeAtStart<T>(a: seq<T>, b: seq<T>)
    requires |a| == |b|
    ensures AgreeUpTo(a, b, 0)
  {
  }

  lemma AgreeAtEnd<T>(a: seq<T>, b: seq<T>)
    requires |a| == |b|
    ensures AgreeUpTo(a, b, |a|) <==> a == b
  {
  }

  /** `verifyOpeningProof` accepts exactly the openings of the commitment. */
  method VerifyOpeningProof(sha: Sha, commitment: seq<bv16>, proof: OpeningProof) returns (valid: bool)
    ensures valid <==> Opens(sha, commitment, proof)
    ensures valid <==>
            && proof.scheme == "sha256-commitment-opening" && proof.blinding != "" && commitment != []
            && commitment == sha(proof.blinding + CanonicalJson(proof.payload))
  {
    if commitment == [] || proof.scheme != ZK_PROOF_SCHEME || proof.blinding == [] { return false; }
    var expected := CommitmentOf(sha, proof.payload, proof.blinding);
    if |expected| != |commitment| { return false; }
    valid := SameDigest(expected, commitment);
  }

  ghost predicate Collision(sha: Sha, x: string, y: string) {
    x != y && sha(x) == sha(y)
  }

  /** Honest openings verify, whichever order the keys of the payload arrive in. */
  lemma HonestOpeningsVerify(sha: Sha, payload: Json, received: Json, blinding: string)
    requires WellFormed(payload) && WellFormed(received) && MeaningOf(Kept(payload)) == MeaningOf(Kept(received))
    requires blinding != [] && sha(Preimage(payload, blinding)) != []
    ensures Opens(sha, CommitmentOf(sha, payload, blinding), OpeningProof(ZK_PROOF_SCHEME, received, blinding))
  {
    hide CanonicalJson, MeaningOf, Kept;
    CanonicalJsonIsComplete(payload, received);
  }

  lemma SplitAtLength(a: string, b: string, x: string, y: string)
    requires a + x == b + y && |a| == |b|
    ensures a == b && x == y
  {
    assert (a + x)[..|a|] == a && (b + y)[..|b|] == b;
    assert (a + x)[|a|..] == x && (b + y)[|b|..] == y;
  }

  /** Binding: two accepted openings of one commitment, with blindings of one length, open it to the
      same payload, or their two preimages collide. */
  lemma OpeningsBind(sha: Sha, commitment: seq<bv16>, p: OpeningProof, q: OpeningProof)
    requires WellFormed(p.payload) && WellFormed(q.payload)
    requires Opens(sha, commitment, p) && Opens(sha, commitment, q)
    requires |p.blinding| == |q.blinding|
    ensures var x, y := Preimage(p.payload, p.blinding), Preimage(q.payload, q.blinding);
            (p.blinding == q.blinding && MeaningOf(Kept(p.payload)) == MeaningOf(Kept(q.payload))) ||
            (x != y && sha(x) == sha(y))
  {
    hide CanonicalJson, MeaningOf, Kept, WellFormed;
    if Preimage(p.payload, p.blinding) == Preimage(q.payload, q.blinding) {
      SplitAtLength(p.blinding, q.blinding, CanonicalJson(p.payload), CanonicalJson(q.payload));
      CanonicalJsonIsComplete(p.payload, q.payload);
    }
  }

  /* ----- exactly which payloads can share a commitment ----- */

  predicate IsSuffix(a: string, b: string) {
    |a| <= |b| && b[|b| - |a|..] == a
  }

  /** Two openings that the verifier recomputes to one digest whatever the hash is. */
  predicate Meet(v: Json, x: string, w: Json, y: string) {
    x != [] && y != [] && Preimage(v, x) == Preimage(w, y)
  }

  lemma SharedEnd(a: string, x: string, b: string, y: string)
    requires a + x == b + y && |a| <= |b|
    ensures x == b[|a|..] + y
  {
    assert (a + x)[|a|..] == x && (b + y)[|a|..] == b[|a|..] + y;
  }

  lemma PreimagesShareAnEnd(v: Json, x: string, w: Json, y: string)
    requires Preimage(v, x) == Preimage(w, y) && |x| <= |y|
    ensures CanonicalJson(v) == y[|x|..] + CanonicalJson(w) && IsSuffix(CanonicalJson(w), CanonicalJson(v))
  {
    hide CanonicalJson;
    SharedEnd(x, CanonicalJson(v), y, CanonicalJson(w));
  }

  /** The blindings under which a payload and one whose text ends in its text have one preimage. */
  lemma SuffixMeets(v: Json, w: Json, pad: string)
    requires IsSuffix(CanonicalJson(w), CanonicalJson(v)) && pad != []
    ensures var cut := CanonicalJson(v)[..|CanonicalJson(v)| - |CanonicalJson(w)|]; Meet(v, pad, w, pad + cut)
  {
    hide CanonicalJson;
    var cv, cw := CanonicalJson(v), CanonicalJson(w);
    var cut := cv[..|cv| - |cw|];
    assert cv == cut + cw;
    assert pad + (cut + cw) == (pad + cut) + cw;
  }

  /** Exactly when binding fails: some blindings give two payloads one preimage if and only if the
      canonical text of one is a suffix of the other's. */
  lemma MeetExactly(v: Json, w: Json)
    ensures (exists x, y :: Meet(v, x, w, y)) <==>
            IsSuffix(CanonicalJson(v), CanonicalJson(w)) || IsSuffix(CanonicalJson(w), CanonicalJson(v))
  {
    hide CanonicalJson, Preimage;
    if x, y :| Meet(v, x, w, y) {
      if |x| <= |y| { PreimagesShareAnEnd(v, x, w, y); } else { PreimagesShareAnEnd(w, y, v, x); }
    }
    if IsSuffix(CanonicalJson(w), CanonicalJson(v)) { SuffixMeets(v, w, "0"); }
    if IsSuffix(CanonicalJson(v), CanonicalJson(w)) {
      SuffixMeets(w, v, "0");
      var cut := CanonicalJson(w)[..|CanonicalJson(w)| - |CanonicalJson(v)|];
      assert Meet(v, "0" + cut, w, "0");
    }
  }

  /** So two accepted openings of one commitment, of any payloads under any blindings, are one opening, or
      collide, or the text of one payload properly ends in that of the other. */
  lemma OpeningsBindUpToSuffix(sha: Sha, commitment: seq<bv16>, p: OpeningProof, q: OpeningProof)
    requires WellFormed(p.payload) && WellFormed(q.payload)
    requires Opens(sha, commitment, p) && Opens(sha, commitment, q)
    ensures (p.blinding == q.blinding && MeaningOf(Kept(p.payload)) == MeaningOf(Kept(q.payload))) ||
            Collision(sha, Preimage(p.payload, p.blinding), Preimage(q.payload, q.blinding)) ||
            (|p.blinding| < |q.blinding| && IsSuffix(CanonicalJson(q.payload), CanonicalJson(p.payload))) ||
            (|q.blinding| < |p.blinding| && IsSuffix(CanonicalJson(p.payload), CanonicalJson(q.payload)))
  {
    hide CanonicalJson, MeaningOf, Kept, WellFormed, Preimage;
    if Preimage(p.payload, p.blinding) == Preimage(q.payload, q.blinding) {
      if |p.blinding| < |q.blinding| {
        PreimagesShareAnEnd(p.payload, p.blinding, q.payload, q.blinding);
      } else if |q.blinding| < |p.blinding| {
        PreimagesShareAnEnd(q.payload, q.blinding, p.payload, p.blinding);
      } else {
        OpeningsBind(sha, commitment, p, q);
      }
    }
  }

  predicate IsHexText(s: string) {
    forall i :: 0 <= i < |s| ==> '0' <= s[i] <= '9' || 'a' <= s[i] <= 'f'
  }

  /** `a` is a non-empty hexadecimal text followed by `b`. */
  predicate HexThen(a: string, b: string) {
    |b| < |a| && IsSuffix(b, a) && IsHexText(a[..|a| - |b|])
  }

  /** Both payloads are numbers, and one lexeme is hexadecimal digits followed by the other. */
  predicate NumbersRunOn(v: Json, w: Json) {
    v.Num? && w.Num? && (HexThen(v.lexeme, w.lexeme) || HexThen(w.lexeme, v.lexeme))
  }

  /** How each kind of canonical text starts. */
  lemma CanonicalStart(v: Json)
    requires WellFormed(v)
    ensures var c := CanonicalJson(v);
            && c != []
            && (v.Num? ==> c == v.lexeme && (Text.IsDigit(c[0]) || c[0] == '-') &&
                           forall i :: 0 <= i < |c| ==> IsNumberChar(c[i]))
            && (!v.Num? ==> c[0] in ['n', 't', 'f', '"', '[', '{'])
            && (!v.Num? && c[0] == 'f' ==> c == "false")
  {
  }

  /** A canonical text that hexadecimal digits turn into another belongs to a number, as does that other. */
  lemma HexThenNumbers(v: Json, w: Json, h: string)
    requires WellFormed(v) && WellFormed(w) && h != [] && IsHexText(h)
    requires CanonicalJson(v) == h + CanonicalJson(w)
    ensures v.Num? && w.Num? && HexThen(v.lexeme, w.lexeme)
  {
    hide CanonicalJson, WellFormed;
    var cv, cw := CanonicalJson(v), CanonicalJson(w);
    CanonicalStart(v);
    CanonicalStart(w);
    assert cv[0] == h[0] && cv[|h|] == cw[0];
    assert cv[..|cv| - |cw|] == h && cv[|cv| - |cw|..] == cw;
    if v.Num? { assert IsNumberChar(cw[0]); }
  }

  lemma HexMeetNumbers(v: Json, x: string, w: Json, y: string)
    requires WellFormed(v) && WellFormed(w) && Meet(v, x, w, y) && IsHexText(x) && IsHexText(y)
    ensures (x == y && CanonicalJson(v) == CanonicalJson(w)) || NumbersRunOn(v, w)
  {
    hide CanonicalJson, WellFormed, HexThen, Preimage, IsSuffix;
    if |x| < |y| {
      PreimagesShareAnEnd(v, x, w, y);
      HexThenNumbers(v, w, y[|x|..]);
    } else if |y| < |x| {
      PreimagesShareAnEnd(w, y, v, x);
      HexThenNumbers(w, v, x[|y|..]);
    } else {
      assert x + CanonicalJson(v) == y + CanonicalJson(w) by { PreimageIs(v, x); PreimageIs(w, y); }
      SplitAtLength(x, y, CanonicalJson(v), CanonicalJson(w));
    }
  }

  lemma PreimageIs(v: Json, x: string)
    ensures Preimage(v, x) == x + CanonicalJson(v)
  {
  }

  /** Hexadecimal blindings of any lengths, as `randomBlinding` makes them, give two payloads one preimage
      if and only if the payloads are one, or are numbers one of which is hexadecimal digits followed by
      the other. */
  lemma HexMeetExactly(v: Json, w: Json)
    requires WellFormed(v) && WellFormed(w)
    ensures (exists x, y :: Meet(v, x, w, y) && IsHexText(x) && IsHexText(y)) <==>
            MeaningOf(Kept(v)) == MeaningOf(Kept(w)) || NumbersRunOn(v, w)
  {
    hide CanonicalJson, WellFormed, MeaningOf, Kept, Preimage, HexThen, IsHexText;
    CanonicalJsonIsComplete(v, w);
    if x, y :| Meet(v, x, w, y) && IsHexText(x) && IsHexText(y) { HexMeetNumbers(v, x, w, y); }
    if CanonicalJson(v) == CanonicalJson(w) { SamePayloadMeets(v, w); }
    if v.Num? && w.Num? && HexThen(v.lexeme, w.lexeme) { var y := RunOnMeets(v, w); }
    if v.Num? && w.Num? && HexThen(w.lexeme, v.lexeme) {
      var x := RunOnMeets(w, v);
      assert Meet(v, x, w, "0");
    }
  }

  lemma SamePayloadMeets(v: Json, w: Json)
    requires CanonicalJson(v) == CanonicalJson(w)
    ensures Meet(v, "0", w, "0") && IsHexText("0")
  {
  }

  lemma RunOnMeets(v: Json, w: Json) returns (y: string)
    requires WellFormed(v) && WellFormed(w) && v.Num? && w.Num? && HexThen(v.lexeme, w.lexeme)
    ensures Meet(v, "0", w, y) && IsHexText("0") && IsHexText(y)
  {
    y := "0" + v.lexeme[..|v.lexeme| - |w.lexeme|];
    hide CanonicalJson, WellFormed;
    CanonicalStart(v);
    CanonicalStart(w);
    SuffixMeets(v, w, "0");
  }

  /** So with hexadecimal blindings two accepted openings of one commitment are one opening, or collide, or
      are such numbers. */
  lemma HexBlindingsBind(sha: Sha, commitment: seq<bv16>, p: OpeningProof, q: OpeningProof)
    requires WellFormed(p.payload) && WellFormed(q.payload)
    requires Opens(sha, commitment, p) && Opens(sha, commitment, q)
    requires IsHexText(p.blinding) && IsHexText(q.blinding)
    ensures (p.blinding == q.blinding && MeaningOf(Kept(p.payload)) == MeaningOf(Kept(q.payload))) ||
            Collision(sha, Preimage(p.payload, p.blinding), Preimage(q.payload, q.blinding)) ||
            NumbersRunOn(p.payload, q.payload)
  {
    hide CanonicalJson, MeaningOf, Kept, WellFormed, Preimage, HexThen, IsHexText;
    if Preimage(p.payload, p.blinding) == Preimage(q.payload, q.blinding) {
      HexMeetNumbers(p.payload, p.blinding, q.payload, q.blinding);
      CanonicalJsonIsComplete(p.payload, q.payload);
    }
  }

  /** Openings that meet do open one commitment, under every hash with non-empty digests. */
  lemma MeetingOpens(sha: Sha, v: Json, x: string, w: Json, y: string)
    requires Meet(v, x, w, y) && sha(Preimage(v, x)) != []
    ensures Opens(sha, CommitmentOf(sha, v, x), OpeningProof(ZK_PROOF_SCHEME, v, x))
    ensures Opens(sha, CommitmentOf(sha, v, x), OpeningProof(ZK_PROOF_SCHEME, w, y))
    ensures !Collision(sha, Preimage(v, x), Preimage(w, y))
  {
  }

  /** For instance two numbers under hexadecimal blindings, and two strings under others. */
  lemma LengthsMatter()
    ensures Meet(Num("2"), "a1", Num("12"), "a") && NumbersRunOn(Num("2"), Num("12"))
    ensures Meet(Str("a"), "x\"\\", Str("\"a"), "x")
  {
  }

}
