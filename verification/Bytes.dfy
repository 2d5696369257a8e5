/** Byte strings, 32-byte digests, the byte order used by `Buffer.compare`, and
    the hexadecimal text form in which digests cross the SDK's interface. */
module Bytes {
  import opened Wrappers

  newtype byte = x: int | 0 <= x < 256

  type Bytes = seq<byte>

  const DIGEST_LENGTH := 32

  type Digest = b: Bytes | |b| == DIGEST_LENGTH witness seq(DIGEST_LENGTH, _ => 0)

  /** SHA-256 is a parameter everywhere: any function from byte strings to digests. */
  type Sha = Bytes -> Digest

  /** Two different inputs with one digest. */
  predicate IsCollision(sha: Sha, pair: (Bytes, Bytes)) {
    pair.0 != pair.1 && sha(pair.0) == sha(pair.1)
  }

  /** `Buffer.compare(a, b) <= 0`: lexicographic order on bytes. */
  predicate LessEq(a: Bytes, b: Bytes) {
    a == [] || (b != [] && (a[0] < b[0] || (a[0] == b[0] && LessEq(a[1..], b[1..]))))
  }

  lemma {:induction false} LessEqIsTotalOrder(a: Bytes, b: Bytes)
    ensures LessEq(a, b) || LessEq(b, a)
    ensures LessEq(a, b) && LessEq(b, a) ==> a == b
  {
    if a != [] && b != [] && a[0] == b[0] {
      LessEqIsTotalOrder(a[1..], b[1..]);
      assert a == [a[0]] + a[1..] && b == [b[0]] + b[1..];
    }
  }

  /** Said without recursion: a prefix comes first, and else the first byte that differs decides. */
  lemma {:induction false} LessEqIsLexicographic(a: Bytes, b: Bytes)
    ensures LessEq(a, b) <==>
            a <= b || exists i :: 0 <= i < |a| && i < |b| && a[..i] == b[..i] && a[i] < b[i]
  {
    if a != [] && b != [] && a[0] == b[0] {
      LessEqIsLexicographic(a[1..], b[1..]);
      assert a == [a[0]] + a[1..] && b == [b[0]] + b[1..];
      if i :| 0 <= i < |a[1..]| && i < |b[1..]| && a[1..][..i] == b[1..][..i] && a[1..][i] < b[1..][i] {
        assert a[..i + 1] == [a[0]] + a[1..][..i] && b[..i + 1] == [b[0]] + b[1..][..i];
        assert a[i + 1] < b[i + 1];
      }
      if i :| 0 <= i < |a| && i < |b| && a[..i] == b[..i] && a[i] < b[i] {
        assert a[1..][..i - 1] == a[..i][1..] && b[1..][..i - 1] == b[..i][1..];
        assert a[1..][i - 1] < b[1..][i - 1];
      }
    } else if a != [] && b != [] && a[0] < b[0] {
      assert a[..0] == b[..0];
    }
  }

  /* ----- hexadecimal ----- */

  predicate IsHexDigit(c: char) {
    '0' <= c <= '9' || 'a' <= c <= 'f' || 'A' <= c <= 'F'
  }

  function HexValue(c: char): (v: int)
    requires IsHexDigit(c)
    ensures 0 <= v < 16
  {
    if '0' <= c <= '9' then c as int - '0' as int
    else if 'a' <= c <= 'f' then c as int - 'a' as int + 10
    else c as int - 'A' as int + 10
  }

  function HexChar(v: int): (c: char)
    requires 0 <= v < 16
    ensures IsHexDigit(c) && HexValue(c) == v && Lower(c) == c
  {
    if v < 10 then ('0' as int + v) as char else ('a' as int + v - 10) as char
  }

  /** `toLowerCase` on ASCII. No character outside ASCII lowers to a hexadecimal digit, so
      this is all the decoder below can observe. */
  function Lower(c: char): char {
    if 'A' <= c <= 'Z' then (c as int + 32) as char else c
  }

  function LowerAll(s: string): string {
    seq(|s|, i requires 0 <= i < |s| => Lower(s[i]))
  }

  predicate IsHash(s: string) {
    |s| == 2 * DIGEST_LENGTH && forall i :: 0 <= i < |s| ==> IsHexDigit(s[i])
  }

  function HexByte(s: string, i: nat): byte
    requires IsHash(s) && i < DIGEST_LENGTH
  {
    (16 * HexValue(s[2 * i]) + HexValue(s[2 * i + 1])) as byte
  }

  /** `decodeHash`: the 32 bytes of a 64-digit hexadecimal string, of either case. */
  function DecodeHash(s: string): Option<Digest> {
    if IsHash(s) then Some(seq(DIGEST_LENGTH, i requires 0 <= i < DIGEST_LENGTH => HexByte(s, i)))
    else None
  }

  /** `toString('hex')`. */
  function EncodeHash(d: Digest): string {
    seq(2 * DIGEST_LENGTH, k requires 0 <= k < 2 * DIGEST_LENGTH =>
      HexChar(if k % 2 == 0 then d[k / 2] as int / 16 else d[k / 2] as int % 16))
  }

  /** `Lower` is the ASCII alphabet's. */
  lemma LowerIsAscii(c: char, k: nat)
    requires k < 26
    ensures Lower("ABCDEFGHIJKLMNOPQRSTUVWXYZ"[k]) == "abcdefghijklmnopqrstuvwxyz"[k]
    ensures c !in "ABCDEFGHIJKLMNOPQRSTUVWXYZ" ==> Lower(c) == c
  {
    assert 'A' <= c <= 'Z' ==> "ABCDEFGHIJKLMNOPQRSTUVWXYZ"[c as int - 'A' as int] == c;
  }

  lemma HexAlphabet(c: char, v: nat)
    requires v < 16
    ensures HexChar(v) == "0123456789abcdef"[v]
    ensures IsHexDigit(c) <==> Lower(c) in "0123456789abcdef"
    ensures IsHexDigit(c) ==> (HexValue(c) == v <==> Lower(c) == "0123456789abcdef"[v])
  {
    if IsHexDigit(c) { assert "0123456789abcdef"[HexValue(c)] == Lower(c); }
  }

  /** A hash is 64 hexadecimal digits of either case, two a byte, the high one first. */
  lemma HashTextIs(s: string, i: nat, high: nat, low: nat)
    requires i < 32 && high < 16 && low < 16
    ensures IsHash(s) <==> |s| == 64 && forall k :: 0 <= k < 64 ==> Lower(s[k]) in "0123456789abcdef"
    ensures DecodeHash(s).Some? <==> IsHash(s)
    ensures IsHash(s) && Lower(s[2 * i]) == "0123456789abcdef"[high] &&
            Lower(s[2 * i + 1]) == "0123456789abcdef"[low] ==>
              DecodeHash(s).value[i] as int == 16 * high + low
  {
    forall k | 0 <= k < |s| ensures IsHexDigit(s[k]) <==> Lower(s[k]) in "0123456789abcdef" { HexAlphabet(s[k], 0); }
    if IsHash(s) {
      HexAlphabet(s[2 * i], high);
      HexAlphabet(s[2 * i + 1], low);
    }
  }

  lemma DecodeEncode(d: Digest)
    ensures DecodeHash(EncodeHash(d)) == Some(d)
    ensures LowerAll(EncodeHash(d)) == EncodeHash(d)
  {
    var s := EncodeHash(d);
    forall i | 0 <= i < DIGEST_LENGTH ensures HexByte(s, i) == d[i] {
      assert s[2 * i] == HexChar(d[i] as int / 16);
      assert s[2 * i + 1] == HexChar(d[i] as int % 16);
    }
    assert DecodeHash(s).value == d;
  }

  /** The decoder ignores case and identifies nothing else: a hash text is the lower-case
      rendering of its digest up to case, so equal digests mean equal texts up to case. */
  lemma EncodeDecode(s: string)
    requires IsHash(s)
    ensures EncodeHash(DecodeHash(s).value) == LowerAll(s)
  {
    var d := DecodeHash(s).value;
    forall k | 0 <= k < |s| ensures EncodeHash(d)[k] == Lower(s[k]) {
      var i := k / 2;
      assert d[i] == HexByte(s, i);
      assert d[i] as int / 16 == HexValue(s[2 * i]) && d[i] as int % 16 == HexValue(s[2 * i + 1]);
      LowerHexChar(s[k]);
    }
  }

  lemma LowerHexChar(c: char)
    requires IsHexDigit(c)
    ensures HexChar(HexValue(c)) == Lower(c)
  {
  }

  lemma DecodeIgnoresCase(s: string)
    ensures IsHash(LowerAll(s)) <==> IsHash(s)
    ensures DecodeHash(LowerAll(s)) == DecodeHash(s)
  {
    var t := LowerAll(s);
    assert forall i :: 0 <= i < |s| ==> (IsHexDigit(t[i]) <==> IsHexDigit(s[i]));
    if IsHash(s) {
      forall i | 0 <= i < DIGEST_LENGTH ensures HexByte(t, i) == HexByte(s, i) {
        assert t[2 * i] == Lower(s[2 * i]) && t[2 * i + 1] == Lower(s[2 * i + 1]);
      }
      assert DecodeHash(t).value == DecodeHash(s).value;
    }
  }

  /** `decodeHash` over a list: the digests, or nothing if any text is malformed. */
  function DecodeAll(texts: seq<string>): (r: Option<seq<Digest>>)
    ensures r.Some? <==> forall i :: 0 <= i < |texts| ==> IsHash(texts[i])
    ensures r.Some? ==> |r.value| == |texts| &&
                        forall i :: 0 <= i < |texts| ==> r.value[i] == DecodeHash(texts[i]).value
  {
    if forall i :: 0 <= i < |texts| ==> IsHash(texts[i]) then
      Some(seq(|texts|, i requires 0 <= i < |texts| => DecodeHash(texts[i]).value))
    else None
  }

  function EncodeAll(ds: seq<Digest>): seq<string> {
    seq(|ds|, i requires 0 <= i < |ds| => EncodeHash(ds[i]))
  }

  lemma DecodeEncodeAll(ds: seq<Digest>)
    ensures DecodeAll(EncodeAll(ds)) == Some(ds)
  {
    forall i | 0 <= i < |ds| ensures IsHash(EncodeAll(ds)[i]) && DecodeHash(EncodeAll(ds)[i]) == Some(ds[i]) {
      DecodeEncode(ds[i]);
    }
    assert DecodeAll(EncodeAll(ds)).value == ds;
  }
}
