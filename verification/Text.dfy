/** The few ECMAScript string operations that several modules need. */
module Text {
  /** WhiteSpace and LineTerminator code points of ECMAScript, as removed by `String.prototype.trim`. */
  predicate IsSpace(c: char) {
    '\t' <= c <= '\r' || c == ' ' || c == '\U{A0}' || c == '\U{1680}' || '\U{2000}' <= c <= '\U{200A}' ||
    c == '\U{2028}' || c == '\U{2029}' || c == '\U{202F}' || c == '\U{205F}' || c == '\U{3000}' || c == '\U{FEFF}'
  }

  function TrimStart(s: string): string {
    if s != [] && IsSpace(s[0]) then TrimStart(s[1..]) else s
  }

  function TrimEnd(s: string): string {
    if s != [] && IsSpace(s[|s| - 1]) then TrimEnd(s[..|s| - 1]) else s
  }

  function Trim(s: string): string {
    TrimEnd(TrimStart(s))
  }

  predicate AllSpaces(s: string) {
    forall i :: 0 <= i < |s| ==> IsSpace(s[i])
  }

  lemma SpacesAre(c: char)
    ensures IsSpace(c) <==>
            c as int in {9, 10, 11, 12, 13, 0x20, 0xA0, 0x1680, 0x2028, 0x2029, 0x202F, 0x205F, 0x3000, 0xFEFF} ||
            0x2000 <= c as int <= 0x200A
  {
  }

  lemma {:induction false} TrimStartSplits(s: string) returns (n: nat)
    ensures n <= |s| && AllSpaces(s[..n]) && TrimStart(s) == s[n..]
    ensures n < |s| ==> !IsSpace(s[n])
  {
    hide IsSpace;
    n := 0;
    if s != [] && IsSpace(s[0]) {
      var k := TrimStartSplits(s[1..]);
      n := k + 1;
      assert s[..n] == [s[0]] + s[1..][..k];
    }
  }

  lemma {:induction false} TrimEndSplits(s: string) returns (n: nat)
    ensures n <= |s| && AllSpaces(s[n..]) && TrimEnd(s) == s[..n]
    ensures n > 0 ==> !IsSpace(s[n - 1])
  {
    hide IsSpace;
    n := |s|;
    if s != [] && IsSpace(s[|s| - 1]) {
      var front := s[..|s| - 1];
      n := TrimEndSplits(front);
      assert s[n..] == front[n..] + [s[|s| - 1]] && s[..n] == front[..n];
    }
  }

  /** `trim` takes the spaces off both ends, all of them and nothing else. */
  lemma TrimSplits(s: string) returns (before: string, after: string)
    ensures s == before + Trim(s) + after && AllSpaces(before) && AllSpaces(after)
    ensures Trim(s) != [] ==> !IsSpace(Trim(s)[0]) && !IsSpace(Trim(s)[|Trim(s)| - 1])
  {
    var n := TrimStartSplits(s);
    var k := TrimEndSplits(s[n..]);
    hide IsSpace, TrimStart, TrimEnd, AllSpaces;
    before, after := s[..n], s[n..][k..];
  }

  /** `trim` leaves a text without spaces at either end alone. */
  lemma TrimNoop(s: string)
    requires s == [] || (!IsSpace(s[0]) && !IsSpace(s[|s| - 1]))
    ensures Trim(s) == s
  {
  }

  predicate IsDigit(c: char) {
    '0' <= c <= '9'
  }

  predicate AllDigits(s: string) {
    forall i :: 0 <= i < |s| ==> IsDigit(s[i])
  }
}
