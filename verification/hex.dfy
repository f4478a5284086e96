/** Text normalization of checksums, chunk hashes and debug ids. */
module Hex {
  predicate IsHexDigit(c: char) {
    '0' <= c <= '9' || 'a' <= c <= 'f' || 'A' <= c <= 'F'
  }

  function LowerChar(c: char): char {
    if 'A' <= c <= 'Z' then c - 'A' + 'a' else c
  }

  function Lower(s: string): string {
    seq(|s|, i requires 0 <= i < |s| => LowerChar(s[i]))
  }

  predicate IsSha1Hex(s: string) {
    |s| == 40 && forall c <- s :: IsHexDigit(c)
  }

  function NormalizeDebugId(s: string): string {
    if s == "" then ""
    else (if IsHexDigit(s[0]) then [LowerChar(s[0])] else "") + NormalizeDebugId(s[1..])
  }

  /** The same letter, in either case. */
  predicate SameLetter(x: char, y: char) {
    x == y || ('A' <= x <= 'Z' && y == x - 'A' + 'a') || ('A' <= y <= 'Z' && x == y - 'A' + 'a')
  }

  /** Two texts are taken for the same exactly if they differ in case alone. */
  lemma LowerIgnoresCase(a: string, b: string)
    ensures Lower(a) == Lower(b) <==> |a| == |b| && forall i | 0 <= i < |a| :: SameLetter(a[i], b[i])
  {
    if Lower(a) == Lower(b) {
      assert |a| == |Lower(a)| == |b|;
      forall i | 0 <= i < |a| ensures SameLetter(a[i], b[i]) {
        assert Lower(a)[i] == Lower(b)[i];
      }
    }
  }

  /** Of a debug id only the digits count, in either case. */
  lemma {:induction false} DigitsAreKept(a: string, b: string)
    ensures NormalizeDebugId("") == "" && NormalizeDebugId(a + b) == NormalizeDebugId(a) + NormalizeDebugId(b)
  {
    if a == "" {
      assert a + b == b;
    } else {
      DigitsAreKept(a[1..], b);
      assert (a + b)[1..] == a[1..] + b && (a + b)[0] == a[0];
      var first := if IsHexDigit(a[0]) then [LowerChar(a[0])] else "";
      assert NormalizeDebugId(a) == first + NormalizeDebugId(a[1..]);
      assert NormalizeDebugId(a + b) == first + NormalizeDebugId(a[1..] + b);
      hide NormalizeDebugId;
    }
  }

  lemma OneDigit(x: char)
    ensures NormalizeDebugId([x]) ==
              if '0' <= x <= '9' || 'a' <= x <= 'f' then [x] else if 'A' <= x <= 'F' then [x - 'A' + 'a'] else ""
  {
  }
}
