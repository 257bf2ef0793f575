/** String helpers standing in for the JavaScript string methods the site uses
    (`includes`, `startsWith`, `toLowerCase`, `toString`, `padStart`,
    `substring`). */
module Text {

  /** `s.startsWith(p)`. */
  predicate StartsWith(s: string, p: string) {
    |p| <= |s| && s[..|p|] == p
  }

  /** `s.includes(sub)`: `sub` occurs somewhere in `s`. */
  predicate Contains(s: string, sub: string)
    decreases |s|
  {
    |sub| <= |s| && (s[..|sub|] == sub || Contains(s[1..], sub))
  }

  /** `s.substring(0, n)` for `n >= 0`: the first `n` characters, or all of
      `s` when it is shorter. */
  function Prefix(s: string, n: nat): (r: string)
    ensures |r| == if |s| < n then |s| else n
    ensures StartsWith(s, r)
  {
    if |s| <= n then s else s[..n]
  }

  /** Every character of an occurrence also occurs in the host string. */
  lemma {:induction false} ContainsChars(s: string, sub: string, c: char)
    requires Contains(s, sub) && c in sub
    ensures c in s
    decreases |s|
  {
    if s[..|sub|] == sub {
      assert c in s[..|sub|];
    } else {
      ContainsChars(s[1..], sub, c);
    }
  }

  /** A string lacking one of `sub`'s characters does not contain `sub`. */
  lemma MissingCharExcludes(s: string, sub: string, c: char)
    ensures c in sub && c !in s ==> !Contains(s, sub)
  {
    if c in sub && Contains(s, sub) {
      ContainsChars(s, sub, c);
    }
  }

  /** An occurrence in `b` is an occurrence in `a + b`. */
  lemma {:induction false} ContainsInSuffix(a: string, b: string, sub: string)
    requires Contains(b, sub)
    ensures Contains(a + b, sub)
    decreases |a|
  {
    if |a| == 0 {
      assert a + b == b;
    } else {
      ContainsInSuffix(a[1..], b, sub);
      assert (a + b)[1..] == a[1..] + b;
    }
  }

  /** An occurrence in `a` is an occurrence in `a + b`. */
  lemma {:induction false} ContainsInPrefix(a: string, b: string, sub: string)
    requires Contains(a, sub)
    ensures Contains(a + b, sub)
    decreases |a|
  {
    if a[..|sub|] == sub {
      assert (a + b)[..|sub|] == a[..|sub|];
    } else {
      ContainsInPrefix(a[1..], b, sub);
      assert (a + b)[1..] == a[1..] + b;
    }
  }

  /** The empty string occurs everywhere; a non-empty one never occurs in "". */
  lemma EmptyContains(s: string, sub: string)
    ensures Contains(s, [])
    ensures |sub| > 0 ==> !Contains([], sub)
  {
  }

  /** A word without spaces found in `a + " " + b` lies wholly in `a` or in `b`. */
  lemma {:induction false} ContainsAcrossSpace(a: string, b: string, sub: string)
    requires ' ' !in sub
    ensures Contains(a + " " + b, sub) <==> Contains(a, sub) || Contains(b, sub)
    decreases |a|
  {
    var s := a + " " + b;
    if Contains(a, sub) {
      ContainsInPrefix(a, " " + b, sub);
      assert a + (" " + b) == s;
    } else if Contains(b, sub) {
      ContainsInSuffix(a + " ", b, sub);
    } else if Contains(s, sub) {
      if |sub| == 0 {
        EmptyContains(a, sub);
      } else if s[..|sub|] == sub {
        PrefixChar(s, sub, |a|);
        assert false;
      } else if |a| == 0 {
        assert false;
      } else {
        assert s[1..] == a[1..] + " " + b;
        ContainsAcrossSpace(a[1..], b, sub);
        assert false;
      }
    }
  }

  /** The characters of a matched prefix are the host's characters. */
  lemma PrefixChar(s: string, sub: string, k: int)
    ensures 0 <= k < |sub| <= |s| && s[..|sub|] == sub ==> sub[k] == s[k]
  {
  }

  /** ASCII lower-casing of one character. */
  function LowerChar(c: char): (r: char)
    ensures 'A' <= c <= 'Z' ==> 'a' <= r <= 'z' && r as int - c as int == 32
    ensures !('A' <= c <= 'Z') ==> r == c
  {
    if 'A' <= c <= 'Z' then (c as int + 32) as char else c
  }

  /** `s.toLowerCase()`, for the ASCII letters. */
  function ToLower(s: string): (r: string)
    ensures |r| == |s|
    ensures forall i :: 0 <= i < |s| ==> r[i] == LowerChar(s[i])
  {
    seq(|s|, i requires 0 <= i < |s| => LowerChar(s[i]))
  }

  /** Lower-casing works character by character, so it distributes over `+`. */
  lemma ToLowerAppend(a: string, b: string)
    ensures ToLower(a + b) == ToLower(a) + ToLower(b)
  {
  }

  /** A string with no upper-case ASCII letter is its own lower-case form. */
  lemma ToLowerFixed(s: string)
    requires forall i :: 0 <= i < |s| ==> !('A' <= s[i] <= 'Z')
    ensures ToLower(s) == s
  {
  }

  predicate IsDigit(c: char) {
    '0' <= c <= '9'
  }

  function DigitChar(d: nat): (c: char)
    requires d < 10
    ensures IsDigit(c) && c as int - '0' as int == d
  {
    ('0' as int + d) as char
  }

  function DigitValue(c: char): (d: nat)
    requires IsDigit(c)
    ensures d < 10 && DigitChar(d) == c
  {
    c as int - '0' as int
  }

  /** `n.toString()` for a non-negative integer: its decimal digits without
      leading zeros. */
  function NatToString(n: nat): (r: string)
    ensures |r| >= 1
    ensures forall i :: 0 <= i < |r| ==> IsDigit(r[i])
    ensures n >= 10 ==> r[0] != '0'
  {
    if n < 10 then [DigitChar(n)] else NatToString(n / 10) + [DigitChar(n % 10)]
  }

  /** Reading a string of decimal digits, most significant first; the
      inverse of `NatToString` used to state the round trip. */
  function ParseDecimal(s: string): nat
    requires forall i :: 0 <= i < |s| ==> IsDigit(s[i])
  {
    if |s| == 0 then 0 else ParseDecimal(s[..|s| - 1]) * 10 + DigitValue(s[|s| - 1])
  }

  /** Reading back what `NatToString` wrote gives the number. */
  lemma {:induction false} ParseNatToString(n: nat)
    ensures ParseDecimal(NatToString(n)) == n
  {
    var s := NatToString(n);
    if n >= 10 {
      ParseNatToString(n / 10);
      assert s[..|s| - 1] == NatToString(n / 10);
    }
  }

  /** Leading zeros do not change the value read. */
  lemma {:induction false} ParseLeadingZeros(z: string, s: string)
    requires forall i :: 0 <= i < |z| ==> z[i] == '0'
    requires forall i :: 0 <= i < |s| ==> IsDigit(s[i])
    ensures ParseDecimal(z + s) == ParseDecimal(s)
    decreases |s|
  {
    if |s| == 0 {
      assert z + s == z;
      AllZeros(z);
    } else {
      assert (z + s)[..|z + s| - 1] == z + s[..|s| - 1];
      ParseLeadingZeros(z, s[..|s| - 1]);
    }
  }

  lemma {:induction false} AllZeros(z: string)
    requires forall i :: 0 <= i < |z| ==> z[i] == '0'
    ensures ParseDecimal(z) == 0
    decreases |z|
  {
    if |z| > 0 {
      AllZeros(z[..|z| - 1]);
    }
  }

  /** `n` copies of `c`. */
  function Repeat(c: char, n: nat): (r: string)
    ensures |r| == n
    ensures forall i :: 0 <= i < n ==> r[i] == c
  {
    seq(n, _ => c)
  }

  /** `s.padStart(width, c)` with a one-character pad: `s` itself when it is
      already wide enough, otherwise `s` preceded by enough copies of `c`. */
  function PadStart(s: string, width: nat, c: char): (r: string)
    ensures |r| == if |s| < width then width else |s|
    ensures r[|r| - |s|..] == s
    ensures forall i :: 0 <= i < |r| - |s| ==> r[i] == c
  {
    if |s| >= width then s else Repeat(c, width - |s|) + s
  }

  /** Joins lines with a newline after each one. */
  function Lines(ls: seq<string>): (r: string)
    ensures |ls| > 0 ==> |r| > 0 && r[|r| - 1] == '\n'
  {
    if |ls| == 0 then "" else ls[0] + "\n" + Lines(ls[1..])
  }

  /** Every line handed to `Lines` appears in the joined text. */
  lemma {:induction false} LinesContains(ls: seq<string>, i: nat)
    requires i < |ls|
    ensures Contains(Lines(ls), ls[i] + "\n")
  {
    if i == 0 {
      assert Lines(ls) == (ls[0] + "\n") + Lines(ls[1..]);
      assert Lines(ls)[..|ls[0] + "\n"|] == ls[0] + "\n";
    } else {
      LinesContains(ls[1..], i - 1);
      ContainsInSuffix(ls[0] + "\n", Lines(ls[1..]), ls[i] + "\n");
    }
  }
}
