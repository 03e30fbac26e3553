// The two string built-ins the catalogue generator relies on: rendering a
// non-negative number in decimal (`n.toString()`) and replacing the first
// occurrence of a pattern (`s.replace(pattern, replacement)` with a string
// pattern).
module Text {

  function DigitChar(d: nat): (c: char)
    requires d < 10
    ensures '0' <= c <= '9'
  {
    ('0' as int + d) as char
  }

  function DigitValue(c: char): nat {
    if '0' <= c <= '9' then c as int - '0' as int else 0
  }

  /** Decimal rendering of a non-negative integer, without leading zeros. */
  function NatToString(n: nat): (s: string)
    ensures |s| > 0
    ensures forall k :: 0 <= k < |s| ==> '0' <= s[k] <= '9'
  {
    if n < 10 then [DigitChar(n)] else NatToString(n / 10) + [DigitChar(n % 10)]
  }

  /** Reads a string of decimal digits back as a number. */
  function ParseNat(s: string): nat {
    if |s| == 0 then 0 else ParseNat(s[..|s| - 1]) * 10 + DigitValue(s[|s| - 1])
  }

  lemma {:induction false} ParseNatToString(n: nat)
    ensures ParseNat(NatToString(n)) == n
  {
    var s := NatToString(n);
    if n < 10 {
      assert s[..|s| - 1] == [];
    } else {
      ParseNatToString(n / 10);
      assert s[..|s| - 1] == NatToString(n / 10);
    }
  }

  /** Distinct numbers render as distinct strings. */
  lemma NatToStringInjective(a: nat, b: nat)
    ensures NatToString(a) == NatToString(b) ==> a == b
  {
    ParseNatToString(a);
    ParseNatToString(b);
  }

  /** `s.replace(pat, rep)`: the first occurrence of `pat` in `s` becomes `rep`. */
  function ReplaceFirst(s: string, pat: string, rep: string): string {
    if |pat| == 0 then rep + s
    else if |s| < |pat| then s
    else if s[..|pat|] == pat then rep + s[|pat|..]
    else [s[0]] + ReplaceFirst(s[1..], pat, rep)
  }

  /** When the pattern's first character does not occur before it, the
      replacement lands exactly where the pattern stood. */
  lemma {:induction false} ReplaceFirstAfterPrefix(pre: string, pat: string, post: string, rep: string)
    requires |pat| > 0
    requires forall k :: 0 <= k < |pre| ==> pre[k] != pat[0]
    ensures ReplaceFirst(pre + pat + post, pat, rep) == pre + rep + post
  {
    var s := pre + pat + post;
    if |pre| == 0 {
      assert s == pat + post;
      assert s[..|pat|] == pat;
      assert s[|pat|..] == post;
    } else {
      assert |s| >= |pat|;
      assert s[0] == pre[0];
      assert s[..|pat|] != pat by { assert s[..|pat|][0] == s[0]; }
      assert ReplaceFirst(s, pat, rep) == [s[0]] + ReplaceFirst(s[1..], pat, rep);
      var pre' := pre[1..];
      assert s[1..] == pre' + pat + post;
      ReplaceFirstAfterPrefix(pre', pat, post, rep);
      assert pre + rep + post == [pre[0]] + (pre' + rep + post);
    }
  }
}
