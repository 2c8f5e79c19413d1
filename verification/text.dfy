/**
 * The string operations of JavaScript the program uses, on `seq<char>`:
 * includes, startsWith, split on one character, join, trim, toLowerCase,
 * integer-to-decimal conversion and parseInt with radix 10.
 */
module Text {
  import opened Wrappers
  import opened Seqs

  /** `s.startsWith(p)` */
  predicate StartsWith(s: string, p: string) {
    |p| <= |s| && s[..|p|] == p
  }

  /** `s.endsWith(t)` */
  predicate EndsWith(s: string, t: string) {
    |t| <= |s| && s[|s| - |t|..] == t
  }

  /** A text ends with whatever is appended last. */
  lemma {:induction false} EndsWithAppend(s: string, t: string)
    ensures EndsWith(s + t, t)
  {
    assert (s + t)[|s|..] == t;
  }

  /** `s.includes(sub)`: sub occurs at some offset of s. */
  predicate Contains(s: string, sub: string)
    decreases |s|
  {
    StartsWith(s, sub) || (|s| > 0 && Contains(s[1..], sub))
  }

  /** An occurrence at a known offset is found by Contains. */
  lemma {:induction false} ContainsAt(s: string, sub: string, i: nat)
    requires i + |sub| <= |s| && s[i..i + |sub|] == sub
    ensures Contains(s, sub)
    decreases i
  {
    if i == 0 {
      assert s[..|sub|] == sub;
    } else {
      assert s[1..][i - 1..i - 1 + |sub|] == s[i..i + |sub|];
      ContainsAt(s[1..], sub, i - 1);
    }
  }

  /** Contains finds only real occurrences. */
  lemma {:induction false} ContainsWitness(s: string, sub: string) returns (i: nat)
    requires Contains(s, sub)
    ensures i + |sub| <= |s| && s[i..i + |sub|] == sub
    decreases |s|
  {
    if StartsWith(s, sub) {
      i := 0;
    } else {
      var j := ContainsWitness(s[1..], sub);
      assert s[1..][j..j + |sub|] == s[j + 1..j + 1 + |sub|];
      i := j + 1;
    }
  }

  /** A string that starts with p contains p. */
  lemma {:induction false} StartsWithContains(s: string, p: string)
    requires StartsWith(s, p)
    ensures Contains(s, p)
  {
  }

  /** An occurrence inside the left operand of a concatenation survives it. */
  lemma {:induction false} ContainsInPrefix(a: string, b: string, sub: string)
    requires Contains(a, sub)
    ensures Contains(a + b, sub)
  {
    var i := ContainsWitness(a, sub);
    assert (a + b)[i..i + |sub|] == a[i..i + |sub|];
    ContainsAt(a + b, sub, i);
  }

  /** An occurrence inside the right operand of a concatenation survives it. */
  lemma {:induction false} ContainsInSuffix(a: string, b: string, sub: string)
    requires Contains(b, sub)
    ensures Contains(a + b, sub)
  {
    var i := ContainsWitness(b, sub);
    assert (a + b)[|a| + i..|a| + i + |sub|] == b[i..i + |sub|];
    ContainsAt(a + b, sub, |a| + i);
  }

  /** What occurs in an occurrence occurs in the whole. */
  lemma {:induction false} ContainsTransitive(s: string, sub: string, inner: string)
    requires Contains(s, sub) && Contains(sub, inner)
    ensures Contains(s, inner)
  {
    var i := ContainsWitness(s, sub);
    var j := ContainsWitness(sub, inner);
    forall k | 0 <= k < |inner|
      ensures s[i + j + k] == inner[k]
    {
      assert inner[k] == sub[j + k] == s[i..i + |sub|][j + k];
    }
    assert s[i + j..i + j + |inner|] == inner;
    ContainsAt(s, inner, i + j);
  }

  /** `parts.join(sep)` */
  function Join(parts: seq<string>, sep: string): (r: string)
    decreases |parts|
  {
    if |parts| == 0 then ""
    else if |parts| == 1 then parts[0]
    else parts[0] + sep + Join(parts[1..], sep)
  }

  /** Joining one more part appends the separator and the part. */
  lemma {:induction false} JoinSnoc(parts: seq<string>, x: string, sep: string)
    requires |parts| >= 1
    ensures Join(parts + [x], sep) == Join(parts, sep) + sep + x
    decreases |parts|
  {
    if |parts| == 1 {
      assert (parts + [x])[1..] == [x];
    } else {
      assert (parts + [x])[1..] == parts[1..] + [x];
      JoinSnoc(parts[1..], x, sep);
    }
  }

  /** Every part occurs in the join. */
  lemma {:induction false} JoinContains(parts: seq<string>, sep: string, i: nat)
    requires i < |parts|
    ensures Contains(Join(parts, sep), parts[i])
    decreases i
  {
    if |parts| == 1 {
      ContainsAt(parts[0], parts[0], 0);
    } else if i == 0 {
      ContainsAt(parts[0], parts[0], 0);
      ContainsInPrefix(parts[0], sep + Join(parts[1..], sep), parts[0]);
      assert Join(parts, sep) == parts[0] + (sep + Join(parts[1..], sep));
    } else {
      JoinContains(parts[1..], sep, i - 1);
      ContainsInSuffix(parts[0] + sep, Join(parts[1..], sep), parts[i]);
    }
  }

  /** `s.split(c)` for a one-character separator: never empty, no field holds c. */
  function Split(s: string, c: char): (r: seq<string>)
    ensures |r| >= 1
    ensures forall k :: 0 <= k < |r| ==> c !in r[k]
    decreases |s|
  {
    if |s| == 0 then [""]
    else
      var rest := Split(s[1..], c);
      if s[0] == c then [""] + rest
      else [[s[0]] + rest[0]] + rest[1..]
  }

  lemma {:induction false} SplitNoSeparator(a: string, t: string, c: char)
    requires c !in a
    ensures Split(a + t, c) == [a + Split(t, c)[0]] + Split(t, c)[1..]
    decreases |a|
  {
    if |a| == 0 {
      assert a + t == t;
      assert a + Split(t, c)[0] == Split(t, c)[0];
      assert Split(t, c) == [Split(t, c)[0]] + Split(t, c)[1..];
    } else {
      assert (a + t)[1..] == a[1..] + t;
      SplitNoSeparator(a[1..], t, c);
      assert [a[0]] + (a[1..] + Split(t, c)[0]) == a + Split(t, c)[0];
    }
  }

  /** Splitting a join on the same separator gives the parts back. */
  lemma {:induction false} SplitJoin(parts: seq<string>, c: char)
    requires |parts| >= 1
    requires forall k :: 0 <= k < |parts| ==> c !in parts[k]
    ensures Split(Join(parts, [c]), c) == parts
    decreases |parts|
  {
    if |parts| == 1 {
      SplitNoSeparator(parts[0], "", c);
      assert parts[0] + "" == parts[0];
    } else {
      var t := [c] + Join(parts[1..], [c]);
      assert Join(parts, [c]) == parts[0] + t;
      SplitNoSeparator(parts[0], t, c);
      assert t[1..] == Join(parts[1..], [c]);
      SplitJoin(parts[1..], c);
      assert Split(t, c) == [""] + parts[1..];
      assert parts[0] + "" == parts[0];
      assert [parts[0]] + parts[1..] == parts;
    }
  }

  /** Joining the fields of a split on the same separator gives the string back. */
  lemma {:induction false} JoinSplit(s: string, c: char)
    ensures Join(Split(s, c), [c]) == s
    decreases |s|
  {
    if |s| > 0 {
      var rest := Split(s[1..], c);
      JoinSplit(s[1..], c);
      if s[0] == c {
        JoinEmptyFirst(rest, [c]);
        assert s == [c] + s[1..];
      } else {
        JoinPrepend(s[0], rest, [c]);
        assert s == [s[0]] + s[1..];
      }
    }
  }

  /** An empty first part leaves just the separator in front. */
  lemma {:induction false} JoinEmptyFirst(parts: seq<string>, sep: string)
    requires |parts| >= 1
    ensures Join([""] + parts, sep) == sep + Join(parts, sep)
  {
    assert ([""] + parts)[1..] == parts;
  }

  /** A character put in front of the first part comes first in the join. */
  lemma {:induction false} JoinPrepend(x: char, parts: seq<string>, sep: string)
    requires |parts| >= 1
    ensures Join([[x] + parts[0]] + parts[1..], sep) == [x] + Join(parts, sep)
  {
    var ps := [[x] + parts[0]] + parts[1..];
    if |parts| > 1 {
      assert ps[1..] == parts[1..];
      AppendAssoc([x], parts[0] + sep, Join(parts[1..], sep));
      AppendAssoc([x], parts[0], sep);
    }
  }

  /** The characters JavaScript's String.prototype.trim removes. */
  predicate IsWhiteSpace(ch: char) {
    ch == ' ' || ch == '\t' || ch == '\n' || ch == '\r' || ch == '\U{B}' || ch == '\U{C}'
    || ch == '\U{A0}' || ch == '\U{FEFF}' || ch == '\U{1680}' || ('\U{2000}' <= ch <= '\U{200A}')
    || ch == '\U{2028}' || ch == '\U{2029}' || ch == '\U{202F}' || ch == '\U{205F}' || ch == '\U{3000}'
  }

  /** `s.trimEnd()` */
  function TrimEnd(s: string): (r: string)
    ensures |r| <= |s| && r == s[..|r|]
    ensures |r| > 0 ==> !IsWhiteSpace(r[|r| - 1])
    decreases |s|
  {
    if |s| > 0 && IsWhiteSpace(s[|s| - 1]) then TrimEnd(s[..|s| - 1]) else s
  }

  /** `s.trim()`: leading white space is skipped, then trailing white space is cut. */
  function Trim(s: string): (r: string)
    ensures |r| > 0 ==> !IsWhiteSpace(r[0]) && !IsWhiteSpace(r[|r| - 1])
    ensures |r| <= |s|
    decreases |s|
  {
    if |s| > 0 && IsWhiteSpace(s[0]) then Trim(s[1..]) else TrimEnd(s)
  }

  /** A string without surrounding white space is left as it is by trim. */
  lemma {:induction false} TrimIdentity(s: string)
    requires |s| > 0 ==> !IsWhiteSpace(s[0]) && !IsWhiteSpace(s[|s| - 1])
    ensures Trim(s) == s
  {
  }

  /** trimEnd leaves nothing exactly when every character is white space. */
  lemma {:induction false} TrimEndBlank(s: string)
    ensures TrimEnd(s) == "" <==> forall k :: 0 <= k < |s| ==> IsWhiteSpace(s[k])
    decreases |s|
  {
    if |s| > 0 && IsWhiteSpace(s[|s| - 1]) {
      TrimEndBlank(s[..|s| - 1]);
      assert forall k :: 0 <= k < |s| - 1 ==> s[k] == s[..|s| - 1][k];
    }
  }

  /** trim leaves nothing exactly when every character is white space. */
  lemma {:induction false} TrimBlank(s: string)
    ensures Trim(s) == "" <==> forall k :: 0 <= k < |s| ==> IsWhiteSpace(s[k])
    decreases |s|
  {
    if |s| > 0 && IsWhiteSpace(s[0]) {
      TrimBlank(s[1..]);
      assert forall k :: 1 <= k < |s| ==> s[k] == s[1..][k - 1];
    } else {
      TrimEndBlank(s);
    }
  }

  /** The lower-case mapping of toLowerCase on ASCII and Latin-1 letters. */
  function LowerChar(ch: char): (r: char)
    ensures ('A' <= ch <= 'Z') ==> r as int == ch as int + 32
    ensures !('A' <= ch <= 'Z') && !('\U{C0}' <= ch <= '\U{DE}') ==> r == ch
  {
    if 'A' <= ch <= 'Z' || ('\U{C0}' <= ch <= '\U{DE}' && ch != '\U{D7}') then
      (ch as int + 32) as char
    else ch
  }

  /** `s.toLowerCase()` */
  function ToLower(s: string): (r: string)
    ensures |r| == |s|
    ensures forall k :: 0 <= k < |s| ==> r[k] == LowerChar(s[k])
  {
    seq(|s|, k requires 0 <= k < |s| => LowerChar(s[k]))
  }

  /** toLowerCase works character by character, so it distributes over concatenation. */
  lemma {:induction false} ToLowerConcat(a: string, b: string)
    ensures ToLower(a + b) == ToLower(a) + ToLower(b)
  {
  }

  /** Lower-casing turns no character into white space and no white space into anything else. */
  lemma {:induction false} LowerCharWhiteSpace(ch: char)
    ensures IsWhiteSpace(LowerChar(ch)) <==> IsWhiteSpace(ch)
  {
  }

  /** A string is blank after trim exactly when its lower-case form is. */
  lemma {:induction false} TrimToLowerBlank(s: string)
    ensures Trim(ToLower(s)) == "" <==> Trim(s) == ""
  {
    TrimBlank(s);
    TrimBlank(ToLower(s));
    forall k | 0 <= k < |s|
      ensures IsWhiteSpace(ToLower(s)[k]) <==> IsWhiteSpace(s[k])
    {
      LowerCharWhiteSpace(s[k]);
    }
  }

  predicate IsDigit(ch: char) {
    '0' <= ch <= '9'
  }

  predicate AllDigits(s: string) {
    forall k :: 0 <= k < |s| ==> IsDigit(s[k])
  }

  function DigitChar(d: nat): (ch: char)
    requires d < 10
    ensures IsDigit(ch) && ch as int - '0' as int == d
  {
    ('0' as int + d) as char
  }

  /** `String(n)` for a non-negative integer. */
  function NatToString(n: nat): (r: string)
    ensures |r| >= 1 && AllDigits(r)
    ensures |r| > 1 ==> r[0] != '0'
    decreases n
  {
    if n < 10 then [DigitChar(n)] else NatToString(n / 10) + [DigitChar(n % 10)]
  }

  /** `String(i)` for any integer. */
  function IntToString(i: int): (r: string)
    ensures |r| >= 1
    ensures i < 0 <==> r[0] == '-'
  {
    if i < 0 then "-" + NatToString(-i) else NatToString(i)
  }

  /** The value of a string of decimal digits. */
  function DigitsValue(s: string): (v: nat)
    requires AllDigits(s)
    decreases |s|
  {
    if |s| == 0 then 0 else DigitsValue(s[..|s| - 1]) * 10 + (s[|s| - 1] as int - '0' as int)
  }

  /** Reading back the decimal form of n gives n. */
  lemma {:induction false} DigitsValueOfNatToString(n: nat)
    ensures DigitsValue(NatToString(n)) == n
    decreases n
  {
    if n >= 10 {
      var r := NatToString(n);
      assert r[..|r| - 1] == NatToString(n / 10);
      DigitsValueOfNatToString(n / 10);
    }
  }

  /** The longest prefix of s made of decimal digits. */
  function LeadingDigits(s: string): (r: string)
    ensures AllDigits(r) && StartsWith(s, r)
    ensures |r| < |s| ==> !IsDigit(s[|r|])
    decreases |s|
  {
    if |s| > 0 && IsDigit(s[0]) then [s[0]] + LeadingDigits(s[1..]) else ""
  }

  lemma {:induction false} LeadingDigitsAll(s: string)
    requires AllDigits(s)
    ensures LeadingDigits(s) == s
    decreases |s|
  {
    if |s| > 0 {
      LeadingDigitsAll(s[1..]);
    }
  }

  /**
   * `parseInt(s, 10)`: leading white space and an optional sign are skipped,
   * then the longest run of digits is read; no digit at all gives NaN (None).
   */
  function ParseInt(s: string): (r: Option<int>)
    decreases |s|
  {
    if |s| > 0 && IsWhiteSpace(s[0]) then ParseInt(s[1..]) else ParseSigned(s)
  }

  /** parseInt once the leading white space is gone. */
  function ParseSigned(t: string): (r: Option<int>) {
    var signed := |t| > 0 && (t[0] == '-' || t[0] == '+');
    var body := if signed then t[1..] else t;
    var d := LeadingDigits(body);
    var v: int := if d == "" then 0 else DigitsValue(d);
    if d == "" then None
    else if signed && t[0] == '-' then Some(-v)
    else Some(v)
  }

  /** parseInt of a string made only of digits reads all of it; the empty string is NaN. */
  lemma {:induction false} ParseIntOfDigits(s: string)
    requires AllDigits(s)
    ensures ParseInt(s) == if s == "" then None else Some(DigitsValue(s))
  {
    if s != "" {
      assert IsDigit(s[0]) && !IsWhiteSpace(s[0]);
      LeadingDigitsAll(s);
    }
  }

  /** parseInt of the decimal form of a natural number, with anything non-digit after it. */
  lemma {:induction false} ParseIntNatToString(n: nat, tail: string)
    requires |tail| > 0 ==> !IsDigit(tail[0])
    ensures ParseInt(NatToString(n) + tail) == Some(n)
  {
    var d := NatToString(n);
    var s := d + tail;
    assert s[0] == d[0] && IsDigit(s[0]);
    assert !IsWhiteSpace(s[0]);
    LeadingDigitsOfConcat(d, tail);
    assert LeadingDigits(s) == d;
    DigitsValueOfNatToString(n);
  }

  lemma {:induction false} LeadingDigitsOfConcat(d: string, tail: string)
    requires AllDigits(d)
    requires |tail| > 0 ==> !IsDigit(tail[0])
    ensures LeadingDigits(d + tail) == d
    decreases |d|
  {
    if |d| > 0 {
      assert (d + tail)[1..] == d[1..] + tail;
      LeadingDigitsOfConcat(d[1..], tail);
    }
  }

  /** Characters of the base-36 alphabet used by `Number.prototype.toString(36)`. */
  function Base36Digit(d: nat): (ch: char)
    requires d < 36
  {
    if d < 10 then ('0' as int + d) as char else ('a' as int + d - 10) as char
  }

  /** `n.toString(36)` for a non-negative integer. */
  function ToBase36(n: nat): (r: string)
    ensures |r| >= 1
    ensures n < 36 ==> |r| == 1
    ensures n >= 36 ==> |r| == |ToBase36(n / 36)| + 1
    decreases n
  {
    if n < 36 then [Base36Digit(n)] else ToBase36(n / 36) + [Base36Digit(n % 36)]
  }

  /** A number below 36^k has at most k base-36 digits. */
  lemma {:induction false} ToBase36Length(n: nat, k: nat)
    requires k >= 1 && n < Pow36(k)
    ensures |ToBase36(n)| <= k
    decreases k
  {
    if n >= 36 {
      assert n / 36 < Pow36(k - 1);
      ToBase36Length(n / 36, k - 1);
    }
  }

  function Pow36(k: nat): (p: nat)
    ensures p >= 1
  {
    if k == 0 then 1 else 36 * Pow36(k - 1)
  }

  /** `s.substring(0, n)` */
  function Take(s: string, n: nat): (r: string)
    ensures |r| == if n <= |s| then n else |s|
    ensures StartsWith(s, r)
  {
    if n <= |s| then s[..n] else s
  }
}
