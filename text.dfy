/** ASCII stand-ins for the Python string methods and regular-expression
    character classes that the scraper applies to extracted text. */
module Text {

  datatype Option<T> = None | Some(value: T) {
    function GetOr(default: T): T { if Some? then value else default }
  }

  /** Python truthiness of an optional string: present and not empty. */
  predicate Truthy(o: Option<string>) { o.Some? && o.value != "" }

  /** The ASCII characters Python's str.strip() removes by default. */
  const Whitespace: set<char> :=
    {' ', '\t', '\n', '\U{000B}', '\U{000C}', '\r', '\U{001C}', '\U{001D}', '\U{001E}', '\U{001F}'}

  /** `\d` */
  predicate IsDigit(c: char) { '0' <= c <= '9' }

  /** `\w` */
  predicate IsWordChar(c: char) { 'a' <= c <= 'z' || 'A' <= c <= 'Z' || IsDigit(c) || c == '_' }

  /** `[\w\-]`, the characters kept by the file-name sanitiser. */
  predicate IsSafeChar(c: char) { IsWordChar(c) || c == '-' }

  function LowerChar(c: char): char { if 'A' <= c <= 'Z' then (c as int + 32) as char else c }

  /** str.lower() */
  function Lower(s: string): (r: string)
    ensures |r| == |s|
    ensures forall i :: 0 <= i < |s| ==> !('A' <= r[i] <= 'Z')
  {
    seq(|s|, i requires 0 <= i < |s| => LowerChar(s[i]))
  }

  /** Lower-casing text that has no upper-case letter changes nothing. */
  lemma LowerIdentity(s: string)
    requires forall i :: 0 <= i < |s| ==> !('A' <= s[i] <= 'Z')
    ensures Lower(s) == s
  {
  }

  /** str.replace(a, b) for single characters */
  function ReplaceChar(s: string, a: char, b: char): (r: string)
    ensures |r| == |s|
    ensures a != b ==> forall i :: 0 <= i < |r| ==> r[i] != a
  {
    seq(|s|, i requires 0 <= i < |s| => if s[i] == a then b else s[i])
  }

  lemma ReplaceCharIdentity(s: string, a: char, b: char)
    requires a !in s
    ensures ReplaceChar(s, a, b) == s
  {
  }

  /** str.lstrip(chars) */
  function TrimLeft(s: string, cs: set<char>): (r: string)
    ensures |r| <= |s| && r == s[|s| - |r|..]
    ensures r == [] || r[0] !in cs
    decreases |s|
  {
    if |s| > 0 && s[0] in cs then TrimLeft(s[1..], cs) else s
  }

  /** Only characters of `cs` are removed. */
  lemma {:induction false} TrimLeftDropped(s: string, cs: set<char>)
    ensures forall i :: 0 <= i < |s| - |TrimLeft(s, cs)| ==> s[i] in cs
    decreases |s|
  {
    if |s| > 0 && s[0] in cs {
      TrimLeftDropped(s[1..], cs);
    }
  }

  /** str.rstrip(chars) */
  function TrimRight(s: string, cs: set<char>): (r: string)
    ensures |r| <= |s| && r == s[..|r|]
    ensures r == [] || r[|r| - 1] !in cs
    decreases |s|
  {
    if |s| > 0 && s[|s| - 1] in cs then TrimRight(s[..|s| - 1], cs) else s
  }

  /** Only characters of `cs` are removed. */
  lemma {:induction false} TrimRightDropped(s: string, cs: set<char>)
    ensures forall i :: |TrimRight(s, cs)| <= i < |s| ==> s[i] in cs
    decreases |s|
  {
    if |s| > 0 && s[|s| - 1] in cs {
      TrimRightDropped(s[..|s| - 1], cs);
    }
  }

  /** str.strip(chars) */
  function TrimBoth(s: string, cs: set<char>): string { TrimLeft(TrimRight(s, cs), cs) }

  /** str.strip(): no surrounding whitespace is left. */
  function Strip(s: string): (r: string)
    ensures |r| <= |s|
    ensures r == [] || (r[0] !in Whitespace && r[|r| - 1] !in Whitespace)
  {
    TrimBoth(s, Whitespace)
  }

  predicate StartsWith(s: string, p: string) { |p| <= |s| && s[..|p|] == p }

  predicate EndsWith(s: string, p: string) { |p| <= |s| && s[|s| - |p|..] == p }

  /** `p in s` for strings */
  predicate Contains(s: string, p: string)
    ensures Contains(s, p) ==> |p| <= |s|
    decreases |s|
  {
    StartsWith(s, p) || (|s| > 0 && Contains(s[1..], p))
  }

  lemma {:induction false} ContainsAt(s: string, p: string, i: nat)
    requires i + |p| <= |s| && s[i..i + |p|] == p
    ensures Contains(s, p)
    decreases i
  {
    if i > 0 {
      assert s[1..][i - 1..i - 1 + |p|] == s[i..i + |p|];
      ContainsAt(s[1..], p, i - 1);
    }
  }

  lemma {:induction false} ContainsWitness(s: string, p: string) returns (i: nat)
    requires Contains(s, p)
    ensures i + |p| <= |s| && s[i..i + |p|] == p
    decreases |s|
  {
    if StartsWith(s, p) {
      i := 0;
    } else {
      var j := ContainsWitness(s[1..], p);
      i := j + 1;
      assert s[i..i + |p|] == s[1..][j..j + |p|];
    }
  }

  /** str.replace(p, ""): removes the non-overlapping occurrences of `p`,
      scanning from the left. */
  function RemoveAll(s: string, p: string): (r: string)
    requires |p| > 0
    ensures |r| <= |s|
    ensures Contains(s, p) ==> |r| <= |s| - |p|
    decreases |s|
  {
    if |s| < |p| then s
    else if s[..|p|] == p then RemoveAll(s[|p|..], p)
    else [s[0]] + RemoveAll(s[1..], p)
  }

  /** re.sub(r'[^\w\-]', '', s) */
  function Sanitize(s: string): (r: string)
    ensures |r| <= |s|
    ensures forall i :: 0 <= i < |r| ==> IsSafeChar(r[i])
    decreases |s|
  {
    if s == [] then []
    else (if IsSafeChar(s[0]) then [s[0]] else []) + Sanitize(s[1..])
  }

  /** Every kept character comes from the input. */
  lemma {:induction false} SanitizeFromInput(s: string)
    ensures forall i :: 0 <= i < |Sanitize(s)| ==> Sanitize(s)[i] in s
    decreases |s|
  {
    if s != [] {
      SanitizeFromInput(s[1..]);
      assert forall c :: c in s[1..] ==> c in s;
    }
  }

  /** Text made only of kept characters is left as it is. */
  lemma {:induction false} SanitizeIdentity(s: string)
    requires forall i :: 0 <= i < |s| ==> IsSafeChar(s[i])
    ensures Sanitize(s) == s
    decreases |s|
  {
    if s != [] {
      SanitizeIdentity(s[1..]);
    }
  }

  /** str.split(c) for a single separator character: one more piece than
      there are separators. */
  function Split(s: string, c: char): (r: seq<string>)
    ensures |r| >= 1
    decreases |s|
  {
    if |s| == 0 then [""]
    else
      var rest := Split(s[1..], c);
      if s[0] == c then [""] + rest else [[s[0]] + rest[0]] + rest[1..]
  }

  lemma {:induction false} SplitWithout(s: string, c: char)
    requires c !in s
    ensures Split(s, c) == [s]
    decreases |s|
  {
    if |s| > 0 {
      assert c !in s[1..];
      SplitWithout(s[1..], c);
      assert [s[0]] + s[1..] == s;
    }
  }

  lemma {:induction false} SplitAfter(a: string, c: char, b: string)
    requires c !in a
    ensures Split(a + [c] + b, c) == [a] + Split(b, c)
    decreases |a|
  {
    var s := a + [c] + b;
    if |a| == 0 {
      assert s[1..] == b;
    } else {
      assert s[1..] == a[1..] + [c] + b;
      assert c !in a[1..];
      SplitAfter(a[1..], c, b);
      assert [a[0]] + a[1..] == a;
    }
  }

  /** No piece of a split holds the separator. */
  lemma {:induction false} SplitPiecesFree(s: string, c: char, k: nat)
    requires k < |Split(s, c)|
    ensures c !in Split(s, c)[k]
    decreases |s|
  {
    if |s| > 0 {
      var rest := Split(s[1..], c);
      if s[0] == c {
        if k > 0 { SplitPiecesFree(s[1..], c, k - 1); }
      } else if k == 0 {
        SplitPiecesFree(s[1..], c, 0);
      } else {
        SplitPiecesFree(s[1..], c, k);
      }
    }
  }

  /** The last piece is whatever follows the last separator. */
  lemma {:induction false} SplitLast(a: string, c: char, b: string)
    requires c !in b
    ensures var r := Split(a + [c] + b, c); r[|r| - 1] == b
    decreases |a|
  {
    var s := a + [c] + b;
    if |a| == 0 {
      assert s[1..] == b;
      SplitWithout(b, c);
    } else {
      assert s[1..] == a[1..] + [c] + b;
      SplitLast(a[1..], c, b);
      SplitHasMore(s[1..], c);
    }
  }

  lemma {:induction false} SplitHasMore(s: string, c: char)
    requires c in s
    ensures |Split(s, c)| >= 2
    decreases |s|
  {
    if s[0] != c {
      SplitHasMore(s[1..], c);
    }
  }

  /** A decimal digit as a character. */
  function DigitChar(d: nat): (c: char)
    requires d < 10
    ensures IsDigit(c)
  {
    ('0' as int + d) as char
  }

  function DigitValue(c: char): (d: nat)
    requires IsDigit(c)
    ensures d < 10 && DigitChar(d) == c
  {
    c as int - '0' as int
  }

  predicate AllDigits(s: string) { forall i :: 0 <= i < |s| ==> IsDigit(s[i]) }

  /** str(n) for n >= 0 */
  function ShowNat(n: nat): (r: string)
    ensures |r| > 0 && AllDigits(r)
    ensures r[0] != '0' || n == 0
    decreases n
  {
    if n < 10 then [DigitChar(n)] else ShowNat(n / 10) + [DigitChar(n % 10)]
  }

  /** int(s) for a string of decimal digits (leading zeros carry no value). */
  function ParseDigits(s: string): nat
    requires AllDigits(s)
    decreases |s|
  {
    if s == [] then 0 else 10 * ParseDigits(s[..|s| - 1]) + DigitValue(s[|s| - 1])
  }

  /** Reading back what ShowNat writes gives the number again. */
  lemma {:induction false} ParseShowNat(n: nat)
    ensures ParseDigits(ShowNat(n)) == n
    decreases n
  {
    var r := ShowNat(n);
    if n >= 10 {
      ParseShowNat(n / 10);
      assert r[..|r| - 1] == ShowNat(n / 10);
    }
  }

  lemma ShowNatInjective(m: nat, n: nat)
    requires ShowNat(m) == ShowNat(n)
    ensures m == n
  {
    ParseShowNat(m);
    ParseShowNat(n);
  }

  /** The longest prefix of decimal digits. */
  function LeadingDigits(s: string): (r: string)
    ensures |r| <= |s| && r == s[..|r|] && AllDigits(r)
    ensures |r| == |s| || !IsDigit(s[|r|])
    decreases |s|
  {
    if |s| > 0 && IsDigit(s[0]) then [s[0]] + LeadingDigits(s[1..]) else []
  }

  /** int(re.search(r'\d+', s).group()), or None when `s` holds no digit. */
  function FirstNumber(s: string): (r: Option<nat>)
    ensures r.Some? <==> exists i :: 0 <= i < |s| && IsDigit(s[i])
    decreases |s|
  {
    if |s| == 0 then None
    else if IsDigit(s[0]) then Some(ParseDigits(LeadingDigits(s)))
    else
      var r := FirstNumber(s[1..]);
      assert forall i :: 1 <= i < |s| ==> s[i] == s[1..][i - 1];
      r
  }

  /** The leading digits stop where the run of digits ends. */
  lemma {:induction false} LeadingDigitsOf(d: string, b: string)
    requires AllDigits(d) && (b == [] || !IsDigit(b[0]))
    ensures LeadingDigits(d + b) == d
    decreases |d|
  {
    if |d| > 0 {
      assert (d + b)[1..] == d[1..] + b;
      LeadingDigitsOf(d[1..], b);
      assert d == [d[0]] + d[1..];
    } else {
      assert d + b == b;
    }
  }

  /** The number read is the value of the first maximal run of digits. */
  lemma {:induction false} FirstNumberValue(a: string, d: string, b: string)
    requires forall i :: 0 <= i < |a| ==> !IsDigit(a[i])
    requires |d| > 0 && AllDigits(d) && (b == [] || !IsDigit(b[0]))
    ensures FirstNumber(a + d + b) == Some(ParseDigits(d))
    decreases |a|
  {
    if |a| > 0 {
      assert (a + d + b)[1..] == a[1..] + d + b;
      FirstNumberValue(a[1..], d, b);
    } else {
      assert a + d + b == d + b;
      LeadingDigitsOf(d, b);
    }
  }
}
