/**
 * String operations that the extension (JavaScript) and the bot (Python) use on page
 * text, element texts and target lists: lower-casing, substring search, trimming,
 * splitting on a separator character and joining, and decimal rendering of integers.
 */
module Text {

  // ---------------------------------------------------------------------------
  // Lower case
  // ---------------------------------------------------------------------------

  /** An upper-case letter of ASCII or of the Latin-1 supplement (U+00C0..U+00DE without U+00D7). */
  predicate IsUpper(c: char) {
    ('A' <= c <= 'Z') || ('\U{00C0}' <= c <= '\U{00DE}' && c != '\U{00D7}')
  }

  /** `toLowerCase()` / `lower()` restricted to the letters `IsUpper` accepts. */
  function LowerChar(c: char): (r: char)
    ensures !IsUpper(r)
    ensures IsUpper(c) ==> r as int == c as int + 32
    ensures !IsUpper(c) ==> r == c
  {
    if IsUpper(c) then (c as int + 32) as char else c
  }

  function Lower(s: string): (r: string)
    ensures |r| == |s|
    ensures forall i :: 0 <= i < |s| ==> r[i] == LowerChar(s[i])
  {
    seq(|s|, i requires 0 <= i < |s| => LowerChar(s[i]))
  }

  /** A string that lower-casing leaves as it is. */
  predicate IsLower(s: string) {
    forall i :: 0 <= i < |s| ==> !IsUpper(s[i])
  }

  lemma LowerOfLower(s: string)
    requires IsLower(s)
    ensures Lower(s) == s
  {
  }

  lemma LowerIsLower(s: string)
    ensures IsLower(Lower(s))
  {
  }

  lemma LowerConcat(a: string, b: string)
    ensures Lower(a + b) == Lower(a) + Lower(b)
  {
  }

  // ---------------------------------------------------------------------------
  // Substrings
  // ---------------------------------------------------------------------------

  predicate StartsWith(s: string, prefix: string) {
    |prefix| <= |s| && s[..|prefix|] == prefix
  }

  /** `s.includes(sub)` in JavaScript, `sub in s` in Python. */
  predicate Contains(s: string, sub: string)
    decreases |s|
  {
    StartsWith(s, sub) || (|s| > 0 && Contains(s[1..], sub))
  }

  /** `sub` occurs in `s` at position `i`. */
  ghost predicate OccursAt(s: string, sub: string, i: int) {
    0 <= i && i + |sub| <= |s| && s[i..i + |sub|] == sub
  }

  lemma {:induction false} ContainsIff(s: string, sub: string)
    ensures Contains(s, sub) <==> exists i :: OccursAt(s, sub, i)
    decreases |s|
  {
    if Contains(s, sub) {
      if StartsWith(s, sub) {
        assert OccursAt(s, sub, 0);
      } else {
        ContainsIff(s[1..], sub);
        var i :| OccursAt(s[1..], sub, i);
        assert s[1..][i..i + |sub|] == s[i + 1..i + 1 + |sub|];
        assert OccursAt(s, sub, i + 1);
      }
    }
    if exists i :: OccursAt(s, sub, i) {
      var i :| OccursAt(s, sub, i);
      if i == 0 {
        assert StartsWith(s, sub);
      } else {
        assert s[1..][i - 1..i - 1 + |sub|] == s[i..i + |sub|];
        assert OccursAt(s[1..], sub, i - 1);
        ContainsIff(s[1..], sub);
      }
    }
  }

  /** Whatever contains `mid` contains everything `mid` contains. */
  lemma ContainsTransitive(s: string, mid: string, sub: string)
    requires Contains(s, mid) && Contains(mid, sub)
    ensures Contains(s, sub)
  {
    ContainsIff(s, mid);
    ContainsIff(mid, sub);
    var i :| OccursAt(s, mid, i);
    var j :| OccursAt(mid, sub, j);
    forall k | 0 <= k < |sub|
      ensures sub[k] == s[i + j + k]
    {
      assert sub[k] == mid[j + k];
      assert mid[j + k] == s[i + j + k];
    }
    assert sub == s[i + j..i + j + |sub|];
    assert OccursAt(s, sub, i + j);
    ContainsIff(s, sub);
  }

  lemma ContainsPrefix(s: string, prefix: string)
    requires StartsWith(s, prefix)
    ensures Contains(s, prefix)
  {
  }

  lemma ContainsOwnPrefix(prefix: string, rest: string)
    ensures Contains(prefix + rest, prefix)
  {
    assert (prefix + rest)[..|prefix|] == prefix;
  }

  /** A string whose first character is nowhere in `s` does not occur in `s`. */
  lemma AbsentFirstChar(s: string, sub: string)
    requires |sub| > 0 && sub[0] !in s
    ensures !Contains(s, sub)
  {
    ContainsIff(s, sub);
    forall i | 0 <= i && i + |sub| <= |s|
      ensures !OccursAt(s, sub, i)
    {
      assert s[i] in s;
    }
  }

  /** `needles.some(n => text.includes(n))`, a `for` loop returning on the first hit. */
  function ContainsAny(text: string, needles: seq<string>): (r: bool)
    ensures r <==> exists k :: 0 <= k < |needles| && Contains(text, needles[k])
  {
    if |needles| == 0 then false
    else Contains(text, needles[0]) || ContainsAny(text, needles[1..])
  }

  /** `needles.map(n => n.toLowerCase())`. */
  function LowerAll(needles: seq<string>): (r: seq<string>)
    ensures |r| == |needles|
    ensures forall k :: 0 <= k < |needles| ==> r[k] == Lower(needles[k])
  {
    seq(|needles|, k requires 0 <= k < |needles| => Lower(needles[k]))
  }

  /** No string contains a string longer than itself. */
  lemma ContainsShorter(s: string, sub: string)
    requires Contains(s, sub)
    ensures |sub| <= |s|
  {
    ContainsIff(s, sub);
  }

  // ---------------------------------------------------------------------------
  // Trimming
  // ---------------------------------------------------------------------------

  /** The characters JavaScript's `String.prototype.trim` removes (WhiteSpace and LineTerminator, BMP). */
  const JsSpace: set<char> := {
    '\t', '\n', '\U{000B}', '\U{000C}', '\r', ' ', '\U{00A0}', '\U{1680}',
    '\U{2000}', '\U{2001}', '\U{2002}', '\U{2003}', '\U{2004}', '\U{2005}', '\U{2006}',
    '\U{2007}', '\U{2008}', '\U{2009}', '\U{200A}',
    '\U{2028}', '\U{2029}', '\U{202F}', '\U{205F}', '\U{3000}', '\U{FEFF}'
  }

  /** The characters Python's `str.strip()` removes (those for which `str.isspace()` holds, BMP). */
  const PySpace: set<char> := {
    '\t', '\n', '\U{000B}', '\U{000C}', '\r', '\U{001C}', '\U{001D}', '\U{001E}', '\U{001F}',
    ' ', '\U{0085}', '\U{00A0}', '\U{1680}',
    '\U{2000}', '\U{2001}', '\U{2002}', '\U{2003}', '\U{2004}', '\U{2005}', '\U{2006}',
    '\U{2007}', '\U{2008}', '\U{2009}', '\U{200A}',
    '\U{2028}', '\U{2029}', '\U{202F}', '\U{205F}', '\U{3000}'
  }

  /** How many characters of `ws` open `s`. */
  function Leading(s: string, ws: set<char>): (n: nat)
    ensures n <= |s|
    ensures n < |s| ==> s[n] !in ws
  {
    if |s| > 0 && s[0] in ws then 1 + Leading(s[1..], ws) else 0
  }

  /** How many characters of `ws` close `s`. */
  function Trailing(s: string, ws: set<char>): (n: nat)
    ensures n <= |s|
    ensures n < |s| ==> s[|s| - 1 - n] !in ws
  {
    if |s| > 0 && s[|s| - 1] in ws then 1 + Trailing(s[..|s| - 1], ws) else 0
  }

  /** The slice of `s` left after dropping the characters of `ws` from both ends. */
  function Trim(s: string, ws: set<char>): (r: string)
    ensures r == [] || (r[0] !in ws && r[|r| - 1] !in ws)
  {
    var t := s[Leading(s, ws)..];
    t[..|t| - Trailing(t, ws)]
  }

  /** A string with no character of `ws` at either end. */
  predicate IsTrimmed(s: string, ws: set<char>) {
    s == [] || (s[0] !in ws && s[|s| - 1] !in ws)
  }

  lemma TrimOfTrimmed(s: string, ws: set<char>)
    requires IsTrimmed(s, ws)
    ensures Trim(s, ws) == s
  {
  }

  /** Trimming keeps out every character the original lacks. */
  lemma TrimKeepsOut(s: string, ws: set<char>, c: char)
    requires c !in s
    ensures c !in Trim(s, ws)
  {
  }

  // ---------------------------------------------------------------------------
  // Splitting and joining
  // ---------------------------------------------------------------------------

  function FirstIndex(s: string, c: char): (r: nat)
    requires c in s
    ensures r < |s| && s[r] == c && c !in s[..r]
  {
    if s[0] == c then 0 else FirstIndex(s[1..], c) + 1
  }

  /** `parts` glued together with `sep` between neighbours (JavaScript `join`, Python `str.join`). */
  function Join(parts: seq<string>, sep: string): string {
    if |parts| == 0 then ""
    else if |parts| == 1 then parts[0]
    else parts[0] + sep + Join(parts[1..], sep)
  }

  lemma JoinThree(a: string, b: string, c: string, sep: string)
    ensures Join([a, b, c], sep) == a + (sep + b + sep) + c
  {
    assert [a, b, c][1..] == [b, c] && [b, c][1..] == [c];
    assert Join([b, c], sep) == b + sep + c;
    assert Join([a, b, c], sep) == a + sep + (b + sep + c);
  }

  /** `s.split(sep)` for a one-character separator, in JavaScript and in Python alike. */
  function Split(s: string, sep: char): (parts: seq<string>)
    ensures |parts| >= 1
    ensures forall k :: 0 <= k < |parts| ==> sep !in parts[k]
    decreases |s|
  {
    if sep !in s then [s]
    else
      var k := FirstIndex(s, sep);
      [s[..k]] + Split(s[k + 1..], sep)
  }

  /** Joining the pieces with the separator gives back the split string. */
  lemma {:induction false} JoinSplit(s: string, sep: char)
    ensures Join(Split(s, sep), [sep]) == s
    decreases |s|
  {
    if sep in s {
      var k := FirstIndex(s, sep);
      var head, tail := s[..k], s[k + 1..];
      JoinSplit(tail, sep);
      var rest := Split(tail, sep);
      SplitStep(s, sep, k);
      var parts := [head] + rest;
      assert parts[0] == head && parts[1..] == rest;
      assert Join(parts, [sep]) == head + [sep] + Join(rest, [sep]);
      assert s == head + [sep] + tail;
    }
  }

  /** Splitting undoes joining when no part holds the separator. */
  lemma {:induction false} SplitJoin(parts: seq<string>, sep: char)
    requires |parts| >= 1
    requires forall k :: 0 <= k < |parts| ==> sep !in parts[k]
    ensures Split(Join(parts, [sep]), sep) == parts
  {
    if |parts| > 1 {
      var s := Join(parts, [sep]);
      var tail := Join(parts[1..], [sep]);
      assert s == parts[0] + [sep] + tail;
      assert s[|parts[0]|] == sep;
      assert s[..|parts[0]|] == parts[0];
      assert FirstIndex(s, sep) == |parts[0]|;
      assert s[|parts[0]| + 1..] == tail;
      SplitJoin(parts[1..], sep);
    }
  }

  /** Three separator-free parts glued with the separator split back into those parts. */
  lemma SplitThree(a: string, b: string, c: string, sep: char)
    requires sep !in a && sep !in b && sep !in c
    ensures Split(a + [sep] + b + [sep] + c, sep) == [a, b, c]
  {
    var parts := [a, b, c];
    assert forall k :: 0 <= k < |parts| ==> sep !in parts[k];
    SplitJoin(parts, sep);
    JoinThree(a, b, c, [sep]);
    assert a + ([sep] + b + [sep]) + c == a + [sep] + b + [sep] + c;
  }

  /** The first occurrence is the one with no occurrence before it. */
  lemma {:induction false} FirstIndexIs(s: string, c: char, k: nat)
    requires k < |s| && s[k] == c && c !in s[..k]
    ensures c in s && FirstIndex(s, c) == k
    decreases k
  {
    if k > 0 {
      assert s[0] == s[..k][0];
      assert s[1..][..k - 1] == s[..k][1..];
      FirstIndexIs(s[1..], c, k - 1);
    }
  }

  /** One step of `Split`: the piece before the first separator, then the split of the rest. */
  lemma SplitStep(s: string, sep: char, k: nat)
    requires k < |s| && s[k] == sep && sep !in s[..k]
    ensures Split(s, sep) == [s[..k]] + Split(s[k + 1..], sep)
  {
    FirstIndexIs(s, sep, k);
    assert sep in s;
  }

  lemma SeqAssoc<T>(x: seq<T>, y: seq<T>, z: seq<T>)
    ensures x + (y + z) == (x + y) + z
  {
  }

  /** Cutting `a + [x] + b` around position `k` of `a`. */
  lemma Regroup<T>(a: seq<T>, b: seq<T>, x: T, k: nat)
    requires k < |a|
    ensures (a + [x] + b)[..k] == a[..k]
    ensures (a + [x] + b)[k] == a[k]
    ensures (a + [x] + b)[k + 1..] == a[k + 1..] + [x] + b
  {
  }

  /** Splitting a glued string splits each side, the glue being the separator. */
  lemma {:induction false} SplitConcat(a: string, b: string, sep: char)
    ensures Split(a + [sep] + b, sep) == Split(a, sep) + Split(b, sep)
    decreases |a|
  {
    if sep !in a {
      SplitConcatPlain(a, b, sep);
    } else {
      var k := FirstIndex(a, sep);
      SplitConcat(a[k + 1..], b, sep);
      SplitConcatStep(a, b, sep, k);
    }
  }

  lemma SplitConcatPlain(a: string, b: string, sep: char)
    requires sep !in a
    ensures Split(a + [sep] + b, sep) == Split(a, sep) + Split(b, sep)
  {
    var s := a + [sep] + b;
    assert s[..|a|] == a;
    assert s[|a| + 1..] == b;
    SplitStep(s, sep, |a|);
  }

  lemma SplitConcatStep(a: string, b: string, sep: char, k: nat)
    requires k < |a| && a[k] == sep && sep !in a[..k]
    requires Split(a[k + 1..] + [sep] + b, sep) == Split(a[k + 1..], sep) + Split(b, sep)
    ensures Split(a + [sep] + b, sep) == Split(a, sep) + Split(b, sep)
  {
    var s := a + [sep] + b;
    var head, rest := a[..k], a[k + 1..];
    Regroup(a, b, sep, k);
    SplitStep(s, sep, k);
    SplitStep(a, sep, k);
    var pa, pb, pr := Split(a, sep), Split(b, sep), Split(rest, sep);
    assert pa == [head] + pr;
    assert Split(s, sep) == [head] + (pr + pb);
    SeqAssoc([head], pr, pb);
  }

  function Count(s: string, c: char): nat {
    if s == [] then 0 else (if s[0] == c then 1 else 0) + Count(s[1..], c)
  }

  lemma {:induction false} CountConcat(a: string, b: string, c: char)
    ensures Count(a + b, c) == Count(a, c) + Count(b, c)
  {
    if a != [] {
      assert (a + b)[0] == a[0] && (a + b)[1..] == a[1..] + b;
      CountConcat(a[1..], b, c);
    } else {
      assert a + b == b;
    }
  }

  lemma CountZero(s: string, c: char)
    ensures Count(s, c) == 0 <==> c !in s
  {
  }

  /** There is one more piece than there are separators. */
  lemma {:induction false} SplitLength(s: string, sep: char)
    ensures |Split(s, sep)| == Count(s, sep) + 1
    decreases |s|
  {
    if sep !in s {
      CountZero(s, sep);
    } else {
      var k := FirstIndex(s, sep);
      assert s == s[..k] + ([sep] + s[k + 1..]);
      CountConcat(s[..k], [sep] + s[k + 1..], sep);
      CountZero(s[..k], sep);
      assert ([sep] + s[k + 1..])[1..] == s[k + 1..];
      SplitLength(s[k + 1..], sep);
    }
  }

  // ---------------------------------------------------------------------------
  // Target lists: split into lines, trim each, drop the empty ones
  // ---------------------------------------------------------------------------

  /** `[t.trim() for t in lines if t.trim()]`, with `ws` the trimmed characters. */
  function TrimmedNonEmpty(lines: seq<string>, ws: set<char>): (r: seq<string>)
    ensures |r| <= |lines|
    ensures forall k :: 0 <= k < |r| ==> r[k] != [] && IsTrimmed(r[k], ws)
  {
    if lines == [] then []
    else
      var t := Trim(lines[0], ws);
      (if t == [] then [] else [t]) + TrimmedNonEmpty(lines[1..], ws)
  }

  lemma {:induction false} TrimmedNonEmptyConcat(a: seq<string>, b: seq<string>, ws: set<char>)
    ensures TrimmedNonEmpty(a + b, ws) == TrimmedNonEmpty(a, ws) + TrimmedNonEmpty(b, ws)
  {
    if a != [] {
      var t := Trim(a[0], ws);
      var head := if t == [] then [] else [t];
      assert (a + b)[0] == a[0] && (a + b)[1..] == a[1..] + b;
      assert TrimmedNonEmpty(a + b, ws) == head + TrimmedNonEmpty(a[1..] + b, ws);
      TrimmedNonEmptyConcat(a[1..], b, ws);
      assert TrimmedNonEmpty(a, ws) == head + TrimmedNonEmpty(a[1..], ws);
      SeqAssoc(head, TrimmedNonEmpty(a[1..], ws), TrimmedNonEmpty(b, ws));
    } else {
      assert a + b == b;
    }
  }

  /** Elements already trimmed and non-empty pass through unchanged and in order. */
  lemma {:induction false} TrimmedNonEmptyOfClean(lines: seq<string>, ws: set<char>)
    requires forall k :: 0 <= k < |lines| ==> lines[k] != [] && IsTrimmed(lines[k], ws)
    ensures TrimmedNonEmpty(lines, ws) == lines
  {
    if lines != [] {
      TrimOfTrimmed(lines[0], ws);
      TrimmedNonEmptyOfClean(lines[1..], ws);
    }
  }

  /** Every element of the result is the trimmed form of some line, whose index is `j`. */
  lemma {:induction false} TrimmedNonEmptyFrom(lines: seq<string>, ws: set<char>, k: nat) returns (j: nat)
    requires k < |TrimmedNonEmpty(lines, ws)|
    ensures j < |lines| && TrimmedNonEmpty(lines, ws)[k] == Trim(lines[j], ws)
  {
    var t := Trim(lines[0], ws);
    var head := if t == [] then [] else [t];
    var tail := TrimmedNonEmpty(lines[1..], ws);
    TrimmedNonEmptyUnfold(lines, ws);
    if k < |head| {
      j := 0;
    } else {
      var i := TrimmedNonEmptyFrom(lines[1..], ws, k - |head|);
      assert (head + tail)[k] == tail[k - |head|];
      assert lines[1..][i] == lines[i + 1];
      j := i + 1;
    }
  }

  /** The first line's contribution, then those of the other lines. */
  lemma TrimmedNonEmptyUnfold(lines: seq<string>, ws: set<char>)
    requires lines != []
    ensures var t := Trim(lines[0], ws);
            TrimmedNonEmpty(lines, ws) == (if t == [] then [] else [t]) + TrimmedNonEmpty(lines[1..], ws)
  {
  }

  // ---------------------------------------------------------------------------
  // Decimal rendering of integers (JavaScript's Number-to-String for integers)
  // ---------------------------------------------------------------------------

  function DigitChar(d: nat): (c: char)
    requires d < 10
  {
    ('0' as int + d) as char
  }

  predicate IsDigit(c: char) {
    '0' <= c <= '9'
  }

  function NatToDecimal(n: nat): (s: string)
    ensures |s| >= 1
    ensures forall k :: 0 <= k < |s| ==> IsDigit(s[k])
  {
    if n < 10 then [DigitChar(n)] else NatToDecimal(n / 10) + [DigitChar(n % 10)]
  }

  function IntToDecimal(i: int): (s: string) {
    if i < 0 then "-" + NatToDecimal(-i) else NatToDecimal(i)
  }

  /** The number a string of decimal digits denotes. */
  function DecimalValue(s: string): nat
    requires forall k :: 0 <= k < |s| ==> IsDigit(s[k])
  {
    if s == [] then 0
    else
      assert IsDigit(s[|s| - 1]);
      DecimalValue(s[..|s| - 1]) * 10 + (s[|s| - 1] as int - '0' as int)
  }

  lemma {:induction false} DecimalRoundTrip(n: nat)
    ensures DecimalValue(NatToDecimal(n)) == n
  {
    if n >= 10 {
      var s := NatToDecimal(n);
      assert s[..|s| - 1] == NatToDecimal(n / 10);
      DecimalRoundTrip(n / 10);
    }
  }
}
