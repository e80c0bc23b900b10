/** String helpers shared by the TypeScript and the Python rules: substring search,
    ASCII lower-casing, splitting on one separator character, joining, trimming and
    decimal rendering of integers. */
module Text {

  /** `t` occurs in `s` starting at index `i`. */
  predicate OccursAt(s: string, t: string, i: nat) {
    i + |t| <= |s| && s[i..i + |t|] == t
  }

  /** JavaScript `s.includes(t)` / Python `t in s`. */
  predicate Contains(s: string, t: string) {
    exists i | 0 <= i <= |s| :: OccursAt(s, t, i)
  }

  lemma ContainsEmpty(s: string)
    ensures Contains(s, "")
  {
    assert OccursAt(s, "", 0);
  }

  /** Substring containment is transitive. */
  lemma {:induction false} ContainsTransitive(a: string, b: string, c: string)
    requires Contains(a, b) && Contains(b, c)
    ensures Contains(a, c)
  {
    var i :| 0 <= i <= |a| && OccursAt(a, b, i);
    var j :| 0 <= j <= |b| && OccursAt(b, c, j);
    forall k | 0 <= k < |c| ensures a[i + j + k] == c[k] {
      assert a[i + j + k] == a[i..i + |b|][j + k] == b[j + k] == b[j..j + |c|][k];
    }
    assert a[i + j..i + j + |c|] == c;
    assert OccursAt(a, c, i + j);
  }

  lemma ContainsIn(a: string, b: string, c: string, t: string)
    requires Contains(b, t)
    ensures Contains(a + b + c, t)
  {
    var j :| 0 <= j <= |b| && OccursAt(b, t, j);
    assert (a + b + c)[|a| + j..|a| + j + |t|] == b[j..j + |t|];
    assert OccursAt(a + b + c, t, |a| + j);
  }

  lemma ContainsSelf(s: string)
    ensures Contains(s, s)
  {
    assert OccursAt(s, s, 0);
  }

  // ---------------------------------------------------------------------------
  // ASCII case mapping (the model's stand-in for toLowerCase() / str.lower())

  function LowerChar(c: char): (d: char)
    ensures 'A' <= c <= 'Z' ==> d as int == c as int + 32
    ensures !('A' <= c <= 'Z') ==> d == c
  {
    if 'A' <= c <= 'Z' then (c as int + 32) as char else c
  }

  function Lower(s: string): (r: string)
    ensures |r| == |s|
    ensures forall i | 0 <= i < |s| :: r[i] == LowerChar(s[i])
  {
    if s == [] then [] else [LowerChar(s[0])] + Lower(s[1..])
  }

  lemma {:induction false} LowerAppend(a: string, b: string)
    ensures Lower(a + b) == Lower(a) + Lower(b)
  {
    var l, r := Lower(a + b), Lower(a) + Lower(b);
    assert |l| == |r|;
    forall i | 0 <= i < |l| ensures l[i] == r[i] {
      if i < |a| { assert (a + b)[i] == a[i]; } else { assert (a + b)[i] == b[i - |a|]; }
    }
  }

  lemma {:induction false} LowerSlice(s: string, i: nat, j: nat)
    requires i <= j <= |s|
    ensures Lower(s)[i..j] == Lower(s[i..j])
  {
    var l, r := Lower(s)[i..j], Lower(s[i..j]);
    assert |l| == |r|;
    forall k | 0 <= k < |l| ensures l[k] == r[k] {
      assert s[i..j][k] == s[i + k];
    }
  }

  /** Lower-casing preserves containment. */
  lemma {:induction false} ContainsLower(s: string, t: string)
    requires Contains(s, t)
    ensures Contains(Lower(s), Lower(t))
  {
    var i :| 0 <= i <= |s| && OccursAt(s, t, i);
    LowerSlice(s, i, i + |t|);
    assert OccursAt(Lower(s), Lower(t), i);
  }

  /** Lower-casing twice is lower-casing once. */
  lemma {:induction false} LowerIdempotent(s: string)
    ensures Lower(Lower(s)) == Lower(s)
  {
    var a, b := Lower(Lower(s)), Lower(s);
    assert |a| == |b|;
    forall i | 0 <= i < |a| ensures a[i] == b[i] {}
  }

  // ---------------------------------------------------------------------------
  // Splitting on one separator character and joining

  function FirstIndex(s: string, c: char): (i: nat)
    requires c in s
    ensures i < |s| && s[i] == c
    ensures forall k | 0 <= k < i :: s[k] != c
  {
    if s[0] == c then 0 else FirstIndex(s[1..], c) + 1
  }

  /** JavaScript `s.split(sep)` / Python `s.split(sep)` for a one-character separator. */
  function Split(s: string, sep: char): (parts: seq<string>)
    ensures |parts| >= 1
    ensures forall p | p in parts :: sep !in p
    decreases |s|
  {
    if sep in s then
      var i := FirstIndex(s, sep);
      [s[..i]] + Split(s[i + 1..], sep)
    else [s]
  }

  /** JavaScript `parts.join(sep)` / Python `sep.join(parts)`. */
  function Join(parts: seq<string>, sep: string): string {
    if parts == [] then ""
    else if |parts| == 1 then parts[0]
    else parts[0] + sep + Join(parts[1..], sep)
  }

  lemma {:induction false} SplitJoin(s: string, sep: char)
    ensures Join(Split(s, sep), [sep]) == s
    decreases |s|
  {
    if sep in s {
      var i := FirstIndex(s, sep);
      var parts, rest := Split(s, sep), Split(s[i + 1..], sep);
      SplitJoin(s[i + 1..], sep);
      assert parts == [s[..i]] + rest && parts[1..] == rest;
      assert Join(parts, [sep]) == s[..i] + [sep] + Join(rest, [sep]);
      assert s == s[..i] + [sep] + s[i + 1..];
    }
  }

  /** Splitting `a + [sep] + b`, with no separator in `a`, peels `a` off the front. */
  lemma SplitCons(a: string, sep: char, b: string)
    requires sep !in a
    ensures Split(a + [sep] + b, sep) == [a] + Split(b, sep)
  {
    var s := a + [sep] + b;
    assert s[|a|] == sep;
    assert forall k | 0 <= k < |a| :: s[k] == a[k];
    var i := FirstIndex(s, sep);
    assert i == |a|;
    assert s[..i] == a;
    assert s[i + 1..] == b;
  }

  /** No part containing the separator: joining then splitting gives the parts back. */
  lemma {:induction false} JoinSplit(parts: seq<string>, sep: char)
    requires parts != []
    requires forall k | 0 <= k < |parts| :: sep !in parts[k]
    ensures Split(Join(parts, [sep]), sep) == parts
  {
    if |parts| > 1 {
      JoinSplit(parts[1..], sep);
      SplitCons(parts[0], sep, Join(parts[1..], [sep]));
      assert parts == [parts[0]] + parts[1..];
    }
  }

  /** A character that is in no part and is not the separator is not in the join. */
  lemma {:induction false} JoinNoChar(parts: seq<string>, sep: char, c: char)
    requires c != sep
    requires forall k | 0 <= k < |parts| :: c !in parts[k]
    ensures c !in Join(parts, [sep])
  {
    if |parts| > 1 {
      JoinNoChar(parts[1..], sep, c);
      assert c !in parts[0];
    }
  }

  /** Joining non-empty parts starts with the first part's first character and ends
      with the last part's last character. */
  lemma {:induction false} JoinEnds(parts: seq<string>, sep: string)
    requires parts != [] && forall k | 0 <= k < |parts| :: parts[k] != []
    ensures Join(parts, sep) != []
    ensures Join(parts, sep)[0] == parts[0][0]
    ensures Join(parts, sep)[|Join(parts, sep)| - 1] == parts[|parts| - 1][|parts[|parts| - 1]| - 1]
  {
    if |parts| > 1 {
      JoinEnds(parts[1..], sep);
    }
  }

  lemma SplitNone(s: string, sep: char)
    requires sep !in s
    ensures Split(s, sep) == [s]
  {
  }

  // ---------------------------------------------------------------------------
  // Trimming

  /** Whose notion of whitespace a trim uses. */
  datatype Flavor = JavaScript | Python

  predicate IsSpace(f: Flavor, c: char) {
    match f
    case JavaScript => IsJsSpace(c)
    case Python => IsPySpace(c)
  }

  /** JavaScript `s.trim()` / Python `s.strip()`: leading and trailing whitespace removed. */
  function Trim(s: string, f: Flavor): (r: string)
    ensures exists i, j | 0 <= i <= j <= |s| :: r == s[i..j]
    ensures r != [] ==> !IsSpace(f, r[0]) && !IsSpace(f, r[|r| - 1])
  {
    var i := TrimStart(s, f, 0);
    var j := TrimEnd(s, f, i, |s|);
    s[i..j]
  }

  function TrimStart(s: string, f: Flavor, i: nat): (k: nat)
    requires i <= |s|
    ensures i <= k <= |s|
    ensures k < |s| ==> !IsSpace(f, s[k])
    decreases |s| - i
  {
    if i < |s| && IsSpace(f, s[i]) then TrimStart(s, f, i + 1) else i
  }

  function TrimEnd(s: string, f: Flavor, lo: nat, j: nat): (k: nat)
    requires lo <= j <= |s|
    ensures lo <= k <= j
    ensures lo < k ==> !IsSpace(f, s[k - 1])
    decreases j
  {
    if lo < j && IsSpace(f, s[j - 1]) then TrimEnd(s, f, lo, j - 1) else j
  }

  lemma TrimNoChar(s: string, f: Flavor, c: char)
    requires c !in s
    ensures c !in Trim(s, f)
  {
    var r := Trim(s, f);
    var i, j :| 0 <= i <= j <= |s| && r == s[i..j];
    assert forall k | 0 <= k < |r| :: r[k] == s[i + k];
  }

  /** Trimming removes nothing from a string whose ends are not whitespace. */
  lemma TrimNoop(s: string, f: Flavor)
    requires s != [] ==> !IsSpace(f, s[0]) && !IsSpace(f, s[|s| - 1])
    ensures Trim(s, f) == s
  {
  }

  /** The characters JavaScript's String.prototype.trim removes (WhiteSpace and
      LineTerminator of ECMA-262). */
  predicate IsJsSpace(c: char) {
    ('\t' <= c <= '\r') || c == ' ' || c == '\U{00A0}' || c == '\U{1680}'
    || ('\U{2000}' <= c <= '\U{200A}') || c == '\U{2028}' || c == '\U{2029}'
    || c == '\U{202F}' || c == '\U{205F}' || c == '\U{3000}' || c == '\U{FEFF}'
  }

  /** The characters Python's str.isspace() accepts, used by str.strip() and str.split(). */
  predicate IsPySpace(c: char) {
    ('\t' <= c <= '\r') || ('\U{001C}' <= c <= ' ') || c == '\U{0085}' || c == '\U{00A0}'
    || c == '\U{1680}' || ('\U{2000}' <= c <= '\U{200A}') || c == '\U{2028}' || c == '\U{2029}'
    || c == '\U{202F}' || c == '\U{205F}' || c == '\U{3000}'
  }

  // ---------------------------------------------------------------------------
  // Python str.split() with no argument: runs of whitespace separate words

  function SkipSpaces(s: string): (r: string)
    ensures |r| <= |s| && r == s[|s| - |r|..]
    ensures r != [] ==> !IsPySpace(r[0])
  {
    if s != [] && IsPySpace(s[0]) then SkipSpaces(s[1..]) else s
  }

  function WordLength(s: string): (n: nat)
    ensures n <= |s|
    ensures forall k | 0 <= k < n :: !IsPySpace(s[k])
    ensures n < |s| ==> IsPySpace(s[n])
  {
    if s != [] && !IsPySpace(s[0]) then 1 + WordLength(s[1..]) else 0
  }

  /** The words of `s`, as Python's `s.split()` returns them. */
  function Words(s: string): seq<string>
    decreases |s|
  {
    var t := SkipSpaces(s);
    if t == [] then [] else
      var n := WordLength(t);
      [t[..n]] + Words(t[n..])
  }

  lemma {:induction false} WordsOfSpaceFree(s: string)
    requires s != [] && forall k | 0 <= k < |s| :: !IsPySpace(s[k])
    ensures Words(s) == [s]
  {
    assert SkipSpaces(s) == s;
    WordLengthAll(s);
    assert s[|s|..] == [] && s[..|s|] == s;
    assert SkipSpaces([]) == [];
  }

  lemma {:induction false} WordLengthAll(s: string)
    requires forall k | 0 <= k < |s| :: !IsPySpace(s[k])
    ensures WordLength(s) == |s|
  {
    if s != [] { WordLengthAll(s[1..]); }
  }

  // ---------------------------------------------------------------------------
  // Identifiers: object keys and template variable names

  predicate IsIdentChar(c: char) {
    'a' <= c <= 'z' || 'A' <= c <= 'Z' || '0' <= c <= '9' || c == '_'
  }

  /** A non-empty run of letters, digits and underscores that does not start with a
      digit. */
  predicate IsIdent(k: string) {
    k != [] && !('0' <= k[0] <= '9') && forall i | 0 <= i < |k| :: IsIdentChar(k[i])
  }

  // ---------------------------------------------------------------------------
  // Decimal rendering (JavaScript Number.prototype.toString for integers, Python str(int))

  function DigitChar(d: nat): (c: char)
    requires d < 10
    ensures '0' <= c <= '9'
  {
    ('0' as int + d) as char
  }

  function NatToString(n: nat): (r: string)
    ensures r != []
    ensures forall k | 0 <= k < |r| :: '0' <= r[k] <= '9'
    ensures r[0] == '0' <==> n == 0
  {
    if n < 10 then [DigitChar(n)] else NatToString(n / 10) + [DigitChar(n % 10)]
  }

  function IntToString(i: int): (r: string)
    ensures r != []
    ensures i < 0 <==> r[0] == '-'
  {
    if i < 0 then "-" + NatToString(-i) else NatToString(i)
  }

  /** The value of a string of decimal digits. */
  function DigitsValue(s: string): nat
    requires forall k | 0 <= k < |s| :: '0' <= s[k] <= '9'
  {
    if s == [] then 0 else DigitsValue(s[..|s| - 1]) * 10 + (s[|s| - 1] as int - '0' as int)
  }

  /** Reading the digits back gives the number that was rendered. */
  lemma {:induction false} NatToStringRoundTrip(n: nat)
    ensures DigitsValue(NatToString(n)) == n
  {
    if n >= 10 {
      NatToStringRoundTrip(n / 10);
      var r := NatToString(n);
      assert r[..|r| - 1] == NatToString(n / 10);
    }
  }
}
