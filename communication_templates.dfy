/** The communication template registry and its `{name}` placeholder substitution
    (lib/communication-templates.ts). */
module CommunicationTemplates {
  import opened Options
  import opened Text

  // ---------------------------------------------------------------------------
  // Global literal replacement

  /** The placeholder token `{k}`. */
  function Token(k: string): (r: string)
    ensures |r| == |k| + 2 && r[0] == '{' && r[|r| - 1] == '}' && r[1..|r| - 1] == k
  {
    "{" + k + "}"
  }

  /** `s.replace(new RegExp(t, "g"), v)` for a pattern `t` matching itself literally:
      scanning left to right, every occurrence of `t` that does not overlap an
      earlier replaced one is replaced by `v`. */
  function ReplaceAll(s: string, t: string, v: string): string
    requires t != []
    decreases |s|
  {
    if |s| < |t| then s
    else if s[..|t|] == t then v + ReplaceAll(s[|t|..], t, v)
    else [s[0]] + ReplaceAll(s[1..], t, v)
  }

  /** The pieces of `s` between the occurrences `ReplaceAll` replaces. */
  function SplitOn(s: string, t: string): (r: seq<string>)
    requires t != []
    ensures r != []
    decreases |s|
  {
    if |s| < |t| then [s]
    else if s[..|t|] == t then [""] + SplitOn(s[|t|..], t)
    else var rest := SplitOn(s[1..], t); [[s[0]] + rest[0]] + rest[1..]
  }

  lemma JoinConsHead(c: char, p: seq<string>, sep: string)
    requires p != []
    ensures Join([[c] + p[0]] + p[1..], sep) == [c] + Join(p, sep)
  {
    var q := [[c] + p[0]] + p[1..];
    assert q[1..] == p[1..];
  }

  /** Replacing every occurrence is joining the pieces between them with the value. */
  lemma {:induction false} ReplaceAllIsJoin(s: string, t: string, v: string)
    requires t != []
    ensures ReplaceAll(s, t, v) == Join(SplitOn(s, t), v)
    decreases |s|
  {
    if |s| < |t| {
    } else if s[..|t|] == t {
      ReplaceAllIsJoin(s[|t|..], t, v);
      JoinEmptyHead(SplitOn(s[|t|..], t), v);
    } else {
      ReplaceAllIsJoin(s[1..], t, v);
      JoinConsHead(s[0], SplitOn(s[1..], t), v);
    }
  }

  /** Joining the pieces with the pattern itself gives the text back: nothing but the
      occurrences of the pattern is changed. */
  lemma {:induction false} SplitOnJoin(s: string, t: string)
    requires t != []
    ensures Join(SplitOn(s, t), t) == s
    decreases |s|
  {
    if |s| < |t| {
    } else if s[..|t|] == t {
      SplitOnJoin(s[|t|..], t);
      JoinAfterMatch(s, t);
    } else {
      SplitOnJoin(s[1..], t);
      JoinConsHead(s[0], SplitOn(s[1..], t), t);
      assert s == [s[0]] + s[1..];
    }
  }

  /** An occurrence at the start becomes an empty first piece. */
  lemma JoinAfterMatch(s: string, t: string)
    requires t != [] && |s| >= |t| && s[..|t|] == t
    requires Join(SplitOn(s[|t|..], t), t) == s[|t|..]
    ensures Join(SplitOn(s, t), t) == s
  {
    JoinEmptyHead(SplitOn(s[|t|..], t), t);
    assert s == s[..|t|] + s[|t|..];
  }

  /** An empty first piece leaves only the separator in front. */
  lemma JoinEmptyHead(rest: seq<string>, sep: string)
    requires rest != []
    ensures Join([[]] + rest, sep) == sep + Join(rest, sep)
  {
    var p := [[]] + rest;
    assert p[1..] == rest;
    assert p[0] == [];
  }

  /** The first piece is a prefix of the text. */
  lemma {:induction false} SplitOnHeadPrefix(s: string, t: string)
    requires t != []
    ensures |SplitOn(s, t)[0]| <= |s| && SplitOn(s, t)[0] == s[..|SplitOn(s, t)[0]|]
    decreases |s|
  {
    if |s| >= |t| && s[..|t|] != t {
      SplitOnHeadPrefix(s[1..], t);
    }
  }

  /** No piece left between the replaced occurrences contains the pattern: every
      occurrence is replaced. */
  lemma {:induction false} SplitOnPiecesFree(s: string, t: string)
    requires t != []
    ensures forall k | 0 <= k < |SplitOn(s, t)| :: !Contains(SplitOn(s, t)[k], t)
    decreases |s|
  {
    if |s| < |t| {
      assert !Contains(s, t);
    } else if s[..|t|] == t {
      SplitOnPiecesFree(s[|t|..], t);
      PiecesFreeEmptyHead(SplitOn(s[|t|..], t), t);
    } else {
      var rest := SplitOn(s[1..], t);
      SplitOnPiecesFree(s[1..], t);
      SplitOnHeadPrefix(s[1..], t);
      var h := [s[0]] + rest[0];
      assert h == s[..|h|];
      assert !OccursAt(h, t, 0);
      ConsFree(s[0], rest[0], t);
      PiecesFreeConsHead(s[0], rest, t);
    }
  }

  /** An empty piece in front adds no occurrence. */
  lemma PiecesFreeEmptyHead(rest: seq<string>, t: string)
    requires t != []
    requires forall k | 0 <= k < |rest| :: !Contains(rest[k], t)
    ensures forall k | 0 <= k < |[[]] + rest| :: !Contains(([[]] + rest)[k], t)
  {
    var p := [[]] + rest;
    assert !OccursAt([], t, 0);
    forall k | 0 <= k < |p| ensures !Contains(p[k], t) {
      if k > 0 { assert p[k] == rest[k - 1]; }
    }
  }

  /** A character in front of text without the pattern adds an occurrence only at 0. */
  lemma ConsFree(c: char, x: string, t: string)
    requires t != [] && !Contains(x, t) && !OccursAt([c] + x, t, 0)
    ensures !Contains([c] + x, t)
  {
    var h := [c] + x;
    forall i | 0 < i <= |h| ensures !OccursAt(h, t, i) {
      assert !OccursAt(x, t, i - 1);
      if i + |t| <= |h| {
        assert h[i..i + |t|] == x[i - 1..i - 1 + |t|];
      }
    }
  }

  /** Extending the first piece by a character keeps every piece free of the pattern
      when the extended one is. */
  lemma PiecesFreeConsHead(c: char, rest: seq<string>, t: string)
    requires rest != []
    requires forall k | 0 <= k < |rest| :: !Contains(rest[k], t)
    requires !Contains([c] + rest[0], t)
    ensures var p := [[c] + rest[0]] + rest[1..];
      forall k | 0 <= k < |p| :: !Contains(p[k], t)
  {
    var p := [[c] + rest[0]] + rest[1..];
    forall k | 0 <= k < |p| ensures !Contains(p[k], t) {
      if k > 0 { assert p[k] == rest[k]; }
    }
  }

  /** Text without the pattern is left unchanged. */
  lemma {:induction false} ReplaceAllAbsent(s: string, t: string, v: string)
    requires t != []
    requires !Contains(s, t)
    ensures ReplaceAll(s, t, v) == s
    decreases |s|
  {
    if |s| >= |t| {
      assert !OccursAt(s, t, 0);
      forall i | 0 <= i <= |s[1..]| ensures !OccursAt(s[1..], t, i) {
        assert !OccursAt(s, t, i + 1);
        if i + |t| <= |s[1..]| {
          assert s[1..][i..i + |t|] == s[i + 1..i + 1 + |t|];
        }
      }
      ReplaceAllAbsent(s[1..], t, v);
      assert s == [s[0]] + s[1..];
    }
  }

  /** Replacing the pattern by itself changes nothing. */
  lemma {:induction false} ReplaceAllSelf(s: string, t: string)
    requires t != []
    ensures ReplaceAll(s, t, t) == s
    decreases |s|
  {
    if |s| < |t| {
    } else if s[..|t|] == t {
      ReplaceAllSelf(s[|t|..], t);
      assert s == s[..|t|] + s[|t|..];
    } else {
      ReplaceAllSelf(s[1..], t);
      assert s == [s[0]] + s[1..];
    }
  }

  /** No occurrence of `t` in `a + b` starts inside `a` and ends inside `b`. */
  predicate NoStraddle(a: string, b: string, t: string) {
    forall i | 0 <= i < |a| && |a| < i + |t| :: !OccursAt(a + b, t, i)
  }

  /** Dropping a prefix of `a` keeps the seam free. */
  lemma NoStraddleDrop(a: string, b: string, t: string, n: nat)
    requires NoStraddle(a, b, t) && n <= |a|
    ensures NoStraddle(a[n..], b, t)
  {
    var a' := a[n..];
    forall i | 0 <= i < |a'| && |a'| < i + |t| ensures !OccursAt(a' + b, t, i) {
      assert !OccursAt(a + b, t, i + n);
      if i + |t| <= |a' + b| {
        assert (a' + b)[i..i + |t|] == (a + b)[i + n..i + n + |t|];
      }
    }
  }

  /** Without an occurrence across the seam, replacement distributes over `+`. */
  lemma {:induction false} ReplaceAllAppend(a: string, b: string, t: string, v: string)
    requires t != []
    requires NoStraddle(a, b, t)
    ensures ReplaceAll(a + b, t, v) == ReplaceAll(a, t, v) + ReplaceAll(b, t, v)
    decreases |a|
  {
    var s := a + b;
    if a == [] {
      assert s == b;
    } else if |s| >= |t| && s[..|t|] == t {
      MatchInPrefix(a, b, t);
      NoStraddleDrop(a, b, t, |t|);
      ReplaceAllAppend(a[|t|..], b, t, v);
      assert ReplaceAll(s, t, v) == v + ReplaceAll(a[|t|..] + b, t, v);
      assert ReplaceAll(a, t, v) == v + ReplaceAll(a[|t|..], t, v);
    } else {
      NoStraddleDrop(a, b, t, 1);
      ReplaceAllAppend(a[1..], b, t, v);
      NoMatchInPrefix(a, b, t, v);
      SkipHead(a, t, v);
    }
  }

  /** An occurrence at the start of `a + b` lies inside `a`. */
  lemma MatchInPrefix(a: string, b: string, t: string)
    requires t != [] && a != [] && NoStraddle(a, b, t)
    requires |a + b| >= |t| && (a + b)[..|t|] == t
    ensures |a| >= |t| && a[..|t|] == t && (a + b)[|t|..] == a[|t|..] + b
  {
    assert OccursAt(a + b, t, 0);
  }

  /** Without an occurrence at the start, `a + b` keeps its first character. */
  lemma NoMatchInPrefix(a: string, b: string, t: string, v: string)
    requires t != [] && a != []
    requires !(|a + b| >= |t| && (a + b)[..|t|] == t)
    ensures ReplaceAll(a + b, t, v) == [a[0]] + ReplaceAll(a[1..] + b, t, v)
    ensures |a| >= |t| ==> a[..|t|] != t
  {
    var s := a + b;
    assert s[1..] == a[1..] + b;
    if |s| < |t| {
      assert ReplaceAll(s[1..], t, v) == s[1..];
      assert s == [s[0]] + s[1..];
    }
    if |a| >= |t| {
      assert s[..|t|] == a[..|t|];
    }
  }

  /** When `a` does not start with `t`, replacement in `a` keeps its first character. */
  lemma SkipHead(a: string, t: string, v: string)
    requires t != [] && a != []
    requires |a| >= |t| ==> a[..|t|] != t
    ensures ReplaceAll(a, t, v) == [a[0]] + ReplaceAll(a[1..], t, v)
  {
    if |a| < |t| {
      assert ReplaceAll(a[1..], t, v) == a[1..];
      assert a == [a[0]] + a[1..];
    }
  }

  // ---------------------------------------------------------------------------
  // Substitution of a variable map

  /** The replacement for key `k`: `value || "{k}"`, so an empty value keeps the token. */
  function ValueOr(k: string, v: string): (r: string)
    ensures r != ""
  {
    if v == "" then Token(k) else v
  }

  /** `replaceTemplateVariables`: each entry in turn replaces every `{key}` in the
      text produced by the entries before it. */
  function Substitute(s: string, entries: seq<(string, string)>): string
    decreases |entries|
  {
    if entries == [] then s
    else
      var (k, v) := entries[0];
      Substitute(ReplaceAll(s, Token(k), ValueOr(k, v)), entries[1..])
  }

  /** lib/communication-templates.ts:142-151, with the variable record given as its
      entries in `Object.entries` order. */
  method ReplaceTemplateVariables(content: string, variables: seq<(string, string)>)
    returns (result: string)
    ensures result == Substitute(content, variables)
  {
    result := content;
    for i := 0 to |variables|
      invariant Substitute(content, variables) == Substitute(result, variables[i..])
    {
      var (key, value) := variables[i];
      assert variables[i..][1..] == variables[i + 1..];
      result := ReplaceAll(result, Token(key), ValueOr(key, value));
    }
  }

  /** An entry with an empty value is skipped: its token stays as it is. */
  lemma EmptyValueKeepsToken(s: string, k: string, rest: seq<(string, string)>)
    ensures Substitute(s, [(k, "")] + rest) == Substitute(s, rest)
  {
    ReplaceAllSelf(s, Token(k));
    assert ([(k, "")] + rest)[1..] == rest;
  }

  /** Text with none of the keys' tokens is left unchanged. */
  lemma {:induction false} SubstituteUntouched(s: string, entries: seq<(string, string)>)
    requires forall j | 0 <= j < |entries| :: !Contains(s, Token(entries[j].0))
    ensures Substitute(s, entries) == s
    decreases |entries|
  {
    if entries != [] {
      var (k, v) := entries[0];
      ReplaceAllAbsent(s, Token(k), ValueOr(k, v));
      forall j | 0 <= j < |entries[1..]| ensures !Contains(s, Token(entries[1..][j].0)) {
        assert entries[1..][j] == entries[j + 1];
      }
      SubstituteUntouched(s, entries[1..]);
    }
  }

  // ---------------------------------------------------------------------------
  // Templates as literal text and placeholders

  /** The registry's subject and content strings, read as literal text and `{name}`
      placeholders. */
  datatype Piece = Lit(text: string) | Slot(name: string)

  function PieceText(p: Piece): string {
    match p
    case Lit(x) => x
    case Slot(n) => Token(n)
  }

  /** The string a sequence of pieces spells out. */
  function Render(ps: seq<Piece>): string
    decreases |ps|
  {
    if ps == [] then "" else PieceText(ps[0]) + Render(ps[1..])
  }

  /** No `{` in `x` is followed by an identifier character, so no `{name}` token starts
      inside `x`. */
  predicate NoOpen(x: string) {
    forall i | 0 <= i < |x| && x[i] == '{' :: i + 1 < |x| && !IsIdentChar(x[i + 1])
  }

  predicate WellFormedPiece(p: Piece) {
    match p
    case Lit(x) => NoOpen(x)
    case Slot(n) => IsIdent(n)
  }

  /** Literal text holds no placeholder and every placeholder names an identifier. */
  predicate WellFormed(ps: seq<Piece>) {
    forall i | 0 <= i < |ps| :: WellFormedPiece(ps[i])
  }

  /** Where the opening and closing braces of the token `{n}` sit. */
  lemma TokenShape(n: string)
    requires IsIdent(n)
    ensures forall j | 1 <= j <= |n| :: Token(n)[j] == n[j - 1] && Token(n)[j] != '{'
    ensures Token(n)[|n| + 1] == '}'
  {
  }

  /** A token `{k}` occurs in a token `{n}` only as the whole of it. */
  lemma TokenInToken(n: string, k: string, i: nat)
    requires IsIdent(n) && IsIdent(k)
    requires OccursAt(Token(n), Token(k), i)
    ensures i == 0 && n == k
  {
    var tn, tk := Token(n), Token(k);
    TokenShape(n);
    assert tn[i..i + |tk|] == tk;
    assert tn[i] == '{' by { assert tn[i..i + |tk|][0] == tk[0]; }
    assert i == 0;
    assert tn[..|tk|] == tk;
    assert tn[|k| + 1] == '}' by { assert tn[..|tk|][|k| + 1] == tk[|k| + 1]; }
    assert |k| == |n|;
    forall j | 0 <= j < |k| ensures n[j] == k[j] {
      assert tn[j + 1] == n[j];
      assert tn[..|tk|][j + 1] == tk[j + 1];
      TokenShape(k);
    }
  }

  /** No token starts inside literal text. */
  lemma LitHasNoToken(x: string, b: string, k: string, i: nat)
    requires NoOpen(x) && IsIdent(k) && i < |x|
    ensures !OccursAt(x + b, Token(k), i)
  {
    var t := Token(k);
    assert (x + b)[i] == x[i];
    if x[i] == '{' {
      assert (x + b)[i + 1] == x[i + 1] && t[1] == k[0];
    }
  }

  /** No token starts inside a well-formed piece and runs past its end. */
  lemma PieceNoStraddle(p: Piece, b: string, k: string)
    requires WellFormedPiece(p) && IsIdent(k)
    ensures NoStraddle(PieceText(p), b, Token(k))
  {
    var a, t := PieceText(p), Token(k);
    match p
    case Lit(x) =>
      forall i | 0 <= i < |a| && |a| < i + |t| ensures !OccursAt(a + b, t, i) {
        LitHasNoToken(x, b, k, i);
      }
    case Slot(n) =>
      TokenShape(n);
      forall i | 0 <= i < |a| && |a| < i + |t| ensures !OccursAt(a + b, t, i) {
        assert (a + b)[i] == a[i];
        if i == 0 {
          assert (a + b)[|n| + 1] == a[|n| + 1] && t[|n| + 1] == k[|n|];
        }
      }
  }

  /** The piece `p` after every `{k}` in it is replaced by `v`. */
  function FillPiece(p: Piece, k: string, v: string): Piece {
    if p == Slot(k) then Lit(v) else p
  }

  /** Every `Slot(k)` replaced by the literal `v`. */
  function FillOne(ps: seq<Piece>, k: string, v: string): (r: seq<Piece>)
    ensures |r| == |ps| && forall i | 0 <= i < |ps| :: r[i] == FillPiece(ps[i], k, v)
    decreases |ps|
  {
    if ps == [] then [] else [FillPiece(ps[0], k, v)] + FillOne(ps[1..], k, v)
  }

  lemma PieceReplace(p: Piece, k: string, v: string)
    requires WellFormedPiece(p) && IsIdent(k)
    ensures ReplaceAll(PieceText(p), Token(k), v) == PieceText(FillPiece(p, k, v))
  {
    var t := Token(k);
    match p
    case Lit(x) =>
      assert x + [] == x;
      forall i | 0 <= i < |x| ensures !OccursAt(x, t, i) {
        LitHasNoToken(x, [], k, i);
      }
      assert !OccursAt(x, t, |x|);
      ReplaceAllAbsent(x, t, v);
    case Slot(n) =>
      if n == k {
        assert t[|t|..] == [];
      } else {
        forall i | 0 <= i <= |Token(n)| && OccursAt(Token(n), t, i) ensures false {
          TokenInToken(n, k, i);
        }
        ReplaceAllAbsent(Token(n), t, v);
      }
  }

  /** Replacing `{k}` in a rendered template is filling its `k` placeholders. */
  lemma {:induction false} RenderReplace(ps: seq<Piece>, k: string, v: string)
    requires WellFormed(ps) && IsIdent(k)
    ensures ReplaceAll(Render(ps), Token(k), v) == Render(FillOne(ps, k, v))
    decreases |ps|
  {
    if ps != [] {
      WellFormedTail(ps);
      PieceNoStraddle(ps[0], Render(ps[1..]), k);
      ReplaceAllAppend(PieceText(ps[0]), Render(ps[1..]), Token(k), v);
      PieceReplace(ps[0], k, v);
      RenderReplace(ps[1..], k, v);
      assert FillOne(ps, k, v)[1..] == FillOne(ps[1..], k, v);
    }
  }

  // ---------------------------------------------------------------------------
  // Sequential substitution of a rendered template

  /** The value the first entry for `n` with a non-empty value carries, if any. */
  function FirstValue(entries: seq<(string, string)>, n: string): (r: Option<string>)
    ensures r.Some? ==> r.value != "" && exists j | 0 <= j < |entries| ::
      entries[j] == (n, r.value) && forall i | 0 <= i < j :: entries[i].0 != n || entries[i].1 == ""
    ensures r.None? ==> forall j | 0 <= j < |entries| :: entries[j].0 == n ==> entries[j].1 == ""
    decreases |entries|
  {
    if entries == [] then None
    else if entries[0].0 == n && entries[0].1 != "" then Some(entries[0].1)
    else
      var r := FirstValue(entries[1..], n);
      assert forall j | 0 <= j < |entries[1..]| :: entries[1..][j] == entries[j + 1];
      r
  }

  function FillPieceAll(p: Piece, entries: seq<(string, string)>): Piece {
    match p
    case Lit(_) => p
    case Slot(n) => match FirstValue(entries, n) case Some(v) => Lit(v) case None => p
  }

  /** Single-pass filling: each placeholder at once takes the first non-empty value
      given for its name; placeholders without one stay. */
  function FillAll(ps: seq<Piece>, entries: seq<(string, string)>): (r: seq<Piece>)
    ensures |r| == |ps| && forall i | 0 <= i < |ps| :: r[i] == FillPieceAll(ps[i], entries)
    decreases |ps|
  {
    if ps == [] then [] else [FillPieceAll(ps[0], entries)] + FillAll(ps[1..], entries)
  }

  /** Keys are identifiers and no value opens a placeholder. */
  predicate PlainEntries(entries: seq<(string, string)>) {
    forall j | 0 <= j < |entries| :: IsIdent(entries[j].0) && NoOpen(entries[j].1)
  }

  lemma FillOneWellFormed(ps: seq<Piece>, k: string, v: string)
    requires WellFormed(ps) && NoOpen(v)
    ensures WellFormed(FillOne(ps, k, v))
  {
    var qs := FillOne(ps, k, v);
    forall i | 0 <= i < |qs| ensures WellFormedPiece(qs[i]) {
      assert WellFormedPiece(ps[i]);
    }
  }

  /** On a well-formed template, with identifier keys and values that open no
      placeholder, the sequential replacement equals single-pass filling. */
  lemma {:induction false} SubstituteRendered(ps: seq<Piece>, entries: seq<(string, string)>)
    requires WellFormed(ps) && PlainEntries(entries)
    ensures Substitute(Render(ps), entries) == Render(FillAll(ps, entries))
    decreases |entries|
  {
    if entries == [] {
      assert FillAll(ps, entries) == ps;
    } else {
      var (k, v) := entries[0];
      var rest := entries[1..];
      PlainEntriesTail(entries);
      if v == "" {
        ReplaceAllSelf(Render(ps), Token(k));
        SubstituteRendered(ps, rest);
        FillAllSkipsEmpty(ps, entries);
      } else {
        RenderReplace(ps, k, v);
        FillOneWellFormed(ps, k, v);
        SubstituteRendered(FillOne(ps, k, v), rest);
        FillAllAfterOne(ps, entries);
      }
    }
  }

  lemma PlainEntriesTail(entries: seq<(string, string)>)
    requires PlainEntries(entries) && entries != []
    ensures PlainEntries(entries[1..])
    ensures IsIdent(entries[0].0) && NoOpen(entries[0].1)
  {
    var rest := entries[1..];
    forall j | 0 <= j < |rest| ensures IsIdent(rest[j].0) && NoOpen(rest[j].1) {
      assert rest[j] == entries[j + 1];
    }
  }

  /** An entry with an empty value fills nothing. */
  lemma FillAllSkipsEmpty(ps: seq<Piece>, entries: seq<(string, string)>)
    requires entries != [] && entries[0].1 == ""
    ensures FillAll(ps, entries[1..]) == FillAll(ps, entries)
  {
    var rest := entries[1..];
    forall i | 0 <= i < |ps| ensures FillPieceAll(ps[i], rest) == FillPieceAll(ps[i], entries) {
      if ps[i].Slot? { assert FirstValue(entries, ps[i].name) == FirstValue(rest, ps[i].name); }
    }
  }

  /** Filling the first entry's slots and then the rest is filling with all entries. */
  lemma FillAllAfterOne(ps: seq<Piece>, entries: seq<(string, string)>)
    requires entries != [] && entries[0].1 != ""
    ensures FillAll(FillOne(ps, entries[0].0, entries[0].1), entries[1..]) == FillAll(ps, entries)
  {
    var (k, v) := entries[0];
    var rest := entries[1..];
    var qs := FillOne(ps, k, v);
    forall i | 0 <= i < |ps| ensures FillPieceAll(qs[i], rest) == FillPieceAll(ps[i], entries) {
      if ps[i].Slot? {
        var n := ps[i].name;
        if n == k {
          assert FirstValue(entries, n) == Some(v);
        } else {
          assert FirstValue(entries, n) == FirstValue(rest, n);
        }
      }
    }
  }

  /** Containment in `a + b` without an occurrence across the seam is containment
      in one of the two. */
  lemma ContainsAppend(a: string, b: string, t: string)
    requires NoStraddle(a, b, t)
    ensures Contains(a + b, t) <==> Contains(a, t) || Contains(b, t)
  {
    if Contains(a + b, t) {
      var i :| 0 <= i <= |a + b| && OccursAt(a + b, t, i);
      if i < |a| {
        assert (a + b)[i..i + |t|] == a[i..i + |t|];
        assert OccursAt(a, t, i);
      } else {
        assert (a + b)[i..i + |t|] == b[i - |a|..i - |a| + |t|];
        assert OccursAt(b, t, i - |a|);
      }
    }
    if Contains(a, t) {
      ContainsIn([], a, b, t);
      assert [] + a + b == a + b;
    }
    if Contains(b, t) {
      ContainsIn(a, b, [], t);
      assert a + b + [] == a + b;
    }
  }

  lemma PieceContainsToken(p: Piece, k: string)
    requires WellFormedPiece(p) && IsIdent(k)
    ensures Contains(PieceText(p), Token(k)) <==> p == Slot(k)
  {
    var t := Token(k);
    match p
    case Lit(x) =>
      forall i | 0 <= i <= |x| ensures !OccursAt(x, t, i) {
        if i < |x| { LitHasNoToken(x, [], k, i); assert x + [] == x; }
      }
    case Slot(n) =>
      if n == k {
        ContainsSelf(t);
      } else {
        forall i | 0 <= i <= |Token(n)| && OccursAt(Token(n), t, i) ensures false {
          TokenInToken(n, k, i);
        }
      }
  }

  /** A well-formed template's text contains `{k}` exactly when it has a `k`
      placeholder. */
  lemma {:induction false} RenderContainsToken(ps: seq<Piece>, k: string)
    requires WellFormed(ps) && IsIdent(k)
    ensures Contains(Render(ps), Token(k)) <==> HasSlot(ps, k)
    decreases |ps|
  {
    if ps == [] {
      assert !OccursAt("", Token(k), 0);
    } else {
      WellFormedTail(ps);
      PieceNoStraddle(ps[0], Render(ps[1..]), k);
      ContainsAppend(PieceText(ps[0]), Render(ps[1..]), Token(k));
      PieceContainsToken(ps[0], k);
      RenderContainsToken(ps[1..], k);
      HasSlotCons(ps, k);
    }
  }

  lemma WellFormedTail(ps: seq<Piece>)
    requires WellFormed(ps) && ps != []
    ensures WellFormedPiece(ps[0]) && WellFormed(ps[1..])
  {
    forall i | 0 <= i < |ps[1..]| ensures WellFormedPiece(ps[1..][i]) {
      assert ps[1..][i] == ps[i + 1];
    }
  }

  lemma HasSlotCons(ps: seq<Piece>, k: string)
    requires ps != []
    ensures HasSlot(ps, k) <==> ps[0] == Slot(k) || HasSlot(ps[1..], k)
  {
    if HasSlot(ps, k) {
      var i :| 0 <= i < |ps| && ps[i] == Slot(k);
      if i > 0 { assert ps[1..][i - 1] == Slot(k); }
    }
    if HasSlot(ps[1..], k) {
      var i :| 0 <= i < |ps[1..]| && ps[1..][i] == Slot(k);
      assert ps[i + 1] == Slot(k);
    }
  }

  /** Text with no placeholder left is a fixed point of every substitution with
      identifier keys. */
  lemma {:induction false} SubstituteResolved(ps: seq<Piece>, entries: seq<(string, string)>)
    requires WellFormed(ps) && forall i | 0 <= i < |ps| :: ps[i].Lit?
    requires forall j | 0 <= j < |entries| :: IsIdent(entries[j].0)
    ensures Substitute(Render(ps), entries) == Render(ps)
  {
    forall j | 0 <= j < |entries| ensures !Contains(Render(ps), Token(entries[j].0)) {
      RenderContainsToken(ps, entries[j].0);
    }
    SubstituteUntouched(Render(ps), entries);
  }

  /** The value `FirstValue` picks is one of the entries' values. */
  lemma FirstValuePlain(entries: seq<(string, string)>, n: string)
    requires PlainEntries(entries) && FirstValue(entries, n).Some?
    ensures NoOpen(FirstValue(entries, n).value)
  {
    var v := FirstValue(entries, n).value;
    var j :| 0 <= j < |entries| && entries[j] == (n, v);
    assert NoOpen(entries[j].1);
  }

  /** Filling every placeholder with plain values leaves well-formed literal text. */
  lemma FillAllResolved(ps: seq<Piece>, entries: seq<(string, string)>)
    requires WellFormed(ps) && PlainEntries(entries)
    requires forall i | 0 <= i < |ps| :: ps[i].Slot? ==> FirstValue(entries, ps[i].name).Some?
    ensures WellFormed(FillAll(ps, entries))
    ensures forall i | 0 <= i < |ps| :: FillAll(ps, entries)[i].Lit?
  {
    var qs := FillAll(ps, entries);
    forall i | 0 <= i < |qs| ensures WellFormedPiece(qs[i]) {
      assert WellFormedPiece(ps[i]);
      if ps[i].Slot? { FirstValuePlain(entries, ps[i].name); }
    }
  }

  /** Idempotence once everything is resolved: when the first substitution leaves no
      placeholder, a second one with any identifier keys changes nothing. */
  lemma ResolvedIsFixed(ps: seq<Piece>, entries: seq<(string, string)>, again: seq<(string, string)>)
    requires WellFormed(ps) && PlainEntries(entries)
    requires forall i | 0 <= i < |ps| :: ps[i].Slot? ==> FirstValue(entries, ps[i].name).Some?
    requires forall j | 0 <= j < |again| :: IsIdent(again[j].0)
    ensures Substitute(Substitute(Render(ps), entries), again) == Substitute(Render(ps), entries)
  {
    SubstituteRendered(ps, entries);
    FillAllResolved(ps, entries);
    SubstituteResolved(FillAll(ps, entries), again);
  }

  /** Filling with plain values keeps a template well-formed. */
  lemma FillAllWellFormed(ps: seq<Piece>, entries: seq<(string, string)>)
    requires WellFormed(ps) && PlainEntries(entries)
    ensures WellFormed(FillAll(ps, entries))
  {
    var qs := FillAll(ps, entries);
    forall i | 0 <= i < |qs| ensures WellFormedPiece(qs[i]) {
      assert WellFormedPiece(ps[i]);
      if ps[i].Slot? && FirstValue(entries, ps[i].name).Some? {
        FirstValuePlain(entries, ps[i].name);
      }
    }
  }

  /** A second single-pass fill with the same entries finds nothing new to fill. */
  lemma FillAllTwice(ps: seq<Piece>, entries: seq<(string, string)>)
    ensures FillAll(FillAll(ps, entries), entries) == FillAll(ps, entries)
  {
    var qs := FillAll(ps, entries);
    forall i | 0 <= i < |ps| ensures FillPieceAll(qs[i], entries) == qs[i] {
    }
  }

  /** Idempotence with the same entries: on a well-formed template with identifier
      keys and values that open no placeholder, substituting twice is substituting
      once, even when some placeholders have no value and stay. */
  lemma SameEntriesIdempotent(ps: seq<Piece>, entries: seq<(string, string)>)
    requires WellFormed(ps) && PlainEntries(entries)
    ensures Substitute(Substitute(Render(ps), entries), entries) == Substitute(Render(ps), entries)
  {
    SubstituteRendered(ps, entries);
    FillAllWellFormed(ps, entries);
    SubstituteRendered(FillAll(ps, entries), entries);
    FillAllTwice(ps, entries);
  }

  /** The order of the entries matters: a value holding a later key's token is
      expanded again ... */
  lemma OrderMattersForward(a: string, b: string, x: string)
    requires IsIdent(a) && IsIdent(b) && x != ""
    ensures Substitute(Token(a), [(a, Token(b)), (b, x)]) == x
  {
    var ta, tb := Token(a), Token(b);
    assert ta[|ta|..] == [] && tb[|tb|..] == [];
    assert ReplaceAll(ta, ta, tb) == tb;
    assert ReplaceAll(tb, tb, ValueOr(b, x)) == ValueOr(b, x);
    assert [(a, tb), (b, x)][1..] == [(b, x)] && [(b, x)][1..] == [];
    assert Substitute(tb, [(b, x)]) == x;
  }

  /** ... while the same entries in the other order leave that token in place. */
  lemma OrderMattersBackward(a: string, b: string, x: string)
    requires IsIdent(a) && IsIdent(b) && a != b
    ensures Substitute(Token(a), [(b, x), (a, Token(b))]) == Token(b)
  {
    var ta, tb := Token(a), Token(b);
    forall i | 0 <= i <= |ta| && OccursAt(ta, tb, i) ensures false {
      TokenInToken(a, b, i);
    }
    ReplaceAllAbsent(ta, tb, ValueOr(b, x));
    assert ta[|ta|..] == [];
    assert ReplaceAll(ta, ta, tb) == tb;
    assert [(b, x), (a, tb)][1..] == [(a, tb)] && [(a, tb)][1..] == [];
    assert Substitute(ta, [(a, tb)]) == tb;
  }

  /** So the two orders give different texts whenever the value opens no placeholder. */
  lemma OrderMatters(a: string, b: string, x: string)
    requires IsIdent(a) && IsIdent(b) && a != b && x != "" && NoOpen(x)
    ensures Substitute(Token(a), [(a, Token(b)), (b, x)]) != Substitute(Token(a), [(b, x), (a, Token(b))])
  {
    OrderMattersForward(a, b, x);
    OrderMattersBackward(a, b, x);
    var tb := Token(b);
    assert tb[0] == '{' && tb[1] == b[0] && IsIdentChar(tb[1]);
    assert !NoOpen(tb);
  }

  /** Applying the same entries twice can differ from applying them once, even with
      non-empty values that hold no `{key}` token: the first pass can assemble a
      token out of surrounding braces. */
  lemma NotIdempotent(k: string)
    requires IsIdent(k)
    ensures !Contains(k, Token(k))
    ensures Substitute("{" + Token(k) + "}", [(k, k)]) == Token(k)
    ensures Substitute(Substitute("{" + Token(k) + "}", [(k, k)]), [(k, k)]) == k
  {
    var t := Token(k);
    var s := "{" + t + "}";
    assert !OccursAt(k, t, 0);
    assert s[1] == '{' && t[1] == k[0];
    assert s[1..] == t + "}";
    assert (t + "}")[..|t|] == t && (t + "}")[|t|..] == "}";
    assert ReplaceAll(s, t, k) == "{" + ReplaceAll(t + "}", t, k);
    assert t[|t|..] == [];
    assert ReplaceAll(t, t, k) == k;
  }

  // ---------------------------------------------------------------------------
  // The registry (lib/communication-templates.ts:11-140)

  datatype Channel = Email | Sms | Phone
  datatype Category = Reminder | Welcome | Renewal | Claim | Payment | FollowUp

  /** A registry entry, its subject and content read as pieces. */
  datatype CommunicationTemplate = CommunicationTemplate(
    id: string, name: string, channel: Channel, category: Category,
    subject: seq<Piece>, content: seq<Piece>, variables: seq<string>)
  {
    function Subject(): string { Render(subject) }
    function Content(): string { Render(content) }
  }

  /** Literal text of the registry: it holds no `{`. */
  type Prose = x: string | '{' !in x

  /** A variable name of the registry. */
  type Ident = k: string | IsIdent(k) witness "k"

  const PolicyType: Ident := "policyType"
  const CustomerName: Ident := "customerName"
  const PolicyNumber: Ident := "policyNumber"
  const ExpirationDate: Ident := "expirationDate"
  const RenewalDeadline: Ident := "renewalDeadline"
  const Premium: Ident := "premium"
  const PolicyDetails: Ident := "policyDetails"
  const AgentName: Ident := "agentName"
  const CompanyName: Ident := "companyName"
  const StartDate: Ident := "startDate"
  const Amount: Ident := "amount"
  const DueDate: Ident := "dueDate"
  const PhoneNumber: Ident := "phoneNumber"
  const ClaimNumber: Ident := "claimNumber"
  const ClaimStatus: Ident := "claimStatus"
  const UpdateDate: Ident := "updateDate"
  const StatusDetails: Ident := "statusDetails"
  const ClaimsPhone: Ident := "claimsPhone"
  const InteractionType: Ident := "interactionType"
  const DiscussionPoint1: Ident := "discussionPoint1"
  const DiscussionPoint2: Ident := "discussionPoint2"
  const DiscussionPoint3: Ident := "discussionPoint3"
  const NextSteps: Ident := "nextSteps"

  // Literal text between the placeholders, in reading order; long passages are
  // assembled from shorter pieces.
  const PolicyRenewalEmailSubject1: Prose := "Your "
  const PolicyRenewalEmailSubject2a: Prose := " Policy Renewal - Action "
  const PolicyRenewalEmailSubject2b: Prose := "Required"
  const PolicyRenewalEmailSubject2: Prose :=
    PolicyRenewalEmailSubject2a + PolicyRenewalEmailSubject2b
  const PolicyRenewalEmailText1: Prose := "Dear "
  const PolicyRenewalEmailText2: Prose := ",\n\nYour "
  const PolicyRenewalEmailText3: Prose := " policy (#"
  const PolicyRenewalEmailText4: Prose := ") is set to expire on "
  const PolicyRenewalEmailText5a: Prose := ".\n\nTo ensure continuous "
  const PolicyRenewalEmailText5b: Prose := "coverage, please review "
  const PolicyRenewalEmailText5c: Prose := "and renew your policy by "
  const PolicyRenewalEmailText5: Prose :=
    PolicyRenewalEmailText5a + PolicyRenewalEmailText5b + PolicyRenewalEmailText5c
  const PolicyRenewalEmailText6: Prose := ".\n\nCurrent Premium: "
  const PolicyRenewalEmailText7: Prose := "\nPolicy Details: "
  const PolicyRenewalEmailText8a: Prose := "\n\nIf you have any "
  const PolicyRenewalEmailText8b: Prose := "questions or would like "
  const PolicyRenewalEmailText8c: Prose := "to discuss your coverage "
  const PolicyRenewalEmailText8d: Prose := "options, please don't "
  const PolicyRenewalEmailText8e: Prose := "hesitate to contact us.\n\n"
  const PolicyRenewalEmailText8f: Prose := "Best regards,\n"
  const PolicyRenewalEmailText8: Prose :=
    PolicyRenewalEmailText8a + PolicyRenewalEmailText8b + PolicyRenewalEmailText8c +
    PolicyRenewalEmailText8d + PolicyRenewalEmailText8e + PolicyRenewalEmailText8f
  const PolicyRenewalEmailText9: Prose := "\n"
  const WelcomeNewCustomerSubject1: Prose := "Welcome to "
  const WelcomeNewCustomerSubject2: Prose := " - Your Policy is Active"
  const WelcomeNewCustomerText1: Prose := "Dear "
  const WelcomeNewCustomerText2: Prose := ",\n\nWelcome to "
  const WelcomeNewCustomerText3a: Prose := "! We're excited to have "
  const WelcomeNewCustomerText3b: Prose := "you as our valued "
  const WelcomeNewCustomerText3c: Prose := "customer.\n\nYour "
  const WelcomeNewCustomerText3: Prose :=
    WelcomeNewCustomerText3a + WelcomeNewCustomerText3b + WelcomeNewCustomerText3c
  const WelcomeNewCustomerText4a: Prose := " policy is now active:\n- "
  const WelcomeNewCustomerText4b: Prose := "Policy Number: "
  const WelcomeNewCustomerText4: Prose := WelcomeNewCustomerText4a + WelcomeNewCustomerText4b
  const WelcomeNewCustomerText5: Prose := "\n- Coverage Start Date: "
  const WelcomeNewCustomerText6: Prose := "\n- Annual Premium: "
  const WelcomeNewCustomerText7a: Prose := "\n\nImportant documents and "
  const WelcomeNewCustomerText7b: Prose := "policy details are "
  const WelcomeNewCustomerText7c: Prose := "available in your "
  const WelcomeNewCustomerText7d: Prose := "customer portal. If you "
  const WelcomeNewCustomerText7e: Prose := "need assistance or have "
  const WelcomeNewCustomerText7f: Prose := "questions, please contact "
  const WelcomeNewCustomerText7g: Prose := "us at any time.\n\nThank "
  const WelcomeNewCustomerText7h: Prose := "you for choosing "
  const WelcomeNewCustomerText7: Prose :=
    WelcomeNewCustomerText7a + WelcomeNewCustomerText7b + WelcomeNewCustomerText7c +
    WelcomeNewCustomerText7d + WelcomeNewCustomerText7e + WelcomeNewCustomerText7f +
    WelcomeNewCustomerText7g + WelcomeNewCustomerText7h
  const WelcomeNewCustomerText8a: Prose := " for your insurance "
  const WelcomeNewCustomerText8b: Prose := "needs.\n\nBest regards,\n"
  const WelcomeNewCustomerText8: Prose := WelcomeNewCustomerText8a + WelcomeNewCustomerText8b
  const PaymentReminderSmsSubject1: Prose := "Payment Reminder"
  const PaymentReminderSmsText1: Prose := "Hi "
  const PaymentReminderSmsText2: Prose := ", your "
  const PaymentReminderSmsText3: Prose := " premium of "
  const PaymentReminderSmsText4: Prose := " is due on "
  const PaymentReminderSmsText5a: Prose := ". Pay online or call us "
  const PaymentReminderSmsText5b: Prose := "at "
  const PaymentReminderSmsText5: Prose := PaymentReminderSmsText5a + PaymentReminderSmsText5b
  const PaymentReminderSmsText6: Prose := ". - "
  const ClaimStatusUpdateSubject1a: Prose := "Update on Your Insurance "
  const ClaimStatusUpdateSubject1b: Prose := "Claim #"
  const ClaimStatusUpdateSubject1: Prose := ClaimStatusUpdateSubject1a + ClaimStatusUpdateSubject1b
  const ClaimStatusUpdateText1: Prose := "Dear "
  const ClaimStatusUpdateText2a: Prose := ",\n\nWe wanted to update "
  const ClaimStatusUpdateText2b: Prose := "you on the status of your "
  const ClaimStatusUpdateText2c: Prose := "insurance claim.\n\nClaim "
  const ClaimStatusUpdateText2d: Prose := "Number: "
  const ClaimStatusUpdateText2: Prose :=
    ClaimStatusUpdateText2a + ClaimStatusUpdateText2b + ClaimStatusUpdateText2c +
    ClaimStatusUpdateText2d
  const ClaimStatusUpdateText3: Prose := "\nCurrent Status: "
  const ClaimStatusUpdateText4: Prose := "\nLast Updated: "
  const ClaimStatusUpdateText5: Prose := "\n\n"
  const ClaimStatusUpdateText6a: Prose := "\n\nIf you have any "
  const ClaimStatusUpdateText6b: Prose := "questions about your "
  const ClaimStatusUpdateText6c: Prose := "claim, please contact our "
  const ClaimStatusUpdateText6d: Prose := "claims department at "
  const ClaimStatusUpdateText6: Prose :=
    ClaimStatusUpdateText6a + ClaimStatusUpdateText6b + ClaimStatusUpdateText6c +
    ClaimStatusUpdateText6d
  const ClaimStatusUpdateText7a: Prose := " or reply to this email.\n\n"
  const ClaimStatusUpdateText7b: Prose := "Best regards,\nClaims "
  const ClaimStatusUpdateText7c: Prose := "Department\n"
  const ClaimStatusUpdateText7: Prose :=
    ClaimStatusUpdateText7a + ClaimStatusUpdateText7b + ClaimStatusUpdateText7c
  const FollowUpCallSubject1: Prose := "Customer Follow-up Call"
  const FollowUpCallText1: Prose := "Hello "
  const FollowUpCallText2: Prose := ",\n\nThis is "
  const FollowUpCallText3: Prose := " from "
  const FollowUpCallText4a: Prose := ". I'm calling to follow "
  const FollowUpCallText4b: Prose := "up on your recent "
  const FollowUpCallText4: Prose := FollowUpCallText4a + FollowUpCallText4b
  const FollowUpCallText5a: Prose := ".\n\nKey points to discuss:\n"
  const FollowUpCallText5b: Prose := "- "
  const FollowUpCallText5: Prose := FollowUpCallText5a + FollowUpCallText5b
  const FollowUpCallText6: Prose := "\n- "
  const FollowUpCallText7: Prose := "\n- "
  const FollowUpCallText8a: Prose := "\n\nQuestions to ask:\n- Are "
  const FollowUpCallText8b: Prose := "you satisfied with your "
  const FollowUpCallText8c: Prose := "current coverage?\n- Do "
  const FollowUpCallText8d: Prose := "you have any questions "
  const FollowUpCallText8e: Prose := "about your policy?\n- Is "
  const FollowUpCallText8f: Prose := "there anything else we "
  const FollowUpCallText8g: Prose := "can help you with?\n\nNext "
  const FollowUpCallText8h: Prose := "steps: "
  const FollowUpCallText8: Prose :=
    FollowUpCallText8a + FollowUpCallText8b + FollowUpCallText8c + FollowUpCallText8d +
    FollowUpCallText8e + FollowUpCallText8f + FollowUpCallText8g + FollowUpCallText8h

  /** The policy renewal reminder, with the text just before `{premium}` as a parameter. */
  function PolicyRenewalEmailWith(lead: string): CommunicationTemplate {
    CommunicationTemplate(
      "policy-renewal-email", "Policy Renewal Reminder", Email, Renewal,
      [Lit(PolicyRenewalEmailSubject1), Slot(PolicyType), Lit(PolicyRenewalEmailSubject2)],
      [Lit(PolicyRenewalEmailText1), Slot(CustomerName), Lit(PolicyRenewalEmailText2),
        Slot(PolicyType), Lit(PolicyRenewalEmailText3), Slot(PolicyNumber),
        Lit(PolicyRenewalEmailText4), Slot(ExpirationDate), Lit(PolicyRenewalEmailText5),
        Slot(RenewalDeadline), Lit(lead), Slot(Premium),
        Lit(PolicyRenewalEmailText7), Slot(PolicyDetails), Lit(PolicyRenewalEmailText8),
        Slot(AgentName), Lit(PolicyRenewalEmailText9), Slot(CompanyName)],
      [CustomerName, PolicyType, PolicyNumber, ExpirationDate, RenewalDeadline, Premium,
        PolicyDetails, AgentName, CompanyName])
  }

  /** `${"{premium}"}` inside a backtick literal is an interpolation: the `$` is lost. */
  const PolicyRenewalEmailAsWritten := PolicyRenewalEmailWith(PolicyRenewalEmailText6)
  const PolicyRenewalEmail := PolicyRenewalEmailWith(PolicyRenewalEmailText6 + "$")

  /** The welcome message, with the text just before `{premium}` as a parameter. */
  function WelcomeNewCustomerWith(lead: string): CommunicationTemplate {
    CommunicationTemplate(
      "welcome-new-customer", "Welcome New Customer", Email, Welcome,
      [Lit(WelcomeNewCustomerSubject1), Slot(CompanyName), Lit(WelcomeNewCustomerSubject2)],
      [Lit(WelcomeNewCustomerText1), Slot(CustomerName), Lit(WelcomeNewCustomerText2),
        Slot(CompanyName), Lit(WelcomeNewCustomerText3), Slot(PolicyType),
        Lit(WelcomeNewCustomerText4), Slot(PolicyNumber), Lit(WelcomeNewCustomerText5),
        Slot(StartDate), Lit(lead), Slot(Premium), Lit(WelcomeNewCustomerText7),
        Slot(CompanyName), Lit(WelcomeNewCustomerText8), Slot(AgentName)],
      [CustomerName, CompanyName, PolicyType, PolicyNumber, StartDate, Premium, AgentName])
  }

  const WelcomeNewCustomerAsWritten := WelcomeNewCustomerWith(WelcomeNewCustomerText6)
  const WelcomeNewCustomer := WelcomeNewCustomerWith(WelcomeNewCustomerText6 + "$")

  /** The payment reminder, with the text around `{amount}` as parameters. */
  function PaymentReminderSmsWith(lead: string, trail: string): CommunicationTemplate {
    CommunicationTemplate(
      "payment-reminder-sms", "Payment Reminder SMS", Sms, Payment,
      [Lit(PaymentReminderSmsSubject1)],
      [Lit(PaymentReminderSmsText1), Slot(CustomerName), Lit(PaymentReminderSmsText2),
        Slot(PolicyType), Lit(PaymentReminderSmsText3 + lead), Slot(Amount),
        Lit(trail + PaymentReminderSmsText4), Slot(DueDate), Lit(PaymentReminderSmsText5),
        Slot(PhoneNumber), Lit(PaymentReminderSmsText6), Slot(CompanyName)],
      [CustomerName, PolicyType, Amount, DueDate, PhoneNumber, CompanyName])
  }

  /** In a single-quoted literal `${"{amount}"}` is plain text around the placeholder. */
  const PaymentReminderSmsAsWritten := PaymentReminderSmsWith("${\"", "\"}")
  const PaymentReminderSms := PaymentReminderSmsWith("$", "")

  const ClaimStatusUpdate := CommunicationTemplate(
    "claim-status-update", "Claim Status Update", Email, Claim,
    [Lit(ClaimStatusUpdateSubject1), Slot(ClaimNumber)],
    [Lit(ClaimStatusUpdateText1), Slot(CustomerName), Lit(ClaimStatusUpdateText2),
      Slot(ClaimNumber), Lit(ClaimStatusUpdateText3), Slot(ClaimStatus),
      Lit(ClaimStatusUpdateText4), Slot(UpdateDate), Lit(ClaimStatusUpdateText5),
      Slot(StatusDetails), Lit(ClaimStatusUpdateText6), Slot(ClaimsPhone),
      Lit(ClaimStatusUpdateText7), Slot(CompanyName)],
    [CustomerName, ClaimNumber, ClaimStatus, UpdateDate, StatusDetails, ClaimsPhone, CompanyName])

  const FollowUpCall := CommunicationTemplate(
    "follow-up-call", "Follow-up Call Script", Phone, FollowUp,
    [Lit(FollowUpCallSubject1)],
    [Lit(FollowUpCallText1), Slot(CustomerName), Lit(FollowUpCallText2), Slot(AgentName),
      Lit(FollowUpCallText3), Slot(CompanyName), Lit(FollowUpCallText4), Slot(InteractionType),
      Lit(FollowUpCallText5), Slot(DiscussionPoint1), Lit(FollowUpCallText6),
      Slot(DiscussionPoint2), Lit(FollowUpCallText7), Slot(DiscussionPoint3),
      Lit(FollowUpCallText8), Slot(NextSteps)],
    [CustomerName, AgentName, CompanyName, InteractionType, DiscussionPoint1, DiscussionPoint2,
      DiscussionPoint3, NextSteps])

  /** The registry with the dollar signs restored: each amount shown after a `$`. */
  const Registry := [PolicyRenewalEmail, WelcomeNewCustomer, PaymentReminderSms,
                     ClaimStatusUpdate, FollowUpCall]

  /** The registry as lib/communication-templates.ts:11-140 spells it. */
  const RegistryAsWritten := [PolicyRenewalEmailAsWritten, WelcomeNewCustomerAsWritten,
                              PaymentReminderSmsAsWritten, ClaimStatusUpdate, FollowUpCall]

  // ---------------------------------------------------------------------------
  // Registry invariants

  /** `ps` has a placeholder for `k`. */
  predicate HasSlot(ps: seq<Piece>, k: string) {
    exists i | 0 <= i < |ps| :: ps[i] == Slot(k)
  }

  /** Every placeholder of subject and content is among the declared variables. */
  predicate Declares(t: CommunicationTemplate) {
    (forall i | 0 <= i < |t.subject| :: t.subject[i].Slot? ==> t.subject[i].name in t.variables)
    && (forall i | 0 <= i < |t.content| :: t.content[i].Slot? ==> t.content[i].name in t.variables)
  }

  /** Every declared variable has a placeholder in the content. */
  predicate Uses(t: CommunicationTemplate) {
    forall j | 0 <= j < |t.variables| :: HasSlot(t.content, t.variables[j])
  }

  predicate WellFormedTemplate(t: CommunicationTemplate) {
    WellFormed(t.subject) && WellFormed(t.content) && Declares(t) && Uses(t)
  }

  /** A `{k}` token appears in the subject or the content of a well-formed template
      exactly when `k` is one of its declared variables. */
  lemma TemplateTokens(t: CommunicationTemplate, k: string)
    requires WellFormedTemplate(t) && IsIdent(k)
    ensures Contains(t.Subject(), Token(k)) || Contains(t.Content(), Token(k)) <==> k in t.variables
  {
    RenderContainsToken(t.subject, k);
    RenderContainsToken(t.content, k);
    if k in t.variables {
      var j :| 0 <= j < |t.variables| && t.variables[j] == k;
      assert HasSlot(t.content, t.variables[j]);
    }
  }

  /** Once every declared variable has a plain non-empty value, no `{name}` token is
      left in the filled content. */
  lemma FilledContentHasNoToken(t: CommunicationTemplate, entries: seq<(string, string)>, k: string)
    requires WellFormedTemplate(t) && PlainEntries(entries) && IsIdent(k)
    requires forall j | 0 <= j < |t.variables| :: FirstValue(entries, t.variables[j]).Some?
    ensures !Contains(Substitute(t.Content(), entries), Token(k))
  {
    var ps := t.content;
    forall i | 0 <= i < |ps| && ps[i].Slot? ensures FirstValue(entries, ps[i].name).Some? {
      var j :| 0 <= j < |t.variables| && t.variables[j] == ps[i].name;
    }
    SubstituteRendered(ps, entries);
    FillAllResolved(ps, entries);
    RenderContainsToken(FillAll(ps, entries), k);
  }

  lemma NoBraceNoOpen(x: string)
    requires '{' !in x
    ensures NoOpen(x)
  {
  }

  /** The as-written amount text `${"` opens no placeholder. */
  lemma DollarQuoteNoOpen(a: string)
    requires '{' !in a
    ensures NoOpen(a + "${\"")
  {
    var x := a + "${\"";
    assert x[|a| + 1] == '{' && x[|a| + 2] == '"';
    forall i | 0 <= i < |a| ensures x[i] == a[i] {}
  }

  // One lemma per template and per fact keeps each proof small.

  lemma PolicyRenewalEmailText(lead: string)
    requires '{' !in lead
    ensures WellFormed(PolicyRenewalEmailWith(lead).subject) && WellFormed(PolicyRenewalEmailWith(lead).content)
  {
    NoBraceNoOpen(PolicyRenewalEmailSubject1); NoBraceNoOpen(PolicyRenewalEmailSubject2);
    NoBraceNoOpen(PolicyRenewalEmailText1); NoBraceNoOpen(PolicyRenewalEmailText2);
    NoBraceNoOpen(PolicyRenewalEmailText3); NoBraceNoOpen(PolicyRenewalEmailText4);
    NoBraceNoOpen(PolicyRenewalEmailText5); NoBraceNoOpen(lead);
    NoBraceNoOpen(PolicyRenewalEmailText7); NoBraceNoOpen(PolicyRenewalEmailText8);
    NoBraceNoOpen(PolicyRenewalEmailText9);
  }

  lemma PolicyRenewalEmailDeclares(lead: string)
    ensures Declares(PolicyRenewalEmailWith(lead))
  {
  }

  /** The variables are used when each has its slot at the given position. */
  lemma UsesAt(t: CommunicationTemplate, at: seq<nat>)
    requires |at| == |t.variables|
    requires forall j | 0 <= j < |at| :: at[j] < |t.content| && t.content[at[j]] == Slot(t.variables[j])
    ensures Uses(t)
  {
    forall j | 0 <= j < |t.variables| ensures HasSlot(t.content, t.variables[j]) {
      assert t.content[at[j]] == Slot(t.variables[j]);
    }
  }

  lemma PolicyRenewalEmailUses(lead: string)
    ensures Uses(PolicyRenewalEmailWith(lead))
  {
    var t := PolicyRenewalEmailWith(lead);
    var c, v := t.content, t.variables;
    assert v == [CustomerName, PolicyType, PolicyNumber, ExpirationDate, RenewalDeadline, Premium,
                 PolicyDetails, AgentName, CompanyName];
    assert c[1] == Slot(CustomerName) && c[3] == Slot(PolicyType) && c[5] == Slot(PolicyNumber);
    assert c[7] == Slot(ExpirationDate) && c[9] == Slot(RenewalDeadline) && c[11] == Slot(Premium);
    assert c[13] == Slot(PolicyDetails) && c[15] == Slot(AgentName) && c[17] == Slot(CompanyName);
    UsesAt(t, [1, 3, 5, 7, 9, 11, 13, 15, 17]);
  }

  lemma WelcomeNewCustomerText(lead: string)
    requires '{' !in lead
    ensures WellFormed(WelcomeNewCustomerWith(lead).subject) && WellFormed(WelcomeNewCustomerWith(lead).content)
  {
    NoBraceNoOpen(WelcomeNewCustomerSubject1); NoBraceNoOpen(WelcomeNewCustomerSubject2);
    NoBraceNoOpen(WelcomeNewCustomerText1); NoBraceNoOpen(WelcomeNewCustomerText2);
    NoBraceNoOpen(WelcomeNewCustomerText3); NoBraceNoOpen(WelcomeNewCustomerText4);
    NoBraceNoOpen(WelcomeNewCustomerText5); NoBraceNoOpen(lead);
    NoBraceNoOpen(WelcomeNewCustomerText7); NoBraceNoOpen(WelcomeNewCustomerText8);
  }

  lemma WelcomeNewCustomerDeclares(lead: string)
    ensures Declares(WelcomeNewCustomerWith(lead))
  {
  }

  lemma WelcomeNewCustomerUses(lead: string)
    ensures Uses(WelcomeNewCustomerWith(lead))
  {
    var t := WelcomeNewCustomerWith(lead);
    var c, v := t.content, t.variables;
    assert v == [CustomerName, CompanyName, PolicyType, PolicyNumber, StartDate, Premium, AgentName];
    assert c[1] == Slot(CustomerName) && c[3] == Slot(CompanyName) && c[5] == Slot(PolicyType);
    assert c[7] == Slot(PolicyNumber) && c[9] == Slot(StartDate) && c[11] == Slot(Premium);
    assert c[15] == Slot(AgentName);
    UsesAt(t, [1, 3, 5, 7, 9, 11, 15]);
  }

  lemma PaymentReminderSmsText(lead: string, trail: string)
    requires NoOpen(PaymentReminderSmsText3 + lead) && '{' !in trail
    ensures WellFormed(PaymentReminderSmsWith(lead, trail).subject)
    ensures WellFormed(PaymentReminderSmsWith(lead, trail).content)
  {
    NoBraceNoOpen(PaymentReminderSmsSubject1); NoBraceNoOpen(PaymentReminderSmsText1);
    NoBraceNoOpen(PaymentReminderSmsText2); NoBraceNoOpen(trail + PaymentReminderSmsText4);
    NoBraceNoOpen(PaymentReminderSmsText5); NoBraceNoOpen(PaymentReminderSmsText6);
  }

  lemma PaymentReminderSmsDeclares(lead: string, trail: string)
    ensures Declares(PaymentReminderSmsWith(lead, trail))
  {
  }

  lemma PaymentReminderSmsUses(lead: string, trail: string)
    ensures Uses(PaymentReminderSmsWith(lead, trail))
  {
    var t := PaymentReminderSmsWith(lead, trail);
    var c, v := t.content, t.variables;
    assert v == [CustomerName, PolicyType, Amount, DueDate, PhoneNumber, CompanyName];
    assert c[1] == Slot(CustomerName) && c[3] == Slot(PolicyType) && c[5] == Slot(Amount);
    assert c[7] == Slot(DueDate) && c[9] == Slot(PhoneNumber) && c[11] == Slot(CompanyName);
    UsesAt(t, [1, 3, 5, 7, 9, 11]);
  }

  lemma ClaimStatusUpdateText()
    ensures WellFormed(ClaimStatusUpdate.subject) && WellFormed(ClaimStatusUpdate.content)
  {
    NoBraceNoOpen(ClaimStatusUpdateSubject1); NoBraceNoOpen(ClaimStatusUpdateText1);
    NoBraceNoOpen(ClaimStatusUpdateText2); NoBraceNoOpen(ClaimStatusUpdateText3);
    NoBraceNoOpen(ClaimStatusUpdateText4); NoBraceNoOpen(ClaimStatusUpdateText5);
    NoBraceNoOpen(ClaimStatusUpdateText6); NoBraceNoOpen(ClaimStatusUpdateText7);
  }

  lemma ClaimStatusUpdateDeclares()
    ensures Declares(ClaimStatusUpdate)
  {
  }

  lemma ClaimStatusUpdateUses()
    ensures Uses(ClaimStatusUpdate)
  {
    var t := ClaimStatusUpdate;
    var c, v := t.content, t.variables;
    assert v == [CustomerName, ClaimNumber, ClaimStatus, UpdateDate, StatusDetails, ClaimsPhone, CompanyName];
    assert c[1] == Slot(CustomerName) && c[3] == Slot(ClaimNumber) && c[5] == Slot(ClaimStatus);
    assert c[7] == Slot(UpdateDate) && c[9] == Slot(StatusDetails) && c[11] == Slot(ClaimsPhone);
    assert c[13] == Slot(CompanyName);
    UsesAt(t, [1, 3, 5, 7, 9, 11, 13]);
  }

  lemma FollowUpCallText()
    ensures WellFormed(FollowUpCall.subject) && WellFormed(FollowUpCall.content)
  {
    NoBraceNoOpen(FollowUpCallSubject1); NoBraceNoOpen(FollowUpCallText1);
    NoBraceNoOpen(FollowUpCallText2); NoBraceNoOpen(FollowUpCallText3);
    NoBraceNoOpen(FollowUpCallText4); NoBraceNoOpen(FollowUpCallText5);
    NoBraceNoOpen(FollowUpCallText6); NoBraceNoOpen(FollowUpCallText7);
    NoBraceNoOpen(FollowUpCallText8);
  }

  lemma FollowUpCallDeclares()
    ensures Declares(FollowUpCall)
  {
  }

  lemma FollowUpCallUses()
    ensures Uses(FollowUpCall)
  {
    var t := FollowUpCall;
    var c, v := t.content, t.variables;
    assert v == [CustomerName, AgentName, CompanyName, InteractionType, DiscussionPoint1, DiscussionPoint2,
                 DiscussionPoint3, NextSteps];
    assert c[1] == Slot(CustomerName) && c[3] == Slot(AgentName) && c[5] == Slot(CompanyName);
    assert c[7] == Slot(InteractionType) && c[9] == Slot(DiscussionPoint1) && c[11] == Slot(DiscussionPoint2);
    assert c[13] == Slot(DiscussionPoint3) && c[15] == Slot(NextSteps);
    UsesAt(t, [1, 3, 5, 7, 9, 11, 13, 15]);
  }

  lemma PolicyRenewalEmailWellFormed(lead: string)
    requires '{' !in lead
    ensures WellFormedTemplate(PolicyRenewalEmailWith(lead))
  {
    PolicyRenewalEmailText(lead);
    PolicyRenewalEmailDeclares(lead);
    PolicyRenewalEmailUses(lead);
  }

  lemma WelcomeNewCustomerWellFormed(lead: string)
    requires '{' !in lead
    ensures WellFormedTemplate(WelcomeNewCustomerWith(lead))
  {
    WelcomeNewCustomerText(lead);
    WelcomeNewCustomerDeclares(lead);
    WelcomeNewCustomerUses(lead);
  }

  lemma PaymentReminderSmsWellFormed(lead: string, trail: string)
    requires NoOpen(PaymentReminderSmsText3 + lead) && '{' !in trail
    ensures WellFormedTemplate(PaymentReminderSmsWith(lead, trail))
  {
    PaymentReminderSmsText(lead, trail);
    PaymentReminderSmsDeclares(lead, trail);
    PaymentReminderSmsUses(lead, trail);
  }

  lemma ClaimStatusUpdateWellFormed()
    ensures WellFormedTemplate(ClaimStatusUpdate)
  {
    ClaimStatusUpdateText();
    ClaimStatusUpdateDeclares();
    ClaimStatusUpdateUses();
  }

  lemma FollowUpCallWellFormed()
    ensures WellFormedTemplate(FollowUpCall)
  {
    FollowUpCallText();
    FollowUpCallDeclares();
    FollowUpCallUses();
  }

  /** Every template of the registry is well formed: literal text opens no
      placeholder, and the placeholders are exactly the declared variables. */
  lemma RegistryWellFormed()
    ensures forall i | 0 <= i < |Registry| :: WellFormedTemplate(Registry[i])
  {
    PolicyRenewalEmailWellFormed(PolicyRenewalEmailText6 + "$");
    WelcomeNewCustomerWellFormed(WelcomeNewCustomerText6 + "$");
    NoBraceNoOpen(PaymentReminderSmsText3 + "$");
    PaymentReminderSmsWellFormed("$", "");
    ClaimStatusUpdateWellFormed();
    FollowUpCallWellFormed();
  }

  /** The same holds of the registry as written. */
  lemma RegistryAsWrittenWellFormed()
    ensures forall i | 0 <= i < |RegistryAsWritten| :: WellFormedTemplate(RegistryAsWritten[i])
  {
    PolicyRenewalEmailWellFormed(PolicyRenewalEmailText6);
    WelcomeNewCustomerWellFormed(WelcomeNewCustomerText6);
    DollarQuoteNoOpen(PaymentReminderSmsText3);
    PaymentReminderSmsWellFormed("${\"", "\"}");
    ClaimStatusUpdateWellFormed();
    FollowUpCallWellFormed();
  }

  /** Template ids are unique in both registries. */
  lemma RegistryIdsUnique()
    ensures forall i, j | 0 <= i < j < |Registry| :: Registry[i].id != Registry[j].id
    ensures forall i, j | 0 <= i < j < |RegistryAsWritten| :: RegistryAsWritten[i].id != RegistryAsWritten[j].id
  {
  }

  // ---------------------------------------------------------------------------
  // How the amounts come out

  lemma StringAssoc(x: string, y: string, z: string)
    ensures x + (y + z) == (x + y) + z
  {
  }

  /** The text of the pieces is that of a prefix followed by that of the rest. */
  lemma {:induction false} RenderSplit(ps: seq<Piece>, i: nat)
    requires i <= |ps|
    ensures Render(ps) == Render(ps[..i]) + Render(ps[i..])
    decreases i
  {
    if i == 0 {
      assert ps[..0] == [] && ps[0..] == ps;
      assert Render(ps[..0]) == "";
      assert "" + Render(ps) == Render(ps);
    } else {
      var tail := ps[1..];
      RenderSplit(tail, i - 1);
      assert tail[..i - 1] == ps[..i][1..];
      assert tail[i - 1..] == ps[i..];
      assert ps[..i][0] == ps[0];
      StringAssoc(PieceText(ps[0]), Render(ps[..i][1..]), Render(ps[i..]));
    }
  }

  lemma RenderFrom(ps: seq<Piece>, i: nat)
    requires i < |ps|
    ensures Render(ps[i..]) == PieceText(ps[i]) + Render(ps[i + 1..])
  {
    assert ps[i..][0] == ps[i] && ps[i..][1..] == ps[i + 1..];
  }

  lemma RenderThree(ps: seq<Piece>, i: nat)
    requires i + 3 <= |ps|
    ensures Render(ps[i..]) == PieceText(ps[i]) + PieceText(ps[i + 1]) + PieceText(ps[i + 2]) + Render(ps[i + 3..])
  {
    RenderFrom(ps, i);
    RenderFrom(ps, i + 1);
    RenderFrom(ps, i + 2);
  }

  /** Three consecutive pieces render as one stretch of the text. */
  lemma RenderWindow(ps: seq<Piece>, i: nat)
    requires i + 3 <= |ps|
    ensures Contains(Render(ps), PieceText(ps[i]) + PieceText(ps[i + 1]) + PieceText(ps[i + 2]))
  {
    var w := PieceText(ps[i]) + PieceText(ps[i + 1]) + PieceText(ps[i + 2]);
    var a, c := Render(ps[..i]), Render(ps[i + 3..]);
    RenderSplit(ps, i);
    RenderThree(ps, i);
    StringAssoc(a, w, c);
    ContainsSelf(w);
    ContainsIn(a, w, c, w);
  }

  /** Filling a placeholder that sits between two literal texts puts the value
      between those texts. */
  lemma SubstituteShowsValue(ps: seq<Piece>, i: nat, k: string, v: string)
    requires WellFormed(ps) && i + 3 <= |ps|
    requires ps[i].Lit? && ps[i + 1] == Slot(k) && ps[i + 2].Lit?
    requires IsIdent(k) && v != "" && NoOpen(v)
    ensures Contains(Substitute(Render(ps), [(k, v)]), ps[i].text + v + ps[i + 2].text)
  {
    var e := [(k, v)];
    SubstituteRendered(ps, e);
    var qs := FillAll(ps, e);
    assert FirstValue(e, k) == Some(v);
    assert qs[i] == ps[i] && qs[i + 1] == Lit(v) && qs[i + 2] == ps[i + 2];
    RenderWindow(qs, i);
  }

  /** Filling `{amount}` of the payment reminder puts the value between the texts
      around the placeholder. */
  lemma PaymentReminderSmsAmount(lead: string, trail: string, v: string)
    requires NoOpen(PaymentReminderSmsText3 + lead) && '{' !in trail && v != "" && NoOpen(v)
    ensures Contains(Substitute(PaymentReminderSmsWith(lead, trail).Content(), [(Amount, v)]),
                     PaymentReminderSmsText3 + lead + v + trail + PaymentReminderSmsText4)
  {
    var ps := PaymentReminderSmsWith(lead, trail).content;
    PaymentReminderSmsText(lead, trail);
    SubstituteShowsValue(ps, 4, Amount, v);
    assert (PaymentReminderSmsText3 + lead) + v + (trail + PaymentReminderSmsText4)
        == PaymentReminderSmsText3 + lead + v + trail + PaymentReminderSmsText4;
  }
  /** As written, the reminder shows the amount wrapped in `${"` and `"}`. */
  lemma PaymentReminderSmsAsWrittenQuotesAmount(v: string)
    requires v != "" && NoOpen(v)
    ensures Contains(Substitute(PaymentReminderSmsAsWritten.Content(), [(Amount, v)]),
                     PaymentReminderSmsText3 + "${\"" + v + "\"}" + PaymentReminderSmsText4)
  {
    DollarQuoteNoOpen(PaymentReminderSmsText3);
    PaymentReminderSmsAmount("${\"", "\"}", v);
  }

  /** Corrected, the reminder shows the amount right after a dollar sign. */
  lemma PaymentReminderSmsShowsDollarAmount(v: string)
    requires v != "" && NoOpen(v)
    ensures Contains(Substitute(PaymentReminderSms.Content(), [(Amount, v)]),
                     PaymentReminderSmsText3 + "$" + v + PaymentReminderSmsText4)
  {
    NoBraceNoOpen(PaymentReminderSmsText3 + "$");
    PaymentReminderSmsAmount("$", "", v);
    assert PaymentReminderSmsText3 + "$" + v + "" == PaymentReminderSmsText3 + "$" + v;
  }

  /** Filling `{premium}` of the renewal reminder puts the value right after the text
      before the placeholder. */
  lemma PolicyRenewalEmailPremium(lead: string, v: string)
    requires '{' !in lead && v != "" && NoOpen(v)
    ensures Contains(Substitute(PolicyRenewalEmailWith(lead).Content(), [(Premium, v)]),
                     lead + v + PolicyRenewalEmailText7)
  {
    PolicyRenewalEmailText(lead);
    SubstituteShowsValue(PolicyRenewalEmailWith(lead).content, 10, Premium, v);
  }

  /** As written, the renewal reminder shows the premium with no currency sign. */
  lemma PolicyRenewalEmailAsWrittenDropsDollar(v: string)
    requires v != "" && NoOpen(v)
    ensures Contains(Substitute(PolicyRenewalEmailAsWritten.Content(), [(Premium, v)]),
                     PolicyRenewalEmailText6 + v + PolicyRenewalEmailText7)
  {
    PolicyRenewalEmailPremium(PolicyRenewalEmailText6, v);
  }

  /** Corrected, the renewal reminder shows the premium after a dollar sign. */
  lemma PolicyRenewalEmailShowsDollarPremium(v: string)
    requires v != "" && NoOpen(v)
    ensures Contains(Substitute(PolicyRenewalEmail.Content(), [(Premium, v)]),
                     PolicyRenewalEmailText6 + "$" + v + PolicyRenewalEmailText7)
  {
    PolicyRenewalEmailPremium(PolicyRenewalEmailText6 + "$", v);
  }

  /** Filling `{premium}` of the welcome message puts the value right after the text
      before the placeholder. */
  lemma WelcomeNewCustomerPremium(lead: string, v: string)
    requires '{' !in lead && v != "" && NoOpen(v)
    ensures Contains(Substitute(WelcomeNewCustomerWith(lead).Content(), [(Premium, v)]),
                     lead + v + WelcomeNewCustomerText7)
  {
    WelcomeNewCustomerText(lead);
    SubstituteShowsValue(WelcomeNewCustomerWith(lead).content, 10, Premium, v);
  }

  /** As written, the welcome message shows the premium with no currency sign. */
  lemma WelcomeNewCustomerAsWrittenDropsDollar(v: string)
    requires v != "" && NoOpen(v)
    ensures Contains(Substitute(WelcomeNewCustomerAsWritten.Content(), [(Premium, v)]),
                     WelcomeNewCustomerText6 + v + WelcomeNewCustomerText7)
  {
    WelcomeNewCustomerPremium(WelcomeNewCustomerText6, v);
  }

  /** Corrected, the welcome message shows the premium after a dollar sign. */
  lemma WelcomeNewCustomerShowsDollarPremium(v: string)
    requires v != "" && NoOpen(v)
    ensures Contains(Substitute(WelcomeNewCustomer.Content(), [(Premium, v)]),
                     WelcomeNewCustomerText6 + "$" + v + WelcomeNewCustomerText7)
  {
    WelcomeNewCustomerPremium(WelcomeNewCustomerText6 + "$", v);
  }
}
