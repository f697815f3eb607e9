/**
 Filling a badge template: `replaceVariables` rewrites a flat string once for
 each key, then erases the holes that are left
 (src/modules/badge-generation/badge-generation.service.ts).
 */
module BadgeText {
  import opened Wrappers
  import opened Text

  // ---------- the two regular expressions ----------

  predicate Opens(s: string) { |s| >= 2 && s[0] == '{' && s[1] == '{' }

  predicate Closes(s: string) { |s| >= 2 && s[0] == '}' && s[1] == '}' }

  /** Length of the match of `\s*}}` at the start of `s`, or 0. */
  function MatchClose(s: string): (n: nat)
    ensures n <= |s|
  {
    var i := Spaces(s);
    if Closes(s[i..]) then i + 2 else 0
  }

  /** Length of the match of `key\s*}}` at the start of `s`, or 0. */
  function MatchKey(s: string, key: string): (n: nat)
    ensures n <= |s|
  {
    if !(key <= s) then 0 else
      var n := MatchClose(s[|key|..]);
      if n > 0 then |key| + n else 0
  }

  /** Length of the match of `{{\s*key\s*}}` at the start of `s`, or 0. */
  function MatchHole(s: string, key: string): (n: nat)
    ensures n <= |s|
  {
    if !Opens(s) then 0 else
      var i := 2 + Spaces(s[2..]);
      var n := MatchKey(s[i..], key);
      if n > 0 then i + n else 0
  }

  /** Length of the longest prefix without a closing brace. */
  function Unclosed(s: string): (n: nat)
    ensures n <= |s|
  {
    if s == "" || s[0] == '}' then 0 else 1 + Unclosed(s[1..])
  }

  /** Length of the match of `{{[^}]+}}` at the start of `s`, or 0. */
  function MatchAny(s: string): (n: nat)
    ensures n <= |s|
  {
    if !Opens(s) then 0 else
      var j := 2 + Unclosed(s[2..]);
      if j > 2 && Closes(s[j..]) then j + 2 else 0
  }

  // ---------- `String.prototype.replace` with the `g` flag ----------

  /** The replacement text: `$` introduces a reference to the match or its context. */
  function Expand(v: string, before: string, matched: string, after: string): string {
    if |v| < 2 || v[0] != '$' then
      if v == "" then "" else [v[0]] + Expand(v[1..], before, matched, after)
    else match v[1]
      case '$' => "$" + Expand(v[2..], before, matched, after)
      case '&' => matched + Expand(v[2..], before, matched, after)
      case '`' => before + Expand(v[2..], before, matched, after)
      case '\'' => after + Expand(v[2..], before, matched, after)
      case _ => "$" + Expand(v[1..], before, matched, after)
  }

  /** Replaces each hole named `key` in `s`, the rest of a string that starts with `before`. */
  function Rewrite(before: string, s: string, key: string, v: string): string
    decreases |s|
  {
    if s == "" then "" else
      var n := MatchHole(s, key);
      if n > 0 then Expand(v, before, s[..n], s[n..]) + Rewrite(before + s[..n], s[n..], key, v)
      else [s[0]] + Rewrite(before + s[..1], s[1..], key, v)
  }

  function Erase(s: string): string
    decreases |s|
  {
    if s == "" then "" else
      var n := MatchAny(s);
      if n > 0 then Erase(s[n..]) else [s[0]] + Erase(s[1..])
  }

  // ---------- the service ----------

  /** The badge data in key order; a missing or null value stands for the empty string. */
  type Data = seq<(string, Option<string>)>

  function ValueOf(v: Option<string>): string {
    if v.Some? then v.value else ""
  }

  function RewriteAll(s: string, data: Data): string
    decreases |data|
  {
    if data == [] then s
    else RewriteAll(Rewrite("", s, data[0].0, ValueOf(data[0].1)), data[1..])
  }

  /** Every key in turn, then the holes that are left. */
  function Fill(html: string, data: Data): string {
    Erase(RewriteAll(html, data))
  }

  method ReplaceVariables(html: string, data: Data) returns (result: string)
    ensures result == Fill(html, data)
  {
    result := html;
    for i := 0 to |data|
      invariant RewriteAll(result, data[i..]) == RewriteAll(html, data)
    {
      var (key, v) := data[i];
      result := Rewrite("", result, key, ValueOf(v));
      assert data[i..][1..] == data[i + 1..];
    }
    result := Erase(result);
  }

  // ---------- well-formed templates ----------

  /** Literal text, or a hole: padding, a name (possibly none), padding. */
  datatype Piece = Lit(t: string) | Hole(pre: string, name: string, post: string)

  /** Each opening brace is followed by a character other than an opening brace. */
  ghost predicate Safe(t: string) {
    forall i :: 0 <= i < |t| && t[i] == '{' ==> i + 1 < |t| && t[i + 1] != '{'
  }

  ghost predicate NoBraces(t: string) {
    forall i :: 0 <= i < |t| ==> t[i] != '{' && t[i] != '}'
  }

  ghost predicate PieceOk(p: Piece) {
    match p
    case Lit(t) => Safe(t)
    case Hole(pre, name, post) =>
      && AllSpace(pre) && AllSpace(post) && NoBraces(name)
      && (if name == "" then pre != "" && post == ""
          else !IsSpace(name[0]) && !IsSpace(name[|name| - 1]))
  }

  ghost predicate PiecesOk(ps: seq<Piece>) {
    forall i :: 0 <= i < |ps| ==> PieceOk(ps[i])
  }

  function Content(p: Piece): string
    requires p.Hole?
  {
    p.pre + (p.name + p.post)
  }

  function Show(p: Piece): string {
    match p
    case Lit(t) => t
    case Hole(_, _, _) => "{{" + (Content(p) + "}}")
  }

  function Flatten(ps: seq<Piece>): string {
    if ps == [] then "" else Show(ps[0]) + Flatten(ps[1..])
  }

  ghost predicate KeyOk(key: string) {
    key != "" && forall i :: 0 <= i < |key| ==> IsWord(key[i])
  }

  /** The pairs that a replacement text gives a meaning: `$$`, `$&`, `` $` `` and `$'`. */
  predicate IsPattern(c: char, d: char) {
    c == '$' && (d == '$' || d == '&' || d == '`' || d == '\'')
  }

  ghost predicate NoPattern(v: string) {
    forall i :: 0 < i < |v| ==> !IsPattern(v[i - 1], v[i])
  }

  ghost predicate Plain(v: string) {
    Safe(v) && NoPattern(v)
  }

  /** Keys are identifiers; values are safe text without replacement patterns. */
  ghost predicate DataOk(data: Data) {
    forall i :: 0 <= i < |data| ==> KeyOk(data[i].0) && Plain(ValueOf(data[i].1))
  }

  // ---------- the meaning: one simultaneous substitution ----------

  function Lookup(data: Data, name: string): string {
    if data == [] then "" else if data[0].0 == name then ValueOf(data[0].1) else Lookup(data[1..], name)
  }

  function Meaning(p: Piece, data: Data): string {
    match p
    case Lit(t) => t
    case Hole(_, name, _) => Lookup(data, name)
  }

  function Render(ps: seq<Piece>, data: Data): string {
    if ps == [] then "" else Meaning(ps[0], data) + Render(ps[1..], data)
  }

  // ---------- scanning safe text ----------

  lemma SafeTextOpensNoHole(t: string, rest: string)
    requires Safe(t) && t != ""
    ensures !Opens(t + rest) && Safe(t[1..])
  {
    assert |t| > 1 ==> (t + rest)[1] == t[1];
    forall i | 0 <= i < |t[1..]| && t[1..][i] == '{' ensures i + 1 < |t[1..]| && t[1..][i + 1] != '{' {
      assert t[i + 1] == '{';
    }
  }

  lemma {:induction false} PlainValuesExpandToThemselves(v: string, before: string, matched: string, after: string)
    requires NoPattern(v)
    ensures Expand(v, before, matched, after) == v
    decreases |v|
  {
    if v != "" {
      assert |v| > 1 ==> !IsPattern(v[0], v[1]);
      assert forall i :: 0 < i < |v[1..]| ==> v[1..][i - 1] == v[i] && v[1..][i] == v[i + 1];
      PlainValuesExpandToThemselves(v[1..], before, matched, after);
    }
  }

  /** `Rewrite` for a value without replacement patterns: the value is inserted as it is. */
  function Insert(s: string, key: string, v: string): string
    decreases |s|
  {
    if s == "" then "" else
      var n := MatchHole(s, key);
      if n > 0 then v + Insert(s[n..], key, v) else [s[0]] + Insert(s[1..], key, v)
  }

  lemma {:induction false} RewriteInsertsPlainValues(before: string, s: string, key: string, v: string)
    requires NoPattern(v)
    ensures Rewrite(before, s, key, v) == Insert(s, key, v)
    decreases |s|
  {
    if s != "" {
      var n := MatchHole(s, key);
      if n > 0 {
        PlainValuesExpandToThemselves(v, before, s[..n], s[n..]);
        RewriteInsertsPlainValues(before + s[..n], s[n..], key, v);
      } else {
        RewriteInsertsPlainValues(before + s[..1], s[1..], key, v);
      }
    }
  }

  lemma InsertMovesOn(s: string, key: string, v: string)
    requires s != "" && MatchHole(s, key) == 0
    ensures Insert(s, key, v) == [s[0]] + Insert(s[1..], key, v)
  {
  }

  lemma HeadThenTail(h: string, x: string)
    requires h != ""
    ensures (h + x)[0] == h[0] && (h + x)[1..] == h[1..] + x && [h[0]] + (h[1..] + x) == h + x
  {
  }

  lemma {:induction false} InsertSkipsSafeText(t: string, rest: string, key: string, v: string)
    requires Safe(t)
    ensures Insert(t + rest, key, v) == t + Insert(rest, key, v)
    decreases |t|
  {
    if t == "" {
      assert t + rest == rest;
    } else {
      SafeTextOpensNoHole(t, rest);
      InsertMovesOn(t + rest, key, v);
      HeadThenTail(t, rest);
      InsertSkipsSafeText(t[1..], rest, key, v);
      HeadThenTail(t, Insert(rest, key, v));
    }
  }

  lemma EraseMovesOn(s: string)
    requires s != "" && MatchAny(s) == 0
    ensures Erase(s) == [s[0]] + Erase(s[1..])
  {
  }

  lemma {:induction false} EraseSkipsSafeText(t: string, rest: string)
    requires Safe(t)
    ensures Erase(t + rest) == t + Erase(rest)
    decreases |t|
  {
    if t == "" {
      assert t + rest == rest;
    } else {
      SafeTextOpensNoHole(t, rest);
      EraseMovesOn(t + rest);
      HeadThenTail(t, rest);
      EraseSkipsSafeText(t[1..], rest);
      HeadThenTail(t, Erase(rest));
    }
  }

  // ---------- a hole matches the key that is its name ----------

  lemma ContentHasNoBraces(p: Piece)
    requires PieceOk(p) && p.Hole?
    ensures NoBraces(Content(p)) && Content(p) != ""
  {
    var c := Content(p);
    forall i | 0 <= i < |c| ensures c[i] != '{' && c[i] != '}' {
      if i < |p.pre| { assert c[i] == p.pre[i]; }
      else if i < |p.pre| + |p.name| { assert c[i] == p.name[i - |p.pre|]; }
      else { assert c[i] == p.post[i - |p.pre| - |p.name|]; }
    }
  }

  /** After its first character, a hole is safe text. */
  lemma HoleTailIsSafe(p: Piece)
    requires PieceOk(p) && p.Hole?
    ensures Safe(Show(p)[1..])
  {
    ContentHasNoBraces(p);
    var t, c := Show(p)[1..], Content(p);
    forall i | 1 <= i < |t| ensures t[i] != '{' {
      if i <= |c| { assert t[i] == c[i - 1]; }
    }
  }

  lemma SpacesStopAt(s: string, i: nat)
    requires i < |s| && !IsSpace(s[i])
    ensures Spaces(s) <= i
  {
    assert forall k :: 0 <= k < Spaces(s) ==> IsSpace(s[..Spaces(s)][k]) && s[..Spaces(s)][k] == s[k];
  }

  /** Once the name has been matched, only padding may come before `}}`. */
  lemma CloseAfterName(name: string, post: string, rest: string)
    requires NoBraces(name) && AllSpace(post)
    requires name != "" ==> !IsSpace(name[|name| - 1])
    ensures MatchClose(name + (post + ("}}" + rest))) == if name == "" then |post| + 2 else 0
  {
    var y := name + (post + ("}}" + rest));
    if name == "" {
      assert y == post + ("}}" + rest);
      SpacesThen(post, "}}" + rest);
      assert y[|post|..] == "}}" + rest;
    } else {
      var n := Spaces(y);
      assert y[|name| - 1] == name[|name| - 1];
      SpacesStopAt(y, |name| - 1);
      assert y[n] == name[n];
    }
  }

  /** At the name of a hole, exactly the key that is the name matches. */
  lemma NameMatchesItself(name: string, post: string, rest: string, key: string)
    requires NoBraces(name) && AllSpace(post) && KeyOk(key)
    requires name != "" ==> !IsSpace(name[|name| - 1])
    ensures MatchKey(name + (post + ("}}" + rest)), key) == if name == key then |name| + |post| + 2 else 0
  {
    var tail := post + ("}}" + rest);
    var y := name + tail;
    if |key| <= |name| && key == name[..|key|] {
      assert y[|key|..] == name[|key|..] + tail;
      CloseAfterName(name[|key|..], post, rest);
    } else {
      if |key| > |name| {
        assert y[|name|] == tail[0] == (if post == "" then '}' else post[0]);
        assert key[|name|] != y[|name|];
      } else {
        assert y[..|key|] == name[..|key|];
      }
      assert !(key <= y);
    }
  }

  lemma HoleOpens(pre: string, y: string, key: string)
    requires AllSpace(pre) && y != "" && !IsSpace(y[0])
    ensures var n := MatchKey(y, key);
      MatchHole("{{" + (pre + y), key) == if n > 0 then 2 + |pre| + n else 0
  {
    var s := "{{" + (pre + y);
    assert s[2..] == pre + y;
    SpacesThen(pre, y);
    assert s[2 + |pre|..] == y;
  }

  /** A hole matches exactly the key that is its name. */
  lemma HoleMatchesItsName(p: Piece, rest: string, key: string)
    requires PieceOk(p) && p.Hole? && KeyOk(key)
    ensures MatchHole(Show(p) + rest, key) == if p.name == key then |Show(p)| else 0
  {
    var y := p.name + (p.post + ("}}" + rest));
    assert Show(p) + rest == "{{" + (p.pre + y);
    assert y[0] == (if p.name == "" then '}' else p.name[0]);
    NameMatchesItself(p.name, p.post, rest, key);
    HoleOpens(p.pre, y, key);
  }

  // ---------- one key at a time, on pieces ----------

  function Subst(ps: seq<Piece>, key: string, v: string): seq<Piece> {
    if ps == [] then []
    else [if ps[0].Hole? && ps[0].name == key then Lit(v) else ps[0]] + Subst(ps[1..], key, v)
  }

  function SubstAll(ps: seq<Piece>, data: Data): seq<Piece>
    decreases |data|
  {
    if data == [] then ps else SubstAll(Subst(ps, data[0].0, ValueOf(data[0].1)), data[1..])
  }

  lemma PassUnmatched(h: string, rest: string, key: string, v: string)
    requires h != "" && Safe(h[1..]) && MatchHole(h + rest, key) == 0
    ensures Insert(h + rest, key, v) == h + Insert(rest, key, v)
  {
    InsertMovesOn(h + rest, key, v);
    HeadThenTail(h, rest);
    InsertSkipsSafeText(h[1..], rest, key, v);
    HeadThenTail(h, Insert(rest, key, v));
  }

  lemma {:induction false} InsertIntoPieces(ps: seq<Piece>, key: string, v: string)
    requires PiecesOk(ps) && KeyOk(key) && Safe(v)
    ensures Insert(Flatten(ps), key, v) == Flatten(Subst(ps, key, v))
    ensures PiecesOk(Subst(ps, key, v))
  {
    if ps != [] {
      var p, rest := ps[0], Flatten(ps[1..]);
      InsertIntoPieces(ps[1..], key, v);
      match p
      case Lit(t) => InsertSkipsSafeText(t, rest, key, v);
      case Hole(_, name, _) =>
        HoleMatchesItsName(p, rest, key);
        if name == key {
          assert (Show(p) + rest)[|Show(p)|..] == rest;
        } else {
          HoleTailIsSafe(p);
          PassUnmatched(Show(p), rest, key, v);
        }
    }
  }

  lemma {:induction false} RewriteAllPieces(ps: seq<Piece>, data: Data)
    requires PiecesOk(ps) && DataOk(data)
    ensures RewriteAll(Flatten(ps), data) == Flatten(SubstAll(ps, data))
    ensures PiecesOk(SubstAll(ps, data))
    decreases |data|
  {
    if data != [] {
      var key, v := data[0].0, ValueOf(data[0].1);
      RewriteInsertsPlainValues("", Flatten(ps), key, v);
      InsertIntoPieces(ps, key, v);
      assert DataOk(data[1..]) by {
        forall i | 0 <= i < |data[1..]| ensures KeyOk(data[1..][i].0) && Plain(ValueOf(data[1..][i].1)) {
          assert data[1..][i] == data[i + 1];
        }
      }
      RewriteAllPieces(Subst(ps, key, v), data[1..]);
    }
  }

  // ---------- the final pass ----------

  lemma {:induction false} UnclosedStopsAtBrace(c: string, s: string)
    requires NoBraces(c) && s != "" && s[0] == '}'
    ensures Unclosed(c + s) == |c|
  {
    if c == "" {
      assert c + s == s;
    } else {
      assert (c + s)[1..] == c[1..] + s;
      UnclosedStopsAtBrace(c[1..], s);
    }
  }

  /** What stands after the opening braces, and after the content. */
  lemma InsideBraces(oo: string, c: string, cc: string, rest: string)
    requires |oo| == 2 && |cc| == 2
    ensures var s := (oo + (c + cc)) + rest;
      && |s| >= 4 + |c| && s[0] == oo[0] && s[1] == oo[1]
      && s[2..] == c + (cc + rest) && s[2 + |c|..] == cc + rest
  {
  }

  lemma AnyHoleMatches(p: Piece, rest: string)
    requires PieceOk(p) && p.Hole?
    ensures MatchAny(Show(p) + rest) == |Show(p)|
  {
    ContentHasNoBraces(p);
    InsideBraces("{{", Content(p), "}}", rest);
    UnclosedStopsAtBrace(Content(p), "}}" + rest);
  }

  lemma {:induction false} EraseDropsHoles(ps: seq<Piece>)
    requires PiecesOk(ps)
    ensures Erase(Flatten(ps)) == Render(ps, [])
  {
    if ps != [] {
      var p, rest := ps[0], Flatten(ps[1..]);
      EraseDropsHoles(ps[1..]);
      match p
      case Lit(t) => EraseSkipsSafeText(t, rest);
      case Hole(_, _, _) =>
        AnyHoleMatches(p, rest);
        assert (Show(p) + rest)[|Show(p)|..] == rest;
    }
  }

  lemma {:induction false} RenderAfterSubst(ps: seq<Piece>, data: Data)
    requires data != []
    ensures Render(Subst(ps, data[0].0, ValueOf(data[0].1)), data[1..]) == Render(ps, data)
  {
    if ps != [] { RenderAfterSubst(ps[1..], data); }
  }

  lemma {:induction false} RenderAfterSubstAll(ps: seq<Piece>, data: Data)
    ensures Render(SubstAll(ps, data), []) == Render(ps, data)
    decreases |data|
  {
    if data != [] {
      RenderAfterSubst(ps, data);
      RenderAfterSubstAll(Subst(ps, data[0].0, ValueOf(data[0].1)), data[1..]);
    }
  }

  // ---------- main results ----------

  /** Rewriting key by key and erasing the rest is one simultaneous substitution. */
  lemma FillIsSimultaneousSubstitution(ps: seq<Piece>, data: Data)
    requires PiecesOk(ps) && DataOk(data)
    ensures Fill(Flatten(ps), data) == Render(ps, data)
  {
    RewriteAllPieces(ps, data);
    EraseDropsHoles(SubstAll(ps, data));
    RenderAfterSubstAll(ps, data);
  }

  lemma {:induction false} RenderDependsOnLookups(ps: seq<Piece>, d: Data, e: Data)
    requires forall name :: Lookup(d, name) == Lookup(e, name)
    ensures Render(ps, d) == Render(ps, e)
  {
    if ps != [] { RenderDependsOnLookups(ps[1..], d, e); }
  }

  lemma FillDependsOnLookups(ps: seq<Piece>, d: Data, e: Data)
    requires PiecesOk(ps) && DataOk(d) && DataOk(e)
    requires forall name :: Lookup(d, name) == Lookup(e, name)
    ensures Fill(Flatten(ps), d) == Fill(Flatten(ps), e)
  {
    FillIsSimultaneousSubstitution(ps, d);
    FillIsSimultaneousSubstitution(ps, e);
    RenderDependsOnLookups(ps, d, e);
  }

  /** The keys of an object: no two are equal. */
  ghost predicate DistinctKeys(data: Data) {
    forall i, j :: 0 <= i < j < |data| ==> data[i].0 != data[j].0
  }

  lemma {:induction false} LookupFindsThePair(data: Data, i: nat)
    requires DistinctKeys(data) && i < |data|
    ensures Lookup(data, data[i].0) == ValueOf(data[i].1)
  {
    if i > 0 {
      assert data[1..][i - 1] == data[i];
      LookupFindsThePair(data[1..], i - 1);
    }
  }

  lemma {:induction false} LookupMisses(data: Data, name: string)
    requires forall i :: 0 <= i < |data| ==> data[i].0 != name
    ensures Lookup(data, name) == ""
  {
    if data != [] {
      assert forall i :: 0 <= i < |data[1..]| ==> data[1..][i] == data[i + 1];
      LookupMisses(data[1..], name);
    }
  }

  lemma LookupInEither(d: Data, e: Data, name: string)
    requires DistinctKeys(d) && DistinctKeys(e) && forall p :: p in d ==> p in e
    requires exists i :: 0 <= i < |d| && d[i].0 == name
    ensures Lookup(d, name) == Lookup(e, name)
  {
    var i :| 0 <= i < |d| && d[i].0 == name;
    assert d[i] in e;
    var j :| 0 <= j < |e| && e[j] == d[i];
    LookupFindsThePair(d, i);
    LookupFindsThePair(e, j);
  }

  /** The order of the keys does not matter: the same pairs in another order fill a template alike. */
  lemma FillIgnoresKeyOrder(ps: seq<Piece>, d: Data, e: Data)
    requires PiecesOk(ps) && DataOk(d)
    requires DistinctKeys(d) && DistinctKeys(e) && forall p :: p in d <==> p in e
    ensures Fill(Flatten(ps), d) == Fill(Flatten(ps), e)
  {
    assert DataOk(e) by {
      forall i | 0 <= i < |e| ensures KeyOk(e[i].0) && Plain(ValueOf(e[i].1)) {
        assert e[i] in d;
      }
    }
    forall name ensures Lookup(d, name) == Lookup(e, name) {
      if i :| 0 <= i < |d| && d[i].0 == name {
        LookupInEither(d, e, name);
      } else if j :| 0 <= j < |e| && e[j].0 == name {
        LookupInEither(e, d, name);
      } else {
        LookupMisses(d, name);
        LookupMisses(e, name);
      }
    }
    FillDependsOnLookups(ps, d, e);
  }

  lemma SafeConcat(s: string, t: string)
    requires Safe(s) && Safe(t)
    ensures Safe(s + t)
  {
    var u := s + t;
    forall i | 0 <= i < |u| && u[i] == '{' ensures i + 1 < |u| && u[i + 1] != '{' {
      if i < |s| { assert s[i] == '{' && u[i + 1] == s[i + 1]; }
      else { assert t[i - |s|] == '{' && u[i + 1] == t[i + 1 - |s|]; }
    }
  }

  lemma {:induction false} LookupsAreSafe(data: Data, name: string)
    requires DataOk(data)
    ensures Safe(Lookup(data, name))
  {
    if data != [] && data[0].0 != name {
      assert forall i :: 0 <= i < |data[1..]| ==> data[1..][i] == data[i + 1];
      LookupsAreSafe(data[1..], name);
    }
  }

  lemma {:induction false} RenderIsSafe(ps: seq<Piece>, data: Data)
    requires PiecesOk(ps) && DataOk(data)
    ensures Safe(Render(ps, data))
  {
    if ps != [] {
      RenderIsSafe(ps[1..], data);
      match ps[0]
      case Lit(t) => SafeConcat(t, Render(ps[1..], data));
      case Hole(_, name, _) =>
        LookupsAreSafe(data, name);
        SafeConcat(Lookup(data, name), Render(ps[1..], data));
    }
  }

  lemma OnePiece(p: Piece, data: Data)
    ensures Flatten([p]) == Show(p)
    ensures Render([p], data) == Meaning(p, data)
  {
    var ps := [p];
    assert Flatten(ps) == Show(p) + Flatten(ps[1..]);
    assert Render(ps, data) == Meaning(p, data) + Render(ps[1..], data);
  }

  /** The result holds no `{{`, and filling it again, with any data, changes nothing. */
  lemma FilledTextIsFinal(ps: seq<Piece>, data: Data, again: Data)
    requires PiecesOk(ps) && DataOk(data) && DataOk(again)
    ensures var r := Fill(Flatten(ps), data);
      && (forall i :: 0 <= i <= |r| ==> !Opens(r[i..]))
      && Fill(r, again) == r
  {
    var r := Fill(Flatten(ps), data);
    FillIsSimultaneousSubstitution(ps, data);
    RenderIsSafe(ps, data);
    OnePiece(Lit(r), again);
    FillIsSimultaneousSubstitution([Lit(r)], again);
    forall i | 0 <= i <= |r| ensures !Opens(r[i..]) {
      assert |r| - i >= 2 ==> r[i..][0] == r[i] && r[i..][1] == r[i + 1];
    }
  }

  // ---------- why templates and values are restricted ----------

  lemma ShowWithoutPadding(oo: string, name: string, cc: string)
    ensures oo + (("" + (name + "")) + cc) == oo + name + cc
  {
  }

  /** A template made of one hole shows the value of its name. */
  lemma LoneHole(name: string, data: Data)
    requires KeyOk(name) && DataOk(data)
    ensures Fill("{{" + name + "}}", data) == Lookup(data, name)
  {
    var p := Hole("", name, "");
    OnePiece(p, data);
    ShowWithoutPadding("{{", name, "}}");
    FillIsSimultaneousSubstitution([p], data);
  }

  lemma {:induction false} RewriteKeepsSafeText(before: string, t: string, key: string, v: string)
    requires Safe(t)
    ensures Rewrite(before, t, key, v) == t
    decreases |t|
  {
    if t != "" {
      SafeTextOpensNoHole(t, "");
      assert t + "" == t;
      RewriteKeepsSafeText(before + t[..1], t[1..], key, v);
    }
  }

  lemma RewritePassesLoneHole(p: Piece, s: string, key: string, v: string)
    requires PieceOk(p) && p.Hole? && s == Show(p) && MatchHole(s, key) == 0
    ensures Rewrite("", s, key, v) == s
  {
    HoleTailIsSafe(p);
    RewriteKeepsSafeText(s[..1], s[1..], key, v);
    assert s == [s[0]] + s[1..];
    assert "" + s[..1] == s[..1];
  }

  /** Rewriting a lone hole with its own key, or with another key. */
  lemma RewriteLoneHole(name: string, key: string, v: string)
    requires KeyOk(name) && KeyOk(key)
    ensures var s := "{{" + name + "}}";
      Rewrite("", s, key, v) == if name == key then Expand(v, "", s, "") else s
  {
    var p := Hole("", name, "");
    var s := "{{" + name + "}}";
    assert Show(p) == s && Show(p) + "" == s;
    HoleMatchesItsName(p, "", key);
    if name == key {
      assert s[..|s|] == s && s[|s|..] == "";
    } else {
      RewritePassesLoneHole(p, s, key, v);
    }
  }

  lemma RewriteWithItsKey(name: string, v: string)
    requires KeyOk(name) && NoPattern(v)
    ensures Rewrite("", "{{" + name + "}}", name, v) == v
  {
    RewriteLoneHole(name, name, v);
    PlainValuesExpandToThemselves(v, "", "{{" + name + "}}", "");
  }

  lemma TwoKeys(s: string, d: (string, Option<string>), e: (string, Option<string>))
    ensures RewriteAll(s, [d, e]) == Rewrite("", Rewrite("", s, d.0, ValueOf(d.1)), e.0, ValueOf(e.1))
  {
    assert [d, e][1..] == [e] && [e][1..] == [];
    var s1 := Rewrite("", s, d.0, ValueOf(d.1));
    assert RewriteAll(s1, [e]) == RewriteAll(Rewrite("", s1, e.0, ValueOf(e.1)), [e][1..]);
  }

  lemma TwoOrders(sa: string, sb: string, a: string, b: string, x: string)
    requires Rewrite("", sa, a, sb) == sb && Rewrite("", sb, b, x) == x && Rewrite("", sa, b, x) == sa
    requires Erase(x) == x && Erase(sb) == ""
    ensures Fill(sa, [(a, Some(sb)), (b, Some(x))]) == x
    ensures Fill(sa, [(b, Some(x)), (a, Some(sb))]) == ""
  {
    TwoKeys(sa, (a, Some(sb)), (b, Some(x)));
    TwoKeys(sa, (b, Some(x)), (a, Some(sb)));
  }

  lemma PlainTextIsNotErased(x: string)
    requires Safe(x)
    ensures Erase(x) == x
  {
    EraseSkipsSafeText(x, "");
    assert x + "" == x;
  }

  lemma LoneHoleIsErased(name: string)
    requires KeyOk(name)
    ensures Erase("{{" + name + "}}") == ""
  {
    LoneHole(name, []);
  }

  /** What the two keys do to the two holes, one at a time. */
  lemma HolesOneAtATime(a: string, b: string, x: string)
    requires KeyOk(a) && KeyOk(b) && a != b && Plain(x)
    ensures var sa, sb := "{{" + a + "}}", "{{" + b + "}}";
      Rewrite("", sa, a, sb) == sb && Rewrite("", sb, b, x) == x && Rewrite("", sa, b, x) == sa
  {
    RewriteWithItsKey(a, "{{" + b + "}}");
    RewriteWithItsKey(b, x);
    RewriteLoneHole(a, b, x);
  }

  /** A value that contains a hole makes the result depend on the order of the keys. */
  lemma OrderMattersForUnsafeValues(a: string, b: string, x: string)
    requires KeyOk(a) && KeyOk(b) && a != b && Plain(x)
    ensures Fill("{{" + a + "}}", [(a, Some("{{" + b + "}}")), (b, Some(x))]) == x
    ensures Fill("{{" + a + "}}", [(b, Some(x)), (a, Some("{{" + b + "}}"))]) == ""
  {
    HolesOneAtATime(a, b, x);
    PlainTextIsNotErased(x);
    LoneHoleIsErased(b);
    TwoOrders("{{" + a + "}}", "{{" + b + "}}", a, b, x);
  }

  /** Two opening braces in a row. */
  ghost predicate HasOpening(s: string) {
    exists i :: 0 < i < |s| && s[i - 1] == '{' == s[i]
  }

  lemma OpeningStays(p: string, s: string)
    ensures HasOpening(p) || HasOpening(s) ==> HasOpening(p + s)
  {
    if HasOpening(p) {
      var i :| 0 < i < |p| && p[i - 1] == '{' == p[i];
      assert (p + s)[i - 1] == '{' == (p + s)[i];
    } else if HasOpening(s) {
      var i :| 0 < i < |s| && s[i - 1] == '{' == s[i];
      assert (p + s)[|p| + i - 1] == '{' == (p + s)[|p| + i];
    }
  }

  /** In a lone hole, a replacement pattern either brings the hole back or shortens the value. */
  lemma {:induction false} PatternsShow(v: string, matched: string)
    requires HasOpening(matched)
    ensures var e := Expand(v, "", matched, "");
      HasOpening(e) || (|e| <= |v| && (NoPattern(v) || |e| < |v|))
    decreases |v|
  {
    if |v| >= 2 && IsPattern(v[0], v[1]) {
      PatternsShow(v[2..], matched);
      assert "" + Expand(v[2..], "", matched, "") == Expand(v[2..], "", matched, "");
      OpeningStays(matched, Expand(v[2..], "", matched, ""));
      OpeningStays("$", Expand(v[2..], "", matched, ""));
    } else if v != "" {
      PatternsShow(v[1..], matched);
      OpeningStays([v[0]], Expand(v[1..], "", matched, ""));
      if NoPattern(v[1..]) {
        forall i | 0 < i < |v| ensures !IsPattern(v[i - 1], v[i]) {
          assert i > 1 ==> !IsPattern(v[1..][i - 2], v[1..][i - 1]);
        }
      }
    }
  }

  /** A safe value takes the place of a lone hole as it is exactly when it holds no replacement pattern. */
  lemma InsertedAsItIsExactly(name: string, v: string)
    requires KeyOk(name) && Safe(v)
    ensures Rewrite("", "{{" + name + "}}", name, v) == v <==> NoPattern(v)
  {
    var hole := "{{" + name + "}}";
    RewriteLoneHole(name, name, v);
    assert HasOpening(hole) by {
      assert hole[0] == '{' == hole[1];
    }
    PatternsShow(v, hole);
    if NoPattern(v) {
      PlainValuesExpandToThemselves(v, "", hole, "");
    }
  }

  /** Two dollar signs are inserted as one. */
  lemma DollarValuesAreExpanded(a: string)
    requires KeyOk(a)
    ensures Fill("{{" + a + "}}", [(a, Some("$$"))]) == "$"
  {
    var s, data := "{{" + a + "}}", [(a, Some("$$"))];
    RewriteLoneHole(a, a, "$$");
    assert Expand("$$", "", s, "") == "$" + Expand("$$"[2..], "", s, "") == "$";
    assert RewriteAll(s, data) == RewriteAll("$", data[1..]) == "$";
    EraseSkipsSafeText("$", "");
    assert "$" + "" == "$";
  }

  lemma ErasedLoneHole(p: Piece, rest: string)
    requires PieceOk(p) && p.Hole?
    ensures Erase(Show(p) + rest) == Erase(rest)
  {
    AnyHoleMatches(p, rest);
    assert (Show(p) + rest)[|Show(p)|..] == rest;
  }

  /** A brace too many before a hole: the pass takes the inner hole out and keeps the text around it. */
  lemma EraseAroundAHole(t: string, p: Piece)
    requires Safe(t) && PieceOk(p) && p.Hole?
    requires MatchAny("{" + (t + (Show(p) + "}"))) == 0
    ensures Erase("{" + (t + (Show(p) + "}"))) == "{" + (t + "}")
  {
    var inner := Show(p) + "}";
    HeadThenTail("{", t + inner);
    assert "{"[1..] + (t + inner) == t + inner;
    EraseSkipsSafeText(t, inner);
    ErasedLoneHole(p, "}");
    EraseSkipsSafeText("}", "");
    assert "}" + "" == "}";
  }

  lemma Regroup(oo: string, o: string, cc: string, c: string, a: string, inner: string)
    requires oo == o + o && cc == c + c
    ensures oo + (a + (c + inner)) == o + ((o + (a + c)) + inner)
    ensures o + ((o + (a + c)) + c) == oo + a + cc
  {
  }

  lemma EraseAroundText(a: string, oo: string, cc: string, p: Piece)
    requires NoBraces(a) && PieceOk(p) && p.Hole? && oo == "{{" && cc == "}}"
    requires MatchAny(oo + (a + ("}" + (Show(p) + "}")))) == 0
    ensures Erase(oo + (a + ("}" + (Show(p) + "}")))) == oo + a + cc
  {
    var t := "{" + (a + "}");
    Regroup(oo, "{", cc, "}", a, Show(p) + "}");
    EraseAroundAHole(t, p);
  }

  lemma NothingOpensHere(a: string, inner: string)
    requires KeyOk(a) && inner != "" && inner[0] == '{'
    ensures MatchAny("{{" + (a + ("}" + inner))) == 0
  {
    var s := "{{" + (a + ("}" + inner));
    UnclosedStopsAtBrace(a, "}" + inner);
    assert s[2..] == a + ("}" + inner);
    assert s[2 + |a|..] == "}" + inner;
  }

  /** Outside well-formed templates the final pass can leave a new hole behind. */
  lemma NestedBracesLeaveAHole(a: string, b: string)
    requires KeyOk(a) && KeyOk(b)
    ensures Fill("{{" + (a + ("}" + (Show(Hole("", b, "")) + "}"))), []) == "{{" + a + "}}"
    ensures Fill("{{" + a + "}}", []) == ""
  {
    var inner := Show(Hole("", b, "")) + "}";
    NothingOpensHere(a, inner);
    EraseAroundText(a, "{{", "}}", Hole("", b, ""));
    LoneHole(a, []);
  }

  // ---------- what the `$` patterns refer to ----------

  lemma {:induction false} RewriteSkipsSafeText(before: string, t: string, rest: string, key: string, v: string)
    requires Safe(t)
    ensures Rewrite(before, t + rest, key, v) == t + Rewrite(before + t, rest, key, v)
    decreases |t|
  {
    if t == "" {
      assert t + rest == rest && before + t == before;
    } else {
      SafeTextOpensNoHole(t, rest);
      HeadThenTail(t, rest);
      assert (t + rest)[..1] == t[..1];
      RewriteSkipsSafeText(before + t[..1], t[1..], rest, key, v);
      assert before + t[..1] + t[1..] == before + t;
      HeadThenTail(t, Rewrite(before + t, rest, key, v));
    }
  }

  /** What `$` with `d` stands for: a dollar, the match, the text before it, or the text after it. */
  function Referent(d: char, before: string, matched: string, after: string): string
    requires IsPattern('$', d)
  {
    if d == '$' then "$" else if d == '&' then matched else if d == '`' then before else after
  }

  lemma ExpandPattern(d: char, before: string, matched: string, after: string)
    requires IsPattern('$', d)
    ensures Expand(['$', d], before, matched, after) == Referent(d, before, matched, after)
  {
    var v := ['$', d];
    assert v[2..] == "";
    assert Expand("", before, matched, after) == "";
  }

  lemma {:induction false} ExpandAfterText(x: string, w: string, before: string, matched: string, after: string)
    requires '$' !in x
    ensures Expand(x + w, before, matched, after) == x + Expand(w, before, matched, after)
  {
    if x == "" {
      assert x + w == w;
    } else {
      HeadThenTail(x, w);
      ExpandAfterText(x[1..], w, before, matched, after);
      HeadThenTail(x, Expand(w, before, matched, after));
    }
  }

  /** The hole at the start of `s` is replaced in the context of what comes before and after it. */
  lemma RewriteHoleFirst(before: string, hole: string, post: string, key: string, v: string)
    requires Safe(post) && hole != "" && MatchHole(hole + post, key) == |hole|
    ensures Rewrite(before, hole + post, key, v) == Expand(v, before, hole, post) + post
  {
    var s := hole + post;
    assert s[..|hole|] == hole && s[|hole|..] == post;
    RewriteKeepsSafeText(before + hole, post, key, v);
  }

  lemma OneHoleRewritten(pre: string, p: Piece, post: string, v: string)
    requires Safe(pre) && Safe(post) && PieceOk(p) && p.Hole? && KeyOk(p.name)
    ensures Rewrite("", pre + (Show(p) + post), p.name, v) == pre + (Expand(v, pre, Show(p), post) + post)
  {
    RewriteSkipsSafeText("", pre, Show(p) + post, p.name, v);
    assert "" + pre == pre;
    HoleMatchesItsName(p, post, p.name);
    RewriteHoleFirst(pre, Show(p), post, p.name, v);
  }

  /** In a text with one hole: the value is a text and a pattern. */
  lemma PatternsReferToTheContext(pre: string, p: Piece, post: string, x: string, d: char)
    requires Safe(pre) && Safe(post) && PieceOk(p) && p.Hole? && KeyOk(p.name) && '$' !in x && IsPattern('$', d)
    ensures Rewrite("", pre + (Show(p) + post), p.name, x + ['$', d])
      == pre + ((x + Referent(d, pre, Show(p), post)) + post)
  {
    OneHoleRewritten(pre, p, post, x + ['$', d]);
    ExpandAfterText(x, ['$', d], pre, Show(p), post);
    ExpandPattern(d, pre, Show(p), post);
  }

  // ---------- empty braces ----------

  lemma NoKeyFitsEmptyBraces(key: string, v: string)
    requires KeyOk(key)
    ensures Rewrite("", "{{}}", key, v) == "{{}}"
  {
    var s := "{{}}";
    assert s[2..] == "}}" && s[1..] == "{}}";
    assert key[0] != '}' && MatchHole(s, key) == 0;
    RewriteKeepsSafeText("" + s[..1], s[1..], key, v);
    assert [s[0]] + s[1..] == s;
  }

  lemma {:induction false} NoDataFitsEmptyBraces(data: Data)
    requires forall i :: 0 <= i < |data| ==> KeyOk(data[i].0)
    ensures RewriteAll("{{}}", data) == "{{}}"
    decreases |data|
  {
    if data != [] {
      NoKeyFitsEmptyBraces(data[0].0, ValueOf(data[0].1));
      assert forall i :: 0 <= i < |data[1..]| ==> data[1..][i] == data[i + 1];
      NoDataFitsEmptyBraces(data[1..]);
    }
  }

  /** A hole needs a content: empty braces stay as they are. */
  lemma EmptyBracesStay(data: Data)
    requires forall i :: 0 <= i < |data| ==> KeyOk(data[i].0)
    ensures Fill("{{}}", data) == "{{}}"
  {
    NoDataFitsEmptyBraces(data);
    assert "{{}}"[2..] == "}}" && Unclosed("}}") == 0;
    EraseMovesOn("{{}}");
    assert "{{}}"[1..] == "{}}";
    EraseSkipsSafeText("{}}", "");
    assert "{}}" + "" == "{}}";
  }
}
