/**
 The replace chains that turn a name into a code: `slugify` of attendee types
 (src/modules/attendee-types/attendee-types.service.ts:116-125) and
 `generateCode` of badge templates
 (src/modules/badge-templates/badge-templates.service.ts:517-525).

 Lower-casing, trimming, Unicode decomposition and the removal of accents are
 one given function, `fold`; everything after it is modelled.
 */
module Slugs {
  import opened Text

  // ---------- the regular expressions ----------

  /** `s.replace(/p+/g, mark)`: every maximal run of `p` characters becomes one `mark`. */
  function Squash(s: string, p: char -> bool, mark: char): string {
    if s == "" then ""
    else if !p(s[0]) then [s[0]] + Squash(s[1..], p, mark)
    else if |s| > 1 && p(s[1]) then Squash(s[1..], p, mark)
    else [mark] + Squash(s[1..], p, mark)
  }

  /** Keeps the characters in `p`. */
  function Keep(s: string, p: char -> bool): string {
    if s == "" then ""
    else (if p(s[0]) then [s[0]] else "") + Keep(s[1..], p)
  }

  function DropLead(s: string, c: char): string {
    if s != "" && s[0] == c then DropLead(s[1..], c) else s
  }

  function DropTail(s: string, c: char): string {
    if s != "" && s[|s| - 1] == c then DropTail(s[..|s| - 1], c) else s
  }

  predicate IsUnderscore(c: char) { c == '_' }

  predicate IsAlnum(c: char) { 'a' <= c <= 'z' || '0' <= c <= '9' }

  predicate NotAlnum(c: char) { !IsAlnum(c) }

  /** The part of `slugify` after `fold`. */
  function Slug(s: string): string {
    Squash(Keep(Squash(s, IsSpace, '_'), IsWord), IsUnderscore, '_')
  }

  function Slugify(fold: string -> string, text: string): string {
    Slug(fold(text))
  }

  function Take(s: string, n: nat): string {
    if |s| <= n then s else s[..n]
  }

  const MAX_CODE := 50

  /** The part of `generateCode` after `fold`. */
  function Code(s: string): string {
    Take(DropTail(DropLead(Squash(s, NotAlnum, '-'), '-'), '-'), MAX_CODE)
  }

  function GenerateCode(fold: string -> string, name: string): string {
    Code(fold(name))
  }

  // ---------- runs of marks ----------

  predicate All(s: string, p: char -> bool) {
    forall i :: 0 <= i < |s| ==> p(s[i])
  }

  /** No two `c` in a row. */
  predicate NoDouble(s: string, c: char) {
    forall i :: 0 < i < |s| ==> s[i - 1] != c || s[i] != c
  }

  /** Every character in `p` is the mark itself. */
  predicate OnlyMark(s: string, p: char -> bool, mark: char) {
    forall i :: 0 <= i < |s| ==> p(s[i]) ==> s[i] == mark
  }

  lemma {:induction false} SquashLeavesSingleMarks(s: string, p: char -> bool, mark: char)
    requires p(mark)
    ensures var r := Squash(s, p, mark);
      && OnlyMark(r, p, mark) && NoDouble(r, mark) && (s == "" <==> r == "")
      && (s != "" ==> (p(r[0]) <==> p(s[0])))
      && (s != "" && p(s[0]) ==> r[0] == mark)
  {
    if s != "" {
      SquashLeavesSingleMarks(s[1..], p, mark);
    }
  }

  lemma {:induction false} SquashFixes(s: string, p: char -> bool, mark: char)
    requires OnlyMark(s, p, mark) && NoDouble(s, mark)
    ensures Squash(s, p, mark) == s
  {
    if s != "" {
      assert forall i :: 0 <= i < |s[1..]| ==> s[1..][i] == s[i + 1];
      SquashFixes(s[1..], p, mark);
    }
  }

  /** Nothing to squash: the string is its own result, and only such strings are. */
  lemma {:induction false} SquashedAlready(s: string, p: char -> bool, mark: char)
    requires p(mark)
    ensures Squash(s, p, mark) == s <==> OnlyMark(s, p, mark) && NoDouble(s, mark)
  {
    SquashLeavesSingleMarks(s, p, mark);
    if OnlyMark(s, p, mark) && NoDouble(s, mark) {
      SquashFixes(s, p, mark);
    }
  }

  lemma {:induction false} SquashKeepsOut(s: string, p: char -> bool, mark: char, q: char -> bool)
    requires q(mark) && forall c :: !p(c) ==> q(c)
    ensures All(Squash(s, p, mark), q)
  {
    if s != "" {
      SquashKeepsOut(s[1..], p, mark, q);
    }
  }

  lemma {:induction false} SquashOfAll(s: string, p: char -> bool, mark: char, q: char -> bool)
    requires q(mark) && All(s, q)
    ensures All(Squash(s, p, mark), q)
  {
    if s != "" {
      SquashOfAll(s[1..], p, mark, q);
    }
  }

  lemma {:induction false} KeepAll(s: string, p: char -> bool)
    ensures All(Keep(s, p), p) && (All(s, p) ==> Keep(s, p) == s)
  {
    if s != "" {
      KeepAll(s[1..], p);
    }
  }

  /** Squashing marks loses no character outside `p`, and keeps their order. */
  lemma {:induction false} SquashKeepsTheRest(s: string, p: char -> bool, mark: char, q: char -> bool)
    requires !q(mark) && forall c :: q(c) ==> !p(c)
    ensures Keep(Squash(s, p, mark), q) == Keep(s, q)
  {
    if s != "" {
      SquashKeepsTheRest(s[1..], p, mark, q);
      var rest := Squash(s[1..], p, mark);
      if !p(s[0]) {
        assert ([s[0]] + rest)[1..] == rest;
      } else if !(|s| > 1 && p(s[1])) {
        assert ([mark] + rest)[1..] == rest;
      }
    }
  }

  // ---------- slugify ----------

  predicate IsSlug(s: string) {
    All(s, IsWord) && NoDouble(s, '_')
  }

  lemma SlugIsWellFormed(s: string)
    ensures IsSlug(Slug(s))
  {
    var kept := Keep(Squash(s, IsSpace, '_'), IsWord);
    KeepAll(Squash(s, IsSpace, '_'), IsWord);
    SquashOfAll(kept, IsUnderscore, '_', IsWord);
    SquashLeavesSingleMarks(kept, IsUnderscore, '_');
  }

  /** The fixpoints of the chain are exactly the well-formed slugs. */
  lemma SlugFixpoints(s: string)
    ensures Slug(s) == s <==> IsSlug(s)
  {
    SlugIsWellFormed(s);
    if IsSlug(s) {
      SquashFixes(s, IsSpace, '_');
      KeepAll(s, IsWord);
      SquashFixes(s, IsUnderscore, '_');
    }
  }

  lemma {:induction false} KeepTwice(s: string, p: char -> bool, q: char -> bool)
    requires forall c :: q(c) ==> p(c)
    ensures Keep(Keep(s, p), q) == Keep(s, q)
  {
    if s != "" {
      KeepTwice(s[1..], p, q);
      if p(s[0]) {
        assert ([s[0]] + Keep(s[1..], p))[1..] == Keep(s[1..], p);
      } else {
        assert Keep(s, p) == Keep(s[1..], p);
      }
    }
  }

  /** Letters and digits come through in order, none added and none lost. */
  lemma SlugKeepsLettersAndDigits(s: string)
    ensures Keep(Slug(s), IsLetterOrDigit) == Keep(s, IsLetterOrDigit)
  {
    var spaced := Squash(s, IsSpace, '_');
    SquashKeepsTheRest(s, IsSpace, '_', IsLetterOrDigit);
    KeepTwice(spaced, IsWord, IsLetterOrDigit);
    SquashKeepsTheRest(Keep(spaced, IsWord), IsUnderscore, '_', IsLetterOrDigit);
  }

  predicate IsLetterOrDigit(c: char) { IsWord(c) && c != '_' }

  /** What is asked of `fold`: it lower-cases, and leaves lower-case ASCII slugs alone. */
  ghost predicate Folds(fold: string -> string) {
    && (forall s: string :: All(fold(s), NotUpper))
    && (forall s: string :: All(s, IsCodeChar) ==> fold(s) == s)
  }

  predicate NotUpper(c: char) { !('A' <= c <= 'Z') }

  /** Lower-case letters, digits, underscores and dashes. */
  predicate IsCodeChar(c: char) { IsAlnum(c) || c == '_' || c == '-' }

  lemma {:induction false} KeepOfAll(s: string, p: char -> bool, q: char -> bool)
    requires All(s, q)
    ensures All(Keep(s, p), q)
  {
    if s != "" {
      KeepOfAll(s[1..], p, q);
    }
  }

  lemma SlugifyIsIdempotent(fold: string -> string, text: string)
    requires Folds(fold)
    ensures Slugify(fold, Slugify(fold, text)) == Slugify(fold, text)
  {
    var s := fold(text);
    SlugIsWellFormed(s);
    SquashOfAll(s, IsSpace, '_', NotUpper);
    KeepOfAll(Squash(s, IsSpace, '_'), IsWord, NotUpper);
    SquashOfAll(Keep(Squash(s, IsSpace, '_'), IsWord), IsUnderscore, '_', NotUpper);
    assert All(Slug(s), IsCodeChar);
    SlugFixpoints(Slug(s));
  }

  // ---------- generateCode ----------

  predicate IsDashed(c: char) { IsAlnum(c) || c == '-' }

  /** What every generated code looks like. */
  predicate IsCode(s: string) {
    && |s| <= MAX_CODE && All(s, IsDashed) && NoDouble(s, '-')
    && (s != "" ==> s[0] != '-')
    && (s != "" && s[|s| - 1] == '-' ==> |s| == MAX_CODE)
  }

  predicate EndsWithDash(s: string) {
    s != "" && s[|s| - 1] == '-'
  }

  /** `s` without one dash at its end. */
  function WithoutLastDash(s: string): string {
    if EndsWithDash(s) then s[..|s| - 1] else s
  }

  lemma {:induction false} DropLeadOfSingles(s: string, c: char)
    requires NoDouble(s, c)
    ensures DropLead(s, c) == if s != "" && s[0] == c then s[1..] else s
  {
    if |s| > 1 && s[0] == c {
      assert s[1] != c;
    }
  }

  lemma DropTailOfSingles(s: string, c: char)
    requires NoDouble(s, c)
    ensures DropTail(s, c) == if s != "" && s[|s| - 1] == c then s[..|s| - 1] else s
  {
    if |s| > 1 && s[|s| - 1] == c {
      assert s[|s| - 2] != c;
    }
  }

  lemma CodeIsWellFormed(s: string)
    ensures IsCode(Code(s))
  {
    var dashed := Squash(s, NotAlnum, '-');
    SquashLeavesSingleMarks(s, NotAlnum, '-');
    SquashKeepsOut(s, NotAlnum, '-', IsDashed);
    DropLeadOfSingles(dashed, '-');
    var led := DropLead(dashed, '-');
    DropTailOfSingles(led, '-');
  }

  /** On a generated code, a second application removes the dash that truncation left, and only that. */
  lemma CodeOfACode(s: string)
    requires IsCode(s)
    ensures Code(s) == WithoutLastDash(s)
  {
    SquashFixes(s, NotAlnum, '-');
    DropLeadOfSingles(s, '-');
    DropTailOfSingles(s, '-');
  }

  /** The fixpoints are the generated codes that do not end with a dash. */
  lemma CodeFixpoints(s: string)
    ensures Code(s) == s <==> IsCode(s) && !EndsWithDash(s)
  {
    CodeIsWellFormed(s);
    if IsCode(s) {
      CodeOfACode(s);
    }
  }

  lemma GenerateCodeTwiceAndThrice(fold: string -> string, name: string)
    requires Folds(fold)
    ensures
      var once := GenerateCode(fold, name);
      var twice := GenerateCode(fold, once);
      IsCode(once) && twice == WithoutLastDash(once) && GenerateCode(fold, twice) == twice
  {
    var once := GenerateCode(fold, name);
    CodeIsWellFormed(fold(name));
    assert All(once, IsCodeChar);
    CodeOfACode(once);
    var twice := WithoutLastDash(once);
    assert All(twice, IsCodeChar) && IsCode(twice) && !EndsWithDash(twice);
    CodeFixpoints(twice);
  }

  lemma {:induction false} SquashOfWords(a: string, b: string)
    requires All(a, IsAlnum) && b != "" && All(b, IsAlnum)
    ensures Squash(a + [' '] + b, NotAlnum, '-') == a + ['-'] + b
    ensures NoDouble(a + ['-'] + b, '-')
  {
    if a == "" {
      SquashFixes(b, NotAlnum, '-');
      assert ([' '] + b)[1..] == b;
      assert a + [' '] + b == [' '] + b;
    } else {
      SquashOfWords(a[1..], b);
      assert (a + [' '] + b)[1..] == a[1..] + [' '] + b;
    }
  }

  /** The trailing dash is real: cutting at fifty characters can leave one. */
  lemma TruncationCanLeaveADash(a: string, b: string)
    requires |a| == MAX_CODE - 1 && All(a, IsAlnum) && b != "" && All(b, IsAlnum)
    ensures Code(a + [' '] + b) == a + ['-']
    ensures Code(a + ['-']) == a
  {
    var s := a + [' '] + b;
    var t := a + ['-'] + b;
    SquashOfWords(a, b);
    DropLeadOfSingles(t, '-');
    DropTailOfSingles(t, '-');
    assert t[..MAX_CODE] == a + ['-'];
    CodeOfACode(a + ['-']);
  }

  // ---------- the chains in one pass ----------

  /**
   `slugify` in one pass: a space counts as an underscore, an underscore before
   another is dropped, and so is every other character outside words.
   */
  function SlugInOnePass(s: string): string {
    if s == "" then ""
    else
      var rest := SlugInOnePass(s[1..]);
      var c := if IsSpace(s[0]) then '_' else s[0];
      if !IsWord(c) || (c == '_' && rest != "" && rest[0] == '_') then rest else [c] + rest
  }

  /** One more character in front of a string whose underscores are squashed. */
  lemma SquashCons(c: char, s: string)
    ensures var rest := Squash(s, IsUnderscore, '_');
      Squash([c] + s, IsUnderscore, '_') == if c == '_' && rest != "" && rest[0] == '_' then rest else [c] + rest
  {
    SquashLeavesSingleMarks(s, IsUnderscore, '_');
    assert ([c] + s)[1..] == s;
  }

  lemma KeepCons(c: char, s: string, p: char -> bool)
    ensures Keep([c] + s, p) == (if p(c) then [c] else "") + Keep(s, p)
  {
    assert ([c] + s)[1..] == s;
  }

  lemma {:induction false} SquashStartsWithTheMark(s: string, p: char -> bool, mark: char)
    requires s != "" && p(s[0])
    ensures Squash(s, p, mark) != "" && Squash(s, p, mark)[0] == mark
  {
    if |s| > 1 && p(s[1]) {
      SquashStartsWithTheMark(s[1..], p, mark);
    }
  }

  lemma SlugStartsWithTheMark(s: string)
    requires s != "" && IsSpace(s[0])
    ensures Slug(s) != "" && Slug(s)[0] == '_'
  {
    SquashStartsWithTheMark(s, IsSpace, '_');
    var spaced := Squash(s, IsSpace, '_');
    assert spaced == [spaced[0]] + spaced[1..];
    KeepCons(spaced[0], spaced[1..], IsWord);
    SquashLeavesSingleMarks(Keep(spaced, IsWord), IsUnderscore, '_');
  }

  /** The replacements of `slugify`, one after the other, amount to the one pass. */
  lemma {:induction false} SlugIsOnePass(s: string)
    ensures Slug(s) == SlugInOnePass(s)
  {
    if s != "" {
      SlugIsOnePass(s[1..]);
      var rest := Squash(s[1..], IsSpace, '_');
      var c := if IsSpace(s[0]) then '_' else s[0];
      if IsSpace(s[0]) && |s| > 1 && IsSpace(s[1]) {
        SlugStartsWithTheMark(s[1..]);
      } else {
        assert Squash(s, IsSpace, '_') == [c] + rest;
        KeepCons(c, rest, IsWord);
        SquashCons(c, Keep(rest, IsWord));
        assert "" + Keep(rest, IsWord) == Keep(rest, IsWord);
      }
    }
  }

  /**
   `generateCode` in one pass, before the cut: a dash stands where letters or
   digits follow others after a gap.  `started` says that some came before.
   */
  function Hyphenated(s: string, started: bool): string {
    if s == "" then ""
    else if IsAlnum(s[0]) then [s[0]] + Hyphenated(s[1..], true)
    else if started && |s| > 1 && IsAlnum(s[1]) then ['-'] + Hyphenated(s[1..], true)
    else Hyphenated(s[1..], started)
  }

  /** A character in front stays when it is not the one dropped, or when something is left behind it. */
  lemma {:induction false} DropTailCons(a: char, s: string, c: char)
    requires a != c || DropTail(s, c) != ""
    ensures DropTail([a] + s, c) == [a] + DropTail(s, c)
  {
    if s != "" && s[|s| - 1] == c {
      assert ([a] + s)[..|s|] == [a] + s[..|s| - 1];
      DropTailCons(a, s[..|s| - 1], c);
    }
  }

  lemma {:induction false} HyphenatedIsTheChain(s: string)
    ensures DropTail(Squash(s, NotAlnum, '-'), '-') == Hyphenated(s, true)
    ensures DropTail(DropLead(Squash(s, NotAlnum, '-'), '-'), '-') == Hyphenated(s, false)
  {
    if s != "" {
      var rest := Squash(s[1..], NotAlnum, '-');
      HyphenatedIsTheChain(s[1..]);
      if IsAlnum(s[0]) {
        DropTailCons(s[0], rest, '-');
      } else if |s| > 1 && IsAlnum(s[1]) {
        assert Hyphenated(s[1..], true) != "";
        assert DropTail(rest, '-') == Hyphenated(s[1..], true);
        DropTailCons('-', rest, '-');
        assert (['-'] + rest)[1..] == rest;
      } else if |s| == 1 {
        assert Squash(s, NotAlnum, '-') == ['-'] + "";
        assert "-"[..0] == "" && "-"[1..] == "";
      }
    }
  }

  /** The replacements of `generateCode`, one after the other, amount to the one pass and the cut. */
  lemma CodeIsOnePass(s: string)
    ensures var whole := Hyphenated(s, false);
      Code(s) == if |whole| <= 50 then whole else whole[..50]
  {
    HyphenatedIsTheChain(s);
  }
}
