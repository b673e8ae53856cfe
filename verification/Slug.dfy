/**
  Slugs (src/common/utils/slug.util.ts) and the seed helpers built on the same replacements
  (src/commands/seed/infrastructure/utils.ts).

  toLowerCase is a parameter. Only FixesSlugText is ever assumed of it, and only where it is stated.
*/
module Slugs {
  import opened Prelude

  predicate IsAlnum(ch: char) {
    'a' <= ch <= 'z' || '0' <= ch <= '9'
  }

  predicate IsDash(ch: char) {
    ch == '-'
  }

  /** The class \s, which is also what trim() strips. */
  predicate IsSpace(ch: char) {
    var c := ch as int;
    || 9 <= c <= 13 || c == 32 || c == 0xA0 || c == 0x1680 || 0x2000 <= c <= 0x200A
    || c == 0x2028 || c == 0x2029 || c == 0x202F || c == 0x205F || c == 0x3000 || c == 0xFEFF
  }

  // String.prototype.trim and the four replacements -------------------------------------------------

  function DropWhile(p: char -> bool, s: string): (r: string)
    ensures |r| <= |s| && (r != "" ==> !p(r[0]))
  {
    if s != "" && p(s[0]) then DropWhile(p, s[1..]) else s
  }

  function DropEndWhile(p: char -> bool, s: string): (r: string)
    ensures |r| <= |s| && (r != "" ==> !p(r[|r| - 1]))
  {
    if s != "" && p(s[|s| - 1]) then DropEndWhile(p, s[..|s| - 1]) else s
  }

  function Strip(p: char -> bool, s: string): string {
    DropEndWhile(p, DropWhile(p, s))
  }

  /** replace(/[^a-z0-9\s-]/g, '') */
  function Kept(s: string): (r: string)
    ensures HasKeptText(r)
  {
    if s == "" then ""
    else if IsAlnum(s[0]) || IsSpace(s[0]) || IsDash(s[0]) then [s[0]] + Kept(s[1..])
    else Kept(s[1..])
  }

  lemma LetterIs(ch: char)
    ensures 'a' <= ch <= 'z' <==> ch in "abcdefghijklmnopqrstuvwxyz"
  {
    var letters := "abcdefghijklmnopqrstuvwxyz";
    if 'a' <= ch <= 'z' {
      assert letters[ch as int - 'a' as int] == ch;
    } else {
      assert forall i | 0 <= i < |letters| :: 'a' <= letters[i] <= 'z';
    }
  }

  lemma DigitIs(ch: char)
    ensures '0' <= ch <= '9' <==> ch in "0123456789"
  {
    if '0' <= ch <= '9' {
      assert "0123456789"[ch as int - '0' as int] == ch;
    }
  }

  /** The class [a-z0-9], spelled out. */
  lemma AlnumIs(ch: char)
    ensures IsAlnum(ch) <==> ch in "abcdefghijklmnopqrstuvwxyz" || ch in "0123456789"
  {
    LetterIs(ch);
    DigitIs(ch);
  }

  /** The white space and line terminators of sections 12.2 and 12.3 of ECMA-262. */
  lemma SpaceIs(ch: char)
    ensures IsSpace(ch) <==>
            ch as int in {0x09, 0x0A, 0x0B, 0x0C, 0x0D, 0x20, 0xA0, 0x1680, 0x2000, 0x2001, 0x2002, 0x2003, 0x2004,
                          0x2005, 0x2006, 0x2007, 0x2008, 0x2009, 0x200A, 0x2028, 0x2029, 0x202F, 0x205F, 0x3000,
                          0xFEFF}
  {
  }

  predicate Allowed(ch: char) {
    ch in "abcdefghijklmnopqrstuvwxyz" || ch in "0123456789" || ch == '-' || IsSpace(ch)
  }

  /** What is kept is every allowed character, as often as it comes; the others leave nothing behind. */
  lemma {:induction false} KeptIs(s: string) returns (at: seq<nat>)
    ensures Picks(at, s, Allowed, Kept(s))
  {
    if s == "" {
      at := [0];
    } else {
      var n := |s| - 1;
      at := KeptIs(s[..n]);
      KeptAppend(s[..n], s[n]);
      AllowedIs(s[n]);
      PicksOneMore(at, s[..n], Allowed, Kept(s[..n]), s[n]);
      assert s == s[..n] + [s[n]];
      at := at + [at[n] + if Allowed(s[n]) then 1 else 0];
    }
  }

  lemma AllowedIs(ch: char)
    ensures Allowed(ch) <==> IsAlnum(ch) || IsSpace(ch) || IsDash(ch)
  {
    AlnumIs(ch);
  }

  lemma {:induction false} KeptAppend(s: string, ch: char)
    ensures Kept(s + [ch]) == Kept(s) + if IsAlnum(ch) || IsSpace(ch) || IsDash(ch) then [ch] else []
  {
    if s != "" {
      KeptAppend(s[1..], ch);
      assert (s + [ch])[1..] == s[1..] + [ch];
    }
  }

  /** Stripping cuts the longest stretches of such characters off both ends, and nothing else. */
  lemma StripIs(p: char -> bool, s: string) returns (i: nat, j: nat)
    ensures i <= j <= |s| && Strip(p, s) == s[i..j]
    ensures (forall k | 0 <= k < i || j <= k < |s| :: p(s[k])) && (i < j ==> !p(s[i]) && !p(s[j - 1]))
  {
    i := DropIs(p, s);
    var t := s[i..];
    j := DropEndIs(p, t);
    j := i + j;
    assert DropEndWhile(p, t) == t[..j - i] == s[i..j];
    forall k | j <= k < |s| ensures p(s[k]) {
      assert t[k - i] == s[k];
    }
  }

  lemma {:induction false} DropIs(p: char -> bool, s: string) returns (i: nat)
    ensures i <= |s| && DropWhile(p, s) == s[i..] && (forall k | 0 <= k < i :: p(s[k])) && (i < |s| ==> !p(s[i]))
  {
    i := 0;
    if s != "" && p(s[0]) {
      i := DropIs(p, s[1..]);
      assert forall k | 0 < k < i + 1 :: s[k] == s[1..][k - 1];
      i := i + 1;
    }
  }

  lemma {:induction false} DropEndIs(p: char -> bool, s: string) returns (j: nat)
    ensures j <= |s| && DropEndWhile(p, s) == s[..j] && (forall k | j <= k < |s| :: p(s[k])) && (j > 0 ==> !p(s[j - 1]))
  {
    j := |s|;
    if s != "" && p(s[|s| - 1]) {
      j := DropEndIs(p, s[..|s| - 1]);
    }
  }

  /** replace(/p+/g, '-') */
  function ReplaceRuns(p: char -> bool, s: string): string
    decreases |s|
  {
    if s == "" then ""
    else if p(s[0]) then "-" + ReplaceRuns(p, DropWhile(p, s[1..]))
    else [s[0]] + ReplaceRuns(p, s[1..])
  }

  function BuildSlug(lower: string -> string, input: string): string {
    Strip(IsDash, ReplaceRuns(IsDash, ReplaceRuns(IsSpace, Kept(lower(Strip(IsSpace, input))))))
  }

  predicate HasKeptText(s: string) {
    forall i | 0 <= i < |s| :: IsAlnum(s[i]) || IsSpace(s[i]) || IsDash(s[i])
  }

  predicate HasSlugText(s: string) {
    forall i | 0 <= i < |s| :: IsAlnum(s[i]) || IsDash(s[i])
  }

  /** toLowerCase leaves a-z, 0-9 and - alone. */
  ghost predicate FixesSlugText(lower: string -> string) {
    forall s | HasSlugText(s) :: lower(s) == s
  }

  // The pattern ^[a-z0-9]+(?:-[a-z0-9]+)*$ ------------------------------------------------------------

  predicate IsWord(w: string) {
    w != "" && forall i | 0 <= i < |w| :: IsAlnum(w[i])
  }

  ghost predicate AreWords(ws: seq<string>) {
    forall i | 0 <= i < |ws| :: IsWord(ws[i])
  }

  function Join(ws: seq<string>): string {
    if ws == [] then "" else if |ws| == 1 then ws[0] else ws[0] + "-" + Join(ws[1..])
  }

  /** The language of the pattern. */
  ghost predicate InPattern(s: string) {
    exists ws: seq<string> :: ws != [] && AreWords(ws) && s == Join(ws)
  }

  /** A matcher: the ends are letters or digits and no two dashes meet. */
  predicate PatternTest(s: string) {
    && s != "" && HasSlugText(s) && IsAlnum(s[0]) && IsAlnum(s[|s| - 1]) && NoDoubleDash(s)
  }

  predicate NoDoubleDash(s: string) {
    forall i | 0 < i < |s| :: IsAlnum(s[i - 1]) || IsAlnum(s[i])
  }

  // Words ---------------------------------------------------------------------------------------------

  /** The maximal stretches of letters and digits. */
  function Words(s: string): (ws: seq<string>)
    ensures AreWords(ws)
    ensures s != "" && IsAlnum(s[0]) ==> ws != []
  {
    if s == "" then []
    else
      var ws := Words(s[1..]);
      if !IsAlnum(s[0]) then ws
      else if |s| > 1 && IsAlnum(s[1]) then [[s[0]] + ws[0]] + ws[1..]
      else [[s[0]]] + ws
  }

  lemma {:induction false} WordsAfterDrop(p: char -> bool, s: string)
    requires forall ch | p(ch) :: !IsAlnum(ch)
    ensures Words(DropWhile(p, s)) == Words(s)
  {
    if s != "" && p(s[0]) {
      WordsAfterDrop(p, s[1..]);
    }
  }

  /** Replacing runs of separators by a dash changes no word. */
  lemma {:induction false} WordsAfterReplace(p: char -> bool, s: string)
    requires forall ch | p(ch) :: !IsAlnum(ch)
    ensures Words(ReplaceRuns(p, s)) == Words(s)
    ensures s != "" ==> ReplaceRuns(p, s) != "" && (IsAlnum(ReplaceRuns(p, s)[0]) <==> IsAlnum(s[0]))
    decreases |s|
  {
    var r := ReplaceRuns(p, s);
    if s == "" {
    } else if p(s[0]) {
      var rest := DropWhile(p, s[1..]);
      WordsAfterReplace(p, rest);
      WordsAfterDrop(p, s[1..]);
      assert r[1..] == ReplaceRuns(p, rest);
    } else {
      WordsAfterReplace(p, s[1..]);
      assert r[1..] == ReplaceRuns(p, s[1..]);
    }
  }

  lemma {:induction false} SpacesBecomeDashes(s: string)
    requires HasKeptText(s)
    ensures HasSlugText(ReplaceRuns(IsSpace, s))
    decreases |s|
  {
    if s == "" {
    } else if IsSpace(s[0]) {
      DropKeepsText(s[1..]);
      SpacesBecomeDashes(DropWhile(IsSpace, s[1..]));
    } else {
      SpacesBecomeDashes(s[1..]);
    }
  }

  lemma {:induction false} DropKeepsText(s: string)
    requires HasKeptText(s)
    ensures HasKeptText(DropWhile(IsSpace, s))
  {
    if s != "" && IsSpace(s[0]) {
      DropKeepsText(s[1..]);
    }
  }

  lemma {:induction false} DropDashesKeepsText(s: string)
    requires HasSlugText(s)
    ensures HasSlugText(DropWhile(IsDash, s))
  {
    if s != "" && IsDash(s[0]) {
      DropDashesKeepsText(s[1..]);
    }
  }

  lemma {:induction false} DashesCollapse(s: string)
    requires HasSlugText(s)
    ensures HasSlugText(ReplaceRuns(IsDash, s)) && NoDoubleDash(ReplaceRuns(IsDash, s))
    ensures s != "" && IsAlnum(s[0]) ==> ReplaceRuns(IsDash, s) != "" && IsAlnum(ReplaceRuns(IsDash, s)[0])
    decreases |s|
  {
    if s == "" {
    } else if IsDash(s[0]) {
      var rest := DropWhile(IsDash, s[1..]);
      DropDashesKeepsText(s[1..]);
      DashesCollapse(rest);
      assert ReplaceRuns(IsDash, s) == "-" + ReplaceRuns(IsDash, rest);
    } else {
      DashesCollapse(s[1..]);
      assert ReplaceRuns(IsDash, s) == [s[0]] + ReplaceRuns(IsDash, s[1..]);
    }
  }

  lemma {:induction false} DropEndAfter(a: char, t: string)
    requires !IsDash(a)
    ensures DropEndWhile(IsDash, [a] + t) == [a] + DropEndWhile(IsDash, t)
  {
    var s := [a] + t;
    if t == "" {
    } else if IsDash(t[|t| - 1]) {
      DropEndAfter(a, t[..|t| - 1]);
      assert s[..|s| - 1] == [a] + t[..|t| - 1];
    }
  }

  lemma JoinFirstLetter(a: char, ws: seq<string>)
    requires ws != []
    ensures Join([[a] + ws[0]] + ws[1..]) == [a] + Join(ws)
  {
    var merged := [[a] + ws[0]] + ws[1..];
    assert merged[1..] == ws[1..];
    if |ws| > 1 {
      assert ([a] + ws[0]) + "-" + Join(ws[1..]) == [a] + (ws[0] + "-" + Join(ws[1..]));
    }
  }

  lemma JoinFirstWord(a: char, ws: seq<string>)
    requires ws != []
    ensures Join([[a]] + ws) == [a] + "-" + Join(ws)
  {
    var extra := [[a]] + ws;
    assert extra[1..] == ws;
  }

  /** Text without double dashes that starts with a word is its words, joined, and perhaps one dash at the end. */
  lemma {:induction false} StrippedIsJoined(g: string)
    requires HasSlugText(g) && NoDoubleDash(g) && g != "" && IsAlnum(g[0])
    ensures DropEndWhile(IsDash, g) == Join(Words(g))
  {
    var a, t := g[0], g[1..];
    assert g == [a] + t;
    DropEndAfter(a, t);
    if t == "" {
      assert Words(t) == [];
    } else if IsAlnum(t[0]) {
      assert NoDoubleDash(t) by {
        assert forall i | 0 < i < |t| :: t[i - 1] == g[i] && t[i] == g[i + 1];
      }
      StrippedIsJoined(t);
      JoinFirstLetter(a, Words(t));
    } else {
      StrippedAfterDash(a, t);
    }
  }

  /** What follows a single dash is again text without double dashes that starts with a word. */
  lemma WordAfterDash(a: char, t: string)
    requires |t| > 1 && t[0] == '-' && HasSlugText(t) && NoDoubleDash([a] + t)
    ensures IsAlnum(t[1]) && NoDoubleDash(t[1..])
  {
    var u, g := t[1..], [a] + t;
    assert IsAlnum(g[1]) || IsAlnum(g[2]);
    forall i | 0 < i < |u| ensures IsAlnum(u[i - 1]) || IsAlnum(u[i]) {
      assert IsAlnum(g[i + 1]) || IsAlnum(g[i + 2]);
    }
  }

  lemma {:induction false} StrippedAfterDash(a: char, t: string)
    requires IsAlnum(a) && t != "" && t[0] == '-' && HasSlugText(t) && NoDoubleDash([a] + t)
    ensures [a] + DropEndWhile(IsDash, t) == Join(Words([a] + t))
    decreases t, 0
  {
    var u, g := t[1..], [a] + t;
    assert g[1..] == t && Words(g) == [[a]] + Words(u);
    if u == "" {
      assert t[..0] == "";
    } else {
      WordAfterDash(a, t);
      StrippedIsJoined(u);
      DropEndAfterDash(u);
      assert t == "-" + u;
      JoinFirstWord(a, Words(u));
    }
  }

  lemma {:induction false} DropEndAfterDash(u: string)
    requires u != "" && IsAlnum(u[0])
    ensures DropEndWhile(IsDash, "-" + u) == "-" + DropEndWhile(IsDash, u)
  {
    var s := "-" + u;
    if IsDash(u[|u| - 1]) {
      DropEndAfterDash(u[..|u| - 1]);
      assert s[..|s| - 1] == "-" + u[..|u| - 1];
    }
  }

  // What buildSlug computes -----------------------------------------------------------------------------

  /** buildSlug joins, by single dashes, the words of the trimmed, lower-cased and filtered text. */
  lemma SlugIsItsWords(lower: string -> string, input: string)
    ensures BuildSlug(lower, input) == Join(Words(Kept(lower(Strip(IsSpace, input)))))
  {
    var kept := Kept(lower(Strip(IsSpace, input)));
    var dashed := ReplaceRuns(IsSpace, kept);
    var single := ReplaceRuns(IsDash, dashed);
    SpacesBecomeDashes(kept);
    WordsAfterReplace(IsSpace, kept);
    DashesCollapse(dashed);
    WordsAfterReplace(IsDash, dashed);
    var started := DropWhile(IsDash, single);
    WordsAfterDrop(IsDash, single);
    DropDashesKeepsShape(single);
    if started == "" {
      assert Words(started) == [];
    } else {
      StrippedIsJoined(started);
    }
  }

  lemma {:induction false} DropDashesKeepsShape(s: string)
    requires HasSlugText(s) && NoDoubleDash(s)
    ensures HasSlugText(DropWhile(IsDash, s)) && NoDoubleDash(DropWhile(IsDash, s))
  {
    if s != "" && IsDash(s[0]) {
      assert forall i | 0 < i < |s[1..]| :: s[1..][i - 1] == s[i] && s[1..][i] == s[i + 1];
      DropDashesKeepsShape(s[1..]);
    }
  }

  /** For every input the slug is empty or in the pattern, and empty exactly if no letter or digit is left. */
  lemma SlugIsNormal(lower: string -> string, input: string)
    ensures var slug := BuildSlug(lower, input);
            && (slug == "" || InPattern(slug))
            && (slug == "" <==> NoAlnum(lower(Strip(IsSpace, input))))
  {
    var text := lower(Strip(IsSpace, input));
    var ws := Words(Kept(text));
    SlugIsItsWords(lower, input);
    NoWordsIff(Kept(text));
    KeptLetters(text);
    if ws != [] {
      assert IsWord(ws[0]);
      assert Join(ws) != "";
    }
  }

  predicate NoAlnum(s: string) {
    forall i | 0 <= i < |s| :: !IsAlnum(s[i])
  }

  lemma NoAlnumAfter(a: char, t: string)
    ensures NoAlnum([a] + t) <==> !IsAlnum(a) && NoAlnum(t)
  {
    var s := [a] + t;
    assert s[0] == a;
    assert forall i | 0 <= i < |t| :: t[i] == s[i + 1];
    assert forall i | 0 < i < |s| :: s[i] == t[i - 1];
  }

  lemma {:induction false} NoWordsIff(s: string)
    ensures Words(s) == [] <==> NoAlnum(s)
  {
    if s != "" {
      NoWordsIff(s[1..]);
      NoAlnumAfter(s[0], s[1..]);
      assert s == [s[0]] + s[1..];
    }
  }

  lemma {:induction false} KeptLetters(s: string)
    ensures NoAlnum(Kept(s)) <==> NoAlnum(s)
  {
    if s != "" {
      KeptLetters(s[1..]);
      NoAlnumAfter(s[0], s[1..]);
      NoAlnumAfter(s[0], Kept(s[1..]));
      assert s == [s[0]] + s[1..];
    }
  }

  // The matcher is the pattern ----------------------------------------------------------------------------

  lemma {:induction false} WordsOfWord(w: string)
    requires IsWord(w)
    ensures Words(w) == [w]
  {
    if |w| > 1 {
      WordsOfWord(w[1..]);
      assert w == [w[0]] + w[1..];
    } else {
      assert w == [w[0]] && w[1..] == "";
    }
  }

  lemma {:induction false} WordsOfJoinedTwo(w: string, rest: string)
    requires IsWord(w)
    ensures Words(w + "-" + rest) == [w] + Words(rest)
  {
    var s := w + "-" + rest;
    if |w| > 1 {
      WordsOfJoinedTwo(w[1..], rest);
      assert s[1..] == w[1..] + "-" + rest && w == [w[0]] + w[1..];
    } else {
      assert s[1..] == "-" + rest && ("-" + rest)[1..] == rest && w == [w[0]];
    }
  }

  lemma {:induction false} WordsOfJoin(ws: seq<string>)
    requires AreWords(ws)
    ensures Words(Join(ws)) == ws
  {
    if |ws| == 1 {
      WordsOfWord(ws[0]);
    } else if ws != [] {
      WordsOfJoin(ws[1..]);
      WordsOfJoinedTwo(ws[0], Join(ws[1..]));
    }
  }

  lemma {:induction false} JoinPasses(ws: seq<string>)
    requires ws != [] && AreWords(ws)
    ensures PatternTest(Join(ws))
  {
    if |ws| > 1 {
      JoinPasses(ws[1..]);
      var w, t := ws[0], Join(ws[1..]);
      var s := w + "-" + t;
      assert IsWord(w);
      forall i | 0 < i < |s| ensures IsAlnum(s[i - 1]) || IsAlnum(s[i]) {
        if i > |w| + 1 {
          assert s[i - 1] == t[i - |w| - 2] && s[i] == t[i - |w| - 1];
        } else if i == |w| + 1 {
          assert s[i] == t[0];
        }
      }
      assert s[|s| - 1] == t[|t| - 1];
    } else {
      assert IsWord(ws[0]);
    }
  }

  /** The character test and the regular language agree on every string. */
  lemma PatternTestIff(s: string)
    ensures PatternTest(s) <==> InPattern(s)
  {
    if PatternTest(s) {
      StrippedIsJoined(s);
      assert DropEndWhile(IsDash, s) == s;
    }
    if ws: seq<string> :| ws != [] && AreWords(ws) && s == Join(ws) {
      JoinPasses(ws);
    }
  }

  /** A slug is a fixed point. */
  lemma SlugFixesPattern(lower: string -> string, s: string)
    requires FixesSlugText(lower) && InPattern(s)
    ensures Strip(IsSpace, s) == s && lower(s) == s && BuildSlug(lower, s) == s
  {
    PatternTestIff(s);
    KeptFixes(s);
    SlugIsItsWords(lower, s);
    var ws: seq<string> :| ws != [] && AreWords(ws) && s == Join(ws);
    WordsOfJoin(ws);
  }

  lemma {:induction false} KeptFixes(s: string)
    requires HasSlugText(s)
    ensures Kept(s) == s
  {
    if s != "" {
      KeptFixes(s[1..]);
      assert s == [s[0]] + s[1..];
    }
  }

  lemma BuildSlugIdempotent(lower: string -> string, input: string)
    requires FixesSlugText(lower)
    ensures BuildSlug(lower, BuildSlug(lower, input)) == BuildSlug(lower, input)
  {
    SlugIsNormal(lower, input);
    if BuildSlug(lower, input) == "" {
      assert HasSlugText("") && lower("") == "";
    } else {
      SlugFixesPattern(lower, BuildSlug(lower, input));
    }
  }

  // normalizeSlugOrThrow ----------------------------------------------------------------------------------

  /** With the default pattern and messages. */
  function NormalizeSlugOrThrow(lower: string -> string, input: string): Result<string> {
    var slug := lower(Strip(IsSpace, input));
    if slug == "" then Err("Slug cannot be empty")
    else if !PatternTest(slug) then
      Err("Slug must be lowercase and can only contain letters, numbers, and hyphens")
    else Ok(slug)
  }

  /** What it accepts is already a slug: buildSlug gives the same for the input and leaves the result alone. */
  lemma AcceptedIsBuilt(lower: string -> string, input: string)
    requires FixesSlugText(lower)
    ensures var r := NormalizeSlugOrThrow(lower, input);
            && (r.Ok? <==> InPattern(lower(Strip(IsSpace, input))))
            && (r == Err("Slug cannot be empty") <==> lower(Strip(IsSpace, input)) == "")
            && (r.Err? && lower(Strip(IsSpace, input)) != "" ==>
                  r == Err("Slug must be lowercase and can only contain letters, numbers, and hyphens"))
            && (r.Ok? ==>
                  InPattern(r.value) && BuildSlug(lower, input) == r.value && BuildSlug(lower, r.value) == r.value)
  {
    var slug := lower(Strip(IsSpace, input));
    PatternTestIff(slug);
    if PatternTest(slug) {
      SlugFixesPattern(lower, slug);
      SlugIsItsWords(lower, input);
      SlugIsItsWords(lower, slug);
    }
  }

  // The seed's normalizeSlug --------------------------------------------------------------------------------

  datatype SeedError = EmptyAfterNormalization | InvalidFormat(slug: string)

  datatype SeedResult = Slug(slug: string) | Throws(error: SeedError)

  function SeedNormalizeSlug(lower: string -> string, value: string): SeedResult {
    var slug := BuildSlug(lower, value);
    if slug == "" then Throws(EmptyAfterNormalization)
    else if !PatternTest(slug) then Throws(InvalidFormat(slug))
    else Slug(slug)
  }

  /** The second throw is dead: the only error is an input without letters and digits. */
  lemma SecondThrowIsUnreachable(lower: string -> string, value: string)
    ensures var r := SeedNormalizeSlug(lower, value);
            && (r.Throws? <==> r == Throws(EmptyAfterNormalization))
            && (r.Throws? <==> NoAlnum(lower(Strip(IsSpace, value))))
  {
    SlugIsNormal(lower, value);
    PatternTestIff(BuildSlug(lower, value));
  }

  // assertUniqueBy ------------------------------------------------------------------------------------------

  ghost predicate UniqueBy<T>(items: seq<T>, keyFn: T -> string) {
    forall i, j | 0 <= i < j < |items| :: keyFn(items[i]) != keyFn(items[j])
  }

  /** Fails, with the first key seen twice, exactly if some key is. */
  method AssertUniqueBy<T>(items: seq<T>, keyFn: T -> string, noun: string) returns (r: Result<()>)
    ensures r.Ok? <==> UniqueBy(items, keyFn)
    ensures r.Err? ==> exists i, j :: 0 <= i < j < |items| && keyFn(items[i]) == keyFn(items[j])
                                      && UniqueBy(items[..j], keyFn)
                                      && r.error == "Duplicate " + noun + " in seed payload: " + keyFn(items[j])
  {
    var seen: set<string> := {};
    for j := 0 to |items|
      invariant seen == set i | 0 <= i < j :: keyFn(items[i])
      invariant UniqueBy(items[..j], keyFn)
    {
      var key := keyFn(items[j]);
      if key in seen {
        var i :| 0 <= i < j && keyFn(items[i]) == key;
        return Err("Duplicate " + noun + " in seed payload: " + key);
      }
      seen := seen + {key};
    }
    assert items[..|items|] == items;
    return Ok(());
  }
}
