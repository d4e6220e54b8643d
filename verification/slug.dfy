/**
 * `slug(s)`: the title normaliser behind every dedup key and document id
 * (identical in src/jellyseek/rag/db_generator.py, src/rag_gen/db_generator.py
 * and src/rag_gen/rag.py):
 *
 *   NFKD-normalise, drop what is not ASCII, lower-case, replace each maximal
 *   run of characters outside [a-z0-9] by one "_", strip "_" at both ends.
 *
 * NFKD is Unicode data, so the model takes the compatibility decomposition of
 * one character as a parameter `decompose`. Canonical reordering only moves
 * combining marks, which are all outside ASCII and dropped by the ASCII
 * encoding, so folding character by character gives the same result.
 */
module Slug {
  import opened Wrappers
  import opened Text

  /** The full compatibility decomposition of one character. */
  type Decomposition = char -> string

  /** Unicode fact: NFKD leaves an ASCII character as it is. */
  ghost predicate FixesAscii(decompose: Decomposition) {
    forall c :: IsAscii(c) ==> decompose(c) == [c]
  }

  predicate IsAlnum(c: char) { IsAsciiLower(c) || IsAsciiUpper(c) || IsDigit(c) }

  /** Unicode fact: no whitespace character decomposes into an ASCII letter or digit. */
  ghost predicate SpaceStaysBlank(decompose: Decomposition) {
    forall c, i :: IsSpace(c) && 0 <= i < |decompose(c)| ==> !IsAlnum(decompose(c)[i])
  }

  /** `s.encode("ascii", "ignore").decode()`. */
  function DropNonAscii(s: string): string {
    if s == [] then []
    else (if IsAscii(s[0]) then [s[0]] else []) + DropNonAscii(s[1..])
  }

  /** `unicodedata.normalize("NFKD", s).encode("ascii", "ignore").decode()`. */
  function AsciiFold(decompose: Decomposition, s: string): string {
    if s == [] then [] else DropNonAscii(decompose(s[0])) + AsciiFold(decompose, s[1..])
  }

  /** What survives the ASCII encoding is ASCII and was there before. */
  lemma {:induction false} DropNonAsciiKeeps(s: string)
    ensures forall i :: 0 <= i < |DropNonAscii(s)| ==> IsAscii(DropNonAscii(s)[i]) && DropNonAscii(s)[i] in s
  {
    if s != [] {
      DropNonAsciiKeeps(s[1..]);
      var head := if IsAscii(s[0]) then [s[0]] else [];
      var tail := DropNonAscii(s[1..]);
      forall i | 0 <= i < |head + tail|
        ensures IsAscii((head + tail)[i]) && (head + tail)[i] in s
      {
        if i >= |head| {
          assert (head + tail)[i] == tail[i - |head|];
          assert tail[i - |head|] in s[1..];
        }
      }
    }
  }

  /** The characters `[a-z0-9]` that survive the substitution. */
  predicate IsSlugChar(c: char) { IsAsciiLower(c) || IsDigit(c) }

  predicate SlugChars(s: string) {
    forall i :: 0 <= i < |s| ==> IsSlugChar(s[i]) || s[i] == '_'
  }

  predicate NoDoubleSep(s: string) {
    forall i, j :: 0 <= i < |s| && 0 <= j < |s| && j == i + 1 ==> !(s[i] == '_' && s[j] == '_')
  }

  /** What a slug looks like: `[a-z0-9_]*`, no `_` at either end, never `__`. */
  predicate IsSlug(s: string) {
    && SlugChars(s)
    && NoDoubleSep(s)
    && (s != [] ==> s[0] != '_' && s[|s| - 1] != '_')
  }

  /** Drop the maximal leading run of characters outside `[a-z0-9]`. */
  function SkipRun(t: string): (r: string)
    ensures |r| <= |t|
    ensures t != [] && !IsSlugChar(t[0]) ==> |r| < |t|
    ensures r == [] || IsSlugChar(r[0])
  {
    if t != [] && !IsSlugChar(t[0]) then SkipRun(t[1..]) else t
  }

  /** `SkipRun` leaves a suffix of its input. */
  lemma {:induction false} SkipRunSuffix(t: string)
    ensures SkipRun(t) == t[|t| - |SkipRun(t)|..]
  {
    if t != [] && !IsSlugChar(t[0]) {
      SkipRunSuffix(t[1..]);
      assert t[1..][|t[1..]| - |SkipRun(t[1..])|..] == t[|t| - |SkipRun(t)|..];
    }
  }

  /** Everything `SkipRun` drops lies outside `[a-z0-9]`. */
  lemma {:induction false} SkipRunSkipsBlank(t: string)
    ensures forall i :: 0 <= i < |t| - |SkipRun(t)| ==> !IsSlugChar(t[i])
  {
    if t != [] && !IsSlugChar(t[0]) {
      var t' := t[1..];
      SkipRunSkipsBlank(t');
      assert SkipRun(t) == SkipRun(t');
      forall i | 0 < i < |t| - |SkipRun(t)|
        ensures !IsSlugChar(t[i])
      {
        assert t[i] == t'[i - 1];
      }
    }
  }

  /** `re.sub(r"[^a-z0-9]+", "_", t)`. */
  function CollapseRuns(t: string): (r: string)
    ensures t == [] <==> r == []
    ensures t != [] && IsSlugChar(t[0]) ==> r[0] == t[0]
    ensures t != [] && !IsSlugChar(t[0]) ==> r[0] == '_'
    decreases |t|
  {
    if t == [] then []
    else if IsSlugChar(t[0]) then [t[0]] + CollapseRuns(t[1..])
    else
      "_" + CollapseRuns(SkipRun(t))
  }

  /** What `CollapseRuns` yields is `[a-z0-9_]*` without `__`. */
  lemma {:induction false} CollapseRunsShape(t: string)
    ensures SlugChars(CollapseRuns(t)) && NoDoubleSep(CollapseRuns(t))
    decreases |t|
  {
    if t != [] {
      var rest := if IsSlugChar(t[0]) then t[1..] else SkipRun(t);
      CollapseRunsShape(rest);
      var c := CollapseRuns(rest);
      var r := CollapseRuns(t);
      assert r == [r[0]] + c;
      forall i | 0 <= i < |r|
        ensures IsSlugChar(r[i]) || r[i] == '_'
      {
        if i > 0 { assert r[i] == c[i - 1]; }
      }
      forall i, j | 0 <= i < |r| && 0 <= j < |r| && j == i + 1
        ensures !(r[i] == '_' && r[j] == '_')
      {
        assert r[j] == c[i];
        if i > 0 {
          assert r[i] == c[i - 1];
        }
      }
    }
  }

  function DropLeadingSep(s: string): (r: string)
    ensures r == [] || r[0] != '_'
    ensures |r| <= |s| && r == s[|s| - |r|..]
  {
    if s != [] && s[0] == '_' then DropLeadingSep(s[1..]) else s
  }

  function DropTrailingSep(s: string): (r: string)
    ensures r == [] || r[|r| - 1] != '_'
    ensures |r| <= |s| && r == s[..|r|]
    ensures forall i :: |r| <= i < |s| ==> s[i] == '_'
  {
    if s != [] && s[|s| - 1] == '_' then DropTrailingSep(s[..|s| - 1]) else s
  }

  /** `s.strip("_")`. */
  function StripSep(s: string): string {
    DropTrailingSep(DropLeadingSep(s))
  }

  /** A suffix of a run of slug characters without `__` is one too. */
  lemma SuffixKeepsShape(c: string, k: nat)
    requires SlugChars(c) && NoDoubleSep(c) && k <= |c|
    ensures SlugChars(c[k..]) && NoDoubleSep(c[k..])
  {
    var l := c[k..];
    assert forall i :: 0 <= i < |l| ==> l[i] == c[k + i];
  }

  /** A prefix of a run of slug characters without `__` is one too. */
  lemma PrefixKeepsShape(c: string, k: nat)
    requires SlugChars(c) && NoDoubleSep(c) && k <= |c|
    ensures SlugChars(c[..k]) && NoDoubleSep(c[..k])
  {
    var r := c[..k];
    assert forall i :: 0 <= i < |r| ==> r[i] == c[i];
  }

  /** Stripping `_` from both ends of `[a-z0-9_]*` without `__` leaves a slug. */
  lemma StripSepIsSlug(c: string)
    requires SlugChars(c) && NoDoubleSep(c)
    ensures IsSlug(StripSep(c))
  {
    var l := DropLeadingSep(c);
    SuffixKeepsShape(c, |c| - |l|);
    var r := DropTrailingSep(l);
    PrefixKeepsShape(l, |r|);
    if r != [] {
      assert r[0] == l[0];
    }
  }

  /** `slug` after the ASCII fold: lower, collapse, strip. */
  function SlugOfAscii(t: string): string {
    StripSep(CollapseRuns(Lower(t)))
  }

  /** `slug(s)`. */
  function Slug(decompose: Decomposition, s: string): string {
    SlugOfAscii(AsciiFold(decompose, s))
  }

  /** Whatever the ASCII text, the result looks like a slug. */
  lemma SlugOfAsciiIsSlug(t: string)
    ensures IsSlug(SlugOfAscii(t))
  {
    CollapseRunsShape(Lower(t));
    StripSepIsSlug(CollapseRuns(Lower(t)));
  }

  /** Whatever the title, `slug` gives `[a-z0-9_]*` with no `_` at either end and never `__`. */
  lemma SlugIsSlug(decompose: Decomposition, s: string)
    ensures IsSlug(Slug(decompose, s))
  {
    SlugOfAsciiIsSlug(AsciiFold(decompose, s));
  }

  // ------------------------------------------------------------ idempotence

  lemma {:induction false} AsciiFoldFixesAscii(decompose: Decomposition, s: string)
    requires FixesAscii(decompose)
    requires forall i :: 0 <= i < |s| ==> IsAscii(s[i])
    ensures AsciiFold(decompose, s) == s
  {
    if s != [] {
      AsciiFoldFixesAscii(decompose, s[1..]);
      assert DropNonAscii([s[0]]) == [s[0]];
      assert [s[0]] + s[1..] == s;
    }
  }

  lemma {:induction false} CollapseRunsFixesSlug(s: string)
    requires SlugChars(s) && NoDoubleSep(s)
    ensures CollapseRuns(s) == s
    decreases |s|
  {
    if s != [] {
      var t := s[1..];
      SuffixKeepsShape(s, 1);
      CollapseRunsFixesSlug(t);
      CollapseRunsStep(s);
    }
  }

  /** One step of `CollapseRuns` on `[a-z0-9_]*` without `__`: the first character is kept. */
  lemma CollapseRunsStep(s: string)
    requires SlugChars(s) && NoDoubleSep(s) && s != []
    ensures CollapseRuns(s) == [s[0]] + CollapseRuns(s[1..])
  {
    if !IsSlugChar(s[0]) {
      var t := s[1..];
      assert s[0] == '_';
      if t != [] {
        assert t[0] == s[1];
        assert IsSlugChar(s[1]);
      }
      assert SkipRun(t) == t;
      assert SkipRun(s) == t;
      assert CollapseRuns(s) == "_" + CollapseRuns(t);
    }
  }

  /** A slug is its own slug. */
  lemma SlugOfAsciiFixesSlug(s: string)
    requires IsSlug(s)
    ensures SlugOfAscii(s) == s
  {
    assert Lower(s) == s;
    CollapseRunsFixesSlug(s);
  }

  /** Lowering first changes nothing: `slug` lowers anyway. */
  lemma SlugOfAsciiLower(t: string)
    ensures SlugOfAscii(Lower(t)) == SlugOfAscii(t)
  {
    assert Lower(Lower(t)) == Lower(t);
  }

  /** `slug(slug(s)) == slug(s)`. */
  lemma SlugIdempotent(decompose: Decomposition, s: string)
    requires FixesAscii(decompose)
    ensures Slug(decompose, Slug(decompose, s)) == Slug(decompose, s)
  {
    var once := Slug(decompose, s);
    SlugIsSlug(decompose, s);
    assert forall i :: 0 <= i < |once| ==> IsAscii(once[i]);
    AsciiFoldFixesAscii(decompose, once);
    SlugOfAsciiFixesSlug(once);
  }

  // ------------------------------------------------------------ case

  /** On an ASCII title, `slug` does not see letter case. */
  lemma SlugIgnoresAsciiCase(decompose: Decomposition, s: string)
    requires FixesAscii(decompose)
    requires forall i :: 0 <= i < |s| ==> IsAscii(s[i])
    ensures Slug(decompose, Lower(s)) == Slug(decompose, s)
  {
    AsciiFoldFixesAscii(decompose, s);
    AsciiFoldFixesAscii(decompose, Lower(s));
    assert Lower(Lower(s)) == Lower(s);
  }

  /** An ASCII word of letters and digits slugs to its lower-case form. */
  lemma SlugOfAsciiWord(t: string)
    requires forall i :: 0 <= i < |t| ==> IsAlnum(t[i])
    ensures SlugOfAscii(t) == Lower(t)
  {
    var lo := Lower(t);
    assert forall i :: 0 <= i < |lo| ==> IsSlugChar(lo[i]);
    assert IsSlug(lo);
    SlugOfAsciiFixesSlug(lo);
    SlugOfAsciiLower(t);
  }

  /** A title of ASCII letters and digits slugs to its lower-case form. */
  lemma SlugOfWord(decompose: Decomposition, s: string)
    requires FixesAscii(decompose)
    requires forall i :: 0 <= i < |s| ==> IsAlnum(s[i])
    ensures Slug(decompose, s) == Lower(s)
  {
    AsciiFoldFixesAscii(decompose, s);
    SlugOfAsciiWord(s);
  }

  /** `slug("AMELIE") == "amelie"`. */
  lemma SlugOfUpperCase(decompose: Decomposition)
    requires FixesAscii(decompose)
    ensures Slug(decompose, "AMELIE") == "amelie"
  {
    var upper := "AMELIE";
    SlugOfWord(decompose, upper);
    LowerAmelie(upper);
  }

  /** The two spellings of the running example lower-case to "amelie". */
  lemma LowerAmelie(w: string)
    requires w == "AMELIE" || w == "Amelie"
    ensures Lower(w) == "amelie"
  {
    var lo := Lower(w);
    assert LowerChar('A') == 'a' && LowerChar('M') == 'm' && LowerChar('E') == 'e';
    assert LowerChar('L') == 'l' && LowerChar('I') == 'i';
    assert lo[0] == 'a' && lo[1] == 'm' && lo[2] == 'e' && lo[3] == 'l' && lo[4] == 'i' && lo[5] == 'e';
  }

  /** A run of `[a-z0-9]` only. */
  predicate SlugWord(w: string) { forall i :: 0 <= i < |w| ==> IsSlugChar(w[i]) }

  /** A word of `[a-z0-9]` passes through the substitution unchanged. */
  lemma {:induction false} CollapseRunsKeepsWord(w: string, t: string)
    requires SlugWord(w)
    ensures CollapseRuns(w + t) == w + CollapseRuns(t)
    decreases |w|
  {
    if w == [] {
      assert w + t == t;
    } else {
      var wt := w + t;
      assert wt[0] == w[0] && IsSlugChar(w[0]) && wt[1..] == w[1..] + t;
      assert CollapseRuns(wt) == [w[0]] + CollapseRuns(w[1..] + t);
      assert forall i :: 0 <= i < |w[1..]| ==> w[1..][i] == w[i + 1];
      CollapseRunsKeepsWord(w[1..], t);
      assert [w[0]] + (w[1..] + CollapseRuns(t)) == w + CollapseRuns(t);
    }
  }

  /** `"Unknown Title".lower() == "unknown title"`. */
  lemma LowerUnknownTitle()
    ensures Lower("Unknown Title") == "unknown title"
  {
    var lo, up := Lower("Unknown Title"), "Unknown Title";
    assert LowerChar('U') == 'u' && LowerChar('T') == 't';
    forall i | 0 <= i < |up|
      ensures lo[i] == "unknown title"[i]
    {
      assert IsAsciiUpper(up[i]) <==> i == 0 || i == 8;
    }
  }

  /** `"unknown"` and `"title"` are words of `[a-z0-9]`. */
  lemma UnknownTitleWords()
    ensures SlugWord("unknown") && SlugWord("title")
  {
    var word, rest := "unknown", "title";
    forall i | 0 <= i < |word| ensures IsSlugChar(word[i]) {
      assert word[i] in {'u', 'n', 'k', 'o', 'w'};
    }
    forall i | 0 <= i < |rest| ensures IsSlugChar(rest[i]) {
      assert rest[i] in {'t', 'i', 'l', 'e'};
    }
  }

  /** The substitution turns the blank of `"unknown title"` into `_`. */
  lemma CollapseUnknownTitle()
    ensures CollapseRuns("unknown" + " title") == "unknown" + "_" + "title"
  {
    var word, gap, rest := "unknown", " title", "title";
    UnknownTitleWords();
    CollapseRunsKeepsWord(word, gap);
    assert gap[1..] == rest && !IsSlugChar(gap[0]);
    assert SkipRun(gap) == rest;
    CollapseRunsKeepsWord(rest, []);
    assert rest + [] == rest;
  }

  /** Substituting and stripping `"unknown title"` gives `"unknown_title"`. */
  lemma SlugOfAsciiUnknownTitle()
    ensures StripSep(CollapseRuns("unknown title")) == "unknown_title"
  {
    var word, gap, rest := "unknown", " title", "title";
    assert word + gap == "unknown title";
    CollapseUnknownTitle();
    var collapsed := word + "_" + rest;
    assert collapsed == "unknown_title";
    assert DropLeadingSep(collapsed) == collapsed;
    assert DropTrailingSep(collapsed) == collapsed;
  }

  /** `slug("Unknown Title") == "unknown_title"`: the id prefix of every untitled document in the standalone script. */
  lemma SlugOfUnknownTitle(decompose: Decomposition)
    requires FixesAscii(decompose)
    ensures Slug(decompose, "Unknown Title") == "unknown_title"
  {
    var up := "Unknown Title";
    assert forall i :: 0 <= i < |up| ==> IsAscii(up[i]);
    AsciiFoldFixesAscii(decompose, up);
    LowerUnknownTitle();
    SlugOfAsciiUnknownTitle();
  }

  /** `slug("amelie!!") == "amelie"`. */
  lemma SlugOfTrailingPunctuation(decompose: Decomposition)
    requires FixesAscii(decompose)
    ensures Slug(decompose, "amelie!!") == "amelie"
  {
    var word, bang := "amelie", "!!";
    assert word + bang == "amelie!!";
    AsciiFoldFixesAscii(decompose, word + bang);
    assert Lower(word + bang) == word + bang;
    assert NoSlugChar(bang);
    CollapseRunsFixesSlug(word);
    CollapseRunsAppendBlank(word, bang);
    var collapsed := CollapseRuns(word + bang);
    assert collapsed == word + "_";
    StripSepTrailingSep(word);
    assert DropLeadingSep(word) == word;
    assert DropTrailingSep(word) == word;
  }

  lemma AccentedFold(decompose: Decomposition)
    requires FixesAscii(decompose)
    requires decompose('\U{e9}') == ['e', '\U{301}']
    ensures AsciiFold(decompose, "Am\U{e9}lie") == "Amelie"
  {
    var front, back := "Am", "lie";
    FoldAround(decompose, front, '\U{e9}', back);
    DropCombiningAccent();
    assert front + ['\U{e9}'] + back == "Am\U{e9}lie";
    assert front + "e" + back == "Amelie";
  }

  /** Around ASCII text, folding changes one character only. */
  lemma FoldAround(decompose: Decomposition, a: string, c: char, b: string)
    requires FixesAscii(decompose)
    requires forall i :: 0 <= i < |a| ==> IsAscii(a[i])
    requires forall i :: 0 <= i < |b| ==> IsAscii(b[i])
    ensures AsciiFold(decompose, a + [c] + b) == a + DropNonAscii(decompose(c)) + b
  {
    var cb := [c] + b;
    var d := DropNonAscii(decompose(c));
    assert a + [c] + b == a + cb;
    AsciiFoldAppend(decompose, a, cb);
    AsciiFoldAppend(decompose, [c], b);
    AsciiFoldFixesAscii(decompose, a);
    AsciiFoldFixesAscii(decompose, b);
    FoldOneChar(decompose, c);
    assert AsciiFold(decompose, cb) == d + b;
    AppendAssoc(a, d, b);
  }

  /** Folding one character keeps the ASCII part of its decomposition. */
  lemma FoldOneChar(decompose: Decomposition, c: char)
    ensures AsciiFold(decompose, [c]) == DropNonAscii(decompose(c))
  {
    assert [c][1..] == [];
  }

  lemma DropCombiningAccent()
    ensures DropNonAscii(['e', '\U{301}']) == "e"
  {
    assert DropNonAscii(['\U{301}']) == [];
    assert ['e', '\U{301}'][1..] == ['\U{301}'];
  }

  /** `slug("Amélie") == "amelie"`, given NFKD's decomposition of "é" into "e" and a combining accent. */
  lemma SlugOfAccented(decompose: Decomposition)
    requires FixesAscii(decompose)
    requires decompose('\U{e9}') == ['e', '\U{301}']
    ensures Slug(decompose, "Am\U{e9}lie") == "amelie"
  {
    AccentedFold(decompose);
    var folded := "Amelie";
    SlugOfAsciiWord(folded);
    LowerAmelie(folded);
  }

  /** A title that starts with an ASCII letter or digit has a non-empty slug. */
  lemma SlugOfAlnumStart(decompose: Decomposition, s: string)
    requires FixesAscii(decompose)
    requires s != [] && IsAlnum(s[0])
    ensures Slug(decompose, s) != ""
  {
    var f := AsciiFold(decompose, s);
    AsciiFoldHead(decompose, s);
    var lo := Lower(f);
    assert IsSlugChar(lo[0]);
    StripSepNonEmpty(CollapseRuns(lo));
  }

  /** An ASCII first character survives the fold. */
  lemma AsciiFoldHead(decompose: Decomposition, s: string)
    requires FixesAscii(decompose)
    requires s != [] && IsAscii(s[0])
    ensures AsciiFold(decompose, s) != [] && AsciiFold(decompose, s)[0] == s[0]
  {
    assert DropNonAscii([s[0]]) == [s[0]];
  }

  /** Something that does not start with `_` keeps its first character through `strip("_")`. */
  lemma StripSepNonEmpty(c: string)
    requires c != [] && c[0] != '_'
    ensures StripSep(c) != []
  {
    assert DropLeadingSep(c) == c;
  }

  /** `slug("") == ""`. */
  lemma SlugOfEmpty(decompose: Decomposition)
    ensures Slug(decompose, "") == ""
  {
    assert Lower([]) == [];
  }

  // ------------------------------------------------------------ surrounding space

  lemma {:induction false} AsciiFoldAppend(decompose: Decomposition, a: string, b: string)
    ensures AsciiFold(decompose, a + b) == AsciiFold(decompose, a) + AsciiFold(decompose, b)
  {
    if a == [] {
      assert a + b == b;
    } else {
      assert (a + b)[0] == a[0];
      assert (a + b)[1..] == a[1..] + b;
      AsciiFoldAppend(decompose, a[1..], b);
    }
  }

  predicate NoSlugChar(s: string) { forall i :: 0 <= i < |s| ==> !IsSlugChar(s[i]) }

  /** Whitespace folds and lower-cases to characters outside `[a-z0-9]`. */
  lemma {:induction false} BlankFoldsBlank(decompose: Decomposition, w: string)
    requires SpaceStaysBlank(decompose)
    requires forall i :: 0 <= i < |w| ==> IsSpace(w[i])
    ensures NoSlugChar(Lower(AsciiFold(decompose, w)))
  {
    if w != [] {
      BlankFoldsBlank(decompose, w[1..]);
      var head := DropNonAscii(decompose(w[0]));
      DropNonAsciiKeeps(decompose(w[0]));
      assert forall i :: 0 <= i < |head| ==> !IsAlnum(head[i]) by {
        forall i | 0 <= i < |head|
          ensures !IsAlnum(head[i])
        {
          var j :| 0 <= j < |decompose(w[0])| && decompose(w[0])[j] == head[i];
        }
      }
      assert Lower(AsciiFold(decompose, w)) == Lower(head) + Lower(AsciiFold(decompose, w[1..]));
    }
  }

  lemma {:induction false} SkipRunPrefix(u: string, t: string)
    requires NoSlugChar(u)
    ensures SkipRun(u + t) == SkipRun(t)
  {
    if u != [] {
      assert (u + t)[1..] == u[1..] + t;
      SkipRunPrefix(u[1..], t);
    } else {
      assert u + t == t;
    }
  }

  lemma {:induction false} SkipRunAppend(t: string, u: string)
    requires NoSlugChar(u)
    ensures SkipRun(t + u) == if SkipRun(t) == [] then [] else SkipRun(t) + u
  {
    if t == [] {
      assert t + u == u;
      SkipRunPrefix(u, []);
      assert u + [] == u;
    } else if !IsSlugChar(t[0]) {
      assert (t + u)[1..] == t[1..] + u;
      SkipRunAppend(t[1..], u);
    }
  }

  /** Characters outside `[a-z0-9]` in front do not change the stripped collapse. */
  lemma CollapseRunsBlankPrefix(u: string, t: string)
    requires NoSlugChar(u)
    ensures DropLeadingSep(CollapseRuns(u + t)) == DropLeadingSep(CollapseRuns(t))
  {
    if u == [] {
      assert u + t == t;
    } else {
      SkipRunPrefix(u, t);
      assert CollapseRuns(u + t) == "_" + CollapseRuns(SkipRun(t));
      assert DropLeadingSep("_" + CollapseRuns(SkipRun(t))) == DropLeadingSep(CollapseRuns(SkipRun(t)));
      if t != [] && !IsSlugChar(t[0]) {
        assert CollapseRuns(t) == "_" + CollapseRuns(SkipRun(t));
      }
    }
  }

  /** Characters outside `[a-z0-9]` behind add at most one trailing `_`. */
  /** The `_` that trailing text outside `[a-z0-9]` adds to the collapse of `t`. */
  function TrailingSep(t: string, u: string): string {
    if u != [] && (t == [] || IsSlugChar(t[|t| - 1])) then "_" else ""
  }

  lemma {:induction false} CollapseRunsAppendBlank(t: string, u: string)
    requires NoSlugChar(u)
    ensures CollapseRuns(t + u) == CollapseRuns(t) + TrailingSep(t, u)
    decreases |t|
  {
    if t == [] {
      assert t + u == u;
      if u != [] {
        SkipRunPrefix(u, []);
        assert u + [] == u;
      }
    } else if IsSlugChar(t[0]) {
      CollapseRunsAppendBlank(t[1..], u);
      CollapseRunsAppendKept(t, u);
    } else {
      var r := SkipRun(t);
      SkipRunAppend(t, u);
      if r != [] {
        CollapseRunsAppendBlank(r, u);
        CollapseRunsAppendSkipped(t, u);
      } else {
        SkipRunSkipsBlank(t);
        CollapseRunsBlankRun(t, u);
      }
    }
  }

  /** The step of `CollapseRunsAppendBlank` over a kept first character. */
  lemma CollapseRunsAppendKept(t: string, u: string)
    requires t != [] && IsSlugChar(t[0])
    requires CollapseRuns(t[1..] + u) == CollapseRuns(t[1..]) + TrailingSep(t[1..], u)
    ensures CollapseRuns(t + u) == CollapseRuns(t) + TrailingSep(t, u)
  {
    assert (t + u)[1..] == t[1..] + u;
    assert TrailingSep(t[1..], u) == TrailingSep(t, u);
  }

  /** The step of `CollapseRunsAppendBlank` over a skipped run that more text follows. */
  lemma CollapseRunsAppendSkipped(t: string, u: string)
    requires t != [] && !IsSlugChar(t[0]) && SkipRun(t) != []
    requires SkipRun(t + u) == SkipRun(t) + u
    requires CollapseRuns(SkipRun(t) + u) == CollapseRuns(SkipRun(t)) + TrailingSep(SkipRun(t), u)
    ensures CollapseRuns(t + u) == CollapseRuns(t) + TrailingSep(t, u)
  {
    var r := SkipRun(t);
    SkipRunSuffix(t);
    assert r[|r| - 1] == t[|t| - 1];
    assert TrailingSep(r, u) == TrailingSep(t, u);
  }

  /** A run of characters outside `[a-z0-9]` collapses to one `_`, however much more such text follows. */
  lemma CollapseRunsBlankRun(t: string, u: string)
    requires t != [] && NoSlugChar(t) && NoSlugChar(u)
    requires SkipRun(t + u) == []
    ensures CollapseRuns(t + u) == CollapseRuns(t) == "_"
  {
    SkipRunPrefix(t, []);
    assert t + [] == t;
    assert (t + u)[0] == t[0];
  }

  lemma {:induction false} DropLeadingSepAppend(x: string, z: string)
    ensures DropLeadingSep(x + z) == if DropLeadingSep(x) == [] then DropLeadingSep(z) else DropLeadingSep(x) + z
  {
    if x == [] {
      assert x + z == z;
    } else if x[0] == '_' {
      assert (x + z)[1..] == x[1..] + z;
      DropLeadingSepAppend(x[1..], z);
    }
  }

  lemma StripSepTrailingSep(x: string)
    ensures StripSep(x + "_") == StripSep(x)
  {
    DropLeadingSepAppend(x, "_");
    if DropLeadingSep(x) == [] {
      assert DropLeadingSep("_") == [];
    } else {
      var l := DropLeadingSep(x);
      assert (l + "_")[..|l + "_"| - 1] == l;
    }
  }

  /** Characters that lower-case to something outside `[a-z0-9]` at either end do not reach the slug. */
  lemma SlugOfAsciiBlankEdges(a: string, m: string, b: string)
    requires NoSlugChar(Lower(a)) && NoSlugChar(Lower(b))
    ensures SlugOfAscii(a + (m + b)) == SlugOfAscii(m)
  {
    var la, lm, lb := Lower(a), Lower(m), Lower(b);
    assert Lower(a + (m + b)) == la + (lm + lb) by {
      LowerAppend(a, m + b);
      LowerAppend(m, b);
    }
    assert StripSep(CollapseRuns(la + (lm + lb))) == StripSep(CollapseRuns(lm + lb)) by {
      CollapseRunsBlankPrefix(la, lm + lb);
    }
    StripCollapseAppendBlank(lm, lb);
  }

  /** Text outside `[a-z0-9]` at the end does not reach the stripped collapse. */
  lemma StripCollapseAppendBlank(t: string, u: string)
    requires NoSlugChar(u)
    ensures StripSep(CollapseRuns(t + u)) == StripSep(CollapseRuns(t))
  {
    CollapseRunsAppendBlank(t, u);
    var c := CollapseRuns(t);
    if TrailingSep(t, u) == "_" {
      StripSepTrailingSep(c);
    } else {
      assert c + TrailingSep(t, u) == c;
    }
  }

  /** `slug(title.strip()) == slug(title)`: surrounding whitespace never reaches the slug. */
  lemma SlugIgnoresSurroundingSpace(decompose: Decomposition, s: string)
    requires SpaceStaysBlank(decompose)
    ensures Slug(decompose, Strip(s)) == Slug(decompose, s)
  {
    var m := Strip(s);
    var lead, trail := StripSplit(s);
    assert AsciiFold(decompose, s) == AsciiFold(decompose, lead) + (AsciiFold(decompose, m) + AsciiFold(decompose, trail)) by {
      AsciiFoldAppend(decompose, lead, m + trail);
      AsciiFoldAppend(decompose, m, trail);
    }
    BlankFoldsBlank(decompose, lead);
    BlankFoldsBlank(decompose, trail);
    SlugOfAsciiBlankEdges(AsciiFold(decompose, lead), AsciiFold(decompose, m), AsciiFold(decompose, trail));
  }
}
