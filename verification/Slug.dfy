/** The slug canonicaliser that domains and teams share: four string passes. */
module Slug {
  import opened Ascii

  // ---------------------------------------------------------------------------------------
  // The four passes
  // ---------------------------------------------------------------------------------------

  /** The characters `[^\w\s-]` does not match. */
  predicate IsKept(c: char) {
    IsWordChar(c) || IsSpace(c) || c == '-'
  }

  /** The characters `[\s_-]` matches. */
  predicate IsSeparator(c: char) {
    IsSpace(c) || c == '_' || c == '-'
  }

  predicate IsPlain(c: char) {
    !IsSeparator(c)
  }

  predicate IsDash(c: char) {
    c == '-'
  }

  function RemoveJunk(s: string): string {
    if s == [] then [] else (if IsKept(s[0]) then [s[0]] else []) + RemoveJunk(s[1..])
  }

  /** Every maximal run of separators becomes one dash. */
  function Collapse(s: string): string
    decreases |s|
  {
    if s == [] then []
    else if IsSeparator(s[0]) then ['-'] + Collapse(DropLeading(s[1..], IsSeparator))
    else [s[0]] + Collapse(s[1..])
  }

  function Slugify(name: string): string {
    Strip(Collapse(RemoveJunk(Strip(LowerAll(name), IsSpace))), IsDash)
  }

  // ---------------------------------------------------------------------------------------
  // What a slug means: the words of the name, joined by dashes
  // ---------------------------------------------------------------------------------------

  function Closed(open: string): seq<string> {
    if open == [] then [] else [open]
  }

  /** The runs of `open + s`, where `open` is a run that may still grow. */
  function RunsFrom(open: string, s: string): seq<string>
    decreases |s|
  {
    if s == [] then Closed(open)
    else if IsSeparator(s[0]) then Closed(open) + RunsFrom([], s[1..])
    else RunsFrom(open + [s[0]], s[1..])
  }

  /** The maximal runs of characters that are not separators. */
  function Runs(s: string): seq<string> {
    RunsFrom([], s)
  }

  function Words(name: string): seq<string> {
    Runs(RemoveJunk(LowerAll(name)))
  }

  function Join(ws: seq<string>): string {
    if ws == [] then []
    else if |ws| == 1 then ws[0]
    else ws[0] + ['-'] + Join(ws[1..])
  }

  /** `slug.split("-")`. */
  function Split(s: string): (parts: seq<string>)
    ensures parts != []
  {
    if s == [] then [[]]
    else
      var rest := Split(s[1..]);
      if s[0] == '-' then [[]] + rest else [[s[0]] + rest[0]] + rest[1..]
  }

  // ---------------------------------------------------------------------------------------
  // Runs of separators do not matter
  // ---------------------------------------------------------------------------------------

  lemma {:induction false} LeadingSeparators(a: string, s: string)
    requires AllIn(a, IsSeparator)
    ensures Runs(a + s) == Runs(s)
  {
    if a == [] {
      assert a + s == s;
    } else {
      assert (a + s)[1..] == a[1..] + s;
      LeadingSeparators(a[1..], s);
    }
  }

  lemma {:induction false} RunsSplitAtSeparator(open: string, s: string, c: char, t: string)
    requires IsSeparator(c)
    ensures RunsFrom(open, s + [c] + t) == RunsFrom(open, s) + RunsFrom([], t)
    decreases |s|
  {
    var all := s + [c] + t;
    if s == [] {
      assert all[1..] == t;
    } else {
      assert all[0] == s[0] && all[1..] == s[1..] + [c] + t;
      if IsSeparator(s[0]) {
        RunsSplitAtSeparator([], s[1..], c, t);
      } else {
        RunsSplitAtSeparator(open + [s[0]], s[1..], c, t);
      }
    }
  }

  lemma TrailingSeparators(s: string, b: string)
    requires AllIn(b, IsSeparator)
    ensures Runs(s + b) == Runs(s)
  {
    if b == [] {
      assert s + b == s;
    } else {
      assert s + b == s + [b[0]] + b[1..];
      RunsSplitAtSeparator([], s, b[0], b[1..]);
      LeadingSeparators(b[1..], []);
      assert b[1..] + [] == b[1..];
    }
  }

  // ---------------------------------------------------------------------------------------
  // Collapsing
  // ---------------------------------------------------------------------------------------

  ghost predicate NonSeparators(ws: seq<string>) {
    forall i :: 0 <= i < |ws| ==> ws[i] != [] && AllIn(ws[i], IsPlain)
  }

  lemma {:induction false} RunsAreNonSeparators(open: string, s: string)
    requires AllIn(open, IsPlain)
    ensures NonSeparators(RunsFrom(open, s))
    decreases |s|
  {
    if s != [] {
      if IsSeparator(s[0]) {
        RunsAreNonSeparators([], s[1..]);
      } else {
        RunsAreNonSeparators(open + [s[0]], s[1..]);
      }
    }
  }

  lemma {:induction false} JoinEnds(ws: seq<string>)
    requires NonSeparators(ws)
    ensures Join(ws) == [] <==> ws == []
    ensures ws != [] ==> !IsSeparator(Join(ws)[0]) && !IsSeparator(Join(ws)[|Join(ws)| - 1])
  {
    if ws != [] {
      assert AllIn(ws[0], IsPlain);
      if |ws| > 1 {
        JoinEnds(ws[1..]);
      }
    }
  }

  /** `s`, with a dash in front and a dash behind where asked. */
  function Dashed(front: bool, s: string, behind: bool): string {
    var t := if front then ['-'] + s else s;
    if behind then t + ['-'] else t
  }

  /** Whether `s`, following the word `open`, contributes a dash in front of its first word. */
  predicate DashInFront(open: string, s: string) {
    open == [] && s != [] && IsSeparator(s[0])
  }

  /** Whether it contributes a dash behind its last word. */
  predicate DashBehind(open: string, s: string) {
    s != [] && IsSeparator(s[|s| - 1]) && RunsFrom(open, s) != []
  }

  function Collapsed(open: string, s: string): string {
    Dashed(DashInFront(open, s), Join(RunsFrom(open, s)), DashBehind(open, s))
  }

  lemma {:induction false} RunsStayOpen(open: string, s: string)
    requires open != [] || (s != [] && !IsSeparator(s[0]))
    ensures RunsFrom(open, s) != []
    decreases |s|
  {
    if s != [] && !IsSeparator(s[0]) {
      RunsStayOpen(open + [s[0]], s[1..]);
    }
  }

  lemma SeparatorsFirst(s: string)
    requires s != [] && IsSeparator(s[0])
    ensures var v := DropLeading(s[1..], IsSeparator);
      && Runs(s[1..]) == Runs(v) && !DashInFront([], v)
      && (v != [] ==> v[|v| - 1] == s[|s| - 1] && Runs(v) != [])
      && (v == [] ==> IsSeparator(s[|s| - 1]))
  {
    var v := DropLeading(s[1..], IsSeparator);
    var a := DropLeadingSplits(s[1..], IsSeparator);
    LeadingSeparators(a, v);
    if v != [] {
      RunsStayOpen([], v);
    }
  }

  lemma JoinAfter(open: string, rs: seq<string>)
    requires rs != []
    ensures Join([open] + rs) == open + (['-'] + Join(rs))
  {
    assert ([open] + rs)[1..] == rs;
    Regroup(open, ['-'], Join(rs));
  }

  /** A dash, then a dashed text: in front of it stands nothing, or a word. */
  lemma DashedAfter(open: string, joined: string, behind: bool)
    ensures ['-'] + Dashed(false, joined, behind) == Dashed(true, joined, behind)
    ensures open + (['-'] + Dashed(false, joined, behind)) == Dashed(false, open + (['-'] + joined), behind)
  {
    if behind {
      Regroup(['-'], joined, ['-']);
      Regroup(open, ['-'] + joined, ['-']);
    }
  }

  lemma CollapseSeparators(open: string, s: string, v: string)
    requires s != [] && IsSeparator(s[0]) && v == DropLeading(s[1..], IsSeparator)
    requires Collapse(v) == Collapsed([], v)
    ensures open + Collapse(s) == Collapsed(open, s)
  {
    SeparatorsFirst(s);
    var rs, joined, behind := Runs(v), Join(Runs(v)), DashBehind([], v);
    DashedAfter(open, joined, behind);
    assert RunsFrom(open, s) == Closed(open) + rs;
    if open == [] {
      assert RunsFrom(open, s) == rs && open + Collapse(s) == Collapse(s);
    } else if v == [] {
      assert RunsFrom(open, s) == [open];
    } else {
      JoinAfter(open, rs);
    }
  }

  lemma CollapsePlain(open: string, s: string)
    requires s != [] && !IsSeparator(s[0])
    requires open + [s[0]] + Collapse(s[1..]) == Collapsed(open + [s[0]], s[1..])
    ensures open + Collapse(s) == Collapsed(open, s)
  {
    Regroup(open, [s[0]], Collapse(s[1..]));
    assert DashBehind(open, s) == DashBehind(open + [s[0]], s[1..]);
  }

  /** Collapsing leaves the joined runs, with a dash in front or behind where `s` had separators. */
  lemma {:induction false} CollapseShape(open: string, s: string)
    ensures open + Collapse(s) == Collapsed(open, s)
    decreases |s|
  {
    if s == [] {
    } else if IsSeparator(s[0]) {
      var v := DropLeading(s[1..], IsSeparator);
      CollapseShape([], v);
      assert [] + Collapse(v) == Collapse(v);
      CollapseSeparators(open, s, v);
    } else {
      CollapseShape(open + [s[0]], s[1..]);
      CollapsePlain(open, s);
    }
  }

  lemma StripDashed(front: bool, s: string, behind: bool)
    requires s != [] ==> !IsDash(s[0]) && !IsDash(s[|s| - 1])
    requires s == [] ==> !behind
    ensures Strip(Dashed(front, s, behind), IsDash) == s
  {
    var a, b := if front then ['-'] else [], if behind then ['-'] else [];
    assert Dashed(front, s, behind) == a + s + b;
    StripIs(a, s, b, IsDash);
  }

  lemma CollapseThenStrip(s: string)
    ensures Strip(Collapse(s), IsDash) == Join(Runs(s))
  {
    CollapseShape([], s);
    assert [] + Collapse(s) == Collapse(s);
    RunsAreNonSeparators([], s);
    JoinEnds(Runs(s));
    StripDashed(DashInFront([], s), Join(Runs(s)), DashBehind([], s));
  }

  lemma {:induction false} RemoveJunkConcat(a: string, b: string)
    ensures RemoveJunk(a + b) == RemoveJunk(a) + RemoveJunk(b)
  {
    if a == [] {
      assert a + b == b;
    } else {
      assert (a + b)[1..] == a[1..] + b;
      RemoveJunkConcat(a[1..], b);
      Regroup(if IsKept(a[0]) then [a[0]] else [], RemoveJunk(a[1..]), RemoveJunk(b));
    }
  }

  lemma {:induction false} RemoveJunkKeeps(a: string)
    requires AllIn(a, IsKept)
    ensures RemoveJunk(a) == a
  {
    if a != [] {
      RemoveJunkKeeps(a[1..]);
    }
  }

  /** Stripping white space first changes nothing in the words. */
  lemma FirstStripIsRedundant(s: string)
    ensures Runs(RemoveJunk(Strip(s, IsSpace))) == Runs(RemoveJunk(s))
  {
    var a, b := StripSplits(s, IsSpace);
    var m := Strip(s, IsSpace);
    RemoveJunkConcat(a + m, b);
    RemoveJunkConcat(a, m);
    RemoveJunkKeeps(a);
    RemoveJunkKeeps(b);
    TrailingSeparators(a + RemoveJunk(m), b);
    LeadingSeparators(a, RemoveJunk(m));
  }

  /** The slug of a name is its words joined by dashes. */
  lemma SlugIsJoinedWords(name: string)
    ensures Slugify(name) == Join(Words(name))
    ensures Slugify(name) == Strip(Collapse(RemoveJunk(LowerAll(name))), IsDash)
  {
    CollapseThenStrip(RemoveJunk(Strip(LowerAll(name), IsSpace)));
    CollapseThenStrip(RemoveJunk(LowerAll(name)));
    FirstStripIsRedundant(LowerAll(name));
  }

  // ---------------------------------------------------------------------------------------
  // Consequences
  // ---------------------------------------------------------------------------------------

  predicate IsSlugChar(c: char) {
    'a' <= c <= 'z' || '0' <= c <= '9'
  }

  ghost predicate AreSlugWords(ws: seq<string>) {
    forall i :: 0 <= i < |ws| ==> ws[i] != [] && AllIn(ws[i], IsSlugChar)
  }

  predicate IsLowerKept(c: char) {
    IsKept(c) && Lower(c) == c
  }

  lemma {:induction false} RemoveJunkAllKept(s: string)
    ensures AllIn(RemoveJunk(LowerAll(s)), IsLowerKept)
    ensures |RemoveJunk(LowerAll(s))| <= |s|
  {
    if s != [] {
      assert LowerAll(s)[1..] == LowerAll(s[1..]);
      RemoveJunkAllKept(s[1..]);
    }
  }

  lemma {:induction false} RunsAreSlugWords(open: string, s: string)
    requires AllIn(open, IsSlugChar) && AllIn(s, IsLowerKept)
    ensures AreSlugWords(RunsFrom(open, s))
    decreases |s|
  {
    if s != [] {
      if IsSeparator(s[0]) {
        RunsAreSlugWords([], s[1..]);
      } else {
        assert IsLowerKept(s[0]);
        RunsAreSlugWords(open + [s[0]], s[1..]);
      }
    }
  }

  /** Words are non-empty and hold lower-case letters and digits only. */
  lemma WordsAreSlugWords(name: string)
    ensures AreSlugWords(Words(name))
  {
    RemoveJunkAllKept(name);
    RunsAreSlugWords([], RemoveJunk(LowerAll(name)));
  }

  lemma {:induction false} SplitWord(w: string, rest: string)
    requires AllIn(w, IsSlugChar)
    ensures Split(w + ['-'] + rest) == [w] + Split(rest)
    ensures Split(w) == [w]
  {
    if w == [] {
      assert w + ['-'] + rest == ['-'] + rest;
    } else {
      assert (w + ['-'] + rest)[1..] == w[1..] + ['-'] + rest;
      SplitWord(w[1..], rest);
      assert w == [w[0]] + w[1..];
    }
  }

  lemma {:induction false} SplitJoin(ws: seq<string>)
    requires AreSlugWords(ws)
    ensures Split(Join(ws)) == if ws == [] then [[]] else ws
  {
    if ws != [] {
      SplitWord(ws[0], Join(ws[1..]));
      if |ws| > 1 {
        SplitJoin(ws[1..]);
      }
    }
  }

  /** Splitting a slug at its dashes gives the words back; only the empty slug has no word. */
  lemma SplitGivesWordsBack(name: string)
    ensures Split(Slugify(name)) == if Words(name) == [] then [[]] else Words(name)
    ensures Slugify(name) == [] <==> Words(name) == []
  {
    SlugIsJoinedWords(name);
    WordsAreSlugWords(name);
    SplitJoin(Words(name));
  }

  lemma SameSlugMeansSameWords(a: string, b: string)
    ensures Slugify(a) == Slugify(b) <==> Words(a) == Words(b)
  {
    SlugIsJoinedWords(a);
    SlugIsJoinedWords(b);
    SplitGivesWordsBack(a);
    SplitGivesWordsBack(b);
  }

  lemma {:induction false} RunsOfWord(open: string, w: string, rest: string)
    requires AllIn(w, IsSlugChar) && open + w != []
    ensures RunsFrom(open, w + ['-'] + rest) == [open + w] + Runs(rest)
    ensures RunsFrom(open, w) == [open + w]
    decreases |w|
  {
    if w == [] {
      assert (w + ['-'] + rest)[1..] == rest && open + w == open;
    } else {
      assert (w + ['-'] + rest)[1..] == w[1..] + ['-'] + rest && (w + ['-'] + rest)[0] == w[0];
      assert open + [w[0]] + w[1..] == open + w;
      RunsOfWord(open + [w[0]], w[1..], rest);
    }
  }

  lemma {:induction false} RunsOfJoin(ws: seq<string>)
    requires AreSlugWords(ws)
    ensures Runs(Join(ws)) == ws
    ensures AllIn(Join(ws), c => IsSlugChar(c) || IsDash(c))
  {
    if ws != [] {
      assert [] + ws[0] == ws[0];
      assert AllIn(ws[0], IsSlugChar);
      RunsOfWord([], ws[0], Join(ws[1..]));
      if |ws| > 1 {
        RunsOfJoin(ws[1..]);
        assert AllIn(Join(ws[1..]), c => IsSlugChar(c) || IsDash(c));
      }
    }
  }

  lemma {:induction false} NormalIsFixed(s: string)
    requires AllIn(s, IsLowerKept)
    ensures RemoveJunk(LowerAll(s)) == s
  {
    if s != [] {
      assert IsLowerKept(s[0]);
      assert LowerAll(s)[1..] == LowerAll(s[1..]);
      NormalIsFixed(s[1..]);
    }
  }

  /** A slug is its own slug, and its words are those of the name. */
  lemma SlugIsIdempotent(name: string)
    ensures Slugify(Slugify(name)) == Slugify(name)
    ensures Words(Slugify(name)) == Words(name)
  {
    var slug := Slugify(name);
    SlugIsJoinedWords(name);
    WordsAreSlugWords(name);
    RunsOfJoin(Words(name));
    forall i | 0 <= i < |slug| ensures IsLowerKept(slug[i]) {
    }
    NormalIsFixed(slug);
    SlugIsJoinedWords(slug);
  }

  lemma {:induction false} JoinConcat(a: seq<string>, b: seq<string>)
    requires a != [] && b != []
    ensures Join(a + b) == Join(a) + ['-'] + Join(b)
  {
    if |a| > 1 {
      var init := a[1..];
      assert (a + b)[1..] == init + b;
      JoinConcat(init, b);
      var head, rest, tail := a[0] + ['-'], Join(init), Join(b);
      Regroup(head, rest + ['-'], tail);
      Regroup(head, rest, ['-']);
    } else {
      assert (a + b)[1..] == b;
    }
  }

  function NonEmpty(parts: seq<string>): seq<string> {
    if parts == [] then []
    else (if parts[0] == [] then [] else [parts[0]]) + NonEmpty(parts[1..])
  }

  // ---------------------------------------------------------------------------------------
  // What words are: letters and digits, cut at separators, junk left out
  // ---------------------------------------------------------------------------------------

  /** A blank, an underscore or a dash ends a word. */
  lemma SeparatorEndsWord(a: string, c: char, b: string)
    requires c == '_' || c == '-' || 9 <= c as int <= 13 || 28 <= c as int <= 32
    ensures Words(a + [c] + b) == Words(a) + Words(b)
  {
    assert LowerAll(a + [c] + b) == LowerAll(a) + [c] + LowerAll(b);
    RemoveJunkConcat(LowerAll(a) + [c], LowerAll(b));
    RemoveJunkConcat(LowerAll(a), [c]);
    RemoveJunkKeeps([c]);
    RunsSplitAtSeparator([], RemoveJunk(LowerAll(a)), c, RemoveJunk(LowerAll(b)));
  }

  /** Any other ASCII character that is no letter or digit is deleted, and joins what it stood between. */
  lemma JunkIsDeleted(a: string, c: char, b: string)
    requires c as int < 128 && c != '_' && c != '-' && !(9 <= c as int <= 13 || 28 <= c as int <= 32)
    requires !('a' <= c <= 'z' || 'A' <= c <= 'Z' || '0' <= c <= '9')
    ensures Words(a + [c] + b) == Words(a + b)
    ensures Slugify(a + [c] + b) == Slugify(a + b)
  {
    assert LowerAll(a + [c] + b) == LowerAll(a) + [c] + LowerAll(b);
    assert LowerAll(a + b) == LowerAll(a) + LowerAll(b);
    RemoveJunkConcat(LowerAll(a) + [c], LowerAll(b));
    RemoveJunkConcat(LowerAll(a), [c]);
    RemoveJunkConcat(LowerAll(a), LowerAll(b));
    assert [c][1..] == [] && RemoveJunk([c]) == [];
    assert RemoveJunk(LowerAll(a)) + [] == RemoveJunk(LowerAll(a));
    SlugIsJoinedWords(a + [c] + b);
    SlugIsJoinedWords(a + b);
  }

  /** The letters, in lower case, and the digits of a name, in order. */
  function LettersAndDigits(name: string): string {
    if name == [] then []
    else
      var c := name[0];
      (if 'A' <= c <= 'Z' then [(c as int + 32) as char]
       else if 'a' <= c <= 'z' || '0' <= c <= '9' then [c] else [])
      + LettersAndDigits(name[1..])
  }

  function Concat(ws: seq<string>): string {
    if ws == [] then [] else ws[0] + Concat(ws[1..])
  }

  lemma ConcatFromFront(open: string, runs: seq<string>)
    ensures Concat(Closed(open) + runs) == open + Concat(runs)
  {
    if open == [] {
      assert Closed(open) + runs == runs;
    } else {
      assert (Closed(open) + runs)[1..] == runs;
    }
  }

  lemma RunsOfFirst(open: string, c: char, rest: string)
    ensures RunsFrom(open, [c] + rest)
         == if IsSeparator(c) then Closed(open) + Runs(rest) else RunsFrom(open + [c], rest)
  {
    assert ([c] + rest)[1..] == rest;
  }

  lemma FirstCharacter(name: string)
    requires name != []
    ensures RemoveJunk(LowerAll(name))
         == (if IsKept(Lower(name[0])) then [Lower(name[0])] else []) + RemoveJunk(LowerAll(name[1..]))
  {
    assert LowerAll(name)[1..] == LowerAll(name[1..]);
  }

  lemma LettersFromFront(name: string)
    requires name != []
    ensures LettersAndDigits(name)
         == (if IsSlugChar(Lower(name[0])) then [Lower(name[0])] else []) + LettersAndDigits(name[1..])
    ensures IsSlugChar(Lower(name[0])) <==> IsKept(Lower(name[0])) && !IsSeparator(Lower(name[0]))
  {
  }

  lemma {:induction false} RunsConcat(open: string, name: string)
    ensures Concat(RunsFrom(open, RemoveJunk(LowerAll(name)))) == open + LettersAndDigits(name)
    decreases |name|
  {
    if name == [] {
      ConcatFromFront(open, []);
      assert Closed(open) + [] == Closed(open);
    } else {
      var c, tail := Lower(name[0]), name[1..];
      var rest, letters := RemoveJunk(LowerAll(tail)), LettersAndDigits(tail);
      FirstCharacter(name);
      LettersFromFront(name);
      RunsOfFirst(open, c, rest);
      if IsSlugChar(c) {
        RunsConcat(open + [c], tail);
        Regroup(open, [c], letters);
      } else {
        RunsConcat(if IsKept(c) then [] else open, tail);
        assert [] + rest == rest && [] + letters == letters;
        ConcatFromFront(open, Runs(rest));
      }
    }
  }

  /** Put end to end, the words are the letters and digits of the name: none is lost, added or moved. */
  lemma WordsHoldLettersAndDigits(name: string)
    ensures Concat(Words(name)) == LettersAndDigits(name)
  {
    RunsConcat([], name);
  }

  predicate IsLetterOrDigit(c: char) {
    'a' <= c <= 'z' || 'A' <= c <= 'Z' || '0' <= c <= '9'
  }

  /** A name of letters and digits is one word. */
  lemma LettersAreOneWord(name: string)
    requires name != [] && AllIn(name, IsLetterOrDigit)
    ensures Words(name) == [LettersAndDigits(name)]
  {
    var s := LowerAll(name);
    forall i | 0 <= i < |s| ensures IsSlugChar(s[i]) && IsKept(s[i]) {
      assert IsLetterOrDigit(name[i]);
    }
    RemoveJunkKeeps(s);
    RunsOfWord([], s, []);
    assert [] + s == s;
    WordsHoldLettersAndDigits(name);
    assert Words(name) == [s] && [s][1..] == [] && s + [] == s;
  }

  lemma WordsOfTwoNames(a: string, b: string)
    ensures Words(a + [' '] + b) == Words(a) + Words(b)
  {
    SeparatorEndsWord(a, ' ', b);
  }

  lemma NonEmptyPair(x: string, y: string)
    ensures NonEmpty([x, y])
         == if x == [] && y == [] then [] else if x == [] then [y] else if y == [] then [x] else [x] + [y]
  {
    assert [x, y][1..] == [y] && [y][1..] == [];
    assert NonEmpty([y]) == if y == [] then [] else [y];
  }

  lemma JoinOfParts(a: seq<string>, b: seq<string>)
    requires Join(a) == [] <==> a == []
    requires Join(b) == [] <==> b == []
    ensures Join(a + b) == Join(NonEmpty([Join(a), Join(b)]))
  {
    var x, y := Join(a), Join(b);
    NonEmptyPair(x, y);
    if a == [] {
      assert a + b == b;
    } else if b == [] {
      assert a + b == a;
    } else {
      JoinConcat(a, b);
      assert Join([x] + [y]) == x + ['-'] + y by {
        JoinConcat([x], [y]);
      }
    }
  }

  /** The slug of two names with a blank between them joins whichever of their slugs are not empty. */
  lemma SlugOfTwoNames(a: string, b: string)
    ensures Slugify(a + [' '] + b) == Join(NonEmpty([Slugify(a), Slugify(b)]))
  {
    WordsOfTwoNames(a, b);
    SlugIsJoinedWords(a);
    SlugIsJoinedWords(b);
    SlugIsJoinedWords(a + [' '] + b);
    SplitGivesWordsBack(a);
    SplitGivesWordsBack(b);
    JoinOfParts(Words(a), Words(b));
  }

  lemma {:induction false} JoinedRunsFit(open: string, s: string)
    ensures |Join(RunsFrom(open, s))| <= |open| + |s|
    decreases |s|
  {
    if s != [] {
      if IsSeparator(s[0]) {
        JoinedRunsFit([], s[1..]);
        var rest := Runs(s[1..]);
        if open != [] && rest != [] {
          JoinConcat([open], rest);
        } else if open == [] {
          assert Closed(open) + rest == rest;
        } else {
          assert Closed(open) + rest == [open];
        }
      } else {
        JoinedRunsFit(open + [s[0]], s[1..]);
      }
    }
  }

  lemma SlugIsNoLonger(name: string)
    ensures |Slugify(name)| <= |name|
  {
    SlugIsJoinedWords(name);
    RemoveJunkAllKept(name);
    JoinedRunsFit([], RemoveJunk(LowerAll(name)));
  }

  lemma {:induction false} JoinIsClean(ws: seq<string>)
    requires AreSlugWords(ws)
    ensures var s := Join(ws);
      && (s != [] ==> s[0] != '-' && s[|s| - 1] != '-')
      && (forall i :: 0 <= i < |s| - 1 ==> !(s[i] == '-' && s[i + 1] == '-'))
  {
    if ws != [] {
      assert AllIn(ws[0], IsSlugChar);
      if |ws| > 1 {
        assert ws[1] != [];
        JoinIsClean(ws[1..]);
        RunsOfJoin(ws[1..]);
      }
    }
  }

  /** No leading, trailing or doubled dash, and nothing but lower-case letters, digits and dashes. */
  lemma SlugIsClean(name: string)
    ensures var slug := Slugify(name);
      && (slug != [] ==> slug[0] != '-' && slug[|slug| - 1] != '-')
      && (forall i :: 0 <= i < |slug| - 1 ==> !(slug[i] == '-' && slug[i + 1] == '-'))
      && (forall i :: 0 <= i < |slug| ==> IsSlugChar(slug[i]) || slug[i] == '-')
  {
    SlugIsJoinedWords(name);
    WordsAreSlugWords(name);
    RunsOfJoin(Words(name));
    JoinIsClean(Words(name));
  }
}
