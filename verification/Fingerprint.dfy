/** Finding fingerprints: what they are insensitive to, and what they tell apart. */
module Fingerprint {
  import opened Options
  import opened Seqs
  import opened Text

  // ----- snippets -----

  // `re.sub(r"\s+", " ", s)`.
  function Collapse(s: string): string
    decreases |s|
  {
    if s == "" then ""
    else if IsSpace(s[0]) then
      DroppedShrinks(s);
      " " + Collapse(Dropped(IsSpace, s))
    else [s[0]] + Collapse(s[1..])
  }

  lemma DroppedShrinks(s: string)
    requires s != "" && IsSpace(s[0])
    ensures |Dropped(IsSpace, s)| < |s|
  {
  }

  function NormalizeSnippet(s: string): string {
    Strip(Collapse(s))
  }

  // `str.split()`: the words between whitespace.
  function Words(s: string): seq<string>
    decreases |s|
  {
    if s == "" then []
    else if IsSpace(s[0]) then Words(s[1..])
    else
      WordTaken(s);
      [Taken(IsWordChar, s)] + Words(Dropped(IsWordChar, s))
  }

  predicate IsWordChar(c: char) {
    !IsSpace(c)
  }

  lemma WordTaken(s: string)
    requires s != "" && !IsSpace(s[0])
    ensures |Dropped(IsWordChar, s)| < |s|
    ensures s == Taken(IsWordChar, s) + Dropped(IsWordChar, s)
  {
  }

  // ----- collapsing keeps the words and joins them with single spaces -----

  lemma {:induction false} WordsSkipSpaces(s: string)
    ensures Words(Dropped(IsSpace, s)) == Words(s)
  {
    if s != "" && IsSpace(s[0]) {
      assert Dropped(IsSpace, s) == Dropped(IsSpace, s[1..]);
      WordsSkipSpaces(s[1..]);
    }
  }

  lemma TrimmedFirst(s: string)
    ensures Dropped(IsSpace, s) == "" || !IsSpace(Dropped(IsSpace, s)[0])
  {
    RunEnds(IsSpace, s);
  }

  // Text that does not start with a space collapses to its words, and a final space if it ends with one.
  lemma {:induction false} CollapseIsWords(s: string)
    requires s == "" || !IsSpace(s[0])
    ensures Collapse(s) == Join(" ", Words(s)) + (if s != "" && IsSpace(s[|s| - 1]) then " " else "")
    decreases |s|
  {
    if s != "" {
      var word, rest := Taken(IsWordChar, s), Dropped(IsWordChar, s);
      WordTaken(s);
      RunEnds(IsWordChar, s);
      CollapseWord(word, rest);
      if rest == "" {
        assert s == word;
        assert Words(rest) == [] && Collapse(rest) == "";
        assert word + "" == word;
        assert [word] + [] == [word];
      } else {
        var next := Dropped(IsSpace, rest);
        DroppedShrinks(rest);
        TrimmedFirst(rest);
        WordsSkipSpaces(rest);
        CollapseIsWords(next);
        LastOf(s, word, rest, next);
        assert Words(s) == [word] + Words(next);
        assert Collapse(rest) == " " + Collapse(next);
        assert next == "" ==> Words(next) == [];
        assert next != "" ==> Words(next) != [];
        hide Words, Collapse, Dropped, Taken, IsSpace;
        FirstAndRest(word, Words(next), if next != "" && IsSpace(next[|next| - 1]) then " " else "");
      }
    }
  }

  // A word, a space and the collapsed rest are the words joined.
  lemma FirstAndRest(word: string, words: seq<string>, tail: string)
    ensures words == [] && tail == "" ==> word + (" " + (Join(" ", words) + tail)) == Join(" ", [word] + words) + " "
    ensures words != [] ==> word + (" " + (Join(" ", words) + tail)) == Join(" ", [word] + words) + tail
  {
    if words == [] {
      assert [word] + words == [word];
    } else {
      JoinMore(word, words);
      var later := Join(" ", words);
      ConcatAssociates(word, " " + later, tail);
      ConcatAssociates(" ", later, tail);
    }
  }

  lemma WordsNonempty(s: string)
    requires s != "" && !IsSpace(s[0])
    ensures Words(s) != []
  {
  }

  lemma JoinMore(word: string, words: seq<string>)
    requires words != []
    ensures Join(" ", [word] + words) == word + (" " + Join(" ", words))
  {
    assert ([word] + words)[1..] == words;
    ConcatAssociates(word, " ", Join(" ", words));
  }

  // What the text ends with, seen from its first word on.
  lemma LastOf(s: string, word: string, rest: string, next: string)
    requires s == word + rest && rest != "" && IsSpace(rest[0]) && next == Dropped(IsSpace, rest)
    ensures IsSpace(s[|s| - 1]) <==> next == "" || IsSpace(next[|next| - 1])
  {
    RunEnds(IsSpace, rest);
    assert s[|s| - 1] == rest[|rest| - 1];
    if next != "" {
      assert next[|next| - 1] == rest[|rest| - 1];
    }
  }

  lemma {:induction false} CollapseWord(word: string, rest: string)
    requires forall c :: c in word ==> !IsSpace(c)
    ensures Collapse(word + rest) == word + Collapse(rest)
  {
    if word == "" {
      assert word + rest == rest;
      assert word + Collapse(rest) == Collapse(rest);
    } else {
      assert (word + rest)[1..] == word[1..] + rest;
      CollapseWord(word[1..], rest);
      ConcatAssociates([word[0]], word[1..], Collapse(rest));
      assert [word[0]] + word[1..] == word;
    }
  }

  ghost predicate IsWordText(w: string) {
    w != "" && forall c :: c in w ==> !IsSpace(c)
  }

  ghost predicate AreWords(words: seq<string>) {
    forall k :: 0 <= k < |words| ==> IsWordText(words[k])
  }

  lemma {:induction false} WordsAreWords(s: string)
    ensures AreWords(Words(s))
    decreases |s|
  {
    if s != "" {
      if IsSpace(s[0]) {
        WordsAreWords(s[1..]);
      } else {
        WordTaken(s);
        RunEnds(IsWordChar, s);
        WordsAreWords(Dropped(IsWordChar, s));
      }
    }
  }

  lemma {:induction false} JoinEnds(words: seq<string>)
    requires AreWords(words)
    ensures words != [] ==>
      var t := Join(" ", words); t != "" && !IsSpace(t[0]) && !IsSpace(t[|t| - 1])
  {
    if |words| == 1 {
      assert IsWordText(words[0]);
    } else if |words| > 1 {
      var later := Join(" ", words[1..]);
      assert IsWordText(words[0]) && AreWords(words[1..]);
      JoinEnds(words[1..]);
      var t := Join(" ", words);
      assert t == words[0] + " " + later;
      assert t[|t| - 1] == later[|later| - 1];
    }
  }

  // The normalized snippet is the snippet's words with single spaces between them.
  lemma NormalizedIsWords(s: string)
    ensures NormalizeSnippet(s) == Join(" ", Words(s))
  {
    var body := Dropped(IsSpace, s);
    TrimmedFirst(s);
    WordsSkipSpaces(s);
    CollapseIsWords(body);
    var text := Join(" ", Words(body));
    WordsAreWords(body);
    JoinEnds(Words(body));
    var tail := if body != "" && IsSpace(body[|body| - 1]) then " " else "";
    assert Collapse(body) == text + tail;
    if body == "" {
      assert text == "";
    } else {
      WordsNonempty(body);
    }
    LeadingCollapse(s, body);
    var lead := if body == s then "" else " ";
    assert Collapse(s) == lead + (text + tail);
    StripIs(lead, text, tail);
  }

  lemma LeadingCollapse(s: string, body: string)
    requires body == Dropped(IsSpace, s)
    ensures Collapse(s) == (if body == s then "" else " ") + Collapse(body)
  {
    if s != "" && IsSpace(s[0]) {
      DroppedShrinks(s);
    } else {
      assert Run(IsSpace, s) == 0;
      assert "" + Collapse(body) == Collapse(body);
    }
  }

  lemma StripIs(lead: string, text: string, tail: string)
    requires lead in ["", " "] && tail in ["", " "]
    requires text == "" || (!IsSpace(text[0]) && !IsSpace(text[|text| - 1]))
    ensures Strip(lead + (text + tail)) == text
  {
    assert IsSpace(' ');
    var all := lead + (text + tail);
    if text == "" {
      assert forall c :: c in all ==> IsSpace(c);
      hide IsSpace;
      DroppedIs(IsSpace, all, "");
      assert all + "" == all;
    } else {
      assert (text + tail)[0] == text[0];
      assert forall c :: c in lead ==> c == ' ';
      hide IsSpace;
      DroppedIs(IsSpace, lead, text + tail);
      assert TrimLeft(all) == text + tail;
      hide Dropped, TrimLeft;
      if tail == " " {
        assert (text + tail)[..|text|] == text;
      } else {
        assert text + tail == text;
      }
    }
  }

  lemma {:induction false} WordsOfJoin(words: seq<string>)
    requires AreWords(words)
    ensures Words(Join(" ", words)) == words
  {
    if |words| == 1 {
      assert IsWordText(words[0]);
      FirstWord(words[0], "");
      assert words[0] + "" == words[0];
      assert words == [words[0]];
    } else if |words| > 1 {
      var later := Join(" ", words[1..]);
      assert IsWordText(words[0]) && AreWords(words[1..]);
      WordsOfJoin(words[1..]);
      FirstWord(words[0], " " + later);
      ConcatAssociates(words[0], " ", later);
      assert (" " + later)[1..] == later;
      assert words == [words[0]] + words[1..];
    }
  }

  lemma FirstWord(word: string, rest: string)
    requires IsWordText(word) && (rest == "" || IsSpace(rest[0]))
    ensures Words(word + rest) == [word] + Words(rest)
  {
    DroppedIs(IsWordChar, word, rest);
    assert (word + rest)[0] == word[0];
  }

  // Two snippets normalize alike exactly when they have the same words, however they are spaced.
  lemma SameSnippet(a: string, b: string)
    ensures NormalizeSnippet(a) == NormalizeSnippet(b) <==> Words(a) == Words(b)
  {
    NormalizedIsWords(a);
    NormalizedIsWords(b);
    WordsAreWords(a);
    WordsAreWords(b);
    WordsOfJoin(Words(a));
    WordsOfJoin(Words(b));
  }

  // Normalizing twice changes nothing.
  lemma SnippetStable(s: string)
    ensures NormalizeSnippet(NormalizeSnippet(s)) == NormalizeSnippet(s)
  {
    NormalizedIsWords(s);
    WordsAreWords(s);
    WordsOfJoin(Words(s));
    NormalizedIsWords(NormalizeSnippet(s));
  }

  // ----- paths -----

  // `str.replace("\\", "/")`.
  function Slashes(s: string): (r: string)
    ensures |r| == |s|
    ensures forall i :: 0 <= i < |s| ==> r[i] == if s[i] == '\\' then '/' else s[i]
  {
    if s == "" then "" else [if s[0] == '\\' then '/' else s[0]] + Slashes(s[1..])
  }

  function DropDots(s: string): string {
    if "./" <= s then DropDots(s[2..]) else s
  }

  function NormalPath(path: string): string {
    DropDots(Slashes(Strip(path)))
  }

  method NormalizePath(path: string) returns (normalized: string)
    ensures normalized == NormalPath(path)
    ensures '\\' !in normalized && !("./" <= normalized)
  {
    normalized := Slashes(Strip(path));
    while "./" <= normalized
      invariant DropDots(normalized) == NormalPath(path)
      invariant '\\' !in normalized
      decreases |normalized|
    {
      normalized := normalized[2..];
    }
  }

  lemma {:induction false} DropDotsShape(s: string)
    requires '\\' !in s && (s == "" || !IsSpace(s[|s| - 1]))
    ensures '\\' !in DropDots(s) && !("./" <= DropDots(s))
    ensures DropDots(s) == "" || !IsSpace(DropDots(s)[|DropDots(s)| - 1])
  {
    if "./" <= s {
      if s != "./" {
        assert s[2..][|s[2..]| - 1] == s[|s| - 1];
      }
      DropDotsShape(s[2..]);
    }
  }

  lemma StripEnds(s: string)
    ensures Strip(s) == "" || (!IsSpace(Strip(s)[0]) && !IsSpace(Strip(s)[|Strip(s)| - 1]))
    ensures s == "" || (!IsSpace(s[0]) && !IsSpace(s[|s| - 1])) ==> Strip(s) == s
    ensures |Strip(s)| <= |s|
    ensures s != "" && IsSpace(s[0]) ==> |Strip(s)| < |s|
  {
    RunEnds(IsSpace, s);
  }

  lemma SlashesKeep(s: string)
    requires '\\' !in s
    ensures Slashes(s) == s
  {
  }

  lemma {:induction false} DropDotsShrinks(s: string)
    ensures |DropDots(s)| <= |s|
  {
    if "./" <= s {
      DropDotsShrinks(s[2..]);
    }
  }

  // The path after its leading "./" and ".\" pairs.
  function AfterDots(s: string): string {
    if |s| >= 2 && s[0] == '.' && (s[1] == '/' || s[1] == '\\') then AfterDots(s[2..]) else s
  }

  lemma {:induction false} DotsAfterSlashes(s: string)
    ensures DropDots(Slashes(s)) == Slashes(AfterDots(s))
  {
    var slashed := Slashes(s);
    if |s| >= 2 {
      assert slashed[2..] == Slashes(s[2..]);
      assert "./" <= slashed <==> slashed[0] == '.' && slashed[1] == '/';
      DotsAfterSlashes(s[2..]);
    }
  }

  lemma NormalStarts(path: string)
    ensures var rest, once := AfterDots(Strip(path)), NormalPath(path);
            |once| == |rest| && (rest != "" ==> (IsSpace(once[0]) <==> IsSpace(rest[0])))
  {
    DotsAfterSlashes(Strip(path));
    assert !IsSpace('/') && !IsSpace('\\');
    hide Strip, IsSpace;
  }

  lemma StableWithoutSpace(path: string)
    ensures NormalPath(NormalPath(path)) == NormalPath(path)
       <==> NormalPath(path) == "" || !IsSpace(NormalPath(path)[0])
  {
    var stripped := Strip(path);
    StripEnds(path);
    var slashed := Slashes(stripped);
    DropDotsShape(slashed);
    var once := NormalPath(path);
    StripEnds(once);
    if once == "" || !IsSpace(once[0]) {
      SlashesKeep(once);
    } else {
      DropDotsShrinks(Slashes(Strip(once)));
    }
  }

  // Normalizing a path again changes nothing exactly when no whitespace follows its leading "./"s.
  lemma PathStableExactly(path: string)
    ensures NormalPath(NormalPath(path)) == NormalPath(path)
       <==> var rest := AfterDots(Strip(path)); rest == "" || !IsSpace(rest[0])
  {
    NormalStarts(path);
    StableWithoutSpace(path);
    hide NormalPath, AfterDots, Strip, IsSpace;
  }

  // "./ a" is such a path.
  lemma PathNotStable()
    ensures NormalPath("./ a") == " a" && NormalPath(" a") == "a"
  {
    assert " a"[0] != '.' && "./ a" == "./" + " a" && " " + "a" == " a";
    assert IsSpace(' ') && !IsSpace('a');
    hide NormalPath, IsSpace;
    DotDropped("./ a", " a");
    SpaceDropped(" ", "a");
  }

  lemma DotDropped(path: string, rest: string)
    requires path == "./" + rest && '\\' !in path && !("./" <= rest) && !IsSpace(path[|path| - 1])
    ensures NormalPath(path) == rest
  {
    assert path[0] == '.' && !IsSpace('.');
    StripEnds(path);
    assert Strip(path) == path;
    hide Strip, IsSpace;
    SlashesKeep(path);
    hide Slashes;
    assert "./" <= path && path[2..] == rest;
    assert DropDots(rest) == rest;
  }

  lemma SpaceDropped(space: string, path: string)
    requires forall c :: c in space ==> IsSpace(c)
    requires path != "" && '\\' !in path && !("./" <= path) && !IsSpace(path[0]) && !IsSpace(path[|path| - 1])
    ensures NormalPath(space + path) == path
  {
    DroppedIs(IsSpace, space, path);
    SlashesKeep(path);
    hide IsSpace, Slashes;
  }

  // ----- the fingerprint -----

  datatype Identity = Identity(
    path: string, category: string, subcategory: string, ruleKey: string, symbol: Option<string>, snippet: string)

  function Components(digest: string -> string, id: Identity): seq<string> {
    [NormalPath(id.path), id.category, id.subcategory, id.ruleKey, id.symbol.GetOr(""),
     digest(NormalizeSnippet(id.snippet))]
  }

  function Joined(digest: string -> string, id: Identity): string {
    Join(UNIT_SEPARATOR, Components(digest, id))
  }

  function Prefix16(s: string): string {
    if |s| <= 16 then s else s[..16]
  }

  // `digest` is the hexadecimal SHA-256 digest.
  function ComputeFingerprint(digest: string -> string, id: Identity): string {
    Prefix16(digest(Joined(digest, id)))
  }

  // A fingerprint is the first 16 characters of a SHA-256 digest, which has 64.
  lemma FingerprintLength(digest: string -> string, id: Identity)
    requires forall s :: |digest(s)| == 64
    ensures |ComputeFingerprint(digest, id)| == 16
    ensures ComputeFingerprint(digest, id) <= digest(Joined(digest, id))
  {
  }

  // How many unit separators a part holds.
  function Separators(s: string): nat {
    if s == "" then 0 else (if s[0] == UNIT_SEPARATOR[0] then 1 else 0) + Separators(s[1..])
  }

  lemma {:induction false} SeparatorsConcat(a: string, b: string)
    ensures Separators(a + b) == Separators(a) + Separators(b)
  {
    if a == "" {
      assert a + b == b;
    } else {
      assert (a + b)[1..] == a[1..] + b;
      SeparatorsConcat(a[1..], b);
    }
  }

  lemma SeparatorsAround(a: string, b: string)
    ensures Separators(a + UNIT_SEPARATOR + b) == Separators(a) + 1 + Separators(b)
  {
    SeparatorsConcat(a, UNIT_SEPARATOR);
    SeparatorsConcat(a + UNIT_SEPARATOR, b);
    assert UNIT_SEPARATOR[1..] == "";
    assert Separators("") == 0;
  }

  // The first part of a joined text is no longer than one with as many separators.
  lemma NoLonger(a: string, s: string, b: string, t: string)
    requires a + UNIT_SEPARATOR + s == b + UNIT_SEPARATOR + t && Separators(a) == Separators(b)
    ensures |b| <= |a|
  {
    hide Separators;
    if |a| < |b| {
      Overhang(a, s, b, t, UNIT_SEPARATOR);
      SeparatorsAround(a, b[|a| + 1..]);
    }
  }

  lemma Overhang(a: string, s: string, b: string, t: string, u: string)
    requires a + u + s == b + u + t && |a| < |b| && |u| == 1
    ensures b == a + u + b[|a| + 1..]
  {
    var n := |b| - |a| - 1;
    assert (b + u + t)[..|b|] == b;
    assert (a + u + s)[..|b|] == a + u + s[..n];
    assert (a + u + s[..n])[|a| + 1..] == s[..n];
  }

  lemma NoLongerBack(s: string, a: string, t: string, b: string)
    requires s + UNIT_SEPARATOR + a == t + UNIT_SEPARATOR + b && Separators(a) == Separators(b)
    ensures |b| <= |a|
  {
    hide Separators;
    if |a| < |b| {
      OverhangBack(s, a, t, b, UNIT_SEPARATOR);
      SeparatorsAround(s[|t| + 1..], a);
    }
  }

  lemma OverhangBack(s: string, a: string, t: string, b: string, u: string)
    requires s + u + a == t + u + b && |a| < |b| && |u| == 1
    ensures |t| < |s| && b == s[|t| + 1..] + u + a
  {
    assert |s + u + a| == |s| + 1 + |a| && |t + u + b| == |t| + 1 + |b|;
    assert (t + u + b)[|t| + 1..] == b;
    assert (s + u + a)[|t| + 1..] == s[|t| + 1..] + u + a;
  }

  // The border between two parts is where the number of separators before it, or after it, puts it.
  lemma SplitFront(a: string, s: string, b: string, t: string)
    requires a + UNIT_SEPARATOR + s == b + UNIT_SEPARATOR + t && Separators(a) == Separators(b)
    ensures a == b && s == t
  {
    NoLonger(a, s, b, t);
    NoLonger(b, t, a, s);
    Borders(a, s, b, t);
  }

  lemma SplitBack(s: string, a: string, t: string, b: string)
    requires s + UNIT_SEPARATOR + a == t + UNIT_SEPARATOR + b && Separators(a) == Separators(b)
    ensures s == t && a == b
  {
    NoLongerBack(s, a, t, b);
    NoLongerBack(t, b, s, a);
    assert |s + UNIT_SEPARATOR + a| == |s| + 1 + |a|;
    assert |t + UNIT_SEPARATOR + b| == |t| + 1 + |b|;
    Borders(s, a, t, b);
  }

  lemma Borders(a: string, s: string, b: string, t: string)
    requires a + UNIT_SEPARATOR + s == b + UNIT_SEPARATOR + t && |a| == |b|
    ensures a == b && s == t
  {
    var x, y := a + UNIT_SEPARATOR + s, b + UNIT_SEPARATOR + t;
    assert x[..|a|] == a && y[..|b|] == b;
    assert x[|a| + 1..] == s && y[|b| + 1..] == t;
  }

  lemma {:induction false} JoinInjective(a: seq<string>, b: seq<string>)
    requires |a| == |b|
    requires forall k :: 0 <= k < |a| ==> Separators(a[k]) == Separators(b[k])
    ensures Join(UNIT_SEPARATOR, a) == Join(UNIT_SEPARATOR, b) ==> a == b
  {
    if |a| == 1 {
      assert a == [a[0]] && b == [b[0]];
    } else if |a| > 1 {
      JoinInjective(a[1..], b[1..]);
      if Join(UNIT_SEPARATOR, a) == Join(UNIT_SEPARATOR, b) {
        SplitFront(a[0], Join(UNIT_SEPARATOR, a[1..]), b[0], Join(UNIT_SEPARATOR, b[1..]));
      }
      assert a == [a[0]] + a[1..] && b == [b[0]] + b[1..];
    }
  }

  // The digests computed for these two identities collide neither in full nor cut to 16 characters.
  ghost predicate NoCollision(digest: string -> string, a: Identity, b: Identity) {
    && (digest(NormalizeSnippet(a.snippet)) == digest(NormalizeSnippet(b.snippet))
        ==> NormalizeSnippet(a.snippet) == NormalizeSnippet(b.snippet))
    && (ComputeFingerprint(digest, a) == ComputeFingerprint(digest, b) ==> Joined(digest, a) == Joined(digest, b))
  }

  ghost predicate SameIdentity(a: Identity, b: Identity) {
    && NormalPath(a.path) == NormalPath(b.path) && a.category == b.category && a.subcategory == b.subcategory
    && a.ruleKey == b.ruleKey && a.symbol.GetOr("") == b.symbol.GetOr("") && Words(a.snippet) == Words(b.snippet)
  }

  lemma SameComponents(digest: string -> string, a: Identity, b: Identity)
    requires NoCollision(digest, a, b)
    ensures Components(digest, a) == Components(digest, b) <==> SameIdentity(a, b)
  {
    SameSnippet(a.snippet, b.snippet);
    hide NormalPath, NormalizeSnippet, Words;
    var x, y := Components(digest, a), Components(digest, b);
    if x == y {
      assert x[0] == y[0] && x[1] == y[1] && x[2] == y[2] && x[3] == y[3] && x[4] == y[4] && x[5] == y[5];
    }
  }

  // Without a digest collision, two fingerprints whose parts hold equally many separators (none, say)
  // are equal exactly when path, category, subcategory, rule and symbol are, and the snippets have the
  // same words.
  lemma SameFingerprint(digest: string -> string, a: Identity, b: Identity)
    requires NoCollision(digest, a, b)
    requires forall k :: 0 <= k < 6 ==> Separators(Components(digest, a)[k]) == Separators(Components(digest, b)[k])
    ensures ComputeFingerprint(digest, a) == ComputeFingerprint(digest, b) <==> SameIdentity(a, b)
  {
    SameComponents(digest, a, b);
    hide Components, SameIdentity;
    SixComponents(digest, a);
    SixComponents(digest, b);
    JoinInjective(Components(digest, a), Components(digest, b));
  }

  lemma SixComponents(digest: string -> string, id: Identity)
    ensures |Components(digest, id)| == 6
  {
  }

  // ----- the identities the program builds -----

  // Every caller passes the subcategory as the rule key, a category value, and an identifier or nothing
  // as the symbol; a digest is hexadecimal.
  ghost predicate Built(digest: string -> string, id: Identity) {
    && id.ruleKey == id.subcategory
    && Separators(id.category) == 0 && Separators(id.symbol.GetOr("")) == 0
    && Separators(digest(NormalizeSnippet(id.snippet))) == 0
  }

  // The joined parts with the rule key equal to the subcategory, bracketed from the front and, after
  // path and category, from the back.
  function BuiltText(path: string, category: string, rule: string, symbol: string, digest: string): string {
    path + UNIT_SEPARATOR + (category + UNIT_SEPARATOR
      + (rule + UNIT_SEPARATOR + rule + UNIT_SEPARATOR + symbol + UNIT_SEPARATOR + digest))
  }

  lemma JoinedIsBuiltText(digest: string -> string, id: Identity)
    requires id.ruleKey == id.subcategory
    ensures Joined(digest, id) == BuiltText(NormalPath(id.path), id.category, id.subcategory, id.symbol.GetOr(""),
                                            digest(NormalizeSnippet(id.snippet)))
  {
    hide NormalPath, NormalizeSnippet;
    var x, u := Components(digest, id), UNIT_SEPARATOR;
    assert x[1..][1..] == x[2..] && x[2..][1..] == x[3..] && x[3..][1..] == x[4..] && x[4..][1..] == x[5..] == [x[5]];
    assert Join(u, x[4..]) == x[4] + u + x[5];
    assert Join(u, x[3..]) == x[3] + u + (x[4] + u + x[5]);
    assert Join(u, x[2..]) == x[2] + u + (x[3] + u + (x[4] + u + x[5]));
    assert Join(u, x[1..]) == x[1] + u + (x[2] + u + (x[3] + u + (x[4] + u + x[5])));
    BackBrackets(x[2], x[3], x[4], x[5], u);
  }

  lemma BackBrackets(a: string, b: string, c: string, d: string, u: string)
    ensures a + u + (b + u + (c + u + d)) == a + u + b + u + c + u + d
  {
  }

  lemma SeparatorsOfBuilt(path: string, category: string, rule: string, symbol: string, digest: string)
    requires Separators(category) == Separators(symbol) == Separators(digest) == 0
    ensures Separators(BuiltText(path, category, rule, symbol, digest)) == Separators(path) + 2 * Separators(rule) + 5
  {
    var u := UNIT_SEPARATOR;
    var tail := rule + u + rule + u + symbol + u + digest;
    hide Separators;
    SeparatorsAround(rule, rule);
    SeparatorsAround(rule + u + rule, symbol);
    SeparatorsAround(rule + u + rule + u + symbol, digest);
    SeparatorsAround(category, tail);
    SeparatorsAround(path, category + u + tail);
  }

  lemma RuleTwice(s: string, t: string)
    requires s + UNIT_SEPARATOR + s == t + UNIT_SEPARATOR + t
    ensures s == t
  {
    assert |s + UNIT_SEPARATOR + s| == 2 * |s| + 1 && |t + UNIT_SEPARATOR + t| == 2 * |t| + 1;
    Borders(s, s, t, t);
  }

  lemma BuiltTextInjective(p: string, c: string, s: string, y: string, d: string,
                           p': string, c': string, s': string, y': string, d': string)
    requires Separators(p) == Separators(p') && Separators(c) == Separators(c') == 0
    requires Separators(y) == Separators(y') == 0 && Separators(d) == Separators(d') == 0
    requires BuiltText(p, c, s, y, d) == BuiltText(p', c', s', y', d')
    ensures p == p' && c == c' && s == s' && y == y' && d == d'
  {
    var u := UNIT_SEPARATOR;
    var tail, tail' := s + u + s + u + y + u + d, s' + u + s' + u + y' + u + d';
    hide Separators;
    SplitFront(p, c + u + tail, p', c' + u + tail');
    SplitFront(c, tail, c', tail');
    SplitBack(s + u + s + u + y, d, s' + u + s' + u + y', d');
    SplitBack(s + u + s, y, s' + u + s', y');
    RuleTwice(s, s');
  }

  // The numbers of separators in path and subcategory tell two identities apart, or do not get in the way.
  predicate CountsTell(p: nat, s: nat, p': nat, s': nat) {
    p == p' || p + 2 * s != p' + 2 * s'
  }

  // Two built identities whose separator counts tell have equal fingerprints exactly when their parts
  // agree, whatever the subcategories hold.
  lemma BuiltFingerprint(digest: string -> string, a: Identity, b: Identity)
    requires Built(digest, a) && Built(digest, b) && NoCollision(digest, a, b)
    requires CountsTell(Separators(NormalPath(a.path)), Separators(a.subcategory),
                        Separators(NormalPath(b.path)), Separators(b.subcategory))
    ensures ComputeFingerprint(digest, a) == ComputeFingerprint(digest, b) <==> SameIdentity(a, b)
  {
    SameComponents(digest, a, b);
    JoinedIsBuiltText(digest, a);
    JoinedIsBuiltText(digest, b);
    var (p, p') := (NormalPath(a.path), NormalPath(b.path));
    var (y, y') := (a.symbol.GetOr(""), b.symbol.GetOr(""));
    var (d, d') := (digest(NormalizeSnippet(a.snippet)), digest(NormalizeSnippet(b.snippet)));
    hide NormalPath, NormalizeSnippet, Separators, Words, Join, BuiltText;
    SeparatorsOfBuilt(p, a.category, a.subcategory, y, d);
    SeparatorsOfBuilt(p', b.category, b.subcategory, y', d');
    if Joined(digest, a) == Joined(digest, b) {
      BuiltTextInjective(p, a.category, a.subcategory, y, d, p', b.category, b.subcategory, y', d');
    }
  }

  // ----- separators that move the border between two parts -----

  // `n` + 1 times "security", with separators between them.
  function Chain(n: nat): string {
    if n == 0 then "security" else "security" + UNIT_SEPARATOR + Chain(n - 1)
  }

  lemma {:induction false} ChainConcat(a: nat, b: nat)
    ensures Chain(a) + UNIT_SEPARATOR + Chain(b) == Chain(a + b + 1)
  {
    if a > 0 {
      ChainConcat(a - 1, b);
      var head, more := "security" + UNIT_SEPARATOR, Chain(a - 1);
      ConcatAssociates(head, more, UNIT_SEPARATOR);
      ConcatAssociates(head, more + UNIT_SEPARATOR, Chain(b));
    }
  }

  lemma ChainStart()
    ensures Separators("security") == 0 && '\\' !in "security" && !IsSpace('s') && !IsSpace('y')
  {
    var s := "security";
    assert s[1..][1..] == "curity" && "curity"[1..][1..] == "rity" && "rity"[1..][1..] == "ty" && "ty"[1..][1..] == "";
    assert Separators("") == 0;
    assert Separators("ty") == 0;
    assert Separators("rity") == 0;
    assert Separators("curity") == 0;
  }

  lemma {:induction false} ChainShape(n: nat)
    ensures Separators(Chain(n)) == n && '\\' !in Chain(n)
    ensures |Chain(n)| > 0 && Chain(n)[0] == 's' && Chain(n)[|Chain(n)| - 1] == 'y'
  {
    ChainStart();
    if n > 0 {
      ChainShape(n - 1);
      hide Separators;
      SeparatorsAround("security", Chain(n - 1));
      assert UNIT_SEPARATOR[0] != '\\';
    }
  }

  lemma ChainIsPath(n: nat)
    ensures NormalPath(Chain(n)) == Chain(n)
  {
    ChainStart();
    ChainShape(n);
    StripEnds(Chain(n));
    SlashesKeep(Chain(n));
  }

  function ChainIdentity(p: nat, s: nat, snippet: string): Identity {
    Identity(Chain(p), "security", Chain(s), Chain(s), None, snippet)
  }

  lemma FourChains(p: nat, s: nat)
    ensures var u := UNIT_SEPARATOR;
            Chain(p) + u + "security" + u + Chain(s) + u + Chain(s) == Chain(p + 2 * s + 3)
  {
    assert Chain(0) == "security";
    hide Chain;
    ChainConcat(p, 0);
    ChainConcat(p + 1, s);
    ChainConcat(p + s + 2, s);
  }

  // A chain, no symbol and the digest of the snippet.
  function ChainedText(digest: string -> string, n: nat, snippet: string): string {
    Chain(n) + UNIT_SEPARATOR + "" + UNIT_SEPARATOR + digest(NormalizeSnippet(snippet))
  }

  lemma ChainText(digest: string -> string, p: nat, s: nat, snippet: string)
    ensures Joined(digest, ChainIdentity(p, s, snippet)) == ChainedText(digest, p + 2 * s + 3, snippet)
  {
    JoinedIsBuiltText(digest, ChainIdentity(p, s, snippet));
    ChainIsPath(p);
    hide Chain, NormalPath, NormalizeSnippet, Joined;
    FrontBrackets(Chain(p), "security", Chain(s), digest(NormalizeSnippet(snippet)), UNIT_SEPARATOR);
    FourChains(p, s);
  }

  lemma FrontBrackets(p: string, c: string, s: string, d: string, u: string)
    ensures p + u + (c + u + (s + u + s + u + "" + u + d)) == p + u + c + u + s + u + s + u + "" + u + d
  {
    assert s + u + s + u + "" + u + d == s + (u + (s + (u + ("" + (u + d)))));
    assert p + u + c + u + s + u + s + u + "" + u + d == p + (u + (c + (u + (s + (u + (s + (u + ("" + (u + d)))))))));
  }

  ghost predicate HasCounts(id: Identity, p: nat, s: nat) {
    Separators(NormalPath(id.path)) == p && Separators(id.subcategory) == s
  }

  lemma ChainIsBuilt(digest: string -> string, p: nat, s: nat, snippet: string)
    requires Separators(digest(NormalizeSnippet(snippet))) == 0
    ensures Built(digest, ChainIdentity(p, s, snippet)) && HasCounts(ChainIdentity(p, s, snippet), p, s)
    ensures Separators(NormalPath(ChainIdentity(p, s, snippet).path)) == p
    ensures ChainIdentity(p, s, snippet).snippet == snippet
  {
    ChainIsPath(p);
    ChainShape(p);
    ChainShape(s);
    ChainStart();
    assert Separators("") == 0;
    hide Separators, Chain, NormalPath, NormalizeSnippet;
  }

  ghost predicate TellsApart(digest: string -> string, a: Identity, b: Identity) {
    Built(digest, a) && Built(digest, b) && NoCollision(digest, a, b) ==>
      (ComputeFingerprint(digest, a) == ComputeFingerprint(digest, b) <==> SameIdentity(a, b))
  }

  lemma JoinedAlikeCollide(digest: string -> string, a: Identity, b: Identity)
    requires Built(digest, a) && Built(digest, b) && a.snippet == b.snippet
    requires Joined(digest, a) == Joined(digest, b)
    requires Separators(NormalPath(a.path)) != Separators(NormalPath(b.path))
    ensures !TellsApart(digest, a, b)
  {
    hide Built, NormalPath, NormalizeSnippet, Separators, Words, Joined;
    assert NoCollision(digest, a, b);
    assert ComputeFingerprint(digest, a) == ComputeFingerprint(digest, b);
  }

  // What the chain identities with these counts have in common.
  ghost predicate IsChained(digest: string -> string, id: Identity, p: nat, n: nat, snippet: string) {
    && Built(digest, id) && Separators(NormalPath(id.path)) == p && id.snippet == snippet
    && Joined(digest, id) == ChainedText(digest, n, snippet)
  }

  lemma ChainIsChained(digest: string -> string, p: nat, s: nat, snippet: string)
    requires Separators(digest(NormalizeSnippet(snippet))) == 0
    ensures IsChained(digest, ChainIdentity(p, s, snippet), p, p + 2 * s + 3, snippet)
  {
    hide Built, Joined, ChainedText, ChainIdentity, NormalPath, NormalizeSnippet, Separators, Chain;
    ChainIsBuilt(digest, p, s, snippet);
    ChainText(digest, p, s, snippet);
  }

  lemma ChainedCollide(digest: string -> string, a: Identity, p: nat, b: Identity, q: nat, n: nat, snippet: string)
    requires IsChained(digest, a, p, n, snippet) && IsChained(digest, b, q, n, snippet) && p != q
    ensures !TellsApart(digest, a, b)
  {
    hide Built, Joined, ChainedText, NormalPath, NormalizeSnippet, Separators, TellsApart;
    JoinedAlikeCollide(digest, a, b);
  }

  lemma ChainsCollide(digest: string -> string, p: nat, s: nat, p': nat, s': nat, snippet: string)
    requires Separators(digest(NormalizeSnippet(snippet))) == 0 && !CountsTell(p, s, p', s')
    ensures !TellsApart(digest, ChainIdentity(p, s, snippet), ChainIdentity(p', s', snippet))
  {
    hide IsChained, ChainIdentity, NormalizeSnippet, Separators, TellsApart;
    var a, b := ChainIdentity(p, s, snippet), ChainIdentity(p', s', snippet);
    ChainIsChained(digest, p, s, snippet);
    ChainIsChained(digest, p', s', snippet);
    ChainedCollide(digest, a, p, b, p', p + 2 * s + 3, snippet);
  }

  // For given numbers of separators in path and subcategory, fingerprints tell all built identities
  // apart exactly when the counts do.
  lemma CountsDecide(digest: string -> string, p: nat, s: nat, p': nat, s': nat)
    requires forall t :: Separators(digest(t)) == 0
    ensures (forall a, b :: HasCounts(a, p, s) && HasCounts(b, p', s') ==> TellsApart(digest, a, b))
       <==> CountsTell(p, s, p', s')
  {
    if CountsTell(p, s, p', s') {
      forall a, b | HasCounts(a, p, s) && HasCounts(b, p', s') ensures TellsApart(digest, a, b) {
        CountedFingerprint(digest, a, b);
      }
    } else {
      var snippet := "";
      assert Separators(digest(NormalizeSnippet(snippet))) == 0;
      ChainIsBuilt(digest, p, s, snippet);
      ChainIsBuilt(digest, p', s', snippet);
      hide Built, ChainIdentity, HasCounts, Separators, NormalizeSnippet, TellsApart;
      ChainsCollide(digest, p, s, p', s', snippet);
    }
  }

  lemma CountedFingerprint(digest: string -> string, a: Identity, b: Identity)
    requires CountsTell(Separators(NormalPath(a.path)), Separators(a.subcategory),
                        Separators(NormalPath(b.path)), Separators(b.subcategory))
    ensures TellsApart(digest, a, b)
  {
    hide NormalPath, NormalizeSnippet, Separators, Words, ComputeFingerprint;
    if Built(digest, a) && Built(digest, b) && NoCollision(digest, a, b) {
      BuiltFingerprint(digest, a, b);
    }
  }

  // A path with two separators and a rule with one less than another: one fingerprint for two identities.
  lemma SeparatorCollides(digest: string -> string)
    ensures var u := UNIT_SEPARATOR;
            var rule := "security" + u + "security";
            var a := Identity("p", "security", rule, rule, None, "");
            var b := Identity("p" + u + rule, "security", "security", "security", None, "");
            !SameIdentity(a, b) && ComputeFingerprint(digest, a) == ComputeFingerprint(digest, b)
  {
    var u, z := UNIT_SEPARATOR, "security";
    var rule := z + u + z;
    var a := Identity("p", z, rule, rule, None, "");
    var b := Identity("p" + u + rule, z, z, z, None, "");
    PlainPath("p");
    PlainPath("p" + u + rule);
    JoinedIsBuiltText(digest, a);
    JoinedIsBuiltText(digest, b);
    assert |rule| != |z|;
    hide NormalPath, NormalizeSnippet, Join, Words;
    MovedBorder("p", z, u, digest(NormalizeSnippet("")));
  }

  lemma PlainPath(path: string)
    requires path != "" && path[0] != '.' && '\\' !in path && !IsSpace(path[0]) && !IsSpace(path[|path| - 1])
    ensures NormalPath(path) == path
  {
    StripEnds(path);
    SlashesKeep(path);
  }

  lemma MovedBorder(p: string, z: string, u: string, d: string)
    ensures var rule := z + u + z;
            p + u + (z + u + (rule + u + rule + u + "" + u + d))
            == (p + u + rule) + u + (z + u + (z + u + z + u + "" + u + d))
  {
    var rule := z + u + z;
    var end := u + ("" + (u + d));
    assert rule + u + rule + u + "" + u + d == z + (u + (z + (u + (z + (u + (z + end))))));
    assert z + u + z + u + "" + u + d == z + (u + (z + end));
    assert (p + u + rule) + u + (z + u + (z + (u + (z + end))))
        == p + (u + (z + (u + (z + (u + (z + (u + (z + (u + (z + end))))))))));
    assert p + u + (z + u + (z + (u + (z + (u + (z + (u + (z + end))))))))
        == p + (u + (z + (u + (z + (u + (z + (u + (z + (u + (z + end))))))))));
  }
}
