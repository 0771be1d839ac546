/** The marker inside a larger review body: exactly when it is read back. */
module MarkerLaws {
  import opened Options
  import opened Seqs
  import opened Text
  import opened Marker

  // ----- "-->" in concatenations -----

  // No literal reaches across the border of `u` and `r` when `r` starts with a character foreign to it.
  lemma ExpectExtends(lit: string, u: string, r: string)
    requires r != "" && forall i :: |u| <= i < |lit| ==> lit[i] != r[0]
    ensures Expect(lit, u + r) == (if Expect(lit, u).Some? then Some(Expect(lit, u).value + r) else None)
  {
    if |u| < |lit| {
      assert lit[|u|] != (u + r)[|u|];
    } else {
      assert forall i :: 0 <= i < |lit| ==> (u + r)[i] == u[i];
      DropFirst(u, r, |lit|);
    }
  }

  lemma {:induction false} UntilConcat(u: string, r: string)
    requires r == "" || (r[0] != '-' && r[0] != '>')
    ensures Until(u + r)
         == if Until(u).Some? then Until(u)
            else if Until(r).Some? then Some(u + Until(r).value)
            else None
  {
    if u == "" {
      assert u + r == r;
      assert forall t: string :: u + t == t;
    } else if r == "" {
      assert u + r == u;
    } else {
      DropFirst(u, r, 1);
      UntilConcat(u[1..], r);
      ExpectExtends(CLOSE, u, r);
      if Until(r).Some? {
        var s := Until(r).value;
        assert [u[0]] + (u[1..] + s) == u + s;
      }
    }
  }

  // Text without '-' only puts off the first "-->".
  lemma {:induction false} UntilSkips(a: string, u: string)
    requires '-' !in a
    ensures Until(a + u) == if Until(u).Some? then Some(a + Until(u).value) else None
  {
    if a == "" {
      assert a + u == u;
      assert forall t: string :: a + t == t;
    } else {
      assert (a + u)[0] == a[0] != CLOSE[0];
      DropFirst(a, u, 1);
      UntilSkips(a[1..], u);
      if Until(u).Some? {
        assert [a[0]] + (a[1..] + Until(u).value) == a + Until(u).value;
      }
    }
  }

  lemma NoCloseJoin(a: string, c: char, b: string)
    requires Until(a).None? && Until(b).None? && c != '-' && c != '>'
    ensures Until(a + ([c] + b)).None?
  {
    assert ([c] + b)[1..] == b;
    assert ([c] + b)[0] != CLOSE[0];
    assert Until([c] + b).None?;
    UntilConcat(a, [c] + b);
  }

  lemma {:induction false} NoAngleNoClose(s: string)
    requires '>' !in s
    ensures Until(s).None?
  {
    if s != "" {
      if |s| > 2 {
        assert s[2] != CLOSE[2];
      }
      NoAngleNoClose(s[1..]);
    }
  }

  lemma FieldNoClose(pair: (string, string))
    requires Until(pair.0).None? && Until(pair.1).None?
    ensures Until(Field(pair)).None?
  {
    NoCloseJoin(pair.0, '=', pair.1);
    assert Field(pair) == pair.0 + (['='] + pair.1);
  }

  lemma {:induction false} JoinNoClose(parts: seq<string>)
    requires forall p :: p in parts ==> Until(p).None?
    ensures Until(Join(" ", parts)).None?
  {
    hide Until;
    if |parts| == 0 {
      NoAngleNoClose("");
    } else if |parts| > 1 {
      var later := Join(" ", parts[1..]);
      JoinNoClose(parts[1..]);
      NoCloseJoin(parts[0], ' ', later);
      ConcatAssociates(parts[0], " ", later);
      assert " " == [' '];
    }
  }

  lemma FieldsNoClose(pairs: seq<(string, string)>)
    requires forall p :: p in pairs ==> Until(p.0).None? && Until(p.1).None?
    ensures Until(Join(" ", Map(Field, pairs))).None?
  {
    var parts := Map(Field, pairs);
    hide Until, Field;
    forall p | p in parts ensures Until(p).None? {
      var k :| 0 <= k < |parts| && parts[k] == p;
      assert pairs[k] in pairs;
      FieldNoClose(pairs[k]);
    }
    JoinNoClose(parts);
  }

  // ----- openings in concatenations -----

  lemma TrimLeftExtends(u: string, r: string)
    requires r != "" && !IsSpace(r[0])
    ensures TrimLeft(u + r) == TrimLeft(u) + r
  {
    DroppedInside(IsSpace, u, r);
  }

  // An opening cannot reach into text that begins with '<'.
  lemma OpeningExtends(u: string, r: string)
    requires u != "" && r != "" && r[0] == '<'
    ensures Opening(u + r) == (if Opening(u).Some? then Some(Opening(u).value + r) else None)
  {
    ExpectExtends(OPEN, u, r);
    assert !IsSpace('<');
    hide Expect, TrimLeft, IsSpace, AfterName;
    var a := Expect(OPEN, u);
    if a.Some? {
      TrimLeftExtends(a.value, r);
      NameExtends(TrimLeft(a.value), r);
    }
  }

  lemma NameExtends(u: string, r: string)
    requires r != "" && r[0] == '<'
    ensures AfterName(u + r) == (if AfterName(u).Some? then Some(AfterName(u).value + r) else None)
  {
    assert '<' !in NAME;
    ExpectExtends(NAME, u, r);
    assert !IsSpace('<');
    hide Expect, TrimLeft, IsSpace;
    var b := Expect(NAME, u);
    if b.Some? {
      TrimLeftExtends(b.value, r);
      assert (b.value + r)[0] == if b.value == "" then '<' else b.value[0];
    }
  }

  lemma TrimLeftSplits(u: string) returns (lead: string)
    ensures u == lead + TrimLeft(u) && forall c :: c in lead ==> IsSpace(c)
    ensures TrimLeft(u) == "" || !IsSpace(TrimLeft(u)[0])
  {
    RunEnds(IsSpace, u);
    lead := u[..Run(IsSpace, u)];
  }

  lemma ExpectSplits(lit: string, u: string)
    requires Expect(lit, u).Some?
    ensures u == lit + Expect(lit, u).value
  {
  }

  // The pieces of an opening: spaces, the name and at least one space.
  lemma OpeningPieces(u: string) returns (lead: string, gap: string)
    requires Opening(u).Some?
    ensures u == OPEN + lead + NAME + gap + Opening(u).value
    ensures (forall c :: c in lead + gap ==> IsSpace(c)) && gap != ""
    ensures Opening(u).value == "" || !IsSpace(Opening(u).value[0])
  {
    var a := Expect(OPEN, u).value;
    ExpectSplits(OPEN, u);
    lead := TrimLeftSplits(a);
    var b := Expect(NAME, TrimLeft(a)).value;
    ExpectSplits(NAME, TrimLeft(a));
    gap := TrimLeftSplits(b);
    hide Expect, TrimLeft, IsSpace;
    var rest := Opening(u).value;
    PiecesConcat(OPEN, lead, NAME, gap, rest);
  }

  lemma PiecesConcat(a: string, b: string, c: string, d: string, e: string)
    ensures a + (b + (c + (d + e))) == a + b + c + d + e
  {
  }

  // Text without '<' holds no start of a block.
  lemma {:induction false} SearchSkips(a: string, u: string)
    requires '<' !in a
    ensures Search(a + u) == Search(u)
  {
    if a == "" {
      assert a + u == u;
    } else {
      assert (a + u)[0] == a[0] != OPEN[0];
      DropFirst(a, u, 1);
      SearchSkips(a[1..], u);
    }
  }

  lemma {:induction false} UntilSuffix(a: string, u: string)
    ensures Until(u).Some? ==> Until(a + u).Some?
  {
    if a == "" {
      assert a + u == u;
    } else {
      DropFirst(a, u, 1);
      UntilSuffix(a[1..], u);
    }
  }

  lemma {:induction false} SearchNeedsClose(u: string)
    ensures Search(u).Some? ==> Until(u).Some?
  {
    if u != "" {
      var rest := Opening(u);
      if rest.Some? && Until(rest.value).Some? {
        var lead, gap := OpeningPieces(u);
        UntilSuffix(OPEN + lead + NAME + gap, rest.value);
      } else {
        hide Opening;
        assert u == u[..1] + u[1..];
        UntilSuffix(u[..1], u[1..]);
        SearchNeedsClose(u[1..]);
      }
    }
  }

  // With an opening that is never closed, there is no block.
  lemma SearchPastOpening(u: string)
    requires Opening(u).Some? && Until(Opening(u).value).None?
    ensures Search(u).None?
  {
    var lead, gap := OpeningPieces(u);
    var rest := Opening(u).value;
    SearchNeedsClose(rest);
    NoAngleInside(lead, gap);
    hide Opening, IsSpace;
    DropHead(OPEN, lead, NAME, gap, rest);
    SearchSkips(OPEN[1..] + lead + NAME + gap, rest);
  }

  lemma NoAngleInside(lead: string, gap: string)
    requires forall c :: c in lead + gap ==> IsSpace(c)
    ensures '<' !in OPEN[1..] + lead + NAME + gap
  {
    assert '<' !in NAME && '<' !in OPEN[1..];
    assert forall c :: c in lead ==> c in lead + gap;
    assert forall c :: c in gap ==> c in lead + gap;
    assert !IsSpace('<');
    hide IsSpace;
  }

  lemma DropHead(open: string, lead: string, name: string, gap: string, rest: string)
    requires open != ""
    ensures (open + lead + name + gap + rest)[1..] == open[1..] + lead + name + gap + rest
  {
  }

  // ----- the first block of a body -----

  lemma OpeningIs(lead: string, gap: string, body: string)
    requires (forall c :: c in lead + gap ==> IsSpace(c)) && gap != "" && (body == "" || !IsSpace(body[0]))
    ensures Opening(OPEN + (lead + (NAME + (gap + body)))) == Some(body)
  {
    assert !IsSpace(NAME[0]);
    var b := gap + body;
    var a := NAME + b;
    assert forall c :: c in lead ==> c in lead + gap;
    assert forall c :: c in gap ==> c in lead + gap;
    assert a[0] == NAME[0] && b[0] == gap[0];
    TrimLeftIs(lead, a);
    TrimLeftIs(gap, body);
    hide TrimLeft, IsSpace;
    ExpectIs(OPEN, lead + a);
    ExpectIs(NAME, b);
  }

  lemma ExpectIs(lit: string, rest: string)
    ensures Expect(lit, lit + rest) == Some(rest)
  {
  }

  lemma TrimLeftIs(lead: string, rest: string)
    requires (forall c :: c in lead ==> IsSpace(c)) && (rest == "" || !IsSpace(rest[0]))
    ensures TrimLeft(lead + rest) == rest
  {
    DroppedIs(IsSpace, lead, rest);
  }

  // Trimming stops inside `b` when `b` is more than whitespace.
  lemma {:induction false} TrimRightConcat(a: string, b: string)
    requires TrimRight(b) != ""
    ensures TrimRight(a + b) == a + TrimRight(b)
    decreases |b|
  {
    if IsSpace(b[|b| - 1]) {
      assert (a + b)[..|a + b| - 1] == a + b[..|b| - 1];
      TrimRightConcat(a, b[..|b| - 1]);
    }
  }

  // What a reader sees of the fields in a rendered block: the text before the first "-->" in them.
  function Shown(fields: string): string {
    TrimRight(Until(fields).GetOr(fields))
  }

  ghost predicate Begins(fields: string) {
    fields != "" && !IsSpace(fields[0]) && fields[0] != '-' && fields[0] != '>'
  }

  lemma TailUntil(suffix: string)
    ensures Until(" " + (CLOSE + suffix)) == Some(" ")
  {
    var end := CLOSE + suffix;
    assert (" " + end)[1..] == end;
    assert (" " + end)[0] != CLOSE[0];
    assert CLOSE <= end;
    assert [(" " + end)[0]] + "" == " ";
  }

  lemma CutShows(fields: string)
    requires Begins(fields)
    ensures TrimRight(Until(fields).GetOr(fields + " ")) == Shown(fields) != ""
  {
    assert (fields + " ")[..|fields|] == fields;
    var cut := Until(fields).GetOr(fields + " ");
    assert cut != "" && cut[0] == fields[0];
  }

  lemma OwnUntil(fields: string, suffix: string)
    requires Begins(fields)
    ensures var cut := Until(fields).GetOr(fields + " ");
            && Until(fields + (" " + (CLOSE + suffix))) == Some(cut)
            && Until(HEAD + (fields + (" " + (CLOSE + suffix)))) == Some(HEAD + cut)
  {
    var tail := " " + (CLOSE + suffix);
    var body := fields + tail;
    assert body[0] == fields[0];
    assert '>' !in HEAD;
    NoAngleNoClose(HEAD);
    TailUntil(suffix);
    hide Until, IsSpace;
    UntilConcat(fields, tail);
    UntilConcat(HEAD, body);
  }

  lemma OwnBlock(fields: string, suffix: string)
    requires Begins(fields)
    ensures BlockAt(HEAD + (fields + (" " + (CLOSE + suffix)))) == Some(Shown(fields))
  {
    OwnUntil(fields, suffix);
    CutShows(fields);
    var body := fields + (" " + (CLOSE + suffix));
    assert body[0] == fields[0];
    OpeningIs(" ", " ", body);
    HeadPieces(OPEN, NAME, body);
    hide Until, IsSpace, Opening, TrimRight;
  }

  lemma HeadPieces(open: string, name: string, body: string)
    ensures open + " " + name + " " + body == open + (" " + (name + (" " + body)))
  {
  }

  // A complete block in the text before keeps the own block from being seen.
  lemma {:induction false} SearchKeeps(prefix: string, r: string)
    requires r != "" && r[0] == '<' && Search(prefix).Some?
    ensures Search(prefix + r) == Search(prefix)
  {
    OpeningExtends(prefix, r);
    hide Until, TrimRight, Opening;
    var rest := Opening(prefix);
    DropFirst(prefix, r, 1);
    if rest.Some? {
      UntilConcat(rest.value, r);
      if Until(rest.value).None? {
        SearchPastOpening(prefix);
        assert false;
      }
    } else {
      SearchKeeps(prefix[1..], r);
    }
  }

  // The fields of the leftmost marker block that is opened, closed or not.
  function Pending(u: string): Option<string> {
    if u == "" then None
    else if Opening(u).Some? then Opening(u)
    else Pending(u[1..])
  }

  // Without a complete block in the prefix, an unfinished one reaches to the end of the block at `r`.
  lemma {:induction false} SearchFinds(prefix: string, r: string)
    requires Search(prefix).None? && r != "" && r[0] == '<' && BlockAt(r).Some? && Until(r).Some?
    ensures Search(prefix + r) == match Pending(prefix)
                                  case None => BlockAt(r)
                                  case Some(p) => Some(TrimRight(p + Until(r).value))
  {
    hide Until, TrimRight;
    if prefix == "" {
      assert prefix + r == r;
    } else {
      OpeningExtends(prefix, r);
      hide Opening;
      var rest := Opening(prefix);
      if rest.None? {
        DropFirst(prefix, r, 1);
        SearchFinds(prefix[1..], r);
      } else {
        UntilConcat(rest.value, r);
      }
    }
  }

  lemma FieldsFound(prefix: string, fields: string, suffix: string)
    requires Search(prefix).None? && Begins(fields)
    ensures Search(prefix + (HEAD + (fields + (" " + (CLOSE + suffix)))))
         == Some(match Pending(prefix) case None => Shown(fields) case Some(p) => p + (HEAD + Shown(fields)))
  {
    var r := HEAD + (fields + (" " + (CLOSE + suffix)));
    OwnUntil(fields, suffix);
    OwnBlock(fields, suffix);
    CutShows(fields);
    assert r[0] == HEAD[0];
    var cut := Until(fields).GetOr(fields + " ");
    hide Search, BlockAt, Until, Shown;
    SearchFinds(prefix, r);
    if Pending(prefix).Some? {
      var p := Pending(prefix).value;
      TrimRightConcat(HEAD, cut);
      TrimRightConcat(p, HEAD + cut);
    }
  }

  // ----- the fields of a block -----

  ghost predicate IsKey(word: char -> bool, key: string) {
    key != "" && forall c :: c in key ==> IsWord(word, c)
  }

  ghost predicate NoSpaces(value: string) {
    forall c :: c in value ==> !IsSpace(c)
  }

  lemma OneField(word: char -> bool, key: string, value: string)
    requires IsKey(word, key) && NoSpaces(value)
    ensures FieldPairs(word, Field((key, value))) == [(key, value)]
  {
    var s := Field((key, value));
    assert s == key + ("=" + value);
    assert !IsWord(word, '=');
    DroppedIs(Word(word), key, "=" + value);
    DroppedIs(IsNotSpace, value, "");
    assert value + "" == value;
    hide Taken, Dropped, IsWord, IsSpace;
    ExpectIs("=", value);
    assert PairAt(word, s) == Some(((key, value), ""));
    assert FieldPairs(word, "") == [];
  }

  lemma SpaceSkipped(word: char -> bool, rest: string)
    ensures FieldPairs(word, " " + rest) == FieldPairs(word, rest)
  {
    assert !IsWord(word, ' ');
    assert PairAt(word, " " + rest).None? by {
      DroppedIs(Word(word), "", " " + rest);
      assert "" + (" " + rest) == " " + rest;
    }
    hide PairAt;
    assert (" " + rest)[1..] == rest;
  }

  // No pair reaches across a space.
  lemma PairBeforeSpace(word: char -> bool, a: string, b: string)
    ensures PairAt(word, a + (" " + b)) == match PairAt(word, a)
                                           case None => None
                                           case Some((pair, rest)) => Some((pair, rest + (" " + b)))
  {
    var r := " " + b;
    assert !IsWord(word, ' ') && r[0] == ' ';
    DroppedInside(Word(word), a, r);
    var after := Dropped(Word(word), a);
    ExpectExtends("=", after, r);
    if Expect("=", after).Some? {
      DroppedInside(IsNotSpace, Expect("=", after).value, r);
    }
    hide Taken, Dropped, IsWord, IsSpace;
  }

  // The fields before a space and those after it are read separately.
  lemma {:induction false} PairsConcat(word: char -> bool, a: string, b: string)
    ensures FieldPairs(word, a + (" " + b)) == FieldPairs(word, a) + FieldPairs(word, b)
    decreases |a|
  {
    hide PairAt;
    if a == "" {
      assert a + (" " + b) == " " + b;
      SpaceSkipped(word, b);
    } else {
      PairBeforeSpace(word, a, b);
      match PairAt(word, a) {
        case None =>
          DropFirst(a, " " + b, 1);
          PairsConcat(word, a[1..], b);
        case Some((pair, rest)) =>
          PairsConcat(word, rest, b);
          ConcatAssociates([pair], FieldPairs(word, rest), FieldPairs(word, b));
      }
    }
  }

  // Text without "=" holds no field.
  lemma {:induction false} NoPairs(word: char -> bool, a: string)
    requires '=' !in a
    ensures FieldPairs(word, a) == []
  {
    if a != "" {
      assert forall c :: c in Dropped(Word(word), a) ==> c in a;
      NoPairs(word, a[1..]);
    }
  }

  // The fields that an unfinished block in the text before adds in front of a marker's own.
  function Extra(word: char -> bool, prefix: string): seq<(string, string)> {
    match Pending(prefix)
    case None => []
    case Some(p) => FieldPairs(word, p + OPEN)
  }

  lemma PairsPastHead(word: char -> bool, p: string, fields: string)
    ensures FieldPairs(word, p + (HEAD + fields)) == FieldPairs(word, p + OPEN) + FieldPairs(word, fields)
  {
    HeadApart(p, OPEN, NAME, fields);
    hide FieldPairs;
    PairsConcat(word, p + OPEN, NAME + (" " + fields));
    PairsConcat(word, NAME, fields);
    NoPairs(word, NAME);
    assert [] + FieldPairs(word, fields) == FieldPairs(word, fields);
  }

  lemma HeadApart(p: string, open: string, name: string, fields: string)
    ensures p + (open + " " + name + " " + fields) == (p + open) + (" " + (name + (" " + fields)))
  {
  }

  lemma {:induction false} DictConcat(a: seq<(string, string)>, b: seq<(string, string)>)
    ensures DictOf(a + b) == DictOf(a) + DictOf(b)
  {
    if b == [] {
      assert a + b == a;
    } else {
      assert (a + b)[..|a + b| - 1] == a + b[..|b| - 1];
      DictConcat(a, b[..|b| - 1]);
    }
  }

  // Rendered fields are read back one by one.
  lemma {:induction false} RenderedPairs(word: char -> bool, pairs: seq<(string, string)>)
    requires forall p :: p in pairs ==> IsKey(word, p.0) && NoSpaces(p.1)
    ensures FieldPairs(word, Join(" ", Map(Field, pairs))) == pairs
  {
    if pairs != [] {
      var first, rest := pairs[0], pairs[1..];
      assert first in pairs && forall p :: p in rest ==> p in pairs;
      RenderedPairs(word, rest);
      RenderedCons(word, first, rest);
      assert pairs == [first] + rest;
    }
  }

  lemma RenderedCons(word: char -> bool, first: (string, string), rest: seq<(string, string)>)
    requires IsKey(word, first.0) && NoSpaces(first.1)
    ensures FieldPairs(word, Join(" ", Map(Field, [first] + rest)))
         == [first] + FieldPairs(word, Join(" ", Map(Field, rest)))
  {
    var texts := Map(Field, rest);
    MapConcat(Field, [first], rest);
    assert Map(Field, [first]) == [Field(first)];
    assert IsSpace(' ');
    hide IsKey, NoSpaces, Field, IsSpace;
    OneField(word, first.0, first.1);
    if rest == [] {
      assert texts == [] && [Field(first)] + texts == [Field(first)];
      hide Map, FieldPairs;
      assert FieldPairs(word, "") == [];
    } else {
      hide Map, FieldPairs;
      JoinCons(" ", Field(first), texts);
      hide Join;
      PairsConcat(word, Field(first), Join(" ", texts));
    }
  }

  lemma JoinCons(sep: string, first: string, rest: seq<string>)
    requires rest != []
    ensures Join(sep, [first] + rest) == first + (sep + Join(sep, rest))
  {
    assert ([first] + rest)[1..] == rest;
    ConcatAssociates(first, sep, Join(sep, rest));
  }

  // ----- the marker law -----

  lemma KeyIs(word: char -> bool, key: string)
    requires key != "" && forall c :: c in key ==> 'a' <= c <= 'z' || c == '_'
    ensures IsKey(word, key) && Until(key).None?
  {
    NoAngleNoClose(key);
  }

  lemma KeysAreKeys(word: char -> bool, m: ReviewMarker)
    ensures forall k :: 0 <= k < 5 ==> IsKey(word, Pairs(m)[k].0) && Until(Pairs(m)[k].0).None?
  {
    hide Until, IsKey, IsWord;
    KeyIs(word, "head_sha");
    KeyIs(word, "workflow_version");
    KeyIs(word, "run");
    KeyIs(word, "model");
    KeyIs(word, "prompt");
    KeysOf(m);
  }

  lemma KeysOf(m: ReviewMarker)
    ensures forall k :: 0 <= k < 5 ==>
      Pairs(m)[k].0 == if k == 0 then "head_sha" else if k == 1 then "workflow_version" else if k == 2 then "run"
                       else if k == 3 then "model" else "prompt"
  {
  }

  lemma ValuesOf(m: ReviewMarker)
    requires Safe(m)
    ensures forall k :: 0 <= k < 5 ==> Until(Pairs(m)[k].1).None? && NoSpaces(Pairs(m)[k].1)
  {
    hide Until, IsSpace;
  }

  ghost predicate GoodPair(word: char -> bool, p: (string, string)) {
    Until(p.0).None? && Until(p.1).None? && IsKey(word, p.0) && NoSpaces(p.1)
  }

  lemma PairsAreGood(word: char -> bool, m: ReviewMarker)
    requires Safe(m)
    ensures forall p :: p in Pairs(m) ==> GoodPair(word, p)
  {
    KeysAreKeys(word, m);
    ValuesOf(m);
    var pairs := Pairs(m);
    assert |pairs| == 5;
    hide Until, IsKey, NoSpaces, Pairs, Safe;
    assert forall k :: 0 <= k < 5 ==> GoodPair(word, pairs[k]);
  }

  lemma FieldsAreOwn(word: char -> bool, m: ReviewMarker)
    requires Safe(m)
    ensures Shown(Fields(m)) == Fields(m) && FieldPairs(word, Fields(m)) == Pairs(m)
  {
    PairsAreGood(word, m);
    FieldsEnds(m);
    FieldsAre(m);
    assert !IsSpace('h');
    hide Until, IsKey, IsSpace, NoSpaces, Pairs, Fields, Map, Field, Join, FieldPairs, Safe;
    FieldsNoClose(Pairs(m));
    RenderedPairs(word, Pairs(m));
  }

  lemma FieldsAre(m: ReviewMarker)
    ensures Fields(m) == Join(" ", Map(Field, Pairs(m)))
  {
  }

  lemma FieldsEnds(m: ReviewMarker)
    requires SafeField(m.promptVersion)
    ensures Fields(m) != "" && Fields(m)[0] == 'h' && !IsSpace(Fields(m)[|Fields(m)| - 1])
  {
    var texts := Map(Field, Pairs(m));
    assert texts[0][0] == 'h';
    var last := texts[4];
    assert last == "prompt=" + m.promptVersion;
    assert !IsSpace(last[|last| - 1]) by {
      assert m.promptVersion == "" ==> last[|last| - 1] == '=';
      assert m.promptVersion != "" ==> last[|last| - 1] == m.promptVersion[|m.promptVersion| - 1];
    }
    hide Until, IsSpace, Field, Pairs;
    assert texts == texts[..4] + [last];
    JoinConcat(" ", texts[..4], [last]);
    assert texts == [texts[0]] + texts[1..];
    JoinCons(" ", texts[0], texts[1..]);
  }

  lemma {:induction false} DictLookup(pairs: seq<(string, string)>, k: nat)
    requires k < |pairs| && forall i :: k < i < |pairs| ==> pairs[i].0 != pairs[k].0
    ensures pairs[k].0 in DictOf(pairs) && DictOf(pairs)[pairs[k].0] == pairs[k].1
  {
    var front := pairs[..|pairs| - 1];
    if k < |front| {
      assert front[k] == pairs[k];
      DictLookup(front, k);
    }
  }

  lemma MarkerOfPairs(m: ReviewMarker, extra: seq<(string, string)>)
    ensures MarkerOf(DictOf(extra + Pairs(m))) == Some(m)
  {
    var pairs := Pairs(m);
    assert forall i, j :: 0 <= i < j < 5 ==> |pairs[i].0| != |pairs[j].0|;
    forall k | 0 <= k < 5 ensures pairs[k].0 in DictOf(pairs) && DictOf(pairs)[pairs[k].0] == pairs[k].1 {
      DictLookup(pairs, k);
    }
    DictConcat(extra, pairs);
    hide DictOf;
    var dict := DictOf(extra + pairs);
    assert forall k :: 0 <= k < 5 ==> pairs[k].0 in dict && dict[pairs[k].0] == pairs[k].1;
    assert pairs[0].0 == "head_sha" && pairs[1].0 == "workflow_version" && pairs[2].0 == "run";
    assert pairs[3].0 == "model" && pairs[4].0 == "prompt";
  }

  lemma RenderPieces(prefix: string, m: ReviewMarker, suffix: string)
    ensures prefix + Render(m) + suffix == prefix + (HEAD + (Fields(m) + (" " + (CLOSE + suffix))))
  {
    hide Fields;
    FivePieces(prefix, HEAD, Fields(m), " ", CLOSE, suffix);
  }

  lemma FivePieces(prefix: string, a: string, b: string, c: string, d: string, suffix: string)
    ensures prefix + (a + b + c + d) + suffix == prefix + (a + (b + (c + (d + suffix))))
  {
    assert a + b + c + d + suffix == a + (b + (c + (d + suffix)));
    ConcatAssociates(prefix, a + b + c + d, suffix);
  }

  lemma FieldsBegin(m: ReviewMarker)
    ensures Begins(Fields(m))
  {
    var texts := Map(Field, Pairs(m));
    assert texts[0] == "head_sha" + "=" + m.headSha;
    assert texts == [texts[0]] + texts[1..];
    assert !IsSpace('h');
    hide Field, Pairs, IsSpace, Map;
    JoinCons(" ", texts[0], texts[1..]);
  }

  // A complete block in the text before is read instead of any marker after it.
  lemma EarlierBlock(word: char -> bool, prefix: string, m: ReviewMarker, suffix: string)
    requires Search(prefix).Some?
    ensures Parse(word, prefix + Render(m) + suffix) == Parse(word, prefix)
  {
    RenderPieces(prefix, m, suffix);
    var r := HEAD + (Fields(m) + (" " + (CLOSE + suffix)));
    assert r[0] == HEAD[0];
    hide Search, Fields;
    SearchKeeps(prefix, r);
  }

  // Otherwise any marker at all is read as the fields it shows, after those of an unfinished block.
  lemma ReadInBody(word: char -> bool, prefix: string, m: ReviewMarker, suffix: string)
    requires Search(prefix).None?
    ensures Parse(word, prefix + Render(m) + suffix)
         == MarkerOf(DictOf(Extra(word, prefix) + FieldPairs(word, Shown(Fields(m)))))
  {
    RenderPieces(prefix, m, suffix);
    FieldsBegin(m);
    hide Search, FieldPairs, Fields, MarkerOf, DictOf, Shown;
    var shown := Shown(Fields(m));
    FieldsFound(prefix, Fields(m), suffix);
    match Pending(prefix) {
      case None => assert [] + FieldPairs(word, shown) == FieldPairs(word, shown);
      case Some(p) => PairsPastHead(word, p, shown);
    }
  }

  // A marker written after any text is read back unless that text already holds a complete marker
  // block, which is then the one that is read.
  lemma ParseInBody(word: char -> bool, prefix: string, m: ReviewMarker, suffix: string)
    requires Safe(m)
    ensures Parse(word, prefix + Render(m) + suffix)
         == if Search(prefix).Some? then Parse(word, prefix) else Some(m)
  {
    FieldsAreOwn(word, m);
    hide Parse, Search, Render, FieldPairs, Fields, Shown, MarkerOf, DictOf, Pairs, Safe, Extra;
    if Search(prefix).Some? {
      EarlierBlock(word, prefix, m, suffix);
    } else {
      ReadInBody(word, prefix, m, suffix);
      MarkerOfPairs(m, Extra(word, prefix));
    }
  }

  // ----- what can be read -----

  lemma {:induction false} UntilIsFirst(u: string)
    requires Until(u).Some?
    ensures Until(u).value <= u && Until(Until(u).value).None?
  {
    if !(CLOSE <= u) {
      UntilIsFirst(u[1..]);
      var s := Until(u[1..]).value;
      assert ([u[0]] + s)[1..] == s;
      assert [u[0]] + s <= u;
      assert !(CLOSE <= [u[0]] + s);
    }
  }

  lemma UntilPart(a: string, v: string, b: string)
    requires Until(a + v + b).None?
    ensures Until(v).None?
  {
    UntilSuffix(a, v + b);
    ConcatAssociates(a, v, b);
    UntilPrefix(v, b);
  }

  lemma {:induction false} UntilPrefix(v: string, b: string)
    requires Until(v + b).None?
    ensures Until(v).None?
  {
    if v != "" {
      assert CLOSE <= v ==> CLOSE <= v + b;
      DropFirst(v, b, 1);
      UntilPrefix(v[1..], b);
    }
  }

  lemma {:induction false} SearchIsSafe(u: string)
    requires Search(u).Some?
    ensures Until(Search(u).value).None?
  {
    hide Opening;
    if BlockAt(u).Some? {
      var before := Until(Opening(u).value).value;
      UntilIsFirst(Opening(u).value);
      var fields := TrimRight(before);
      assert before == fields + before[|fields|..];
      UntilPrefix(fields, before[|fields|..]);
    } else {
      SearchIsSafe(u[1..]);
    }
  }

  lemma PairPieces(key: string, value: string, rest: string)
    requires Until(key + ("=" + (value + rest))).None?
    ensures Until(value).None? && Until(rest).None?
  {
    hide Until;
    UntilSuffix(key, "=" + (value + rest));
    UntilSuffix("=", value + rest);
    UntilPrefix(value, rest);
    UntilSuffix(value, rest);
  }

  // The text a pair is read from: its key, "=", its value and the rest.
  lemma PairText(word: char -> bool, s: string)
    requires PairAt(word, s).Some?
    ensures var ((key, value), rest) := PairAt(word, s).value;
            s == key + ("=" + (value + rest)) && NoSpaces(value)
  {
    var tail := Dropped(Word(word), s);
    ExpectSplits("=", tail);
    var after := Expect("=", tail).value;
    RunEnds(IsNotSpace, after);
    assert after == Taken(IsNotSpace, after) + Dropped(IsNotSpace, after);
    assert s == Taken(Word(word), s) + tail;
    hide Expect, IsSpace, IsWord;
  }

  lemma PairIsSafe(word: char -> bool, s: string)
    requires PairAt(word, s).Some? && Until(s).None?
    ensures SafeField(PairAt(word, s).value.0.1) && Until(PairAt(word, s).value.1).None?
  {
    PairText(word, s);
    hide PairAt, Until, IsSpace;
    var ((key, value), rest) := PairAt(word, s).value;
    PairPieces(key, value, rest);
  }

  lemma {:induction false} PairsAreSafe(word: char -> bool, s: string)
    requires Until(s).None?
    ensures forall p :: p in FieldPairs(word, s) ==> SafeField(p.1)
    decreases |s|
  {
    hide SafeField, Until, PairAt;
    if s != "" {
      if PairAt(word, s).Some? {
        PairIsSafe(word, s);
        PairsAreSafe(word, PairAt(word, s).value.1);
      } else {
        assert s == s[..1] + s[1..] + "";
        UntilPart(s[..1], s[1..], "");
        PairsAreSafe(word, s[1..]);
      }
    }
  }

  lemma {:induction false} DictValues(pairs: seq<(string, string)>, k: string)
    requires k in DictOf(pairs)
    ensures (k, DictOf(pairs)[k]) in pairs
  {
    var front, last := pairs[..|pairs| - 1], pairs[|pairs| - 1];
    if last.0 != k {
      DictValues(front, k);
    } else {
      assert pairs[|pairs| - 1] in pairs;
    }
  }

  // No text at all is read as a marker with unsafe fields.
  lemma ParsedIsSafe(word: char -> bool, text: string)
    requires Parse(word, text).Some?
    ensures Safe(Parse(word, text).value)
  {
    var fields := Search(text).value;
    SearchIsSafe(text);
    PairsAreSafe(word, fields);
    var pairs := FieldPairs(word, fields);
    hide Search, SafeField, FieldPairs, DictOf;
    var dict := DictOf(pairs);
    forall k | k in dict ensures SafeField(dict[k]) {
      DictValues(pairs, k);
    }
  }

  // Without a marker block before it, a marker is read back exactly when its fields are safe.
  lemma RoundTripInBody(word: char -> bool, prefix: string, m: ReviewMarker, suffix: string)
    requires Search(prefix).None?
    ensures Parse(word, prefix + Render(m) + suffix) == Some(m) <==> Safe(m)
  {
    hide Search, Render;
    if Safe(m) {
      ParseInBody(word, prefix, m, suffix);
    }
    if Parse(word, prefix + Render(m) + suffix) == Some(m) {
      ParsedIsSafe(word, prefix + Render(m) + suffix);
    }
  }

  // Text without '<' holds no marker block.
  lemma NoAngleNoBlock(text: string)
    requires '<' !in text
    ensures Search(text).None?
  {
    assert text + "" == text;
    SearchSkips(text, "");
  }
}
