/**
What a reader takes from a marker whose model id is arbitrary text: the id comes from a setting and may
hold spaces, further fields and even the closing mark.
 */
module MarkerReading {
  import opened Options
  import opened Seqs
  import opened Text
  import opened Marker
  import opened MarkerLaws

  // ----- the fields before and after the model id -----

  function EarlyPairs(m: ReviewMarker): seq<(string, string)> {
    [("head_sha", m.headSha), ("workflow_version", m.workflowVersion), ("run", m.runFingerprint)]
  }

  // The fields from the model id on, as a reader sees them.
  function LateFields(m: ReviewMarker): string {
    Shown("model=" + (m.modelId + (" prompt=" + m.promptVersion)))
  }

  ghost predicate SafeEarly(m: ReviewMarker) {
    SafeField(m.headSha) && SafeField(m.workflowVersion) && SafeField(m.runFingerprint)
  }

  lemma ShownConcat(front: string, back: string)
    requires Until(front).None? && Shown(back) != ""
    ensures Shown(front + (" " + back)) == front + (" " + Shown(back))
  {
    UntilSkips(" ", back);
    assert (" " + back)[0] == ' ';
    var cut := Until(back).GetOr(back);
    hide Until;
    UntilConcat(front, " " + back);
    TrimRightConcat(" ", cut);
    TrimRightConcat(front, " " + cut);
  }

  lemma FieldsSplit(m: ReviewMarker)
    ensures Fields(m) == Join(" ", Map(Field, EarlyPairs(m)))
                         + (" " + ("model=" + (m.modelId + (" prompt=" + m.promptVersion))))
  {
    var late := [("model", m.modelId), ("prompt", m.promptVersion)];
    assert Pairs(m) == EarlyPairs(m) + late;
    MapConcat(Field, EarlyPairs(m), late);
    var early, texts := Map(Field, EarlyPairs(m)), Map(Field, late);
    var first, second := "model" + "=" + m.modelId, "prompt" + "=" + m.promptVersion;
    assert texts == [first, second];
    assert [first, second][1..] == [second];
    assert Join(" ", [first, second]) == first + " " + second;
    TwoFields("model=", m.modelId, " ", "prompt=", m.promptVersion);
    assert "model" + "=" == "model=" && "prompt" + "=" == "prompt=" && " " + "prompt=" == " prompt=";
    hide Map, Field, EarlyPairs;
    JoinConcat(" ", early, texts);
    ConcatAssociates(Join(" ", early), " ", Join(" ", texts));
  }

  lemma TwoFields(a: string, b: string, c: string, d: string, e: string)
    ensures a + b + c + (d + e) == a + (b + (c + d + e))
  {
  }

  lemma EarlyIsSafe(word: char -> bool, m: ReviewMarker)
    requires SafeEarly(m)
    ensures Until(Join(" ", Map(Field, EarlyPairs(m)))).None?
    ensures FieldPairs(word, Join(" ", Map(Field, EarlyPairs(m)))) == EarlyPairs(m)
  {
    EarlyAreGood(word, m);
    var pairs := EarlyPairs(m);
    hide *;
    GoodPairsRead(word, pairs);
  }

  lemma GoodPairsRead(word: char -> bool, pairs: seq<(string, string)>)
    requires forall p :: p in pairs ==> GoodPair(word, p)
    ensures Until(Join(" ", Map(Field, pairs))).None?
    ensures FieldPairs(word, Join(" ", Map(Field, pairs))) == pairs
  {
    hide Until, IsKey, NoSpaces, Field, Map, Join, FieldPairs;
    FieldsNoClose(pairs);
    RenderedPairs(word, pairs);
  }

  lemma EarlyAreGood(word: char -> bool, m: ReviewMarker)
    requires SafeEarly(m)
    ensures forall p :: p in EarlyPairs(m) ==> GoodPair(word, p)
  {
    hide Until, IsKey, IsSpace, IsWord;
    KeyIs(word, "head_sha");
    KeyIs(word, "workflow_version");
    KeyIs(word, "run");
    assert GoodPair(word, ("head_sha", m.headSha));
    assert GoodPair(word, ("workflow_version", m.workflowVersion));
    assert GoodPair(word, ("run", m.runFingerprint));
    hide GoodPair;
  }

  // Whatever the model id is, the text from it on begins with "model=".
  lemma LateBegins(m: ReviewMarker) returns (rest: string)
    ensures LateFields(m) == "model=" + rest
  {
    var tail := m.modelId + (" prompt=" + m.promptVersion);
    UntilSkips("model=", tail);
    var cut := "model=" + Until(tail).GetOr(tail);
    assert LateFields(m) == TrimRight(cut);
    assert cut[5] == '=' && !IsSpace('=');
    var late := TrimRight(cut);
    assert |late| >= 6;
    rest := late[6..];
    assert cut[..6] == "model=";
    assert late[..6] == cut[..6];
  }

  lemma LatePair(word: char -> bool, rest: string)
    ensures PairAt(word, "model=" + rest) == Some((("model", Taken(IsNotSpace, rest)), Dropped(IsNotSpace, rest)))
  {
    assert "model=" + rest == "model" + ("=" + rest);
    assert !IsWord(word, '=');
    DroppedIs(Word(word), "model", "=" + rest);
    hide Taken, Dropped, IsWord;
    ExpectIs("=", rest);
  }

  lemma {:induction false} HasFirst(pairs: seq<(string, string)>)
    requires pairs != []
    ensures pairs[0].0 in DictOf(pairs)
  {
    if |pairs| > 1 {
      HasFirst(pairs[..|pairs| - 1]);
    }
  }

  lemma LateHasModel(word: char -> bool, m: ReviewMarker)
    ensures "model" in DictOf(FieldPairs(word, LateFields(m)))
  {
    var rest := LateBegins(m);
    LatePair(word, rest);
    hide PairAt, DictOf, LateFields, Taken, Dropped;
    HasFirst(FieldPairs(word, LateFields(m)));
  }

  // ----- what is read -----

  lemma FieldsShown(word: char -> bool, m: ReviewMarker)
    requires SafeEarly(m)
    ensures FieldPairs(word, Shown(Fields(m))) == EarlyPairs(m) + FieldPairs(word, LateFields(m))
  {
    var early := Join(" ", Map(Field, EarlyPairs(m)));
    var late := "model=" + (m.modelId + (" prompt=" + m.promptVersion));
    FieldsSplit(m);
    EarlyIsSafe(word, m);
    var rest := LateBegins(m);
    assert LateFields(m) == Shown(late);
    hide Until, Shown, Fields, Join, Map, FieldPairs, EarlyPairs, LateFields, SafeEarly;
    assert Shown(late) != "";
    ShownConcat(early, late);
    PairsConcat(word, early, Shown(late));
  }

  lemma MapsAssociate<K, V>(a: map<K, V>, b: map<K, V>, c: map<K, V>)
    ensures a + (b + c) == a + b + c
  {
  }

  lemma ReadWithModel(word: char -> bool, prefix: string, m: ReviewMarker, suffix: string)
    requires Search(prefix).None? && SafeEarly(m)
    ensures Parse(word, prefix + Render(m) + suffix)
         == MarkerOf(DictOf(Extra(word, prefix)) + DictOf(EarlyPairs(m)) + DictOf(FieldPairs(word, LateFields(m))))
  {
    FieldsShown(word, m);
    ReadInBody(word, prefix, m, suffix);
    var extra, late := Extra(word, prefix), FieldPairs(word, LateFields(m));
    hide Parse, Search, Shown, Fields, Render, FieldPairs, DictOf, MarkerOf, EarlyPairs, LateFields, Extra, SafeEarly;
    DictConcat(EarlyPairs(m), late);
    DictConcat(extra, EarlyPairs(m) + late);
    MapsAssociate(DictOf(extra), DictOf(EarlyPairs(m)), DictOf(late));
  }

  // The fields from the model id on name no other head and no other workflow version, and there is a
  // prompt field: after the model id, or, if a "-->" in the id cut it off, in an unfinished block before.
  ghost predicate KeepsHead(word: char -> bool, prefix: string, m: ReviewMarker) {
    var late := DictOf(FieldPairs(word, LateFields(m)));
    && ("head_sha" in late ==> late["head_sha"] == m.headSha)
    && ("workflow_version" in late ==> late["workflow_version"] == m.workflowVersion)
    && ("prompt" in late || "prompt" in DictOf(Extra(word, prefix)))
  }

  ghost predicate NamesHeadOf(read: Option<ReviewMarker>, m: ReviewMarker) {
    read.Some? && read.value.headSha == m.headSha && read.value.workflowVersion == m.workflowVersion
  }

  lemma KeysDiffer()
    ensures "head_sha" != "workflow_version" && "head_sha" != "run" && "workflow_version" != "run"
    ensures "head_sha" != "model" && "head_sha" != "prompt"
    ensures "workflow_version" != "model" && "workflow_version" != "prompt"
    ensures "run" != "prompt" && "model" != "prompt"
  {
    assert |"run"| < |"model"| < |"prompt"| < |"head_sha"| < |"workflow_version"|;
  }

  lemma DictSnoc(pairs: seq<(string, string)>, last: (string, string))
    ensures DictOf(pairs + [last]) == DictOf(pairs)[last.0 := last.1]
  {
    assert (pairs + [last])[..|pairs|] == pairs;
  }

  lemma EarlyDict(m: ReviewMarker)
    ensures DictOf(EarlyPairs(m))
         == map[]["head_sha" := m.headSha]["workflow_version" := m.workflowVersion]["run" := m.runFingerprint]
  {
    var a, b, c := ("head_sha", m.headSha), ("workflow_version", m.workflowVersion), ("run", m.runFingerprint);
    assert EarlyPairs(m) == [] + [a] + [b] + [c];
    assert DictOf([]) == map[];
    hide DictOf, EarlyPairs;
    DictSnoc([], a);
    DictSnoc([] + [a], b);
    DictSnoc([] + [a] + [b], c);
  }

  // After text without a marker block, the head and the workflow version of any marker at all are read
  // back exactly when its model id keeps them.
  lemma HeadReadBack(word: char -> bool, prefix: string, m: ReviewMarker, suffix: string)
    requires Search(prefix).None? && SafeEarly(m)
    ensures NamesHeadOf(Parse(word, prefix + Render(m) + suffix), m) <==> KeepsHead(word, prefix, m)
  {
    ReadWithModel(word, prefix, m, suffix);
    EarlyDict(m);
    LateHasModel(word, m);
    hide Parse, Search, Render, FieldPairs, DictOf, EarlyPairs, LateFields, Extra;
    var extra, late := DictOf(Extra(word, prefix)), DictOf(FieldPairs(word, LateFields(m)));
    var early := DictOf(EarlyPairs(m));
    KeysDiffer();
    assert "prompt" !in early;
    assert "head_sha" in early && "workflow_version" in early && "run" in early;
  }

  // ----- plain model ids -----

  // A model id without "-->" that holds no "=" or no whitespace.
  ghost predicate PlainModel(model: string) {
    Until(model).None? && ('=' !in model || NoSpaces(model))
  }

  lemma PlainModelField(word: char -> bool, model: string) returns (value: string)
    requires PlainModel(model)
    ensures FieldPairs(word, "model=" + model) == [("model", value)]
  {
    LatePair(word, model);
    value := Taken(IsNotSpace, model);
    var rest := Dropped(IsNotSpace, model);
    if '=' !in model {
      assert forall c :: c in rest ==> c in model;
    } else {
      DroppedIs(IsNotSpace, model, "");
      assert model + "" == model;
    }
    hide PairAt, Taken, Dropped, Until;
    NoPairs(word, rest);
  }

  // Without a "-->" in the model id nothing cuts the fields from it on.
  lemma UncutLate(m: ReviewMarker)
    requires Until(m.modelId).None? && SafeField(m.promptVersion)
    ensures LateFields(m) == "model=" + m.modelId + (" " + ("prompt=" + m.promptVersion))
  {
    var first, last := "model=" + m.modelId, "prompt=" + m.promptVersion;
    LateText(m);
    UntilSkips("model=", m.modelId);
    UntilSkips("prompt=", m.promptVersion);
    assert !IsSpace(last[|last| - 1]);
    hide Until, IsSpace;
    UncutShown(first, last);
  }

  lemma LateText(m: ReviewMarker)
    ensures "model=" + (m.modelId + (" prompt=" + m.promptVersion))
         == "model=" + m.modelId + (" " + ("prompt=" + m.promptVersion))
  {
    assert " prompt=" == " " + "prompt=";
    ConcatAssociates(" ", "prompt=", m.promptVersion);
    ConcatAssociates("model=", m.modelId, " " + ("prompt=" + m.promptVersion));
  }

  lemma UncutShown(first: string, last: string)
    requires Until(first).None? && Until(last).None? && last != "" && !IsSpace(last[|last| - 1])
    ensures Shown(first + (" " + last)) == first + (" " + last)
  {
    var text := first + (" " + last);
    assert text[|text| - 1] == last[|last| - 1];
    hide Until, IsSpace;
    NoCloseJoin(first, ' ', last);
    assert [' '] + last == " " + last;
  }

  lemma TwoPairs(word: char -> bool, a: string, x: (string, string), b: string, y: (string, string))
    requires FieldPairs(word, a) == [x] && FieldPairs(word, b) == [y]
    ensures FieldPairs(word, a + (" " + b)) == [] + [x] + [y]
  {
    hide FieldPairs;
    PairsConcat(word, a, b);
  }

  lemma PromptPair(word: char -> bool, version: string)
    requires NoSpaces(version)
    ensures FieldPairs(word, "prompt=" + version) == [("prompt", version)]
  {
    KeyIs(word, "prompt");
    assert "prompt=" + version == Field(("prompt", version));
    hide IsKey, NoSpaces, FieldPairs, Field, Until;
    OneField(word, "prompt", version);
  }

  lemma PlainLatePairs(word: char -> bool, m: ReviewMarker) returns (value: string)
    requires PlainModel(m.modelId) && SafeField(m.promptVersion)
    ensures FieldPairs(word, LateFields(m)) == [] + [("model", value)] + [("prompt", m.promptVersion)]
  {
    assert NoSpaces(m.promptVersion);
    hide Until, NoSpaces, FieldPairs, LateFields;
    UncutLate(m);
    value := PlainModelField(word, m.modelId);
    PromptPair(word, m.promptVersion);
    TwoPairs(word, "model=" + m.modelId, ("model", value), "prompt=" + m.promptVersion, ("prompt", m.promptVersion));
  }

  // Plain model ids keep the head and the workflow version.
  lemma PlainModelKeepsHead(word: char -> bool, prefix: string, m: ReviewMarker)
    requires PlainModel(m.modelId) && SafeField(m.promptVersion)
    ensures KeepsHead(word, prefix, m)
  {
    var value := PlainLatePairs(word, m);
    var first, last := ("model", value), ("prompt", m.promptVersion);
    assert DictOf([]) == map[];
    KeysDiffer();
    hide DictOf, FieldPairs, LateFields, Until, Extra, IsSpace;
    DictSnoc([], first);
    DictSnoc([] + [first], last);
  }

  // ----- a model id that hides the head -----

  // A model id that brings a head of its own.
  const HIDING_MODEL := "x" + (" " + ("head_sha=" + "y"))

  lemma LiteralPair(word: char -> bool, key: string, start: string, value: string)
    requires key != "" && forall c :: c in key ==> 'a' <= c <= 'z' || c == '_'
    requires start == key + "=" && NoSpaces(value)
    ensures FieldPairs(word, start + value) == [(key, value)]
  {
    KeyIs(word, key);
    assert Field((key, value)) == start + value;
    hide IsKey, NoSpaces, FieldPairs, Field, Until;
    OneField(word, key, value);
  }

  lemma HidingModelUncut()
    ensures Until(HIDING_MODEL).None?
  {
    NoAngleNoClose(HIDING_MODEL);
  }

  lemma HidingModelField(word: char -> bool)
    ensures FieldPairs(word, "model=" + HIDING_MODEL) == [] + [("model", "x")] + [("head_sha", "y")]
  {
    assert NoSpaces("x") && NoSpaces("y");
    hide NoSpaces, FieldPairs;
    LiteralPair(word, "model", "model=", "x");
    LiteralPair(word, "head_sha", "head_sha=", "y");
    var first, last := "model=" + "x", "head_sha=" + "y";
    TwoPairs(word, first, ("model", "x"), last, ("head_sha", "y"));
    ConcatAssociates("model=", "x", " " + last);
  }

  lemma HidingLatePairs(word: char -> bool, m: ReviewMarker)
    requires m.modelId == HIDING_MODEL && SafeField(m.promptVersion)
    ensures FieldPairs(word, LateFields(m))
         == [] + [("model", "x")] + [("head_sha", "y")] + [("prompt", m.promptVersion)]
  {
    assert NoSpaces(m.promptVersion);
    hide Until, NoSpaces, FieldPairs, LateFields;
    HidingModelField(word);
    HidingModelUncut();
    UncutLate(m);
    PromptPair(word, m.promptVersion);
    PairsConcat(word, "model=" + m.modelId, "prompt=" + m.promptVersion);
  }

  // With it, no marker for another head is read back.
  lemma HidingModelLosesHead(word: char -> bool, prefix: string, m: ReviewMarker)
    requires m.modelId == HIDING_MODEL && m.headSha != "y" && SafeField(m.promptVersion)
    ensures !KeepsHead(word, prefix, m)
  {
    HidingLatePairs(word, m);
    var a, b, c := ("model", "x"), ("head_sha", "y"), ("prompt", m.promptVersion);
    assert DictOf([]) == map[];
    KeysDiffer();
    hide DictOf, FieldPairs, LateFields, Until, Extra, IsSpace;
    DictSnoc([], a);
    DictSnoc([] + [a], b);
    DictSnoc([] + [a] + [b], c);
  }
}
