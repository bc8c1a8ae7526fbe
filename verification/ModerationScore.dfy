/** Combined moderation score and risk-tier routing of moderation-svc. Scores are exact reals. */
module ModerationScore {
  import opened Basics

  // ---------- Data ----------

  /** A Rekognition label; an absent parent or name is the empty string. */
  datatype Label = Label(parentName: string, name: string, confidence: real)

  datatype Duplicate = Duplicate(phash: bool, chromaprint: bool, semantic: bool)

  datatype Content = Content(
    scores: map<string, real>,
    flagged: set<string>,
    labels: seq<Label>,
    duplicate: Duplicate,
    ipClaim: bool)

  datatype Settings = Settings(weights: map<string, real>, dupBump: real, tier1: real, tier2: real, tier3: real)

  datatype Action = AllowLog | SoftWarnUserQueue | HideContentQueue | AutoHideTempMuteQueue

  datatype Reason = CsamPath | HarassmentThreatening | ViolenceGraphic | HateSymbols | IpClaim

  datatype Decision = Decision(
    action: Action,
    tier: nat,
    slaHours: Option<nat>,
    forced: bool,
    reason: Option<Reason>,
    csam: bool)

  const CSAM := "sexual/minors"
  const THREAT := "harassment/threatening"
  const GRAPHIC := "violence/graphic"
  const HATE := "Hate Symbols"

  // ---------- Maxima ----------

  function Max(a: real, b: real): real {
    if a >= b then a else b
  }

  /** m is the greatest of a base value and a set of terms. */
  ghost predicate IsMax(m: real, base: real, terms: set<real>) {
    base <= m && (forall x :: x in terms ==> x <= m) && (m == base || m in terms)
  }

  lemma {:induction false} SomeElement<T>(s: set<T>) returns (x: T)
    requires s != {}
    ensures x in s
  {
    x :| x in s;
  }

  lemma {:induction false} MaxOfInsert(base: real, terms: set<real>, x: real, m: real)
    requires IsMax(m, base, terms)
    ensures IsMax(Max(x, m), base, terms + {x})
  {
  }

  ghost function MaxOf(base: real, terms: set<real>): (m: real)
    ensures IsMax(m, base, terms)
    decreases terms
  {
    if terms == {} then base
    else
      assert exists x :: x in terms by { var y := SomeElement(terms); }
      var x :| x in terms;
      var m := MaxOf(base, terms - {x});
      MaxOfInsert(base, terms - {x}, x, m);
      assert terms - {x} + {x} == terms;
      Max(x, m)
  }

  /** Each term of one set is bounded by a term of the other, or by the base. */
  ghost predicate Dominated(base: real, terms: set<real>, upper: set<real>) {
    forall x :: x in terms ==> x <= base || exists y :: y in upper && x <= y
  }

  lemma {:induction false} MaxMonotone(base: real, a: set<real>, b: set<real>)
    requires Dominated(base, a, b)
    ensures MaxOf(base, a) <= MaxOf(base, b)
  {
  }

  // ---------- Specification of the score ----------

  function Weight(s: Settings, category: string): real {
    if category in s.weights then s.weights[category] else 1.0
  }

  function ImageWeight(s: Settings, parent: string): real {
    if "Rekognition:" + parent in s.weights then s.weights["Rekognition:" + parent] else Weight(s, parent)
  }

  function Parent(l: Label): string {
    if l.parentName != "" then l.parentName else l.name
  }

  function Confidence(l: Label): real {
    l.confidence / 100.0
  }

  function AnyMatch(d: Duplicate): bool {
    d.phash || d.chromaprint || d.semantic
  }

  function TextTerm(s: Settings, category: string, score: real): real {
    Weight(s, category) * score
  }

  function ImageTerm(s: Settings, parent: string, confidence: real): real {
    ImageWeight(s, parent) * confidence
  }

  /** Weighted and bare text scores. */
  ghost function TextTerms(s: Settings, scores: map<string, real>): set<real> {
    (set c | c in scores :: TextTerm(s, c, scores[c])) + (set c | c in scores :: scores[c])
  }

  /** Every label weighted on its own, without grouping. */
  ghost function LabelTerms(s: Settings, labels: seq<Label>): set<real> {
    set l | l in labels :: ImageTerm(s, Parent(l), Confidence(l))
  }

  function Parents(labels: seq<Label>): set<string> {
    set l | l in labels :: Parent(l)
  }

  function Confidences(labels: seq<Label>, parent: string): set<real> {
    set l | l in labels && Parent(l) == parent :: Confidence(l)
  }

  ghost function ParentScore(labels: seq<Label>, parent: string): real {
    MaxOf(0.0, Confidences(labels, parent))
  }

  /** Labels grouped by parent first, each group weighted once. */
  ghost function GroupTerms(s: Settings, labels: seq<Label>): set<real> {
    set p | p in Parents(labels) :: ImageTerm(s, p, ParentScore(labels, p))
  }

  ghost function ScoreFrom(s: Settings, c: Content, image: real): real {
    var raw := Max(MaxOf(0.0, TextTerms(s, c.scores)), image) + (if AnyMatch(c.duplicate) then s.dupBump else 0.0);
    if raw <= 1.0 then raw else 1.0
  }

  ghost function Score(s: Settings, c: Content): real {
    ScoreFrom(s, c, MaxOf(0.0, GroupTerms(s, c.labels)))
  }

  // ---------- Specification of the tier ----------

  function ThresholdTier(s: Settings, score: real): nat {
    if score < s.tier1 then 0 else if score < s.tier2 then 1 else if score < s.tier3 then 2 else 3
  }

  predicate Forced(c: Content) {
    THREAT in c.flagged || GRAPHIC in c.flagged || HATE in Parents(c.labels) || c.ipClaim
  }

  function Tier(s: Settings, c: Content, score: real): nat {
    if CSAM in c.flagged then 3
    else if Forced(c) && ThresholdTier(s, score) == 0 then 1
    else ThresholdTier(s, score)
  }

  // ---------- Grouping ----------

  /** A weight may be negative only on labels of non-negative confidence. */
  predicate Weighable(s: Settings, labels: seq<Label>) {
    forall l :: l in labels ==> ImageWeight(s, Parent(l)) >= 0.0 || l.confidence >= 0.0
  }

  lemma {:induction false} ImageTermMonotone(s: Settings, parent: string, x: real, y: real)
    requires x <= y && ImageWeight(s, parent) >= 0.0
    ensures ImageTerm(s, parent, x) <= ImageTerm(s, parent, y)
  {
    assert ImageWeight(s, parent) * (y - x) >= 0.0;
  }

  lemma {:induction false} TextTermMonotone(s: Settings, category: string, x: real, y: real)
    requires x <= y && Weight(s, category) >= 0.0
    ensures TextTerm(s, category, x) <= TextTerm(s, category, y)
  {
    assert Weight(s, category) * (y - x) >= 0.0;
  }

  /** A label counts within its group for at least what it counts alone. */
  lemma {:induction false} LabelWithinGroup(s: Settings, labels: seq<Label>, l: Label)
    requires l in labels && (ImageWeight(s, Parent(l)) >= 0.0 || l.confidence >= 0.0)
    ensures var p, alone := Parent(l), ImageTerm(s, Parent(l), Confidence(l));
            alone <= 0.0 || alone <= ImageTerm(s, p, ParentScore(labels, p))
  {
    var p := Parent(l);
    assert Confidence(l) in Confidences(labels, p);
    if ImageWeight(s, p) >= 0.0 {
      ImageTermMonotone(s, p, Confidence(l), ParentScore(labels, p));
    } else {
      assert (-ImageWeight(s, p)) * Confidence(l) >= 0.0;
    }
  }

  /** A group counts for nothing, or for what one of its labels counts. */
  lemma {:induction false} GroupFromLabel(s: Settings, labels: seq<Label>, p: string)
    ensures ImageTerm(s, p, ParentScore(labels, p)) == 0.0
            || exists l :: l in labels && Parent(l) == p && ParentScore(labels, p) == Confidence(l)
  {
    var m := ParentScore(labels, p);
    if m != 0.0 {
      var l :| l in labels && Parent(l) == p && m == Confidence(l);
    }
  }

  /** Grouping labels by parent and then weighting the groups gives the same maximum as weighting
      every label by itself. */
  lemma {:induction false} GroupThenWeight(s: Settings, labels: seq<Label>)
    requires Weighable(s, labels)
    ensures MaxOf(0.0, GroupTerms(s, labels)) == MaxOf(0.0, LabelTerms(s, labels))
  {
    forall x | x in LabelTerms(s, labels) ensures x <= 0.0 || exists y :: y in GroupTerms(s, labels) && x <= y {
      var l :| l in labels && x == ImageTerm(s, Parent(l), Confidence(l));
      LabelWithinGroup(s, labels, l);
      assert Parent(l) in Parents(labels);
      assert ImageTerm(s, Parent(l), ParentScore(labels, Parent(l))) in GroupTerms(s, labels);
    }
    forall y | y in GroupTerms(s, labels) ensures y <= 0.0 || exists x :: x in LabelTerms(s, labels) && y <= x {
      var p :| p in Parents(labels) && y == ImageTerm(s, p, ParentScore(labels, p));
      GroupFromLabel(s, labels, p);
      if y != 0.0 {
        var l :| l in labels && Parent(l) == p && ParentScore(labels, p) == Confidence(l);
        assert ImageTerm(s, Parent(l), Confidence(l)) in LabelTerms(s, labels);
      }
    }
    MaxMonotone(0.0, LabelTerms(s, labels), GroupTerms(s, labels));
    MaxMonotone(0.0, GroupTerms(s, labels), LabelTerms(s, labels));
  }

  lemma {:induction false} NegativeFactors(w: real, x: real)
    requires w < 0.0 && x < 0.0
    ensures w * x > 0.0
  {
  }

  /** The condition on weights and confidences is exact: already for one label alone, grouping keeps
      the maximum if and only if not both are negative. */
  lemma {:induction false} GroupingOfOne(s: Settings, l: Label)
    ensures MaxOf(0.0, GroupTerms(s, [l])) == MaxOf(0.0, LabelTerms(s, [l])) <==>
            ImageWeight(s, Parent(l)) >= 0.0 || l.confidence >= 0.0
  {
    if ImageWeight(s, Parent(l)) >= 0.0 || l.confidence >= 0.0 {
      GroupThenWeight(s, [l]);
    } else {
      assert Confidences([l], Parent(l)) == {Confidence(l)};
      assert GroupTerms(s, [l]) <= {ImageTerm(s, Parent(l), 0.0)};
      assert l in [l];
      assert ImageTerm(s, Parent(l), Confidence(l)) in LabelTerms(s, [l]);
      NegativeFactors(ImageWeight(s, Parent(l)), Confidence(l));
    }
  }

  /** Label order and repetition do not matter: only which labels occur does. */
  lemma {:induction false} LabelOrderIrrelevant(s: Settings, c: Content, labels: seq<Label>)
    requires forall l :: l in labels <==> l in c.labels
    ensures var c' := c.(labels := labels);
            Score(s, c') == Score(s, c) && Tier(s, c', Score(s, c')) == Tier(s, c, Score(s, c))
  {
    assert Parents(labels) == Parents(c.labels);
    forall p ensures ParentScore(labels, p) == ParentScore(c.labels, p) {
      assert Confidences(labels, p) == Confidences(c.labels, p);
    }
    assert GroupTerms(s, labels) == GroupTerms(s, c.labels);
  }

  // ---------- What bounds the score ----------

  /** A category's score times its weight. */
  function WeighedCategory(s: Settings, category: string, score: real): real {
    (if category in s.weights then s.weights[category] else 1.0) * score
  }

  /** A label's confidence, of a hundred, times the weight of its parent or else its name: the
      Rekognition one first, then the plain one. */
  function WeighedLabel(s: Settings, l: Label): real {
    var p := if l.parentName != "" then l.parentName else l.name;
    var weight :=
      if "Rekognition:" + p in s.weights then s.weights["Rekognition:" + p]
      else if p in s.weights then s.weights[p]
      else 1.0;
    weight * (l.confidence / 100.0)
  }

  predicate TextScores(s: Settings, scores: map<string, real>, x: real) {
    exists category :: category in scores &&
      (x == scores[category] || x == WeighedCategory(s, category, scores[category]))
  }

  predicate ImageScores(s: Settings, labels: seq<Label>, x: real) {
    exists l :: l in labels && x == WeighedLabel(s, l)
  }

  lemma {:induction false} TextTermIs(s: Settings, category: string, score: real)
    ensures TextTerm(s, category, score) == WeighedCategory(s, category, score)
  {
  }

  lemma {:induction false} LabelTermIs(s: Settings, l: Label)
    ensures ImageTerm(s, Parent(l), Confidence(l)) == WeighedLabel(s, l)
  {
  }

  lemma {:induction false} TextTermsAreScores(s: Settings, scores: map<string, real>, x: real)
    ensures x in TextTerms(s, scores) <==> TextScores(s, scores, x)
  {
    forall k: string, y: real ensures TextTerm(s, k, y) == WeighedCategory(s, k, y) { TextTermIs(s, k, y); }
    if k :| k in scores && (x == scores[k] || x == WeighedCategory(s, k, scores[k])) {
      assert scores[k] in TextTerms(s, scores) && TextTerm(s, k, scores[k]) in TextTerms(s, scores);
    }
  }

  lemma {:induction false} LabelTermsAreScores(s: Settings, labels: seq<Label>, x: real)
    ensures x in LabelTerms(s, labels) <==> ImageScores(s, labels, x)
  {
    forall l: Label ensures ImageTerm(s, Parent(l), Confidence(l)) == WeighedLabel(s, l) { LabelTermIs(s, l); }
    if l :| l in labels && x == WeighedLabel(s, l) {
      assert ImageTerm(s, Parent(l), Confidence(l)) in LabelTerms(s, labels);
    }
  }

  /** The score is the greatest of zero, the bare and weighted categories and the weighted labels, with
      the bump of a duplicate on top, and never above one. */
  lemma {:induction false} ScoreIsGreatest(s: Settings, c: Content) returns (top: real)
    requires Weighable(s, c.labels)
    ensures top == 0.0 || TextScores(s, c.scores, top) || ImageScores(s, c.labels, top)
    ensures 0.0 <= top && forall x :: TextScores(s, c.scores, x) || ImageScores(s, c.labels, x) ==> x <= top
    ensures var raw := top + (if c.duplicate.phash || c.duplicate.chromaprint || c.duplicate.semantic
                              then s.dupBump else 0.0);
            Score(s, c) == if raw <= 1.0 then raw else 1.0
  {
    var text, image := MaxOf(0.0, TextTerms(s, c.scores)), MaxOf(0.0, LabelTerms(s, c.labels));
    top := Max(text, image);
    GroupThenWeight(s, c.labels);
    forall x ensures x in TextTerms(s, c.scores) <==> TextScores(s, c.scores, x) {
      TextTermsAreScores(s, c.scores, x);
    }
    forall x ensures x in LabelTerms(s, c.labels) <==> ImageScores(s, c.labels, x) {
      LabelTermsAreScores(s, c.labels, x);
    }
  }

  // ---------- Monotonicity ----------

  /** Everything that speaks against a speaks against b at least as much. */
  ghost predicate NoWorse(a: Content, b: Content) {
    && (forall c :: c in a.scores ==> c in b.scores && a.scores[c] <= b.scores[c])
    && a.flagged <= b.flagged
    && (forall l :: l in a.labels ==>
          exists k :: k in b.labels && Parent(k) == Parent(l) && l.confidence <= k.confidence)
    && (AnyMatch(a.duplicate) ==> AnyMatch(b.duplicate))
    && (a.ipClaim ==> b.ipClaim)
  }

  /** Every score that is weighed negatively is itself non-negative. */
  predicate Scorable(s: Settings, scores: map<string, real>) {
    forall c :: c in scores ==> Weight(s, c) >= 0.0 || scores[c] >= 0.0
  }

  lemma {:induction false} NegativeTerm(w: real, x: real)
    requires w <= 0.0 <= x
    ensures w * x <= 0.0
  {
  }

  lemma {:induction false} TextMonotone(s: Settings, a: Content, b: Content)
    requires Scorable(s, a.scores) && NoWorse(a, b)
    ensures MaxOf(0.0, TextTerms(s, a.scores)) <= MaxOf(0.0, TextTerms(s, b.scores))
  {
    forall x | x in TextTerms(s, a.scores) ensures x <= 0.0 || exists y :: y in TextTerms(s, b.scores) && x <= y {
      if c :| c in a.scores && x == TextTerm(s, c, a.scores[c]) {
        if Weight(s, c) >= 0.0 {
          TextTermMonotone(s, c, a.scores[c], b.scores[c]);
          assert TextTerm(s, c, b.scores[c]) in TextTerms(s, b.scores);
        } else {
          NegativeTerm(Weight(s, c), a.scores[c]);
        }
      } else {
        var c :| c in a.scores && x == a.scores[c];
        assert b.scores[c] in TextTerms(s, b.scores);
      }
    }
    MaxMonotone(0.0, TextTerms(s, a.scores), TextTerms(s, b.scores));
  }

  lemma {:induction false} ParentsMonotone(a: Content, b: Content)
    requires NoWorse(a, b)
    ensures Parents(a.labels) <= Parents(b.labels)
  {
    forall p | p in Parents(a.labels) ensures p in Parents(b.labels) {
      var l :| l in a.labels && Parent(l) == p;
      var k :| k in b.labels && Parent(k) == Parent(l) && l.confidence <= k.confidence;
    }
  }

  lemma {:induction false} ParentScoreMonotone(a: Content, b: Content, p: string)
    requires NoWorse(a, b)
    ensures ParentScore(a.labels, p) <= ParentScore(b.labels, p)
  {
    forall x | x in Confidences(a.labels, p) ensures exists y :: y in Confidences(b.labels, p) && x <= y {
      var l :| l in a.labels && Parent(l) == p && x == Confidence(l);
      var k :| k in b.labels && Parent(k) == Parent(l) && l.confidence <= k.confidence;
      assert Confidence(k) in Confidences(b.labels, p);
    }
    MaxMonotone(0.0, Confidences(a.labels, p), Confidences(b.labels, p));
  }

  lemma {:induction false} GroupMonotone(s: Settings, a: Content, b: Content, p: string)
    requires NoWorse(a, b)
    ensures var x := ImageTerm(s, p, ParentScore(a.labels, p));
            x <= 0.0 || x <= ImageTerm(s, p, ParentScore(b.labels, p))
  {
    ParentScoreMonotone(a, b, p);
    if ImageWeight(s, p) >= 0.0 {
      ImageTermMonotone(s, p, ParentScore(a.labels, p), ParentScore(b.labels, p));
    } else {
      NegativeTerm(ImageWeight(s, p), ParentScore(a.labels, p));
    }
  }

  /** Grouped scores start from zero, so the images need no condition on the weights. */
  lemma {:induction false} ImageMonotone(s: Settings, a: Content, b: Content)
    requires NoWorse(a, b)
    ensures MaxOf(0.0, GroupTerms(s, a.labels)) <= MaxOf(0.0, GroupTerms(s, b.labels))
  {
    ParentsMonotone(a, b);
    forall x | x in GroupTerms(s, a.labels) ensures x <= 0.0 || exists y :: y in GroupTerms(s, b.labels) && x <= y {
      var p :| p in Parents(a.labels) && x == ImageTerm(s, p, ParentScore(a.labels, p));
      GroupMonotone(s, a, b, p);
      assert ImageTerm(s, p, ParentScore(b.labels, p)) in GroupTerms(s, b.labels);
    }
    MaxMonotone(0.0, GroupTerms(s, a.labels), GroupTerms(s, b.labels));
  }

  /** In whatever order the thresholds are given. */
  lemma {:induction false} TierMonotone(s: Settings, a: Content, b: Content, x: real, y: real)
    requires NoWorse(a, b) && x <= y
    ensures Tier(s, a, x) <= Tier(s, b, y)
  {
    ParentsMonotone(a, b);
    assert Forced(a) ==> Forced(b);
  }

  /** Raising a score or a confidence, adding a category, label or flag, or gaining a duplicate match
      or an IP claim never lowers the combined score or the tier, provided that a duplicate match does
      not earn a negative bump and no negative score meets a negative weight. */
  lemma {:induction false} WorseContentNeverRoutedLower(s: Settings, a: Content, b: Content)
    requires NoWorse(a, b) && Scorable(s, a.scores)
    requires 0.0 <= s.dupBump || AnyMatch(a.duplicate) == AnyMatch(b.duplicate)
    ensures Score(s, a) <= Score(s, b) && Tier(s, a, Score(s, a)) <= Tier(s, b, Score(s, b))
  {
    TextMonotone(s, a, b);
    ImageMonotone(s, a, b);
    TierMonotone(s, a, b, Score(s, a), Score(s, b));
  }

  function Blank(): Content {
    Content(map[], {}, [], Duplicate(false, false, false), false)
  }

  /** No content scores above another that is no better. Scores below zero may be left out. */
  ghost predicate Monotone(s: Settings, allowNegative: bool) {
    forall a, b :: NoWorse(a, b) && (allowNegative || forall c :: c in a.scores ==> a.scores[c] >= 0.0) ==>
      Score(s, a) <= Score(s, b)
  }

  lemma {:induction false} TextOfOne(s: Settings, category: string, x: real)
    ensures MaxOf(0.0, TextTerms(s, map[category := x])) == Max(0.0, Max(x, TextTerm(s, category, x)))
  {
    var scores := map[category := x];
    var t := TextTerm(s, category, x);
    assert scores[category] in TextTerms(s, scores);
    assert TextTerm(s, category, scores[category]) in TextTerms(s, scores);
    assert forall e :: e in TextTerms(s, scores) ==> e == t || e == x;
  }

  lemma {:induction false} ScoreOfOne(s: Settings, category: string, x: real)
    ensures var m := Max(0.0, Max(x, TextTerm(s, category, x)));
            Score(s, Blank().(scores := map[category := x])) == if m <= 1.0 then m else 1.0
  {
    TextOfOne(s, category, x);
    assert GroupTerms(s, []) == {};
  }

  /** Scores grow with their signals exactly when the settings have no negative bump and, if scores
      below zero occur at all, no negative weight. */
  lemma {:induction false} MonotoneIff(s: Settings, allowNegative: bool)
    ensures Monotone(s, allowNegative) <==>
            0.0 <= s.dupBump && (allowNegative ==> forall k :: k in s.weights ==> s.weights[k] >= 0.0)
  {
    if 0.0 <= s.dupBump && (allowNegative ==> forall k :: k in s.weights ==> s.weights[k] >= 0.0) {
      forall a, b | NoWorse(a, b) && (allowNegative || forall c :: c in a.scores ==> a.scores[c] >= 0.0)
        ensures Score(s, a) <= Score(s, b)
      {
        WorseContentNeverRoutedLower(s, a, b);
      }
    } else if s.dupBump < 0.0 {
      var a, b := Blank(), Blank().(duplicate := Duplicate(true, false, false));
      assert TextTerms(s, map[]) == {} && GroupTerms(s, []) == {};
      assert NoWorse(a, b) && Score(s, b) < Score(s, a);
    } else {
      var k :| k in s.weights && s.weights[k] < 0.0;
      var a, b := Blank().(scores := map[k := -1.0]), Blank().(scores := map[k := 0.0]);
      ScoreOfOne(s, k, -1.0);
      ScoreOfOne(s, k, 0.0);
      assert NoWorse(a, b) && Score(s, b) < Score(s, a);
    }
  }

  // ---------- The algorithm ----------

  ghost predicate Collected(scores: map<string, real>, labels: seq<Label>) {
    && scores.Keys == Parents(labels)
    && forall p :: p in scores ==> scores[p] == ParentScore(labels, p)
  }

  lemma {:induction false} ParentScoreOfAppend(labels: seq<Label>, item: Label, p: string)
    ensures ParentScore(labels + [item], p) ==
            if p == Parent(item) then Max(ParentScore(labels, p), Confidence(item)) else ParentScore(labels, p)
    ensures p !in Parents(labels) ==> ParentScore(labels, p) == 0.0
  {
    var before, after := Confidences(labels, p), Confidences(labels + [item], p);
    if p == Parent(item) {
      assert after == before + {Confidence(item)};
    } else {
      assert after == before;
    }
    if p !in Parents(labels) { assert before == {}; }
  }

  lemma {:induction false} CollectedAppend(scores: map<string, real>, labels: seq<Label>, item: Label)
    requires Collected(scores, labels)
    ensures var p := Parent(item);
            Collected(scores[p := Max(if p in scores then scores[p] else 0.0, Confidence(item))], labels + [item])
  {
    assert Parents(labels + [item]) == Parents(labels) + {Parent(item)};
    forall q ensures ParentScore(labels + [item], q) ==
                     if q == Parent(item) then Max(ParentScore(labels, q), Confidence(item)) else ParentScore(labels, q)
    {
      ParentScoreOfAppend(labels, item, q);
    }
    ParentScoreOfAppend(labels, item, Parent(item));
  }

  method ParentScores(labels: seq<Label>) returns (scores: map<string, real>)
    ensures scores.Keys == Parents(labels)
    ensures forall p :: p in scores ==> scores[p] == ParentScore(labels, p)
  {
    scores := map[];
    for i := 0 to |labels|
      invariant Collected(scores, labels[..i])
    {
      var item := labels[i];
      var parent, conf := Parent(item), Confidence(item);
      assert labels[..i + 1] == labels[..i] + [item];
      CollectedAppend(scores, labels[..i], item);
      scores := scores[parent := Max(if parent in scores then scores[parent] else 0.0, conf)];
    }
    assert labels[..|labels|] == labels;
  }

  method TextWeighted(s: Settings, scores: map<string, real>) returns (text: real)
    ensures text == MaxOf(0.0, TextTerms(s, scores))
  {
    var maxScore := 0.0;
    text := 0.0;
    var todo, first := scores.Keys, true;
    while todo != {}
      invariant todo <= scores.Keys && (first <==> todo == scores.Keys)
      invariant IsMax(text, 0.0, set c | c in scores.Keys - todo :: TextTerm(s, c, scores[c]))
      invariant if first then maxScore == 0.0
                else exists c :: c in scores.Keys - todo
                              && IsMax(maxScore, scores[c], set k | k in scores.Keys - todo :: scores[k])
      decreases todo
    {
      var cat :| cat in todo;
      ghost var seen := scores.Keys - todo;
      ghost var c0 :=
        if first then cat
        else var c :| c in seen && IsMax(maxScore, scores[c], set k | k in seen :: scores[k]); c;
      text := Max(text, TextTerm(s, cat, scores[cat]));
      maxScore := if first then scores[cat] else Max(maxScore, scores[cat]);
      todo, first := todo - {cat}, false;
      assert scores.Keys - todo == seen + {cat};
      assert (set c | c in seen + {cat} :: TextTerm(s, c, scores[c]))
          == (set c | c in seen :: TextTerm(s, c, scores[c])) + {TextTerm(s, cat, scores[cat])};
      assert (set c | c in seen + {cat} :: scores[c]) == (set c | c in seen :: scores[c]) + {scores[cat]};
      assert IsMax(maxScore, scores[c0], set k | k in scores.Keys - todo :: scores[k]);
    }
    text := Max(text, maxScore);
    assert scores.Keys - {} == scores.Keys;
    assert IsMax(text, 0.0, TextTerms(s, scores));
  }

  method ImageWeighted(s: Settings, labels: seq<Label>) returns (image: real)
    ensures image == MaxOf(0.0, GroupTerms(s, labels))
  {
    var parents := ParentScores(labels);
    image := 0.0;
    var todo := parents.Keys;
    ghost var terms: set<real> := {};
    while todo != {}
      invariant todo <= parents.Keys
      invariant terms == set p | p in parents.Keys - todo :: ImageTerm(s, p, parents[p])
      invariant IsMax(image, 0.0, terms)
      decreases todo
    {
      var p :| p in todo;
      var term := ImageTerm(s, p, parents[p]);
      MaxOfInsert(0.0, terms, term, image);
      image := Max(image, term);
      assert parents.Keys - (todo - {p}) == (parents.Keys - todo) + {p};
      todo, terms := todo - {p}, terms + {term};
    }
    assert terms == GroupTerms(s, labels);
  }

  /** Which content reaches which tier, for thresholds in any order: CSAM always the top one, the rest
      by score, except that forced review starts at tier 1. */
  lemma {:induction false} TierIff(s: Settings, c: Content, score: real)
    ensures var tier := Tier(s, c, score);
            var forced := || "harassment/threatening" in c.flagged || "violence/graphic" in c.flagged || c.ipClaim
                          || (exists l :: l in c.labels && l.parentName == "Hate Symbols")
                          || (exists l :: l in c.labels && l.parentName == "" && l.name == "Hate Symbols");
            && tier <= 3
            && ("sexual/minors" in c.flagged ==> tier == 3)
            && ("sexual/minors" !in c.flagged ==>
                  && (tier >= 1 <==> forced || s.tier1 <= score)
                  && (tier >= 2 <==> s.tier1 <= score && s.tier2 <= score)
                  && (tier >= 3 <==> s.tier1 <= score && s.tier2 <= score && s.tier3 <= score))
  {
  }

  /** When the promise of tier 2 for forced cases is kept: for CSAM, and otherwise exactly for scores
      that reach both lower thresholds, forced or not. */
  lemma {:induction false} ForcedReachesTierTwoIff(s: Settings, c: Content, score: real)
    requires Forced(c) || CSAM in c.flagged
    ensures Tier(s, c, score) >= 2 <==> CSAM in c.flagged || (s.tier1 <= score && s.tier2 <= score)
  {
  }

  /** The loops take the dictionaries in whatever order; where no label has both a negative weight
      and a negative confidence, the score is that of the labels weighed one by one. */
  method CombinedScore(s: Settings, c: Content) returns (score: real)
    ensures score == Score(s, c)
    ensures Weighable(s, c.labels) ==> score == ScoreFrom(s, c, MaxOf(0.0, LabelTerms(s, c.labels)))
    ensures score <= 1.0 && (0.0 <= s.dupBump ==> 0.0 <= score)
  {
    var text := TextWeighted(s, c.scores);
    var image := ImageWeighted(s, c.labels);
    var bump := if AnyMatch(c.duplicate) then s.dupBump else 0.0;
    var raw := Max(text, image);
    score := if raw + bump <= 1.0 then raw + bump else 1.0;
    if Weighable(s, c.labels) { GroupThenWeight(s, c.labels); }
  }

  /** CSAM goes to the top tier; other forced cases to tier 1 at least, one below what the comment
      beside that step says; the rest by score alone. */
  method Route(s: Settings, c: Content, score: real) returns (d: Decision)
    ensures d.tier == Tier(s, c, score) <= 3
    ensures d.tier == 0 ==> d.action == AllowLog && d.slaHours == None
    ensures d.tier == 1 ==> d.action == SoftWarnUserQueue && d.slaHours == Some(24)
    ensures d.tier == 2 ==> d.action == HideContentQueue && d.slaHours == Some(6)
    ensures d.tier == 3 ==> d.action == AutoHideTempMuteQueue && d.slaHours == Some(1)
    ensures d.csam <==> "sexual/minors" in c.flagged
    ensures d.forced <==> d.csam || Forced(c)
    ensures d.forced <==> d.reason.Some?
    ensures d.reason == Some(CsamPath) <==> d.csam
    ensures d.reason == Some(HarassmentThreatening) <==> !d.csam && "harassment/threatening" in c.flagged
    ensures d.reason == Some(ViolenceGraphic) <==>
            !d.csam && "harassment/threatening" !in c.flagged && "violence/graphic" in c.flagged
    ensures d.reason == Some(HateSymbols) <==>
            !d.csam && "harassment/threatening" !in c.flagged && "violence/graphic" !in c.flagged
            && "Hate Symbols" in Parents(c.labels)
    ensures d.reason == Some(IpClaim) <==>
            !d.csam && "harassment/threatening" !in c.flagged && "violence/graphic" !in c.flagged
            && "Hate Symbols" !in Parents(c.labels) && c.ipClaim
  {
    if CSAM in c.flagged {
      return Decision(AutoHideTempMuteQueue, 3, Some(1), true, Some(CsamPath), true);
    }
    var reason: Option<Reason> := None;
    if THREAT in c.flagged {
      reason := Some(HarassmentThreatening);
    } else if GRAPHIC in c.flagged {
      reason := Some(ViolenceGraphic);
    } else if HATE in Parents(c.labels) {
      reason := Some(HateSymbols);
    } else if c.ipClaim {
      reason := Some(IpClaim);
    }
    var action, tier, sla := AutoHideTempMuteQueue, 3, Some(1);
    if score < s.tier1 {
      action, tier, sla := AllowLog, 0, None;
    } else if score < s.tier2 {
      action, tier, sla := SoftWarnUserQueue, 1, Some(24);
    } else if score < s.tier3 {
      action, tier, sla := HideContentQueue, 2, Some(6);
    }
    if reason.Some? && tier == 0 {
      action, tier, sla := SoftWarnUserQueue, 1, Some(24);
    }
    d := Decision(action, tier, sla, reason.Some?, reason, false);
  }
}
