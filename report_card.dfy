/** The report-card arithmetic of src/shared/report/report.utils.ts: scores read from loosely
    shaped analytics, clamped to 0..100, grouped per subject, graded and summarised. */
module ReportCard {
  import opened Js
  import opened ReportTypes
  import opened ReportNormalize

  // ---------------------------------------------------------------------------------------
  // Numbers and scores

  /** getNumber: a finite number, or a string that `Number()` reads as a finite number. */
  function GetNumber(v: Value): (r: Option<real>)
    ensures v.Number? ==> (r.Some? <==> v.n.Finite?)
    ensures v.Str? ==> (r.Some? <==> StringToNumber(v.s).Finite?)
    ensures !v.Number? && !v.Str? ==> r.None?
  {
    match v
    case Number(n) => if n.Finite? then Some(RealOf(n.d)) else None
    case Str(s) =>
      var parsed := StringToNumber(s);
      if parsed.Finite? then Some(RealOf(parsed.d)) else None
    case _ => None
  }

  /** clampScore: Math.round, then limited to 0..100. */
  function ClampScore(x: real): (r: int)
    ensures 0 <= r <= 100
    ensures 0 <= Round(x) <= 100 ==> r == Round(x)
    ensures Round(x) < 0 ==> r == 0
    ensures Round(x) > 100 ==> r == 100
  {
    var n := Round(x);
    if n < 0 then 0 else if n > 100 then 100 else n
  }

  /** A score already in 0..100 is its own clamp. */
  lemma ClampKeepsScore(n: int)
    requires 0 <= n <= 100
    ensures ClampScore(n as real) == n
  {
    assert Round(n as real) == n;
  }

  /** Clamping is monotone. */
  lemma ClampMonotone(x: real, y: real)
    requires x <= y
    ensures ClampScore(x) <= ClampScore(y)
  {
    assert Round(x) <= Round(y);
  }

  function Sum(xs: seq<int>): int
  {
    if xs == [] then 0 else Sum(xs[..|xs| - 1]) + xs[|xs| - 1]
  }

  /** average: the arithmetic mean, 0 for no values. */
  function Average(xs: seq<int>): real
  {
    if xs == [] then 0.0 else Sum(xs) as real / |xs| as real
  }

  lemma {:induction false} SumBounds(xs: seq<int>, lo: int, hi: int)
    requires forall i :: 0 <= i < |xs| ==> lo <= xs[i] <= hi
    ensures |xs| * lo <= Sum(xs) <= |xs| * hi
  {
    if xs != [] {
      var n := |xs| - 1;
      var init := xs[..n];
      assert forall i :: 0 <= i < n ==> init[i] == xs[i];
      SumBounds(init, lo, hi);
      assert Sum(xs) == Sum(init) + xs[n];
      MulSucc(n, lo);
      MulSucc(n, hi);
    }
  }

  lemma MulSucc(n: int, a: int)
    ensures (n + 1) * a == n * a + a
  {
  }

  /** The mean of values between lo and hi lies between lo and hi. */
  lemma AverageBounds(xs: seq<int>, lo: int, hi: int)
    requires xs != []
    requires forall i :: 0 <= i < |xs| ==> lo <= xs[i] <= hi
    ensures lo as real <= Average(xs) <= hi as real
  {
    SumBounds(xs, lo, hi);
    var n, total := |xs|, Sum(xs);
    ProductAsReal(n, lo);
    ProductAsReal(n, hi);
    DivBetween(total as real, n as real, lo as real, hi as real);
    assert Average(xs) == total as real / n as real;
  }

  lemma ProductAsReal(a: int, b: int)
    ensures (a * b) as real == a as real * b as real
  {
  }

  lemma DivBetween(s: real, n: real, lo: real, hi: real)
    requires n > 0.0 && n * lo <= s <= n * hi
    ensures lo <= s / n <= hi
  {
    var q := s / n;
    assert q * n == s;
  }

  /** Rounding a value between two integers stays between them. */
  lemma RoundBetween(x: real, lo: int, hi: int)
    requires lo as real <= x <= hi as real
    ensures lo <= Round(x) <= hi
  {
  }

  // ---------------------------------------------------------------------------------------
  // One analytics entry

  const SubjectKeys := ["subject", "module", "lessonTitle", "quizTitle", "courseName", "title", "name"]
  const DirectScoreKeys := ["averageScore", "avgScore", "overallAverage", "percentage", "percent", "score", "total", "mean"]
  const FirstTermKeys := ["firstTerm", "term1", "first", "semester1"]
  const SecondTermKeys := ["secondTerm", "term2", "second", "semester2"]
  const ThirdTermKeys := ["thirdTerm", "term3", "third", "semester3"]

  /** `Subject n` for the entry at 0-based position `index`. */
  function PositionalSubject(index: nat): string
  {
    "Subject " + NatText(index + 1)
  }

  /** resolveSubjectName: the first usable name field, else the positional name. */
  function ResolveSubjectName(item: Value, index: nat): (r: string)
    ensures PickString(item, SubjectKeys).Some? ==> r == PickString(item, SubjectKeys).value
    ensures PickString(item, SubjectKeys).None? ==> r == PositionalSubject(index)
    ensures r != []
  {
    PickString(item, SubjectKeys).GetOr(PositionalSubject(index))
  }

  /** The position of the first of `keys` under which `item` holds a number, or |keys|. */
  function FirstNumbered(item: Value, keys: seq<string>): (k: nat)
    ensures k <= |keys|
    ensures k < |keys| ==> GetNumber(Get(item, keys[k])).Some?
    ensures forall j :: 0 <= j < k ==> GetNumber(Get(item, keys[j])).None?
  {
    FirstWhere(keys, (key: string) => GetNumber(Get(item, key)).Some?)
  }

  /** The number under the first of `keys` that holds one (`getNumber(a) ?? getNumber(b) ...`). */
  function FirstNumber(item: Value, keys: seq<string>): (r: Option<real>)
    ensures r.None? <==> forall i :: 0 <= i < |keys| ==> GetNumber(Get(item, keys[i])).None?
    ensures var k := FirstNumbered(item, keys); r == if k < |keys| then GetNumber(Get(item, keys[k])) else None
  {
    if keys == [] then None
    else
      var here := GetNumber(Get(item, keys[0]));
      if here.Some? then here
      else
        var k := FirstNumbered(item, keys[1..]);
        assert FirstNumbered(item, keys) == 1 + k;
        assert k < |keys| - 1 ==> keys[1..][k] == keys[k + 1];
        FirstNumber(item, keys[1..])
  }

  /** The loop of resolveBaseScore over its direct score fields: the first number found. */
  method FindDirectScore(item: Value, keys: seq<string>) returns (r: Option<real>)
    ensures r == FirstNumber(item, keys)
  {
    var i := 0;
    while i < |keys|
      invariant 0 <= i <= |keys|
      invariant FirstNumber(item, keys) == FirstNumber(item, keys[i..])
    {
      var maybe := GetNumber(Get(item, keys[i]));
      if maybe.Some? {
        return maybe;
      }
      assert keys[i..][1..] == keys[i + 1..];
      i := i + 1;
    }
    return None;
  }

  /** passed/attempts*100 when attempts is positive. */
  function PassRate(item: Value): Option<real>
  {
    var passed := GetNumber(Get(item, "passed"));
    var attempts := GetNumber(Get(item, "attempts"));
    if passed.Some? && attempts.Some? && attempts.value > 0.0 then Some(passed.value / attempts.value * 100.0)
    else None
  }

  /** totalScore/totalPossible*100 when totalPossible is positive. */
  function ScoreRate(item: Value): Option<real>
  {
    var totalScore := GetNumber(Get(item, "totalScore"));
    var totalPossible := GetNumber(Get(item, "totalPossible"));
    if totalScore.Some? && totalPossible.Some? && totalPossible.value > 0.0 then Some(totalScore.value / totalPossible.value * 100.0)
    else None
  }

  /** resolveBaseScore: a direct score, else the pass rate, else the score rate, else 0;
      always clamped to 0..100. */
  function ResolveBaseScore(item: Value): (r: int)
    ensures 0 <= r <= 100
    ensures FirstNumber(item, DirectScoreKeys).Some? ==> r == ClampScore(FirstNumber(item, DirectScoreKeys).value)
    ensures FirstNumber(item, DirectScoreKeys).None? && PassRate(item).Some? ==> r == ClampScore(PassRate(item).value)
    ensures FirstNumber(item, DirectScoreKeys).None? && PassRate(item).None? && ScoreRate(item).Some?
            ==> r == ClampScore(ScoreRate(item).value)
    ensures FirstNumber(item, DirectScoreKeys).None? && PassRate(item).None? && ScoreRate(item).None? ==> r == 0
  {
    var direct := FirstNumber(item, DirectScoreKeys);
    if direct.Some? then ClampScore(direct.value)
    else if PassRate(item).Some? then ClampScore(PassRate(item).value)
    else if ScoreRate(item).Some? then ClampScore(ScoreRate(item).value)
    else 0
  }

  /** The three term scores of one entry. */
  datatype Terms = Terms(first: int, second: int, third: int)

  predicate TermsInRange(t: Terms)
  {
    0 <= t.first <= 100 && 0 <= t.second <= 100 && 0 <= t.third <= 100
  }

  /** The positional drift `index % 3 - 1` of synthesised terms. */
  function Drift(index: nat): (d: int)
    ensures -1 <= d <= 1
  {
    index % 3 - 1
  }

  predicate HasExplicitTerms(item: Value)
  {
    FirstNumber(item, FirstTermKeys).Some? && FirstNumber(item, SecondTermKeys).Some?
    && FirstNumber(item, ThirdTermKeys).Some?
  }

  /** resolveTermScores: the explicit term fields when all three are present, otherwise
      terms synthesised around the base score, four points apart, shifted by the drift. */
  function ResolveTermScores(item: Value, index: nat): (r: Terms)
    ensures TermsInRange(r)
    ensures HasExplicitTerms(item) ==>
      r == Terms(ClampScore(FirstNumber(item, FirstTermKeys).value), ClampScore(FirstNumber(item, SecondTermKeys).value),
                 ClampScore(FirstNumber(item, ThirdTermKeys).value))
    ensures !HasExplicitTerms(item) ==> r.first <= r.second <= r.third
  {
    if HasExplicitTerms(item) then
      Terms(ClampScore(FirstNumber(item, FirstTermKeys).value), ClampScore(FirstNumber(item, SecondTermKeys).value),
            ClampScore(FirstNumber(item, ThirdTermKeys).value))
    else
      Synthesise(ResolveBaseScore(item), Drift(index))
  }

  /** Terms four points apart around `base`, shifted by `drift`, each clamped to the scale. */
  function Synthesise(base: int, drift: int): (r: Terms)
    ensures TermsInRange(r) && r.first <= r.second <= r.third
    ensures 0 <= base - 4 + drift && base + 4 + drift <= 100 ==>
      r == Terms(base - 4 + drift, base + drift, base + 4 + drift)
  {
    ClampMonotone((base - 4 + drift) as real, (base + drift) as real);
    ClampMonotone((base + drift) as real, (base + 4 + drift) as real);
    assert 0 <= base - 4 + drift && base + 4 + drift <= 100 ==>
      ClampScore((base - 4 + drift) as real) == base - 4 + drift && ClampScore((base + drift) as real) == base + drift
      && ClampScore((base + 4 + drift) as real) == base + 4 + drift by {
      if 0 <= base - 4 + drift && base + 4 + drift <= 100 {
        ClampKeepsScore(base - 4 + drift);
        ClampKeepsScore(base + drift);
        ClampKeepsScore(base + 4 + drift);
      }
    }
    Terms(ClampScore((base - 4 + drift) as real), ClampScore((base + drift) as real),
          ClampScore((base + 4 + drift) as real))
  }

  /** Away from the ends of the scale, synthesised terms are exactly base-4+drift, base+drift
      and base+4+drift. */
  lemma SynthesisedTerms(item: Value, index: nat)
    requires !HasExplicitTerms(item)
    requires 5 <= ResolveBaseScore(item) <= 95
    ensures var base := ResolveBaseScore(item); var d := Drift(index);
      ResolveTermScores(item, index) == Terms(base - 4 + d, base + d, base + 4 + d)
  {
    assert ResolveTermScores(item, index) == Synthesise(ResolveBaseScore(item), Drift(index));
  }

  // ---------------------------------------------------------------------------------------
  // Grades and performance levels

  /** The threshold band of a score: 3 for >= 85, 2 for >= 70, 1 for >= 55, else 0. */
  function Band(score: int): (b: int)
    ensures 0 <= b <= 3
    ensures b == 3 <==> score >= 85
    ensures b == 2 <==> 70 <= score < 85
    ensures b == 1 <==> 55 <= score < 70
    ensures b == 0 <==> score < 55
  {
    if score >= 85 then 3 else if score >= 70 then 2 else if score >= 55 then 1 else 0
  }

  /** getGradeFromScore. */
  function GetGradeFromScore(score: int): (g: string)
    ensures g == "A" <==> score >= 85
    ensures g == "B" <==> 70 <= score < 85
    ensures g == "C" <==> 55 <= score < 70
    ensures g == "D" <==> score < 55
  {
    if score >= 85 then "A" else if score >= 70 then "B" else if score >= 55 then "C" else "D"
  }

  const Excellent := "Excellent"
  const VeryGood := "Very Good"
  const Good := "Good"
  const NeedsImprovement := "Needs Improvement"

  /** getPerformanceLevel. */
  function GetPerformanceLevel(score: int): (l: string)
    ensures l == Excellent <==> score >= 85
    ensures l == VeryGood <==> 70 <= score < 85
    ensures l == Good <==> 55 <= score < 70
    ensures l == NeedsImprovement <==> score < 55
  {
    if score >= 85 then Excellent else if score >= 70 then VeryGood else if score >= 55 then Good else NeedsImprovement
  }

  /** Grades and levels use the same thresholds: each is determined by the band of the score. */
  lemma GradeAndLevelAgree(score: int)
    ensures GetGradeFromScore(score) == ["D", "C", "B", "A"][Band(score)]
    ensures GetPerformanceLevel(score) == [NeedsImprovement, Good, VeryGood, Excellent][Band(score)]
  {
  }

  /** A higher score never gets a worse band. */
  lemma BandMonotone(s: int, t: int)
    requires s <= t
    ensures Band(s) <= Band(t)
  {
  }

  lemma GradeBoundaries()
    ensures GetGradeFromScore(85) == "A" && GetGradeFromScore(84) == "B"
    ensures GetGradeFromScore(70) == "B" && GetGradeFromScore(69) == "C"
    ensures GetGradeFromScore(55) == "C" && GetGradeFromScore(54) == "D"
  {
  }

  // ---------------------------------------------------------------------------------------
  // Grouping by subject (the insertion-ordered Map of buildSubjectRows)

  datatype Group = Group(subject: string, values: seq<Terms>)

  function Subjects(gs: seq<Group>): (r: seq<string>)
    ensures |r| == |gs|
    ensures forall i :: 0 <= i < |gs| ==> r[i] == gs[i].subject
  {
    seq(|gs|, i requires 0 <= i < |gs| => gs[i].subject)
  }

  predicate Distinct(s: seq<string>)
  {
    forall i, j :: 0 <= i < j < |s| ==> s[i] != s[j]
  }

  /** The position of a subject's group, or |gs| when it has none. */
  function GroupIndex(gs: seq<Group>, subject: string): (k: nat)
    ensures k <= |gs|
    ensures k < |gs| ==> gs[k].subject == subject
    ensures k == |gs| ==> forall i :: 0 <= i < |gs| ==> gs[i].subject != subject
    ensures forall i :: 0 <= i < k ==> gs[i].subject != subject
  {
    if gs == [] then 0
    else if gs[0].subject == subject then 0
    else
      var k := GroupIndex(gs[1..], subject);
      assert forall i :: 1 <= i < |gs| ==> gs[i] == gs[1..][i - 1];
      1 + k
  }

  /** `get(subject) || []`, push, `set`: the terms join their subject's group, or open a new
      group at the end. */
  function AddEntry(gs: seq<Group>, subject: string, t: Terms): (r: seq<Group>)
    ensures Subjects(r) == if GroupIndex(gs, subject) < |gs| then Subjects(gs) else Subjects(gs) + [subject]
  {
    var k := GroupIndex(gs, subject);
    if k < |gs| then gs[k := Group(subject, gs[k].values + [t])] else gs + [Group(subject, [t])]
  }

  /** `set(subject, values)`: replaces the values of an existing group in place, or appends. */
  function SetGroup(gs: seq<Group>, subject: string, values: seq<Terms>): (r: seq<Group>)
    ensures Subjects(r) == if GroupIndex(gs, subject) < |gs| then Subjects(gs) else Subjects(gs) + [subject]
  {
    var k := GroupIndex(gs, subject);
    if k < |gs| then gs[k := Group(subject, values)] else gs + [Group(subject, values)]
  }

  /** The (subject, terms) pair of each analytics entry, in order. */
  function Entries(analytics: seq<Value>): (r: seq<(string, Terms)>)
    ensures |r| == |analytics|
    ensures forall i :: 0 <= i < |r| ==>
      r[i] == (ResolveSubjectName(analytics[i], i), ResolveTermScores(analytics[i], i))
  {
    seq(|analytics|, i requires 0 <= i < |analytics| =>
      (ResolveSubjectName(analytics[i], i), ResolveTermScores(analytics[i], i)))
  }

  /** The groups after the entries have been added one by one. */
  function GroupAll(entries: seq<(string, Terms)>): seq<Group>
  {
    if entries == [] then []
    else
      var last := entries[|entries| - 1];
      AddEntry(GroupAll(entries[..|entries| - 1]), last.0, last.1)
  }

  /** The name a fallback subject is filed under: trimmed, else its positional name. */
  function SafeSubject(subject: string, index: nat): (r: string)
    ensures r != []
  {
    var t := Trim(subject);
    if t != "" then t else PositionalSubject(index)
  }

  const ZeroTerms := Terms(0, 0, 0)

  /** The safe names of the fallback subjects, in order. */
  function SafeSubjects(fallbacks: seq<string>): (r: seq<string>)
    ensures |r| == |fallbacks|
    ensures forall i :: 0 <= i < |fallbacks| ==> r[i] == SafeSubject(fallbacks[i], i)
  {
    seq(|fallbacks|, i requires 0 <= i < |fallbacks| => SafeSubject(fallbacks[i], i))
  }

  /** The groups after each of the subjects has been set to one zero entry, in order. */
  function FallbackGroups(subjects: seq<string>): seq<Group>
  {
    if subjects == [] then []
    else SetGroup(FallbackGroups(subjects[..|subjects| - 1]), subjects[|subjects| - 1], [ZeroTerms])
  }

  /** The groups buildSubjectRows aggregates: those of the analytics, or, when there are none,
      those of the fallback subjects. */
  function Grouped(analytics: seq<Value>, fallbacks: seq<string>): seq<Group>
  {
    var gs := GroupAll(Entries(analytics));
    if gs == [] then FallbackGroups(SafeSubjects(fallbacks)) else gs
  }

  // ---------------------------------------------------------------------------------------
  // Facts about the grouping

  predicate WellFormed(gs: seq<Group>)
  {
    Distinct(Subjects(gs)) && forall i :: 0 <= i < |gs| ==> gs[i].values != []
  }

  predicate AllInRange(gs: seq<Group>)
  {
    forall i, j :: 0 <= i < |gs| && 0 <= j < |gs[i].values| ==> TermsInRange(gs[i].values[j])
  }

  lemma AddEntryKeeps(gs: seq<Group>, subject: string, t: Terms)
    requires WellFormed(gs)
    ensures WellFormed(AddEntry(gs, subject, t))
    ensures AllInRange(gs) && TermsInRange(t) ==> AllInRange(AddEntry(gs, subject, t))
    ensures |AddEntry(gs, subject, t)| >= 1
  {
    var r := AddEntry(gs, subject, t);
    var k := GroupIndex(gs, subject);
    if k == |gs| {
      assert Subjects(r) == Subjects(gs) + [subject];
      assert forall i :: 0 <= i < |gs| ==> Subjects(r)[i] != subject;
    }
  }

  lemma SetGroupKeeps(gs: seq<Group>, subject: string, values: seq<Terms>)
    requires WellFormed(gs) && values != []
    ensures WellFormed(SetGroup(gs, subject, values))
  {
    var r := SetGroup(gs, subject, values);
    var k := GroupIndex(gs, subject);
    if k == |gs| {
      assert Subjects(r) == Subjects(gs) + [subject];
      assert forall i :: 0 <= i < |gs| ==> Subjects(r)[i] != subject;
    }
  }

  /** Grouping gives one non-empty group per distinct subject; it is empty only for no entries. */
  lemma {:induction false} GroupAllWellFormed(entries: seq<(string, Terms)>)
    ensures WellFormed(GroupAll(entries))
    ensures (forall i :: 0 <= i < |entries| ==> TermsInRange(entries[i].1)) ==> AllInRange(GroupAll(entries))
    ensures GroupAll(entries) == [] <==> entries == []
  {
    if entries != [] {
      var front := entries[..|entries| - 1];
      GroupAllWellFormed(front);
      assert forall i :: 0 <= i < |front| ==> front[i] == entries[i];
      var last := entries[|entries| - 1];
      AddEntryKeeps(GroupAll(front), last.0, last.1);
    }
  }

  /** Every entry's subject has a group, and every group belongs to some entry. */
  lemma {:induction false} GroupAllSubjects(entries: seq<(string, Terms)>)
    ensures forall s :: s in Subjects(GroupAll(entries)) <==> exists i :: 0 <= i < |entries| && entries[i].0 == s
  {
    if entries != [] {
      var front := entries[..|entries| - 1];
      GroupAllSubjects(front);
      assert forall i :: 0 <= i < |front| ==> front[i] == entries[i];
      var last := entries[|entries| - 1];
      var gs := GroupAll(front);
      var k := GroupIndex(gs, last.0);
      if k < |gs| {
        assert Subjects(gs)[k] == last.0;
      }
      forall s | s in Subjects(GroupAll(entries))
        ensures exists i :: 0 <= i < |entries| && entries[i].0 == s
      {
        if s != last.0 {
          assert s in Subjects(gs);
          var i :| 0 <= i < |front| && front[i].0 == s;
          assert entries[i].0 == s;
        } else {
          assert entries[|entries| - 1].0 == s;
        }
      }
    }
  }

  /** The terms of the entries filed under `subject`, in entry order: what its group should
      hold, defined independently of the map. */
  function TermsOf(entries: seq<(string, Terms)>, subject: string): (r: seq<Terms>)
    ensures |r| <= |entries|
  {
    if entries == [] then []
    else
      var last := entries[|entries| - 1];
      TermsOf(entries[..|entries| - 1], subject) + (if last.0 == subject then [last.1] else [])
  }

  /** A subject no entry names has no terms. */
  lemma {:induction false} TermsOfAbsent(entries: seq<(string, Terms)>, subject: string)
    requires forall i :: 0 <= i < |entries| ==> entries[i].0 != subject
    ensures TermsOf(entries, subject) == []
  {
    if entries != [] {
      var front := entries[..|entries| - 1];
      assert forall i :: 0 <= i < |front| ==> front[i] == entries[i];
      TermsOfAbsent(front, subject);
    }
  }

  /** A subject exactly one entry names has exactly that entry's terms. */
  lemma {:induction false} TermsOfSingle(entries: seq<(string, Terms)>, i: nat)
    requires i < |entries|
    requires forall j :: 0 <= j < |entries| && j != i ==> entries[j].0 != entries[i].0
    ensures TermsOf(entries, entries[i].0) == [entries[i].1]
  {
    var front := entries[..|entries| - 1];
    assert forall j :: 0 <= j < |front| ==> front[j] == entries[j];
    if i == |entries| - 1 {
      TermsOfAbsent(front, entries[i].0);
    } else {
      TermsOfSingle(front, i);
    }
  }

  /** Each group holds exactly the terms of the entries naming its subject, in entry order:
      pushing into `get(subject) || []` files every entry under its own subject and no other. */
  lemma {:induction false} GroupAllTerms(entries: seq<(string, Terms)>)
    ensures var gs := GroupAll(entries);
      forall k :: 0 <= k < |gs| ==> gs[k].values == TermsOf(entries, gs[k].subject)
  {
    if entries != [] {
      var front := entries[..|entries| - 1];
      var last := entries[|entries| - 1];
      GroupAllTerms(front);
      GroupAllWellFormed(front);
      GroupAllSubjects(front);
      AddEntryTerms(front, GroupAll(front), last);
    }
  }

  /** The step of `GroupAllTerms`: filing one more entry keeps every group's terms those of
      the entries naming its subject. */
  lemma AddEntryTerms(front: seq<(string, Terms)>, gs: seq<Group>, last: (string, Terms))
    requires Distinct(Subjects(gs))
    requires forall s :: s in Subjects(gs) <==> exists i :: 0 <= i < |front| && front[i].0 == s
    requires forall k :: 0 <= k < |gs| ==> gs[k].values == TermsOf(front, gs[k].subject)
    ensures var r := AddEntry(gs, last.0, last.1);
      forall j :: 0 <= j < |r| ==> r[j].values == TermsOf(front + [last], r[j].subject)
  {
    var entries := front + [last];
    assert entries[..|entries| - 1] == front;
    if GroupIndex(gs, last.0) == |gs| {
      assert last.0 !in Subjects(gs);
      TermsOfAbsent(front, last.0);
      NewGroupTerms(entries, gs);
    } else {
      ExistingGroupTerms(entries, gs);
    }
  }

  /** An entry whose subject has no group yet opens a group of its own terms. */
  lemma NewGroupTerms(entries: seq<(string, Terms)>, gs: seq<Group>)
    requires entries != []
    requires var front := entries[..|entries| - 1];
      forall k :: 0 <= k < |gs| ==> gs[k].values == TermsOf(front, gs[k].subject)
    requires var last := entries[|entries| - 1];
      GroupIndex(gs, last.0) == |gs| && TermsOf(entries[..|entries| - 1], last.0) == []
    ensures var last := entries[|entries| - 1];
      var r := AddEntry(gs, last.0, last.1);
      forall j :: 0 <= j < |r| ==> r[j].values == TermsOf(entries, r[j].subject)
  {
    var last := entries[|entries| - 1];
    var r := AddEntry(gs, last.0, last.1);
    assert r == gs + [Group(last.0, [last.1])];
    forall j | 0 <= j < |r| ensures r[j].values == TermsOf(entries, r[j].subject) {
      if j < |gs| {
        assert r[j] == gs[j];
      }
    }
  }

  /** An entry whose subject has a group appends its terms to that group alone. */
  lemma ExistingGroupTerms(entries: seq<(string, Terms)>, gs: seq<Group>)
    requires entries != [] && Distinct(Subjects(gs))
    requires var front := entries[..|entries| - 1];
      forall k :: 0 <= k < |gs| ==> gs[k].values == TermsOf(front, gs[k].subject)
    requires GroupIndex(gs, entries[|entries| - 1].0) < |gs|
    ensures var last := entries[|entries| - 1];
      var r := AddEntry(gs, last.0, last.1);
      forall j :: 0 <= j < |r| ==> r[j].values == TermsOf(entries, r[j].subject)
  {
    var last := entries[|entries| - 1];
    var k := GroupIndex(gs, last.0);
    var r := AddEntry(gs, last.0, last.1);
    assert r == gs[k := Group(last.0, gs[k].values + [last.1])];
    forall j | 0 <= j < |r| ensures r[j].values == TermsOf(entries, r[j].subject) {
      if j != k {
        assert Subjects(gs)[j] != Subjects(gs)[k];
        assert r[j] == gs[j];
      }
    }
  }

  lemma {:induction false} FallbackGroupsWellFormed(subjects: seq<string>)
    ensures WellFormed(FallbackGroups(subjects))
  {
    if subjects != [] {
      FallbackGroupsWellFormed(subjects[..|subjects| - 1]);
      SetGroupKeeps(FallbackGroups(subjects[..|subjects| - 1]), subjects[|subjects| - 1], [ZeroTerms]);
    }
  }

  /** Every fallback group holds the single zero entry. */
  lemma {:induction false} FallbackGroupsZero(subjects: seq<string>)
    ensures forall i :: 0 <= i < |FallbackGroups(subjects)| ==> FallbackGroups(subjects)[i].values == [ZeroTerms]
  {
    if subjects != [] {
      FallbackGroupsZero(subjects[..|subjects| - 1]);
    }
  }

  /** There is a fallback group for each fallback subject and no other. */
  lemma {:induction false} FallbackGroupsSubjects(subjects: seq<string>)
    ensures forall s :: s in Subjects(FallbackGroups(subjects)) <==> s in subjects
  {
    if subjects != [] {
      var front := subjects[..|subjects| - 1];
      var subject := subjects[|subjects| - 1];
      FallbackGroupsSubjects(front);
      var gs := FallbackGroups(front);
      var k := GroupIndex(gs, subject);
      if k < |gs| {
        assert Subjects(gs)[k] == subject;
      }
      assert subjects == front + [subject];
    }
  }

  // ---------------------------------------------------------------------------------------
  // Aggregation and sorting

  function Firsts(ts: seq<Terms>): (r: seq<int>)
    ensures |r| == |ts| && forall i :: 0 <= i < |ts| ==> r[i] == ts[i].first
  {
    seq(|ts|, i requires 0 <= i < |ts| => ts[i].first)
  }

  function Seconds(ts: seq<Terms>): (r: seq<int>)
    ensures |r| == |ts| && forall i :: 0 <= i < |ts| ==> r[i] == ts[i].second
  {
    seq(|ts|, i requires 0 <= i < |ts| => ts[i].second)
  }

  function Thirds(ts: seq<Terms>): (r: seq<int>)
    ensures |r| == |ts| && forall i :: 0 <= i < |ts| ==> r[i] == ts[i].third
  {
    seq(|ts|, i requires 0 <= i < |ts| => ts[i].third)
  }

  predicate RowInRange(row: SubjectRow)
  {
    && 0 <= row.firstTerm <= 100 && 0 <= row.secondTerm <= 100 && 0 <= row.thirdTerm <= 100
    && 0 <= row.total <= 100
  }

  /** One row of aggregateSubjectRows: each term averaged over the group and clamped, the total
      the clamped mean of the three terms, graded by the total. */
  function AggregateRow(g: Group): (row: SubjectRow)
    ensures row.subject == g.subject
    ensures RowInRange(row)
    ensures row.grade == GetGradeFromScore(row.total)
    ensures row.firstTerm == ClampScore(Average(Firsts(g.values)))
    ensures row.secondTerm == ClampScore(Average(Seconds(g.values)))
    ensures row.thirdTerm == ClampScore(Average(Thirds(g.values)))
    ensures row.total == ClampScore((row.firstTerm + row.secondTerm + row.thirdTerm) as real / 3.0)
  {
    var firstTerm := ClampScore(Average(Firsts(g.values)));
    var secondTerm := ClampScore(Average(Seconds(g.values)));
    var thirdTerm := ClampScore(Average(Thirds(g.values)));
    var total := ClampScore((firstTerm + secondTerm + thirdTerm) as real / 3.0);
    SubjectRow(g.subject, firstTerm, secondTerm, thirdTerm, total, GetGradeFromScore(total))
  }

  /** A subject's term score lies between the lowest and the highest score its entries had
      for that term. */
  lemma AggregateWithinEntries(g: Group, lo: int, hi: int)
    requires g.values != [] && 0 <= lo <= hi <= 100
    requires forall j :: 0 <= j < |g.values| ==> lo <= g.values[j].first <= hi
    ensures lo <= AggregateRow(g).firstTerm <= hi
  {
    AverageBounds(Firsts(g.values), lo, hi);
    RoundBetween(Average(Firsts(g.values)), lo, hi);
  }

  /** A subject with a single entry keeps that entry's term scores. */
  lemma SingleEntryRow(g: Group)
    requires |g.values| == 1 && TermsInRange(g.values[0])
    ensures AggregateRow(g).firstTerm == g.values[0].first
    ensures AggregateRow(g).secondTerm == g.values[0].second
    ensures AggregateRow(g).thirdTerm == g.values[0].third
  {
    AverageSingle(Firsts(g.values));
    AverageSingle(Seconds(g.values));
    AverageSingle(Thirds(g.values));
  }

  /** The clamped mean of a single score is that score. */
  lemma AverageSingle(xs: seq<int>)
    requires |xs| == 1 && 0 <= xs[0] <= 100
    ensures ClampScore(Average(xs)) == xs[0]
  {
    assert xs[..0] == [];
    assert Sum(xs) == xs[0];
    assert Average(xs) == xs[0] as real;
    ClampKeepsScore(xs[0]);
  }

  /** aggregateSubjectRows: one row per group, in group order. */
  function Aggregate(gs: seq<Group>): (rows: seq<SubjectRow>)
    ensures |rows| == |gs|
    ensures forall i :: 0 <= i < |gs| ==> rows[i] == AggregateRow(gs[i])
  {
    seq(|gs|, i requires 0 <= i < |gs| => AggregateRow(gs[i]))
  }

  function RowSubjects(rows: seq<SubjectRow>): (r: seq<string>)
    ensures |r| == |rows| && forall i :: 0 <= i < |rows| ==> r[i] == rows[i].subject
  {
    seq(|rows|, i requires 0 <= i < |rows| => rows[i].subject)
  }

  predicate SortedBySubject(rows: seq<SubjectRow>)
  {
    forall i :: 0 <= i < |rows| - 1 ==> StrLe(rows[i].subject, rows[i + 1].subject)
  }

  /** Inserts a row before the first row whose subject is not smaller. */
  function InsertBySubject(x: SubjectRow, rows: seq<SubjectRow>): (r: seq<SubjectRow>)
    ensures multiset(r) == multiset(rows) + multiset{x}
    ensures |r| == |rows| + 1
  {
    if rows == [] || StrLe(x.subject, rows[0].subject) then [x] + rows
    else
      var rest := InsertBySubject(x, rows[1..]);
      assert rows == [rows[0]] + rows[1..];
      [rows[0]] + rest
  }

  /** `rows.sort((a, b) => a.subject.localeCompare(b.subject))`, as a stable insertion sort. */
  function SortBySubject(rows: seq<SubjectRow>): (r: seq<SubjectRow>)
    ensures multiset(r) == multiset(rows)
    ensures |r| == |rows|
  {
    if rows == [] then []
    else
      assert rows == [rows[0]] + rows[1..];
      InsertBySubject(rows[0], SortBySubject(rows[1..]))
  }

  lemma {:induction false} InsertSorted(x: SubjectRow, rows: seq<SubjectRow>)
    requires SortedBySubject(rows)
    ensures SortedBySubject(InsertBySubject(x, rows))
    ensures InsertBySubject(x, rows) != [] &&
      (InsertBySubject(x, rows)[0] == x || (rows != [] && InsertBySubject(x, rows)[0] == rows[0]))
  {
    if rows != [] && !StrLe(x.subject, rows[0].subject) {
      StrLeTotal(x.subject, rows[0].subject);
      InsertSorted(x, rows[1..]);
      var rest := InsertBySubject(x, rows[1..]);
      assert rest[0] == x || rest[0] == rows[1];
    }
  }

  /** The sorted rows are in subject order. */
  lemma {:induction false} SortBySubjectSorted(rows: seq<SubjectRow>)
    ensures SortedBySubject(SortBySubject(rows))
  {
    if rows != [] {
      SortBySubjectSorted(rows[1..]);
      InsertSorted(rows[0], SortBySubject(rows[1..]));
    }
  }

  /** buildSubjectRows as specified: aggregate the groups, then sort by subject. */
  function SubjectRows(analytics: seq<Value>, fallbacks: seq<string>): seq<SubjectRow>
  {
    SortBySubject(Aggregate(Grouped(analytics, fallbacks)))
  }

  // ---------------------------------------------------------------------------------------
  // buildSubjectRows

  /** The insertion-ordered JavaScript Map as the groups it holds. */
  function MapGroups(order: seq<string>, table: map<string, seq<Terms>>): (gs: seq<Group>)
    requires forall i :: 0 <= i < |order| ==> order[i] in table
    ensures |gs| == |order|
    ensures forall i :: 0 <= i < |order| ==> gs[i] == Group(order[i], table[order[i]])
  {
    seq(|order|, i requires 0 <= i < |order| => Group(order[i], table[order[i]]))
  }

  /** A Map from subjects to entries: keys in insertion order, each once. */
  predicate MapShape(order: seq<string>, table: map<string, seq<Terms>>)
  {
    Distinct(order) && (forall i :: 0 <= i < |order| ==> order[i] in table)
    && forall k :: k in table ==> k in order
  }

  /** Replacing the entries of the j-th key replaces the j-th group. */
  lemma MapGroupsUpdate(order: seq<string>, table: map<string, seq<Terms>>, j: nat, values: seq<Terms>)
    requires Distinct(order) && forall i :: 0 <= i < |order| ==> order[i] in table
    requires j < |order|
    ensures MapGroups(order, table[order[j] := values]) == MapGroups(order, table)[j := Group(order[j], values)]
  {
    var after := MapGroups(order, table[order[j] := values]);
    var expected := MapGroups(order, table)[j := Group(order[j], values)];
    forall i | 0 <= i < |order| ensures after[i] == expected[i] {
      if i != j {
        assert order[i] != order[j];
      }
    }
  }

  /** The group of a key of the Map sits at the key's position. */
  lemma GroupIndexOfKey(order: seq<string>, table: map<string, seq<Terms>>, j: nat)
    requires Distinct(order) && forall i :: 0 <= i < |order| ==> order[i] in table
    requires j < |order|
    ensures GroupIndex(MapGroups(order, table), order[j]) == j
  {
    var gs := MapGroups(order, table);
    assert gs[j].subject == order[j];
    var k := GroupIndex(gs, order[j]);
    assert gs[k].subject == order[k];
  }

  /** `set` of a subject the Map already holds replaces its group in place. */
  lemma MapSetPresent(order: seq<string>, table: map<string, seq<Terms>>, subject: string, values: seq<Terms>)
    requires MapShape(order, table) && subject in table
    ensures GroupIndex(MapGroups(order, table), subject) < |order|
    ensures MapShape(order, table[subject := values])
    ensures MapGroups(order, table[subject := values]) == SetGroup(MapGroups(order, table), subject, values)
  {
    assert subject in order;
    var j :| 0 <= j < |order| && order[j] == subject;
    GroupIndexOfKey(order, table, j);
    MapGroupsUpdate(order, table, j, values);
    MapShapeUpdate(order, table, subject, values);
  }

  /** Replacing the entries of a present key keeps the Map's shape. */
  lemma MapShapeUpdate(order: seq<string>, table: map<string, seq<Terms>>, subject: string, values: seq<Terms>)
    requires MapShape(order, table) && subject in table
    ensures MapShape(order, table[subject := values])
  {
    assert table[subject := values].Keys == table.Keys;
  }

  /** Adding a new key at the end appends its group. */
  lemma MapGroupsAppend(order: seq<string>, table: map<string, seq<Terms>>, subject: string, values: seq<Terms>)
    requires forall i :: 0 <= i < |order| ==> order[i] in table && order[i] != subject
    ensures MapGroups(order + [subject], table[subject := values]) == MapGroups(order, table) + [Group(subject, values)]
  {
    var after := MapGroups(order + [subject], table[subject := values]);
    var expected := MapGroups(order, table) + [Group(subject, values)];
    forall i | 0 <= i < |order| + 1 ensures after[i] == expected[i] {
      if i < |order| {
        assert (order + [subject])[i] == order[i];
      }
    }
  }

  /** `set` of a new subject appends its group. */
  lemma MapSetAbsent(order: seq<string>, table: map<string, seq<Terms>>, subject: string, values: seq<Terms>)
    requires MapShape(order, table) && subject !in table
    ensures GroupIndex(MapGroups(order, table), subject) == |order|
    ensures MapShape(order + [subject], table[subject := values])
    ensures MapGroups(order + [subject], table[subject := values]) == SetGroup(MapGroups(order, table), subject, values)
  {
    var gs := MapGroups(order, table);
    assert forall i :: 0 <= i < |order| ==> gs[i].subject != subject;
    MapGroupsAppend(order, table, subject, values);
    var order' := order + [subject];
    assert forall i :: 0 <= i < |order| ==> order'[i] == order[i];
  }

  /** `set(subject, values)` on the Map is SetGroup on its groups. */
  lemma MapSet(order: seq<string>, table: map<string, seq<Terms>>, subject: string, values: seq<Terms>)
    requires MapShape(order, table)
    ensures subject in table ==>
      MapShape(order, table[subject := values])
      && MapGroups(order, table[subject := values]) == SetGroup(MapGroups(order, table), subject, values)
    ensures subject !in table ==>
      MapShape(order + [subject], table[subject := values])
      && MapGroups(order + [subject], table[subject := values]) == SetGroup(MapGroups(order, table), subject, values)
  {
    if subject in table {
      MapSetPresent(order, table, subject, values);
    } else {
      MapSetAbsent(order, table, subject, values);
    }
  }

  /** `get`, `push` and `set` on the Map are AddEntry on its groups. */
  lemma MapAdd(order: seq<string>, table: map<string, seq<Terms>>, subject: string, t: Terms)
    requires MapShape(order, table)
    ensures subject in table ==>
      MapShape(order, table[subject := table[subject] + [t]])
      && MapGroups(order, table[subject := table[subject] + [t]]) == AddEntry(MapGroups(order, table), subject, t)
    ensures subject !in table ==>
      MapShape(order + [subject], table[subject := [t]])
      && MapGroups(order + [subject], table[subject := [t]]) == AddEntry(MapGroups(order, table), subject, t)
  {
    var gs := MapGroups(order, table);
    if subject in table {
      MapSetPresent(order, table, subject, table[subject] + [t]);
      var k := GroupIndex(gs, subject);
      assert gs[k].values == table[subject];
    } else {
      MapSetAbsent(order, table, subject, [t]);
    }
  }

  lemma GroupAllStep(entries: seq<(string, Terms)>, i: nat)
    requires i < |entries|
    ensures GroupAll(entries[..i + 1]) == AddEntry(GroupAll(entries[..i]), entries[i].0, entries[i].1)
  {
    assert entries[..i + 1][..i] == entries[..i];
  }

  /** One turn of the first loop: `get(subject) || []`, push the terms, `set` it back. */
  method FileEntry(order: seq<string>, table: map<string, seq<Terms>>, analytics: seq<Value>, index: nat)
    returns (order': seq<string>, table': map<string, seq<Terms>>)
    requires index < |analytics|
    requires MapShape(order, table) && MapGroups(order, table) == GroupAll(Entries(analytics)[..index])
    ensures MapShape(order', table')
    ensures MapGroups(order', table') == GroupAll(Entries(analytics)[..index + 1])
  {
    var item := analytics[index];
    var subject := ResolveSubjectName(item, index);
    var terms := ResolveTermScores(item, index);
    GroupAllStep(Entries(analytics), index);
    MapAdd(order, table, subject, terms);
    if subject in table {
      order', table' := order, table[subject := table[subject] + [terms]];
    } else {
      order', table' := order + [subject], table[subject := [terms]];
    }
  }

  /** The first loop of buildSubjectRows: files every analytics entry under its subject. */
  method FileEntries(analytics: seq<Value>) returns (order: seq<string>, table: map<string, seq<Terms>>)
    ensures MapShape(order, table)
    ensures MapGroups(order, table) == GroupAll(Entries(analytics))
  {
    order, table := [], map[];
    assert Entries(analytics)[..0] == [];
    var index := 0;
    while index < |analytics|
      invariant 0 <= index <= |analytics|
      invariant MapShape(order, table)
      invariant MapGroups(order, table) == GroupAll(Entries(analytics)[..index])
    {
      order, table := FileEntry(order, table, analytics, index);
      index := index + 1;
    }
    assert Entries(analytics)[..|analytics|] == Entries(analytics);
  }

  /** `map.set(subject, values)` on the insertion-ordered Map. */
  method MapSetEntry(order: seq<string>, table: map<string, seq<Terms>>, subject: string, values: seq<Terms>)
    returns (order': seq<string>, table': map<string, seq<Terms>>)
    requires MapShape(order, table)
    ensures MapShape(order', table')
    ensures table' == table[subject := values]
    ensures MapGroups(order', table') == SetGroup(MapGroups(order, table), subject, values)
  {
    MapSet(order, table, subject, values);
    order' := if subject in table then order else order + [subject];
    table' := table[subject := values];
  }

  lemma FallbackGroupsStep(subjects: seq<string>, i: nat)
    requires i < |subjects|
    ensures FallbackGroups(subjects[..i + 1]) == SetGroup(FallbackGroups(subjects[..i]), subjects[i], [ZeroTerms])
  {
    assert subjects[..i + 1][..i] == subjects[..i];
  }

  /** One turn of the fallback loop: `map.set(safeSubject, [zero entry])`. */
  method FileFallback(order: seq<string>, table: map<string, seq<Terms>>, fallbacks: seq<string>, i: nat)
    returns (order': seq<string>, table': map<string, seq<Terms>>)
    requires i < |fallbacks|
    requires MapShape(order, table) && MapGroups(order, table) == FallbackGroups(SafeSubjects(fallbacks)[..i])
    ensures MapShape(order', table')
    ensures MapGroups(order', table') == FallbackGroups(SafeSubjects(fallbacks)[..i + 1])
  {
    var safeSubject := SafeSubject(fallbacks[i], i);
    FallbackGroupsStep(SafeSubjects(fallbacks), i);
    order', table' := MapSetEntry(order, table, safeSubject, [ZeroTerms]);
  }

  /** The fallback loop of buildSubjectRows: sets each fallback subject to one zero entry. */
  method FileFallbacks(fallbacks: seq<string>) returns (order: seq<string>, table: map<string, seq<Terms>>)
    ensures MapShape(order, table)
    ensures MapGroups(order, table) == FallbackGroups(SafeSubjects(fallbacks))
  {
    order, table := [], map[];
    assert SafeSubjects(fallbacks)[..0] == [];
    var i := 0;
    while i < |fallbacks|
      invariant 0 <= i <= |fallbacks|
      invariant MapShape(order, table)
      invariant MapGroups(order, table) == FallbackGroups(SafeSubjects(fallbacks)[..i])
    {
      order, table := FileFallback(order, table, fallbacks, i);
      i := i + 1;
    }
    assert SafeSubjects(fallbacks)[..|fallbacks|] == SafeSubjects(fallbacks);
  }

  /** A Map is empty exactly when it has no groups. */
  lemma MapEmpty(order: seq<string>, table: map<string, seq<Terms>>)
    requires MapShape(order, table)
    ensures |table| == 0 <==> MapGroups(order, table) == []
  {
    if |table| != 0 {
      var k :| k in table;
      assert k in order;
    }
    assert order != [] ==> order[0] in table;
  }

  /** buildSubjectRows: files every analytics entry under its subject in an insertion-ordered
      map, falls back to the given subjects with zero scores when nothing was filed, then
      aggregates and sorts. */
  method BuildSubjectRows(analytics: seq<Value>, fallbacks: seq<string>) returns (rows: seq<SubjectRow>)
    ensures rows == SubjectRows(analytics, fallbacks)
  {
    var order, table := FileEntries(analytics);
    MapEmpty(order, table);
    if |table| == 0 {
      order, table := FileFallbacks(fallbacks);
    }
    rows := SortBySubject(Aggregate(MapGroups(order, table)));
  }

  // ---------------------------------------------------------------------------------------
  // Properties of buildSubjectRows

  lemma AggregateSubjects(gs: seq<Group>)
    ensures RowSubjects(Aggregate(gs)) == Subjects(gs)
  {
  }

  lemma RowSubjectsConcat(a: seq<SubjectRow>, b: seq<SubjectRow>)
    ensures RowSubjects(a + b) == RowSubjects(a) + RowSubjects(b)
  {
  }

  lemma {:induction false} InsertKeepsSubjects(x: SubjectRow, rows: seq<SubjectRow>)
    ensures multiset(RowSubjects(InsertBySubject(x, rows))) == multiset(RowSubjects(rows)) + multiset{x.subject}
  {
    assert RowSubjects([x]) == [x.subject];
    if rows == [] || StrLe(x.subject, rows[0].subject) {
      RowSubjectsConcat([x], rows);
    } else {
      InsertKeepsSubjects(x, rows[1..]);
      RowSubjectsConcat([rows[0]], InsertBySubject(x, rows[1..]));
      RowSubjectsConcat([rows[0]], rows[1..]);
      assert rows == [rows[0]] + rows[1..];
    }
  }

  lemma {:induction false} SortKeepsSubjects(rows: seq<SubjectRow>)
    ensures multiset(RowSubjects(SortBySubject(rows))) == multiset(RowSubjects(rows))
  {
    if rows != [] {
      var tail := rows[1..];
      var sortedTail := SortBySubject(tail);
      SortKeepsSubjects(tail);
      InsertKeepsSubjects(rows[0], sortedTail);
      RowSubjectsCons(rows);
    }
  }

  lemma RowSubjectsCons(rows: seq<SubjectRow>)
    requires rows != []
    ensures RowSubjects(rows) == [rows[0].subject] + RowSubjects(rows[1..])
  {
  }

  lemma SameMembers(a: seq<string>, b: seq<string>)
    requires multiset(a) == multiset(b)
    ensures forall s :: s in a <==> s in b
  {
    forall s ensures s in a <==> s in b {
      assert s in a <==> s in multiset(a);
      assert s in b <==> s in multiset(b);
    }
  }

  lemma DistinctMultiset(s: seq<string>, t: seq<string>)
    requires Distinct(s) && multiset(s) == multiset(t)
    ensures Distinct(t)
  {
    forall i, j | 0 <= i < j < |t| ensures t[i] != t[j] {
      if t[i] == t[j] {
        var ts := t[..i] + t[i + 1..];
        assert t == t[..i] + [t[i]] + t[i + 1..];
        assert t[j] in ts by { assert ts[j - 1] == t[j]; }
        assert multiset(t)[t[i]] == multiset(ts)[t[i]] + 1;
        assert multiset(ts)[t[i]] >= 1;
        DistinctCount(s, t[i]);
      }
    }
  }

  lemma {:induction false} DistinctCount(s: seq<string>, x: string)
    requires Distinct(s)
    ensures multiset(s)[x] <= 1
  {
    if s != [] {
      assert s == [s[0]] + s[1..];
      DistinctCount(s[1..], x);
      if s[0] == x {
        assert x !in s[1..];
      }
    }
  }

  lemma GroupedWellFormed(analytics: seq<Value>, fallbacks: seq<string>)
    ensures WellFormed(Grouped(analytics, fallbacks))
  {
    GroupAllWellFormed(Entries(analytics));
    FallbackGroupsWellFormed(SafeSubjects(fallbacks));
  }

  /** The report card has exactly one row per distinct subject, in subject order, and every
      score in it lies in 0..100. */
  lemma SubjectRowsShape(analytics: seq<Value>, fallbacks: seq<string>)
    ensures var rows := SubjectRows(analytics, fallbacks);
      && Distinct(RowSubjects(rows))
      && SortedBySubject(rows)
      && forall i :: 0 <= i < |rows| ==> RowInRange(rows[i]) && rows[i].grade == GetGradeFromScore(rows[i].total)
  {
    var gs := Grouped(analytics, fallbacks);
    GroupedWellFormed(analytics, fallbacks);
    var agg := Aggregate(gs);
    AggregateSubjects(gs);
    var rows := SortBySubject(agg);
    SortKeepsSubjects(agg);
    DistinctMultiset(RowSubjects(agg), RowSubjects(rows));
    SortBySubjectSorted(agg);
    SortedRowsGraded(agg, rows);
  }

  /** A row in range and graded from its total stays so when the rows are reordered. */
  lemma SortedRowsGraded(agg: seq<SubjectRow>, rows: seq<SubjectRow>)
    requires multiset(rows) == multiset(agg)
    requires forall j :: 0 <= j < |agg| ==> RowInRange(agg[j]) && agg[j].grade == GetGradeFromScore(agg[j].total)
    ensures forall i :: 0 <= i < |rows| ==> RowInRange(rows[i]) && rows[i].grade == GetGradeFromScore(rows[i].total)
  {
    forall i | 0 <= i < |rows| ensures RowInRange(rows[i]) && rows[i].grade == GetGradeFromScore(rows[i].total) {
      assert rows[i] in multiset(agg);
    }
  }

  /** The subjects of the report card are those of its groups. */
  lemma RowSubjectsAreGroups(analytics: seq<Value>, fallbacks: seq<string>)
    ensures forall s :: s in RowSubjects(SubjectRows(analytics, fallbacks)) <==> s in Subjects(Grouped(analytics, fallbacks))
  {
    var gs := Grouped(analytics, fallbacks);
    AggregateSubjects(gs);
    SortKeepsSubjects(Aggregate(gs));
    SameMembers(RowSubjects(SubjectRows(analytics, fallbacks)), Subjects(gs));
  }

  /** With analytics, the subjects are exactly those of the entries and the fallback subjects
      are ignored. */
  lemma SubjectsFromAnalytics(analytics: seq<Value>, fallbacks: seq<string>)
    requires analytics != []
    ensures forall s :: s in RowSubjects(SubjectRows(analytics, fallbacks)) <==>
      exists i :: 0 <= i < |analytics| && ResolveSubjectName(analytics[i], i) == s
  {
    var entries := Entries(analytics);
    GroupAllWellFormed(entries);
    GroupAllSubjects(entries);
    RowSubjectsAreGroups(analytics, fallbacks);
  }

  /** `row` aggregates exactly the terms the entries file under its subject. */
  predicate RowOfTerms(row: SubjectRow, entries: seq<(string, Terms)>)
  {
    row == AggregateRow(Group(row.subject, TermsOf(entries, row.subject)))
  }

  /** With analytics, each row is the aggregate of exactly the terms of the entries naming its
      subject, in entry order. */
  lemma SubjectRowsFromTerms(analytics: seq<Value>, fallbacks: seq<string>)
    requires analytics != []
    ensures var rows := SubjectRows(analytics, fallbacks);
      forall i :: 0 <= i < |rows| ==> RowOfTerms(rows[i], Entries(analytics))
  {
    var entries := Entries(analytics);
    var gs := GroupAll(entries);
    GroupAllWellFormed(entries);
    assert Grouped(analytics, fallbacks) == gs;
    GroupAllTerms(entries);
    AggregateOfTerms(gs, entries);
    SortedRowsOfTerms(Aggregate(gs), SubjectRows(analytics, fallbacks), entries);
  }

  /** A group holding the terms filed under its subject aggregates to such a row. */
  lemma AggregateOfTerms(gs: seq<Group>, entries: seq<(string, Terms)>)
    requires forall k :: 0 <= k < |gs| ==> gs[k].values == TermsOf(entries, gs[k].subject)
    ensures var agg := Aggregate(gs);
      forall j :: 0 <= j < |agg| ==> RowOfTerms(agg[j], entries)
  {
    var agg := Aggregate(gs);
    forall j | 0 <= j < |agg| ensures RowOfTerms(agg[j], entries) {
      assert gs[j] == Group(gs[j].subject, TermsOf(entries, gs[j].subject));
    }
  }

  /** Reordering keeps every row the aggregate of the terms filed under its subject. */
  lemma SortedRowsOfTerms(agg: seq<SubjectRow>, rows: seq<SubjectRow>, entries: seq<(string, Terms)>)
    requires multiset(rows) == multiset(agg)
    requires forall j :: 0 <= j < |agg| ==> RowOfTerms(agg[j], entries)
    ensures forall i :: 0 <= i < |rows| ==> RowOfTerms(rows[i], entries)
  {
    forall i | 0 <= i < |rows| ensures RowOfTerms(rows[i], entries) {
      assert rows[i] in multiset(agg);
    }
  }

  /** A subject named by one analytics entry only gets a row showing that entry's clamped
      terms unchanged. */
  lemma SingleEntrySubjectRow(analytics: seq<Value>, fallbacks: seq<string>, i: nat)
    requires i < |analytics|
    requires forall j :: 0 <= j < |analytics| && j != i ==>
      ResolveSubjectName(analytics[j], j) != ResolveSubjectName(analytics[i], i)
    ensures var rows := SubjectRows(analytics, fallbacks);
      var t := ResolveTermScores(analytics[i], i);
      exists k :: 0 <= k < |rows| && rows[k].subject == ResolveSubjectName(analytics[i], i)
        && rows[k].firstTerm == t.first && rows[k].secondTerm == t.second && rows[k].thirdTerm == t.third
  {
    var entries := Entries(analytics);
    var subject := ResolveSubjectName(analytics[i], i);
    var t := ResolveTermScores(analytics[i], i);
    TermsOfSingle(entries, i);
    SubjectsFromAnalytics(analytics, fallbacks);
    var rows := SubjectRows(analytics, fallbacks);
    assert subject in RowSubjects(rows);
    var k :| 0 <= k < |rows| && RowSubjects(rows)[k] == subject;
    SubjectRowsFromTerms(analytics, fallbacks);
    SingleEntryRow(Group(subject, [t]));
  }

  /** Without analytics, there is one zero-score, D-graded row per distinct fallback subject. */
  lemma SubjectsFromFallbacks(fallbacks: seq<string>)
    ensures var rows := SubjectRows([], fallbacks);
      && (forall s :: s in RowSubjects(rows) <==> s in SafeSubjects(fallbacks))
      && forall i :: 0 <= i < |rows| ==>
           rows[i].firstTerm == 0 && rows[i].secondTerm == 0 && rows[i].thirdTerm == 0
           && rows[i].total == 0 && rows[i].grade == "D"
  {
    var safe := SafeSubjects(fallbacks);
    var gs := Grouped([], fallbacks);
    assert GroupAll(Entries([])) == [];
    assert gs == FallbackGroups(safe);
    FallbackGroupsSubjects(safe);
    RowSubjectsAreGroups([], fallbacks);
    FallbackGroupsWellFormed(safe);
    FallbackGroupsZero(safe);
    var agg := Aggregate(gs);
    forall i | 0 <= i < |agg|
      ensures agg[i].firstTerm == 0 && agg[i].secondTerm == 0 && agg[i].thirdTerm == 0 && agg[i].total == 0
    {
      ZeroGroupRow(gs[i]);
    }
    var rows := SortBySubject(agg);
    forall i | 0 <= i < |rows|
      ensures rows[i].firstTerm == 0 && rows[i].secondTerm == 0 && rows[i].thirdTerm == 0
              && rows[i].total == 0 && rows[i].grade == "D"
    {
      assert rows[i] in multiset(agg);
    }
  }

  lemma ZeroGroupRow(g: Group)
    requires g.values == [ZeroTerms]
    ensures AggregateRow(g).firstTerm == 0 && AggregateRow(g).secondTerm == 0
    ensures AggregateRow(g).thirdTerm == 0 && AggregateRow(g).total == 0
  {
    SingleEntryRow(g);
    ClampKeepsScore(0);
  }

  // ---------------------------------------------------------------------------------------
  // Summary and feedback

  function Totals(rows: seq<SubjectRow>): (r: seq<int>)
    ensures |r| == |rows| && forall i :: 0 <= i < |rows| ==> r[i] == rows[i].total
  {
    seq(|rows|, i requires 0 <= i < |rows| => rows[i].total)
  }

  /** calculateOverallAverage: the clamped mean of the subject totals, 0 for no subjects. */
  function CalculateOverallAverage(subjects: seq<SubjectRow>): (r: int)
    ensures 0 <= r <= 100
    ensures subjects == [] ==> r == 0
  {
    if subjects == [] then 0 else ClampScore(Average(Totals(subjects)))
  }

  /** The overall average lies between the lowest and the highest subject total. */
  lemma OverallAverageBetween(subjects: seq<SubjectRow>, lo: int, hi: int)
    requires subjects != [] && 0 <= lo <= hi <= 100
    requires forall i :: 0 <= i < |subjects| ==> lo <= subjects[i].total <= hi
    ensures lo <= CalculateOverallAverage(subjects) <= hi
  {
    AverageBounds(Totals(subjects), lo, hi);
    RoundBetween(Average(Totals(subjects)), lo, hi);
  }

  /** The first subject with the highest total (the head of a stable descending sort). */
  function Strongest(subjects: seq<SubjectRow>): (k: nat)
    requires subjects != []
    ensures k < |subjects|
    ensures forall i :: 0 <= i < |subjects| ==> subjects[i].total <= subjects[k].total
    ensures forall i :: 0 <= i < k ==> subjects[i].total < subjects[k].total
  {
    if |subjects| == 1 then 0
    else
      var k := Strongest(subjects[..|subjects| - 1]);
      assert forall i :: 0 <= i < |subjects| - 1 ==> subjects[..|subjects| - 1][i] == subjects[i];
      if subjects[|subjects| - 1].total > subjects[k].total then |subjects| - 1 else k
  }

  /** The first subject with the lowest total (the head of a stable ascending sort). */
  function Weakest(subjects: seq<SubjectRow>): (k: nat)
    requires subjects != []
    ensures k < |subjects|
    ensures forall i :: 0 <= i < |subjects| ==> subjects[k].total <= subjects[i].total
    ensures forall i :: 0 <= i < k ==> subjects[k].total < subjects[i].total
  {
    if |subjects| == 1 then 0
    else
      var k := Weakest(subjects[..|subjects| - 1]);
      assert forall i :: 0 <= i < |subjects| - 1 ==> subjects[..|subjects| - 1][i] == subjects[i];
      if subjects[|subjects| - 1].total < subjects[k].total then |subjects| - 1 else k
  }

  const NoDataFeedback := "No assessment data is available yet. Complete quizzes to generate your academic feedback."

  /** buildFeedbackComment: the no-data sentence for no subjects; otherwise the template of the
      performance level, naming the strongest and/or the weakest subject. */
  function BuildFeedbackComment(subjects: seq<SubjectRow>, performanceLevel: string): (r: string)
    ensures subjects == [] ==> r == NoDataFeedback
    ensures subjects != [] ==> IsPrefix("The learner ", r)
  {
    if subjects == [] then NoDataFeedback
    else
      var strongest := subjects[Strongest(subjects)].subject;
      var weakest := subjects[Weakest(subjects)].subject;
      var rest :=
        if performanceLevel == Excellent then
          "has shown strong progress in " + strongest + " and maintains outstanding consistency across subjects."
        else if performanceLevel == VeryGood then
          "performs very well overall, especially in " + strongest + ". More revision in " + weakest
          + " can raise performance further."
        else if performanceLevel == Good then
          "demonstrates steady progress. Targeted practice in " + weakest
          + " will help move from good to very good performance."
        else
          "needs additional support, particularly in " + weakest
          + ". Focused weekly practice and instructor guidance are recommended.";
      PrefixOfJoin("The learner ", rest);
      "The learner " + rest
  }

  lemma PrefixOfJoin(p: string, s: string)
    ensures IsPrefix(p, p + s)
  {
    assert (p + s)[..|p|] == p;
  }
}
