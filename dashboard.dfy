/**
 * The learner dashboard: the figures shown above the learner's course list
 * (enrolled courses, average progress, completed courses, live sessions),
 * the subscription badge, the upgrade banner and the greeting. The page
 * computes all of them from the fetched profile and enrollment rows.
 */
module Dashboard {
  import opened Wrappers
  import opened Strings
  import opened Seqs
  import opened Rounding
  import opened Records

  /** `e.progress_percent || 0`: a null progress counts as 0. */
  function Progress(e: Enrollment): int {
    e.progressPercent.GetOr(0)
  }

  /** The running total of the `reduce` over the enrollments. */
  function ProgressSum(es: seq<Enrollment>): int
    decreases |es|
  {
    if es == [] then 0 else Progress(es[0]) + ProgressSum(es[1..])
  }

  /**
   * `avgProgress`: 0 without enrollments, otherwise the mean progress
   * rounded half up to a whole percentage.
   */
  function AvgProgress(es: seq<Enrollment>): (r: int)
    ensures |es| == 0 ==> r == 0
    ensures |es| > 0 ==> 2 * |es| * r <= 2 * ProgressSum(es) + |es| < 2 * |es| * r + 2 * |es|
  {
    if |es| == 0 then 0 else RoundDiv(ProgressSum(es), |es|)
  }

  /** A progress value between `lo` and `hi`, a null one counting as 0. */
  predicate ProgressWithin(e: Enrollment, lo: int, hi: int) {
    lo <= Progress(e) <= hi
  }

  /** When every progress lies in [lo, hi], the total lies in [n * lo, n * hi]. */
  lemma {:induction false} ProgressSumBetween(es: seq<Enrollment>, lo: int, hi: int)
    requires forall i :: 0 <= i < |es| ==> ProgressWithin(es[i], lo, hi)
    ensures |es| * lo <= ProgressSum(es) <= |es| * hi
    decreases |es|
  {
    if es != [] {
      var tail := es[1..];
      forall i | 0 <= i < |tail| ensures ProgressWithin(tail[i], lo, hi) {
        assert tail[i] == es[i + 1];
      }
      ProgressSumBetween(tail, lo, hi);
      assert ProgressWithin(es[0], lo, hi);
      assert ProgressSum(es) == Progress(es[0]) + ProgressSum(tail);
      assert |es| * lo == |tail| * lo + lo && |es| * hi == |tail| * hi + hi;
    }
  }

  /** The average stays inside any range that holds every progress value (0..100 for valid rows). */
  lemma AvgProgressBetween(es: seq<Enrollment>, lo: int, hi: int)
    requires lo <= 0 <= hi
    requires forall i :: 0 <= i < |es| ==> ProgressWithin(es[i], lo, hi)
    ensures lo <= AvgProgress(es) <= hi
  {
    if |es| > 0 {
      ProgressSumBetween(es, lo, hi);
      RoundDivBetween(ProgressSum(es), |es|, lo, hi);
    }
  }

  /** Valid rows (null or 0..100) give an average in 0..100. */
  lemma AvgProgressPercent(es: seq<Enrollment>)
    requires forall i :: 0 <= i < |es| ==> ProgressWithin(es[i], 0, 100)
    ensures 0 <= AvgProgress(es) <= 100
  {
    AvgProgressBetween(es, 0, 100);
  }

  /** When every enrollment shows the same progress, that is the average. */
  lemma AvgProgressUniform(es: seq<Enrollment>, v: int)
    requires |es| > 0
    requires forall i :: 0 <= i < |es| ==> Progress(es[i]) == v
    ensures AvgProgress(es) == v
  {
    ProgressSumBetween(es, v, v);
    assert |es| * v <= ProgressSum(es) <= |es| * v;
    RoundDivUnique(ProgressSum(es), |es|, v);
  }

  /** `e.completed` is truthy. */
  predicate IsCompleted(e: Enrollment) {
    e.completed == Some(true)
  }

  /** The "Complétés" figure: `enrollments.filter(e => e.completed).length`. */
  function CompletedCount(es: seq<Enrollment>): (r: nat)
    ensures r <= |es|
  {
    |Filter(es, IsCompleted)|
  }

  /** The completed figure equals the enrolled figure exactly when every enrollment is completed. */
  lemma {:induction false} AllCompleted(es: seq<Enrollment>)
    ensures CompletedCount(es) == |es| <==> forall i :: 0 <= i < |es| ==> IsCompleted(es[i])
    decreases |es|
  {
    if es != [] {
      AllCompleted(es[1..]);
      assert Filter(es, IsCompleted) == (if IsCompleted(es[0]) then [es[0]] else []) + Filter(es[1..], IsCompleted);
      if forall i :: 0 <= i < |es[1..]| ==> IsCompleted(es[1..][i]) {
        assert forall i :: 0 < i < |es| ==> IsCompleted(es[i]) by {
          forall i | 0 < i < |es| ensures IsCompleted(es[i]) {
            assert es[i] == es[1..][i - 1];
          }
        }
      }
      if forall i :: 0 <= i < |es| ==> IsCompleted(es[i]) {
        assert forall i :: 0 <= i < |es[1..]| ==> IsCompleted(es[1..][i]) by {
          forall i | 0 <= i < |es[1..]| ensures IsCompleted(es[1..][i]) {
            assert es[1..][i] == es[i + 1];
          }
        }
      }
    }
  }

  /** The completed figure of two lists of enrollments together is the sum of theirs. */
  lemma CompletedCountAppend(a: seq<Enrollment>, b: seq<Enrollment>)
    ensures CompletedCount(a + b) == CompletedCount(a) + CompletedCount(b)
  {
    FilterAppend(a, b, IsCompleted);
  }

  /** The `planLabels` table: the four plan keys and their badge labels. */
  function PlanLabel(key: string): (r: Option<string>)
    ensures r.Some? <==> key in {"decouverte", "essentiel", "avance", "premium"}
    ensures key == "decouverte" ==> r == Some("Découverte")
    ensures key == "essentiel" ==> r == Some("Essentiel")
    ensures key == "avance" ==> r == Some("Avancé")
    ensures key == "premium" ==> r == Some("Premium ⭐")
  {
    match key
    case "decouverte" => Some("Découverte")
    case "essentiel" => Some("Essentiel")
    case "avance" => Some("Avancé")
    case "premium" => Some("Premium ⭐")
    case _ => None
  }

  /** `profile?.plan || "decouverte"`: the key looked up in `planLabels`. */
  function PlanKey(profile: Option<Profile>): (r: string)
    ensures profile.Some? && Truthy(profile.value.plan) ==> r == profile.value.plan.value
    ensures profile.None? || !Truthy(profile.value.plan) ==> r == "decouverte"
  {
    if profile.Some? && Truthy(profile.value.plan) then profile.value.plan.value else "decouverte"
  }

  /**
   * `planInfo`'s label. A missing profile or plan shows "Découverte"; every
   * value of the `plan_type` enum has a label. None stands for a stored plan
   * outside the table: the page then has no `planInfo` and its render throws.
   */
  function Badge(profile: Option<Profile>): (r: Option<string>)
    ensures profile.None? || !Truthy(profile.value.plan) ==> r == Some("Découverte")
    ensures (profile.Some? && profile.value.plan.Some?
             && profile.value.plan.value in {"decouverte", "essentiel", "premium"}) ==> r.Some?
    ensures profile.Some? && Truthy(profile.value.plan) ==> r == PlanLabel(profile.value.plan.value)
  {
    PlanLabel(PlanKey(profile))
  }

  /** The upgrade banner shows exactly when the profile is missing or its plan is not active. */
  function ShowUpsell(profile: Option<Profile>): (r: bool)
    ensures r <==> profile.None? || !profile.value.planActive
  {
    !(profile.Some? && profile.value.planActive)
  }

  /**
   * `profile?.full_name?.split(" ")[0] || "Apprenant"`: the full name up to
   * its first space, or "Apprenant" when there is no name or it starts with
   * a space.
   */
  function Greeting(profile: Option<Profile>): (r: string)
    ensures r != ""
    ensures profile.None? || profile.value.fullName.None? ==> r == "Apprenant"
    ensures profile.Some? && profile.value.fullName.Some? ==>
      var name := profile.value.fullName.value;
      if name == "" || OccursAt(name, " ", 0) then r == "Apprenant"
      else (StartsWith(name, r) && (forall k: nat :: k < |r| ==> !OccursAt(name, " ", k))
            && (|r| < |name| ==> OccursAt(name, " ", |r|)))
  {
    if profile.Some? && profile.value.fullName.Some? then
      var name := profile.value.fullName.value;
      BeforeSpec(name, " ");
      var first := Before(name, " ");
      if first != "" then first else "Apprenant"
    else "Apprenant"
  }

  /** A full name "First Rest" greets the learner by "First". */
  lemma GreetsFirstName(first: string, rest: string)
    requires first != ""
    requires forall k: nat :: k < |first| ==> first[k] != ' '
    ensures Greeting(Some(Profile(None, false, Some(first + " " + rest)))) == first
  {
    var name := first + " " + rest;
    forall k: nat | k < |first| ensures !OccursAt(name, " ", k) {
      assert name[k] == first[k];
    }
    BeforeFirstSeparator(first, " ", rest);
  }

  /** The four figures of the stats row. */
  datatype Figures = Figures(enrolled: nat, avgProgress: int, completed: nat, sessions: nat)

  /**
   * The stats row from the fetched enrollments (a null answer is an empty
   * list) and the number of scheduled live sessions, of which the query
   * fetches at most 5.
   */
  function FiguresOf(enrollments: Option<seq<Enrollment>>, scheduled: nat): (r: Figures)
    ensures r.enrolled == |enrollments.GetOr([])|
    ensures r.completed <= r.enrolled
    ensures r.sessions <= 5 && r.sessions <= scheduled
    ensures r.enrolled == 0 ==> r.avgProgress == 0 && r.completed == 0
    ensures r.avgProgress == AvgProgress(enrollments.GetOr([]))
    ensures r.completed == CompletedCount(enrollments.GetOr([]))
    ensures r.sessions == (if scheduled < 5 then scheduled else 5)
  {
    var es := enrollments.GetOr([]);
    Figures(|es|, AvgProgress(es), CompletedCount(es), if scheduled < 5 then scheduled else 5)
  }
}
