/** src/app/dashboard/components/DashboardMainContent.tsx: the content-access table of the three
    learner tiers, the subjects a learner's dashboard lists, and the colour classes it picks. */
module Dashboard {
  import opened Listing

  /** The learner tiers of the dashboard. */
  datatype Tier = Primary | Junior | Senior

  /** The colours the tiers are drawn in. */
  datatype TierColor = Blue | Green | Red

  /** One row of contentAccess. */
  datatype Access = Access(grades: seq<string>, subjects: seq<string>, color: TierColor, maxSubjects: nat)

  /** contentAccess: the grades, subjects, colour and subject allowance of each tier. */
  function ContentAccess(tier: Tier): (a: Access)
    ensures |a.grades| == 3
    ensures |a.subjects| <= a.maxSubjects
    ensures "Mathematics" in a.subjects && "English" in a.subjects && "Kiswahili" in a.subjects
  {
    match tier
    case Primary =>
      Access(["Grade 4", "Grade 5", "Grade 6"],
             ["Mathematics", "English", "Kiswahili", "Science and Technology", "Creative Arts"],
             Blue, 5)
    case Junior =>
      Access(["Grade 7", "Grade 8", "Grade 9"],
             ["Mathematics", "English", "Kiswahili", "Science and Technology", "Creative Arts", "Languages",
              "Religious Education"],
             Green, 8)
    case Senior =>
      Access(["Grade 10", "Grade 11", "Grade 12"],
             ["Mathematics", "English", "Kiswahili", "Science and Technology", "Pure Sciences", "Technical Studies",
              "Languages", "Humanities", "English Literature"],
             Red, 12)
  }

  /** The progress record of one subject; only its name matters to the filter. */
  datatype SubjectProgress = SubjectProgress(name: string, progress: int, lessons: nat, completed: nat)

  /** accessibleSubjects: the progress records whose subject the learner's tier includes, in order. */
  function AccessibleSubjects(tier: Tier, progress: seq<SubjectProgress>): (shown: seq<SubjectProgress>)
    ensures IsSubsequence(shown, progress)
    ensures forall s | s in shown :: s in progress && s.name in ContentAccess(tier).subjects
    ensures forall s | s in progress && s.name in ContentAccess(tier).subjects :: s in shown
  {
    Filter(progress, (s: SubjectProgress) => s.name in ContentAccess(tier).subjects)
  }

  /** A junior learner is never shown Pure Sciences; a senior learner is shown it, but never Creative
      Arts. */
  lemma TierSubjectsDiffer(progress: seq<SubjectProgress>)
    ensures forall s | s in AccessibleSubjects(Junior, progress) :: s.name != "Pure Sciences"
    ensures forall s | s in AccessibleSubjects(Senior, progress) :: s.name != "Creative Arts"
    ensures forall s | s in progress && s.name == "Pure Sciences" :: s in AccessibleSubjects(Senior, progress)
  {
    JuniorLacksPureSciences();
    SeniorLacksCreativeArts();
    assert ContentAccess(Senior).subjects[4] == "Pure Sciences";
  }

  /** The junior subject list has no Pure Sciences. */
  lemma JuniorLacksPureSciences()
    ensures "Pure Sciences" !in ContentAccess(Junior).subjects
  {
  }

  /** The senior subject list has no Creative Arts. */
  lemma SeniorLacksCreativeArts()
    ensures "Creative Arts" !in ContentAccess(Senior).subjects
  {
  }

  /** The tiers are drawn in different colours: primary blue, junior green, senior red. */
  lemma TierColorsDistinct()
    ensures ContentAccess(Primary).color == Blue
    ensures ContentAccess(Junior).color == Green
    ensures ContentAccess(Senior).color == Red
  {
  }

  /** The kinds of class getTierColorClasses builds. */
  datatype ColorKind = Bg | TextColor | Border

  /** The colour name as it appears in a class. */
  function ColorName(c: TierColor): (name: string)
    ensures name in {"blue", "green", "red"}
  {
    match c
    case Blue => "blue"
    case Green => "green"
    case Red => "red"
  }

  /** The prefix of a kind of class. */
  function KindPrefix(kind: ColorKind): string {
    match kind
    case Bg => "bg-"
    case TextColor => "text-"
    case Border => "border-"
  }

  /** getTierColorClasses: the class "<kind>-<colour>-<shade>", as in "bg-green-600". */
  function TierColorClass(c: TierColor, kind: ColorKind, shade: string): (cls: string)
    ensures kind == Bg ==> cls == "bg-" + ColorName(c) + "-" + shade
    ensures kind == TextColor ==> cls == "text-" + ColorName(c) + "-" + shade
    ensures kind == Border ==> cls == "border-" + ColorName(c) + "-" + shade
  {
    KindPrefix(kind) + ColorName(c) + "-" + shade
  }

  /** getTierColorClasses with its default arguments: the background class of shade 600. */
  function DefaultTierColorClass(c: TierColor): (cls: string)
    ensures cls == "bg-" + ColorName(c) + "-600"
  {
    TierColorClass(c, Bg, "600")
  }

  /** Different tiers' colours give different classes, whatever the kind and shade. */
  lemma TierColorClassInjective(c1: TierColor, c2: TierColor, kind: ColorKind, shade: string)
    requires c1 != c2
    ensures TierColorClass(c1, kind, shade) != TierColorClass(c2, kind, shade)
  {
    var prefix := KindPrefix(kind);
    var n := |prefix|;
    assert TierColorClass(c1, kind, shade)[n] == ColorName(c1)[0];
    assert TierColorClass(c2, kind, shade)[n] == ColorName(c2)[0];
  }

  /** getDifficultyColor: red for Advanced, yellow for Intermediate, green for Beginner, and gray for
      anything else. */
  function DifficultyColor(difficulty: string): (cls: string)
    ensures difficulty == "Advanced" ==> cls == "bg-red-100 text-red-700"
    ensures difficulty == "Intermediate" ==> cls == "bg-yellow-100 text-yellow-700"
    ensures difficulty == "Beginner" ==> cls == "bg-green-100 text-green-700"
    ensures difficulty !in {"Advanced", "Intermediate", "Beginner"} ==> cls == "bg-gray-100 text-gray-700"
  {
    if difficulty == "Advanced" then "bg-red-100 text-red-700"
    else if difficulty == "Intermediate" then "bg-yellow-100 text-yellow-700"
    else if difficulty == "Beginner" then "bg-green-100 text-green-700"
    else "bg-gray-100 text-gray-700"
  }
}
