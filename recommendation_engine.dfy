/**
 * The rule-based course recommender (learnhub/lib/recommendation-engine.ts): keyword
 * extraction of learner preferences, the dialogue check with its turn cap, the weighted
 * course score, the two-pass stable ranking and the templated reply.
 *
 * The engine reads the course catalogue at call time; here the catalogue is a parameter.
 */
module RecommendationEngine {
  import opened Wrappers
  import opened Strings
  import opened Sorting
  import Courses

  datatype Experience = Beginner | Intermediate | Advanced
  datatype TimeCommitment = Light | Moderate | Intensive
  datatype Goal = CareerChange | SkillUpgrade | Hobby | Certification
  datatype LearningStyle = Practical | Theoretical | Mixed

  function ExperienceName(e: Experience): string {
    match e
    case Beginner => "beginner"
    case Intermediate => "intermediate"
    case Advanced => "advanced"
  }

  /** A learner profile; also used for the partial profile that the extractor returns (None = absent). */
  datatype Preferences = Preferences(
    experience: Option<Experience>,
    interests: Option<seq<string>>,
    timeCommitment: Option<TimeCommitment>,
    goals: Option<Goal>,
    learningStyle: Option<LearningStyle>)

  const EmptyPreferences := Preferences(None, None, None, None, None)

  // ---------------------------------------------------------------- extraction

  function DetectExperience(lower: string): Option<Experience> {
    if Contains(lower, "beginner") || Contains(lower, "new to") || Contains(lower, "never done") then Some(Beginner)
    else if Contains(lower, "intermediate") || Contains(lower, "some experience") || Contains(lower, "familiar with") then Some(Intermediate)
    else if Contains(lower, "advanced") || Contains(lower, "expert") || Contains(lower, "professional") then Some(Advanced)
    else None
  }

  function DetectTimeCommitment(lower: string): Option<TimeCommitment> {
    if Contains(lower, "busy") || Contains(lower, "part-time") || Contains(lower, "few hours") then Some(Light)
    else if Contains(lower, "full-time") || Contains(lower, "intensive") || Contains(lower, "quickly") then Some(Intensive)
    else if Contains(lower, "moderate") || Contains(lower, "regular") then Some(Moderate)
    else None
  }

  function DetectGoal(lower: string): Option<Goal> {
    if Contains(lower, "career change") || Contains(lower, "new job") || Contains(lower, "switch careers") then Some(CareerChange)
    else if Contains(lower, "improve") || Contains(lower, "upgrade") || Contains(lower, "advance") then Some(SkillUpgrade)
    else if Contains(lower, "hobby") || Contains(lower, "fun") || Contains(lower, "personal interest") then Some(Hobby)
    else if Contains(lower, "certification") || Contains(lower, "certificate") || Contains(lower, "credential") then Some(Certification)
    else None
  }

  /** One row of the interest table: a category name and the keywords that signal it. */
  datatype InterestRule = InterestRule(interest: string, keywords: seq<string>)

  const InterestKeywords: seq<InterestRule> := [
    InterestRule("web development", ["web", "website", "frontend", "backend", "html", "css", "javascript", "react"]),
    InterestRule("data science", ["data", "analytics", "python", "statistics", "machine learning", "ai"]),
    InterestRule("digital marketing", ["marketing", "seo", "social media", "advertising", "content"]),
    InterestRule("design", ["design", "ui", "ux", "user experience", "interface", "figma"]),
    InterestRule("mobile", ["mobile", "app", "android", "ios", "react native"]),
    InterestRule("cybersecurity", ["security", "cyber", "hacking", "protection", "privacy"]),
    InterestRule("business", ["business", "management", "analytics", "strategy", "leadership"]),
    InterestRule("cloud", ["cloud", "aws", "azure", "devops", "infrastructure"])
  ]

  /** `keywords.some((keyword) => lower.includes(keyword))` */
  predicate AnyContains(lower: string, keywords: seq<string>) {
    exists i :: 0 <= i < |keywords| && Contains(lower, keywords[i])
  }

  /** The categories of `rules` with a keyword in `lower`, in table order. */
  function DetectedAmong(rules: seq<InterestRule>, lower: string): seq<string> {
    if rules == [] then []
    else
      var last := rules[|rules| - 1];
      DetectedAmong(rules[..|rules| - 1], lower) + (if AnyContains(lower, last.keywords) then [last.interest] else [])
  }

  /** A category is detected exactly when one of its keywords occurs. */
  lemma {:induction false} DetectedAmongMembers(rules: seq<InterestRule>, lower: string, j: nat)
    requires j < |rules|
    requires forall a, b :: 0 <= a < b < |rules| ==> rules[a].interest != rules[b].interest
    ensures rules[j].interest in DetectedAmong(rules, lower) <==> AnyContains(lower, rules[j].keywords)
  {
    var init := rules[..|rules| - 1];
    DetectedAmongSubset(init, lower);
    if j < |rules| - 1 {
      DetectedAmongMembers(init, lower, j);
      assert rules[j].interest != rules[|rules| - 1].interest;
    } else {
      assert rules[j].interest !in DetectedAmong(init, lower) by {
        forall x | x in DetectedAmong(init, lower) ensures x != rules[j].interest {
          var a :| 0 <= a < |init| && init[a].interest == x;
        }
      }
    }
  }

  lemma {:induction false} DetectedAmongSubset(rules: seq<InterestRule>, lower: string)
    ensures forall x :: x in DetectedAmong(rules, lower) ==> exists a :: 0 <= a < |rules| && rules[a].interest == x
  {
    if rules != [] {
      var init := rules[..|rules| - 1];
      DetectedAmongSubset(init, lower);
      forall x | x in DetectedAmong(rules, lower) ensures exists a :: 0 <= a < |rules| && rules[a].interest == x {
        if x in DetectedAmong(init, lower) {
          var a :| 0 <= a < |init| && init[a].interest == x;
          assert rules[a].interest == x;
        } else {
          assert rules[|rules| - 1].interest == x;
        }
      }
    }
  }

  function DetectedInterests(lower: string): seq<string> {
    DetectedAmong(InterestKeywords, lower)
  }

  /**
   * What `analyzeMessage(message, current)` returns: each field that the message signals,
   * and no other; detected interests are appended to the current ones.
   */
  function Extracted(message: string, current: Preferences): Preferences {
    var lower := Lower(message);
    var detected := DetectedInterests(lower);
    Preferences(
      DetectExperience(lower),
      if detected == [] then None else Some(current.interests.GetOr([]) + detected),
      DetectTimeCommitment(lower),
      DetectGoal(lower),
      None)
  }

  /** `analyzeMessage`: the keyword chains, and a loop over the interest table collecting matches. */
  method AnalyzeMessage(message: string, current: Preferences) returns (r: Preferences)
    ensures r == Extracted(message, current)
  {
    var lower := Lower(message);
    var experience: Option<Experience> := None;
    if Contains(lower, "beginner") || Contains(lower, "new to") || Contains(lower, "never done") {
      experience := Some(Beginner);
    } else if Contains(lower, "intermediate") || Contains(lower, "some experience") || Contains(lower, "familiar with") {
      experience := Some(Intermediate);
    } else if Contains(lower, "advanced") || Contains(lower, "expert") || Contains(lower, "professional") {
      experience := Some(Advanced);
    }

    var detected: seq<string> := [];
    var i := 0;
    while i < |InterestKeywords|
      invariant 0 <= i <= |InterestKeywords|
      invariant detected == DetectedAmong(InterestKeywords[..i], lower)
    {
      var rule := InterestKeywords[i];
      var hit := false;
      var k := 0;
      while k < |rule.keywords| && !hit
        invariant 0 <= k <= |rule.keywords|
        invariant hit <==> exists m :: 0 <= m < k && Contains(lower, rule.keywords[m])
      {
        hit := Contains(lower, rule.keywords[k]);
        k := k + 1;
      }
      assert hit <==> AnyContains(lower, rule.keywords);
      assert InterestKeywords[..i + 1][..i] == InterestKeywords[..i];
      if hit {
        detected := detected + [rule.interest];
      }
      i := i + 1;
    }
    assert InterestKeywords[..i] == InterestKeywords;

    var interests: Option<seq<string>> := None;
    if |detected| > 0 {
      interests := Some(current.interests.GetOr([]) + detected);
    }
    r := Preferences(experience, interests, DetectTimeCommitment(lower), DetectGoal(lower), None);
  }

  /** Experience is decided by the first matching group: beginner, then intermediate, then advanced. */
  lemma ExperiencePrecedence(message: string)
    ensures var lower := Lower(message); var e := Extracted(message, EmptyPreferences).experience;
      && (Contains(lower, "beginner") ==> e == Some(Beginner))
      && ((Contains(lower, "intermediate") && !Contains(lower, "beginner") && !Contains(lower, "new to")
           && !Contains(lower, "never done")) ==> e == Some(Intermediate))
      && (e == Some(Advanced) <==>
           (Contains(lower, "advanced") || Contains(lower, "expert") || Contains(lower, "professional"))
           && !(Contains(lower, "beginner") || Contains(lower, "new to") || Contains(lower, "never done"))
           && !(Contains(lower, "intermediate") || Contains(lower, "some experience") || Contains(lower, "familiar with")))
  {
  }

  /**
   * "advance" is a prefix of "advanced": a message saying "advanced" and no career-change
   * phrase always gets the skill-upgrade goal.
   */
  lemma AdvancedImpliesSkillUpgrade(message: string)
    requires Contains(Lower(message), "advanced")
    requires !Contains(Lower(message), "career change") && !Contains(Lower(message), "new job")
    requires !Contains(Lower(message), "switch careers")
    ensures Extracted(message, EmptyPreferences).goals == Some(SkillUpgrade)
  {
    ContainsPrefixOf(Lower(message), "advanced", "advance");
  }

  /** Goals: career change before skill upgrade before hobby before certification; absent without a keyword. */
  lemma GoalPrecedence(message: string)
    ensures var lower := Lower(message); var g := Extracted(message, EmptyPreferences).goals;
      var career := Contains(lower, "career change") || Contains(lower, "new job") || Contains(lower, "switch careers");
      var skill := Contains(lower, "improve") || Contains(lower, "upgrade") || Contains(lower, "advance");
      var hobby := Contains(lower, "hobby") || Contains(lower, "fun") || Contains(lower, "personal interest");
      var cert := Contains(lower, "certification") || Contains(lower, "certificate") || Contains(lower, "credential");
      && (g == Some(CareerChange) <==> career)
      && (g == Some(SkillUpgrade) <==> skill && !career)
      && (g == Some(Hobby) <==> hobby && !career && !skill)
      && (g == Some(Certification) <==> cert && !career && !skill && !hobby)
      && (g.None? <==> !career && !skill && !hobby && !cert)
  {
  }

  /** Time commitment: light before intensive before moderate; absent without a keyword. */
  lemma TimeCommitmentPrecedence(message: string)
    ensures var lower := Lower(message); var t := Extracted(message, EmptyPreferences).timeCommitment;
      && (Contains(lower, "busy") || Contains(lower, "part-time") || Contains(lower, "few hours") <==> t == Some(Light))
      && (t == Some(Moderate) ==> !Contains(lower, "full-time") && !Contains(lower, "intensive") && !Contains(lower, "quickly"))
      && (t.None? <==> !Contains(lower, "busy") && !Contains(lower, "part-time") && !Contains(lower, "few hours")
                       && !Contains(lower, "full-time") && !Contains(lower, "intensive") && !Contains(lower, "quickly")
                       && !Contains(lower, "moderate") && !Contains(lower, "regular"))
  {
  }

  /** Interests appear in the result only when a category matched; the old list is kept in front. */
  lemma InterestsOnlyWhenDetected(message: string, current: Preferences)
    ensures var r := Extracted(message, current);
      && (r.interests.Some? <==> exists j :: 0 <= j < |InterestKeywords| && AnyContains(Lower(message), InterestKeywords[j].keywords))
      && (r.interests.Some? ==> r.interests.value[..|current.interests.GetOr([])|] == current.interests.GetOr([])
                                  && |r.interests.value| > |current.interests.GetOr([])|)
  {
    var lower := Lower(message);
    InterestTableHasDistinctNames();
    if exists j :: 0 <= j < |InterestKeywords| && AnyContains(lower, InterestKeywords[j].keywords) {
      var j :| 0 <= j < |InterestKeywords| && AnyContains(lower, InterestKeywords[j].keywords);
      DetectedAmongMembers(InterestKeywords, lower, j);
    }
    if DetectedInterests(lower) != [] {
      var x := DetectedInterests(lower)[0];
      DetectedAmongSubset(InterestKeywords, lower);
      assert x in DetectedAmong(InterestKeywords, lower);
      var a :| 0 <= a < |InterestKeywords| && InterestKeywords[a].interest == x;
      DetectedAmongMembers(InterestKeywords, lower, a);
    }
  }

  lemma InterestTableHasDistinctNames()
    ensures forall a, b :: 0 <= a < b < |InterestKeywords| ==> InterestKeywords[a].interest != InterestKeywords[b].interest
  {
  }

  /** "analytics" is a keyword of both "data science" and "business": it signals both. */
  lemma AnalyticsSignalsTwoCategories(message: string)
    requires Contains(Lower(message), "analytics")
    ensures var r := Extracted(message, EmptyPreferences);
      r.interests.Some? && "data science" in r.interests.value && "business" in r.interests.value
  {
    var lower := Lower(message);
    InterestTableHasDistinctNames();
    assert InterestKeywords[1].keywords[1] == "analytics";
    assert InterestKeywords[6].keywords[2] == "analytics";
    DetectedAmongMembers(InterestKeywords, lower, 1);
    DetectedAmongMembers(InterestKeywords, lower, 6);
  }

  // ---------------------------------------------------------------- dialogue state

  datatype Field = ExperienceField | InterestsField | TimeCommitmentField | GoalsField

  function FieldName(f: Field): string {
    match f
    case ExperienceField => "experience"
    case InterestsField => "interests"
    case TimeCommitmentField => "timeCommitment"
    case GoalsField => "goals"
  }

  function FieldRank(f: Field): nat {
    match f
    case ExperienceField => 0
    case InterestsField => 1
    case TimeCommitmentField => 2
    case GoalsField => 3
  }

  /** The field is known: present, and for interests also non-empty. */
  predicate IsKnown(p: Preferences, f: Field) {
    match f
    case ExperienceField => p.experience.Some?
    case InterestsField => p.interests.Some? && |p.interests.value| > 0
    case TimeCommitmentField => p.timeCommitment.Some?
    case GoalsField => p.goals.Some?
  }

  /** `getMissingInformation`. */
  function MissingInformation(p: Preferences): seq<Field> {
    (if p.experience.None? then [ExperienceField] else [])
    + (if p.interests.None? || |p.interests.value| == 0 then [InterestsField] else [])
    + (if p.timeCommitment.None? then [TimeCommitmentField] else [])
    + (if p.goals.None? then [GoalsField] else [])
  }

  /** The missing list holds exactly the unknown fields, each once, in the fixed field order. */
  lemma MissingInformationIsUnknownFieldsInOrder(p: Preferences)
    ensures var m := MissingInformation(p);
      && (forall f :: f in m <==> !IsKnown(p, f))
      && (forall i, j :: 0 <= i < j < |m| ==> FieldRank(m[i]) < FieldRank(m[j]))
  {
  }

  lemma MissingInformationOfEmptyProfile()
    ensures MissingInformation(EmptyPreferences) == [ExperienceField, InterestsField, TimeCommitmentField, GoalsField]
  {
  }

  const DefaultQuestion := "Tell me more about what you're looking for in a course."

  /** `getNextQuestion`: the canned question for a field name, with a generic fallback. */
  const ExperienceQuestion := "What's your experience level? Are you a complete beginner, have some experience, or would you consider yourself advanced?"
  const InterestsQuestion := "What areas are you most interested in? For example: web development, data science, digital marketing, UX/UI design, or something else?"
  const TimeCommitmentQuestion := "How much time can you dedicate to learning? Are you looking for something light (a few hours per week), moderate (5-10 hours per week), or intensive (15+ hours per week)?"
  const GoalsQuestion := "What's your main goal? Are you looking to change careers, upgrade your current skills, learn as a hobby, or get a certification?"

  function NextQuestion(missingInfo: string): string {
    if missingInfo == "experience" then ExperienceQuestion
    else if missingInfo == "interests" then InterestsQuestion
    else if missingInfo == "timeCommitment" then TimeCommitmentQuestion
    else if missingInfo == "goals" then GoalsQuestion
    else DefaultQuestion
  }

  /** The question asked for each field. */
  function FieldQuestion(f: Field): string {
    match f
    case ExperienceField => ExperienceQuestion
    case InterestsField => InterestsQuestion
    case TimeCommitmentField => TimeCommitmentQuestion
    case GoalsField => GoalsQuestion
  }

  /** Every field name reaches its own question, never the fallback branch. */
  lemma NextQuestionForField(f: Field)
    ensures NextQuestion(FieldName(f)) == FieldQuestion(f)
  {
    match f
    case ExperienceField =>
    case InterestsField =>
      assert FieldName(f) != "experience" by { assert |FieldName(f)| == 9; }
    case TimeCommitmentField =>
      assert FieldName(f) != "experience" && FieldName(f) != "interests" by { assert |FieldName(f)| == 14; }
    case GoalsField =>
      assert FieldName(f) != "experience" && FieldName(f) != "interests" && FieldName(f) != "timeCommitment"
        by { assert |FieldName(f)| == 5; }
  }

  // ---------------------------------------------------------------- scoring

  /** The first `(\d+)\s*weeks?` match (case-insensitive) decides the week count; default 12. */
  function DigitRunEnd(s: string, i: nat): (j: nat)
    requires i <= |s|
    ensures i <= j <= |s|
    ensures forall k :: i <= k < j ==> IsDigit(s[k])
    ensures j == |s| || !IsDigit(s[j])
    decreases |s| - i
  {
    if i < |s| && IsDigit(s[i]) then DigitRunEnd(s, i + 1) else i
  }

  function SpaceRunEnd(s: string, i: nat): (j: nat)
    requires i <= |s|
    ensures i <= j <= |s|
    ensures j == |s| || !IsWhitespace(s[j])
    decreases |s| - i
  {
    if i < |s| && IsWhitespace(s[i]) then SpaceRunEnd(s, i + 1) else i
  }

  /** The pattern matches at `i`: a digit run, optional whitespace, then "week" in any case. */
  predicate WeekMatchAt(s: string, i: nat) {
    i < |s| && IsDigit(s[i]) &&
    var k := SpaceRunEnd(s, DigitRunEnd(s, i));
    k + 4 <= |s| && Lower(s[k..k + 4]) == "week"
  }

  function FirstWeekMatch(s: string, i: nat): (r: Option<nat>)
    requires i <= |s|
    ensures r.Some? ==> i <= r.value < |s| && WeekMatchAt(s, r.value)
    ensures forall k :: i <= k < (if r.Some? then r.value else |s|) ==> !WeekMatchAt(s, k)
    decreases |s| - i
  {
    if i == |s| then None
    else if WeekMatchAt(s, i) then Some(i)
    else FirstWeekMatch(s, i + 1)
  }

  /** `extractWeeksFromDuration`. */
  function ExtractWeeks(duration: string): nat {
    match FirstWeekMatch(duration, 0)
    case Some(i) => ParseDigits(duration[i..DigitRunEnd(duration, i)])
    case None => 12
  }

  /** The catalogue's "<n> weeks" strings read back as n. */
  lemma ExtractWeeksRoundTrip(n: nat)
    ensures ExtractWeeks(NatToString(n) + " weeks") == n
  {
    var d := NatToString(n);
    var s := d + " weeks";
    DigitRunOf(s, d);
    assert SpaceRunEnd(s, |d| + 1) == |d| + 1;
    assert SpaceRunEnd(s, |d|) == |d| + 1;
    assert s[|d| + 1..|d| + 5] == "week";
    assert WeekMatchAt(s, 0);
    assert s[0..|d|] == d;
    ParsePrintRoundTrip(n);
  }

  lemma {:induction false} DigitRunOf(s: string, d: string)
    requires |d| >= 1 && StartsWith(s, d) && (forall k :: 0 <= k < |d| ==> IsDigit(d[k]))
    requires |d| < |s| && !IsDigit(s[|d|])
    ensures DigitRunEnd(s, 0) == |d|
  {
    var i := |d|;
    while i > 0
      invariant 0 <= i <= |d|
      invariant DigitRunEnd(s, i) == |d|
    {
      i := i - 1;
    }
  }

  /** A duration without any digit falls back to 12 weeks. */
  lemma ExtractWeeksDefault(duration: string)
    requires forall k :: 0 <= k < |duration| ==> !IsDigit(duration[k])
    ensures ExtractWeeks(duration) == 12
  {
  }

  lemma LowerLevelName(l: Courses.Level)
    ensures Lower(Courses.LevelName(l)) == match l
      case Beginner => "beginner" case Intermediate => "intermediate" case Advanced => "advanced"
  {
    var n := Courses.LevelName(l);
    var e := match l case Beginner => "beginner" case Intermediate => "intermediate" case Advanced => "advanced";
    assert |Lower(n)| == |e|;
    forall i | 0 <= i < |e| ensures Lower(n)[i] == e[i] {
    }
  }

  /** Same level (compared in lower case): 40; one step below the course's level: 20; else 0. */
  function ExperienceBonus(c: Courses.Course, p: Preferences): real {
    match p.experience
    case None => 0.0
    case Some(e) =>
      if Lower(Courses.LevelName(c.level)) == ExperienceName(e) then 40.0
      else if (e == Beginner && Courses.LevelName(c.level) == "Intermediate")
           || (e == Intermediate && Courses.LevelName(c.level) == "Advanced") then 20.0
      else 0.0
  }

  /** The exact-level bonus goes to the matching level; the partial bonus only one level up. */
  lemma ExperienceBonusTable(c: Courses.Course, e: Experience)
    ensures var p := EmptyPreferences.(experience := Some(e)); var b := ExperienceBonus(c, p);
      && (b == 40.0 <==> ExperienceName(e) == match c.level case Beginner => "beginner" case Intermediate => "intermediate" case Advanced => "advanced")
      && (b == 20.0 <==> (e == Beginner && c.level == Courses.Intermediate) || (e == Intermediate && c.level == Courses.Advanced))
      && (e == Advanced ==> b == 40.0 || b == 0.0)
  {
    LowerLevelName(c.level);
  }

  /** The interest occurs in the lower-cased category or in some lower-cased tag. */
  predicate InterestMatches(c: Courses.Course, interest: string) {
    Contains(Lower(c.category), interest) || exists t :: 0 <= t < |c.tags| && Contains(Lower(c.tags[t]), interest)
  }

  /** How many entries of `interests` (counting repeats) match the course. */
  function MatchCount(c: Courses.Course, interests: seq<string>): (n: nat)
    ensures n <= |interests|
  {
    if interests == [] then 0
    else MatchCount(c, interests[..|interests| - 1]) + (if InterestMatches(c, interests[|interests| - 1]) then 1 else 0)
  }

  function InterestBonus(c: Courses.Course, p: Preferences): real {
    match p.interests
    case None => 0.0
    case Some(xs) => 35.0 * (MatchCount(c, xs) as real)
  }

  /** 15 points when the course length fits the time window; the windows overlap at 8..10 and 12..14 weeks. */
  function TimeBonus(c: Courses.Course, p: Preferences): real {
    match p.timeCommitment
    case None => 0.0
    case Some(t) =>
      var w := ExtractWeeks(c.duration);
      if (t == Light && w <= 10) || (t == Moderate && 8 <= w <= 14) || (t == Intensive && w >= 12) then 15.0 else 0.0
  }

  function Min(a: real, b: real): real { if a <= b then a else b }

  /** Rating x 3, enrolment / 100 capped at 10, and 5 for a featured course. */
  function QualityBonus(c: Courses.Course): real {
    c.rating * 3.0 + Min(c.studentsEnrolled as real / 100.0, 10.0) + (if c.featured then 5.0 else 0.0)
  }

  /** `calculateCourseScore`, as a sum of its terms. */
  function CourseScore(c: Courses.Course, p: Preferences): real {
    ExperienceBonus(c, p) + InterestBonus(c, p) + TimeBonus(c, p) + QualityBonus(c)
  }

  /** `calculateCourseScore`: accumulates the score term by term, one interest at a time. */
  method CalculateCourseScore(c: Courses.Course, p: Preferences) returns (score: real)
    ensures score == CourseScore(c, p)
  {
    score := 0.0;
    if p.experience.Some? {
      var e := p.experience.value;
      if Lower(Courses.LevelName(c.level)) == ExperienceName(e) {
        score := score + 40.0;
      } else if (e == Beginner && Courses.LevelName(c.level) == "Intermediate")
             || (e == Intermediate && Courses.LevelName(c.level) == "Advanced") {
        score := score + 20.0;
      }
    }
    assert score == ExperienceBonus(c, p);
    ghost var base := score;
    if p.interests.Some? && |p.interests.value| > 0 {
      var xs := p.interests.value;
      var i := 0;
      while i < |xs|
        invariant 0 <= i <= |xs|
        invariant score == base + 35.0 * (MatchCount(c, xs[..i]) as real)
      {
        assert xs[..i + 1][..i] == xs[..i];
        if InterestMatches(c, xs[i]) {
          score := score + 35.0;
        }
        i := i + 1;
      }
      assert xs[..i] == xs;
    }
    assert score == ExperienceBonus(c, p) + InterestBonus(c, p);
    ghost var base2 := score;
    if p.timeCommitment.Some? {
      var t := p.timeCommitment.value;
      var w := ExtractWeeks(c.duration);
      if t == Light && w <= 10 {
        score := score + 15.0;
      } else if t == Moderate && w >= 8 && w <= 14 {
        score := score + 15.0;
      } else if t == Intensive && w >= 12 {
        score := score + 15.0;
      }
    }
    assert score == base2 + TimeBonus(c, p);
    score := score + c.rating * 3.0;
    score := score + Min(c.studentsEnrolled as real / 100.0, 10.0);
    if c.featured {
      score := score + 5.0;
    }
  }

  /** Two courses that differ only in being featured differ by exactly 5 points. */
  lemma FeaturedAddsFive(c: Courses.Course, p: Preferences)
    ensures CourseScore(c.(featured := true), p) == CourseScore(c.(featured := false), p) + 5.0
  {
    var on, off := c.(featured := true), c.(featured := false);
    assert ExperienceBonus(on, p) == ExperienceBonus(off, p);
    assert InterestBonus(on, p) == InterestBonus(off, p) by {
      if p.interests.Some? {
        MatchCountSameTags(on, off, p.interests.value);
      }
    }
    assert TimeBonus(on, p) == TimeBonus(off, p);
  }

  lemma {:induction false} MatchCountSameTags(c: Courses.Course, d: Courses.Course, xs: seq<string>)
    requires c.category == d.category && c.tags == d.tags
    ensures MatchCount(c, xs) == MatchCount(d, xs)
  {
    if xs != [] {
      MatchCountSameTags(c, d, xs[..|xs| - 1]);
      assert InterestMatches(c, xs[|xs| - 1]) == InterestMatches(d, xs[|xs| - 1]);
    }
  }

  lemma {:induction false} MatchCountAppend(c: Courses.Course, xs: seq<string>, x: string)
    ensures MatchCount(c, xs + [x]) == MatchCount(c, xs) + (if InterestMatches(c, x) then 1 else 0)
  {
    assert (xs + [x])[..|xs|] == xs;
  }

  /** Each occurrence of an interest counts on its own: repeating a matching interest adds 35. */
  lemma RepeatedInterestCompounds(c: Courses.Course, p: Preferences, x: string)
    requires p.interests.Some?
    ensures var q := p.(interests := Some(p.interests.value + [x]));
      CourseScore(c, q) == CourseScore(c, p) + (if InterestMatches(c, x) then 35.0 else 0.0)
  {
    MatchCountAppend(c, p.interests.value, x);
  }

  /** A course described as "<n> weeks" gets the time bonus exactly inside the profile's window. */
  lemma TimeBonusForWeeks(c: Courses.Course, p: Preferences, n: nat)
    requires c.duration == NatToString(n) + " weeks" && p.timeCommitment.Some?
    ensures TimeBonus(c, p) == 15.0 <==>
      match p.timeCommitment.value
      case Light => n <= 10
      case Moderate => 8 <= n <= 14
      case Intensive => n >= 12
  {
    ExtractWeeksRoundTrip(n);
  }

  // ---------------------------------------------------------------- ranking

  function ScoreKey(p: Preferences): Courses.Course -> real {
    (c: Courses.Course) => CourseScore(c, p)
  }

  /** The interests, lower-cased, as the set the second pass looks categories up in. */
  function InterestSet(interests: seq<string>): set<string> {
    set i | i in interests :: Lower(i)
  }

  function CategoryKey(interestSet: set<string>): Courses.Course -> bool {
    (c: Courses.Course) => Lower(c.category) in interestSet
  }

  predicate HasInterests(p: Preferences) {
    p.interests.Some? && |p.interests.value| > 0
  }

  function ByScore(catalog: seq<Courses.Course>, p: Preferences): seq<Courses.Course> {
    StableSort(catalog, ScoreKey(p), Descending)
  }

  /** `getRecommendations`: stable sort by descending score, then (with interests) a stable pass putting interest categories first. */
  function GetRecommendations(catalog: seq<Courses.Course>, p: Preferences): seq<Courses.Course> {
    var byScore := ByScore(catalog, p);
    if HasInterests(p) then StableSort(byScore, CategoryKey(InterestSet(p.interests.value)), TrueFirst) else byScore
  }

  /** The result is a permutation of the catalogue. */
  lemma RecommendationsArePermutation(catalog: seq<Courses.Course>, p: Preferences)
    ensures multiset(GetRecommendations(catalog, p)) == multiset(catalog)
  {
  }

  /** Without interests: descending score, and courses with equal scores in catalogue order. */
  lemma RecommendationsWithoutInterests(catalog: seq<Courses.Course>, p: Preferences)
    requires !HasInterests(p)
    ensures var r := GetRecommendations(catalog, p);
      && (forall i, j :: 0 <= i < j < |r| ==> CourseScore(r[i], p) >= CourseScore(r[j], p))
      && (forall s :: KeyClass(r, ScoreKey(p), s) == KeyClass(catalog, ScoreKey(p), s))
  {
    DescendingIsStrictTotalOrder();
    StableSortSorted(catalog, ScoreKey(p), Descending);
    var r := GetRecommendations(catalog, p);
    forall i, j | 0 <= i < j < |r| ensures CourseScore(r[i], p) >= CourseScore(r[j], p) {
      assert !Descending(ScoreKey(p)(r[j]), ScoreKey(p)(r[i]));
    }
    forall s ensures KeyClass(r, ScoreKey(p), s) == KeyClass(catalog, ScoreKey(p), s) {
      StableSortKeyClass(catalog, ScoreKey(p), Descending, s);
    }
  }

  /**
   * With interests: courses whose category is an interest (case-insensitively) come first; each
   * group is in descending score and keeps the order of the score sort.
   */
  lemma RecommendationsWithInterests(catalog: seq<Courses.Course>, p: Preferences)
    requires HasInterests(p)
    ensures var r := GetRecommendations(catalog, p);
      var inSet := CategoryKey(InterestSet(p.interests.value));
      var byScore := ByScore(catalog, p);
      && r == KeyClass(byScore, inSet, true) + KeyClass(byScore, inSet, false)
      && (forall i, j :: 0 <= i < j < |r| && inSet(r[j]) ==> inSet(r[i]))
      && (forall i, j :: 0 <= i < j < |r| && inSet(r[i]) == inSet(r[j]) ==> CourseScore(r[i], p) >= CourseScore(r[j], p))
  {
    var inSet := CategoryKey(InterestSet(p.interests.value));
    var byScore := ByScore(catalog, p);
    var r := GetRecommendations(catalog, p);
    StableSortBoolIsPartition(byScore, inSet);
    DescendingIsStrictTotalOrder();
    StableSortSorted(catalog, ScoreKey(p), Descending);
    PartitionOfSorted(byScore, inSet, ScoreKey(p), Descending);
    forall i, j | 0 <= i < j < |r| && inSet(r[i]) == inSet(r[j]) ensures CourseScore(r[i], p) >= CourseScore(r[j], p) {
      assert !Descending(ScoreKey(p)(r[j]), ScoreKey(p)(r[i]));
    }
  }

  // ---------------------------------------------------------------- reply

  function GoalMessage(g: Goal): string {
    match g
    case CareerChange => "these courses will help you transition to a new career"
    case SkillUpgrade => "these courses will enhance your existing skills"
    case Hobby => "these courses are perfect for personal enrichment"
    case Certification => "these courses can help you earn valuable certifications"
  }

  const Intro := "Based on your preferences, here are my top course recommendations:\n\n"
  const NoMatch := "I couldn't find courses that perfectly match your criteria, but let me show you some popular options that might interest you."
  const Closing := "\n\nAll courses are completely free! Would you like more details about any of these courses, or would you like me to find alternatives?"

  /** `generateRecommendationMessage`. */
  function RecommendationMessage(p: Preferences, recommendations: seq<Courses.Course>): string {
    var m0 := Intro;
    var m1 := if p.experience.Some? then m0 + "Since you're at a " + ExperienceName(p.experience.value) + " level, " else m0;
    var m2 := if p.goals.Some? then m1 + GoalMessage(p.goals.value) + ". " else m1;
    var m3 := if |recommendations| == 0 then NoMatch else m2;
    m3 + Closing
  }

  /** The reply always ends with the closing sentence; an empty list replaces everything before it. */
  lemma RecommendationMessageShape(p: Preferences, recommendations: seq<Courses.Course>)
    ensures var m := RecommendationMessage(p, recommendations);
      && |m| >= |Closing| && m[|m| - |Closing|..] == Closing
      && (recommendations == [] ==> m == NoMatch + Closing)
      && (recommendations != [] ==> StartsWith(m, Intro))
  {
  }

  /** The shape of `generateResponse`'s result. */
  datatype Reply = Reply(message: string, recommendations: Option<seq<Courses.Course>>, nextQuestion: Option<string>)

  function Take<T>(s: seq<T>, n: nat): seq<T> {
    if |s| <= n then s else s[..n]
  }

  /** `generateResponse`, with the conversation history given by its length. */
  function GenerateResponse(catalog: seq<Courses.Course>, p: Preferences, historyLength: nat): Reply {
    var missing := MissingInformation(p);
    if |missing| == 0 || historyLength > 8 then
      var recommendations := GetRecommendations(catalog, p);
      Reply(RecommendationMessage(p, recommendations), Some(Take(recommendations, 3)), None)
    else
      Reply(NextQuestion(FieldName(missing[0])), None, Some(FieldName(missing[0])))
  }

  lemma RecommendationsLength(catalog: seq<Courses.Course>, p: Preferences)
    ensures |GetRecommendations(catalog, p)| == |catalog|
  {
    RecommendationsArePermutation(catalog, p);
    assert |multiset(GetRecommendations(catalog, p))| == |multiset(catalog)|;
  }

  /**
   * Recommends exactly when every field is known or more than 8 turns have passed (so a
   * conversation ends after at most 9 turns), and then gives the top three of the ranking.
   */
  lemma GenerateResponseRecommends(catalog: seq<Courses.Course>, p: Preferences, historyLength: nat)
    ensures var r := GenerateResponse(catalog, p, historyLength);
      && (r.recommendations.Some? <==> (forall f :: IsKnown(p, f)) || historyLength > 8)
      && (r.recommendations.Some? ==>
            && r.recommendations.value == GetRecommendations(catalog, p)[..|r.recommendations.value|]
            && |r.recommendations.value| == (if |catalog| < 3 then |catalog| else 3)
            && r.message == RecommendationMessage(p, GetRecommendations(catalog, p))
            && r.nextQuestion.None?)
  {
    MissingInformationIsUnknownFieldsInOrder(p);
    RecommendationsLength(catalog, p);
    var missing := MissingInformation(p);
    if |missing| > 0 {
      assert missing[0] in missing;
    }
  }

  /** Otherwise it asks about the first unknown field in the fixed order and recommends nothing. */
  lemma GenerateResponseAsks(catalog: seq<Courses.Course>, p: Preferences, historyLength: nat)
    requires (exists f :: !IsKnown(p, f)) && historyLength <= 8
    ensures var r := GenerateResponse(catalog, p, historyLength);
      exists f ::
        && !IsKnown(p, f)
        && (forall g :: FieldRank(g) < FieldRank(f) ==> IsKnown(p, g))
        && r == Reply(FieldQuestion(f), None, Some(FieldName(f)))
  {
    MissingInformationIsUnknownFieldsInOrder(p);
    var missing := MissingInformation(p);
    assert missing[0] in missing;
    NextQuestionForField(missing[0]);
  }
}
