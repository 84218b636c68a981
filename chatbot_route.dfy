/**
 * The chatbot endpoint (learnhub/app/api/chatbot/recommend/route.ts): one POST per learner
 * message. It extracts preferences from the message, merges them over the client's profile,
 * and asks the engine for the next reply.
 */
module ChatbotRoute {
  import opened Wrappers
  import opened RecommendationEngine
  import Courses

  /**
   * A decoded request body. `message` is None when it is absent or not a string; the
   * history is given by its length.
   */
  datatype ChatRequest = ChatRequest(
    message: Option<string>,
    preferences: Option<Preferences>,
    conversationHistory: Option<nat>)

  datatype ChatResponse = ChatResponse(
    status: nat,
    message: string,
    recommendations: seq<Courses.Course>,
    preferences: Preferences,
    nextQuestion: Option<string>)

  const Apology := "I'm sorry, I'm having trouble processing your request. Please try again."

  /** `{ ...current, ...extracted }`: every field the extractor produced overrides the current one. */
  function Merge(current: Preferences, extracted: Preferences): Preferences {
    Preferences(
      if extracted.experience.Some? then extracted.experience else current.experience,
      if extracted.interests.Some? then extracted.interests else current.interests,
      if extracted.timeCommitment.Some? then extracted.timeCommitment else current.timeCommitment,
      if extracted.goals.Some? then extracted.goals else current.goals,
      if extracted.learningStyle.Some? then extracted.learningStyle else current.learningStyle)
  }

  /**
   * `POST`. `body` is None when the request does not carry a JSON object. A body
   * without a string message makes the extractor throw; both failures give the 500 reply.
   */
  function HandleChat(catalog: seq<Courses.Course>, body: Option<ChatRequest>): ChatResponse {
    if body.None? || body.value.message.None? then
      ChatResponse(500, Apology, [], EmptyPreferences, None)
    else
      var message := body.value.message.value;
      var current := body.value.preferences.GetOr(EmptyPreferences);
      var updated := Merge(current, Extracted(message, current));
      var reply := GenerateResponse(catalog, updated, body.value.conversationHistory.GetOr(0));
      ChatResponse(200, reply.message, reply.recommendations.GetOr([]), updated, reply.nextQuestion)
  }

  /** The failure path: a fixed apology, no recommendations and an empty profile. */
  lemma HandleChatFailure(catalog: seq<Courses.Course>, body: Option<ChatRequest>)
    ensures var r := HandleChat(catalog, body);
      (r.status == 500 <==> body.None? || body.value.message.None?)
      && (r.status == 500 ==> r == ChatResponse(500, Apology, [], EmptyPreferences, None))
      && (r.status != 500 ==> r.status == 200)
  {
  }

  /**
   * The merge of the extracted fields over the client's profile: a field the message signals
   * takes the signalled value, any other field stays as the client sent it, and detected
   * interests are appended after the client's list.
   */
  lemma HandleChatMergesProfile(catalog: seq<Courses.Course>, req: ChatRequest)
    requires req.message.Some?
    ensures var r := HandleChat(catalog, Some(req));
      var current := req.preferences.GetOr(EmptyPreferences);
      var lower := Strings.Lower(req.message.value);
      var detected := DetectedInterests(lower);
      && r.preferences.experience == (if DetectExperience(lower).Some? then DetectExperience(lower) else current.experience)
      && r.preferences.timeCommitment == (if DetectTimeCommitment(lower).Some? then DetectTimeCommitment(lower) else current.timeCommitment)
      && r.preferences.goals == (if DetectGoal(lower).Some? then DetectGoal(lower) else current.goals)
      && r.preferences.interests == (if detected == [] then current.interests else Some(current.interests.GetOr([]) + detected))
      && r.preferences.learningStyle == current.learningStyle
      && |current.interests.GetOr([])| <= |r.preferences.interests.GetOr([])|
      && r.preferences.interests.GetOr([])[..|current.interests.GetOr([])|] == current.interests.GetOr([])
  {
    var current := req.preferences.GetOr(EmptyPreferences);
    var detected := DetectedInterests(Strings.Lower(req.message.value));
    if detected != [] {
      assert (current.interests.GetOr([]) + detected)[..|current.interests.GetOr([])|] == current.interests.GetOr([]);
    }
  }

  /** A message sent after more than 8 earlier turns always gets recommendations, at most three. */
  lemma HandleChatTurnCap(catalog: seq<Courses.Course>, req: ChatRequest)
    requires req.message.Some? && req.conversationHistory.GetOr(0) > 8
    ensures var r := HandleChat(catalog, Some(req));
      r.status == 200 && r.nextQuestion.None? && |r.recommendations| == (if |catalog| < 3 then |catalog| else 3)
  {
    var current := req.preferences.GetOr(EmptyPreferences);
    var updated := Merge(current, Extracted(req.message.value, current));
    GenerateResponseRecommends(catalog, updated, req.conversationHistory.GetOr(0));
  }
}
