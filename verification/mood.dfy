/**
 * The client-side mood classifier: weighted keyword scoring of the user's
 * text plus a boost for the kinds of action the turn carried, with a
 * `change_theme` action overriding the score through a fixed theme-to-mood
 * table; and the lookup of the companion character's face for a mood.
 *
 * Scores are doubled so that they stay integers: a pattern match is worth
 * 4 (the source's 2) and a boost 3 (the source's 1.5).
 */
module Mood {

  import opened Wrappers
  import opened Text
  import opened JsValue
  import opened Patterns

  /** One row of the rule table: a mood, its keyword alternatives and the action kinds that boost it. */
  datatype MoodRule = MoodRule(mood: string, keywords: seq<string>, boosts: seq<string>)

  /** The rule table in declaration order; earlier rows win ties. */
  const Rules: seq<MoodRule> := [
      MoodRule("proud", ["done", "finished", "completed", "check off", "nailed", "shipped", "deployed", "crushed"], ["complete_task"]),
      MoodRule("stressed", ["stress", "anxious", "worried", "panic", "overwhelm", "deadline", "urgent", "asap", "behind"], []),
      MoodRule("sad", ["sad", "upset", "bad day", "terrible", "awful", "depressed", "lonely", "miss", "lost"], []),
      MoodRule("energetic", ["excited", "hyped", "amazing", "awesome", "fantastic", "pumped", "lets go", "let's go", "fire", "hell yeah", "insane"], []),
      MoodRule("happy", ["happy", "great", "wonderful", "love it", "perfect", "yay", "nice", "good news", "celebrate"], []),
      MoodRule("romantic", ["love", "date", "anniversary", "valentine", "romantic", "heart", "wedding", "partner"], []),
      MoodRule("cozy", ["cozy", "cosy", "warm", "comfort", "snug", "blanket", "candle", "tea", "fireplace", "hygge", "homey"], []),
      MoodRule("focus", ["focus", "concentrate", "deep work", "grind", "lock in", "study", "exam", "pomodoro", "timer"], ["add_timer"]),
      MoodRule("creative", ["creat", "design", "art", "sketch", "paint", "draw", "brainstorm", "inspir", "imagin", "idea", "write", "draft", "blog"], []),
      MoodRule("sleepy", ["sleep", "tired", "exhaust", "nap", "rest", "bedtime", "late night", "insomnia", "zzz"], []),
      MoodRule("chill", ["chill", "relax", "laid back", "vibe", "mellow", "easy", "no rush", "take it easy", "wind down"], []),
      MoodRule("curious", ["wonder", "curious", "what if", "how does", "why", "interest", "explore", "discover", "learn"], []),
      MoodRule("playful", ["fun", "play", "game", "silly", "goofy", "party", "joke", "lol", "haha", "😂", "🎉"], []),
      MoodRule("intense", ["intense", "serious", "critical", "important", "power", "determined", "no excuses", "push"], []),
      MoodRule("mysterious", ["mysteri", "dark", "midnight", "shadow", "secret", "enigma", "noir", "spooky"], []),
      MoodRule("ocean", ["ocean", "sea", "water", "wave", "beach", "surf", "coast", "marine", "island"], []),
      MoodRule("nature", ["forest", "nature", "green", "earth", "garden", "tree", "plant", "hike", "mountain", "outdoor"], []),
      MoodRule("sunset", ["sunset", "sunrise", "golden", "dusk", "twilight", "dawn", "horizon", "sky"], []),
      MoodRule("dreamy", ["dream", "whimsical", "fantasy", "magic", "wonder", "fairy", "starry", "wish"], []),
      MoodRule("calm", ["calm", "serene", "peaceful", "tranquil", "zen", "meditat", "mindful", "breathe", "quiet"], []),
      MoodRule("productive", ["productive", "efficient", "organize", "plan", "schedule", "manage", "priorit", "todo", "task"], ["add_task", "split_task"])
    ]

  /** `actions.map(a => a.type)`. */
  function TypesOf(actions: seq<Value>): (r: seq<Value>)
    ensures |r| == |actions|
    ensures forall i :: 0 <= i < |actions| ==> r[i] == Field(actions[i], "type")
  {
    if actions == [] then [] else [Field(actions[0], "type")] + TypesOf(actions[1..])
  }

  /** One of the rule's boost kinds is among the action types. */
  predicate Boosted(rule: MoodRule, types: seq<Value>) {
    exists b | b in rule.boosts :: Str(b) in types
  }

  /** The doubled score of a rule: 4 when its pattern matches the text, plus 3 when it is boosted. */
  function Score(rule: MoodRule, text: string, types: seq<Value>): nat {
    (if Matches(text, rule.keywords) then 4 else 0) + (if Boosted(rule, types) then 3 else 0)
  }

  /** The score of every rule, in table order. */
  function Scores(rules: seq<MoodRule>, text: string, types: seq<Value>): (r: seq<nat>)
    ensures |r| == |rules|
    ensures forall k :: 0 <= k < |rules| ==> r[k] == Score(rules[k], text, types)
  {
    if rules == [] then [] else [Score(rules[0], text, types)] + Scores(rules[1..], text, types)
  }

  /**
   * `best` is what the scoring loop holds after the first `n` scores: the
   * first index with the highest positive score, or nothing when none is positive.
   */
  ghost predicate FirstBest(scores: seq<nat>, n: nat, best: Option<nat>) {
    && n <= |scores|
    && match best
       case None => forall k :: 0 <= k < n ==> scores[k] == 0
       case Some(b) =>
         && b < n
         && scores[b] > 0
         && (forall k :: 0 <= k < n ==> scores[k] <= scores[b])
         && (forall k :: 0 <= k < b ==> scores[k] < scores[b])
  }

  /** The scoring loop from index `i` on: only a strictly higher score replaces the current best. */
  function BestFrom(scores: seq<nat>, i: nat, best: Option<nat>, bestScore: nat): (r: Option<nat>)
    requires i <= |scores|
    requires FirstBest(scores, i, best)
    requires best.None? ==> bestScore == 0
    requires best.Some? ==> bestScore == scores[best.value]
    ensures FirstBest(scores, |scores|, r)
    decreases |scores| - i
  {
    if i == |scores| then best
    else if scores[i] > bestScore then BestFrom(scores, i + 1, Some(i), scores[i])
    else BestFrom(scores, i + 1, best, bestScore)
  }

  /** The index of the winning score, if any is positive. */
  function BestIndex(scores: seq<nat>): (r: Option<nat>)
    ensures FirstBest(scores, |scores|, r)
  {
    BestFrom(scores, 0, None, 0)
  }

  /** When no score exceeds 7, a first score of 7 always wins. */
  lemma FirstFullScoreWins(scores: seq<nat>)
    requires |scores| > 0 && scores[0] == 7
    requires forall k :: 0 <= k < |scores| ==> scores[k] <= 7
    ensures BestIndex(scores) == Some(0)
  {
  }

  /** The theme-to-mood table consulted for `change_theme` actions. */
  const ThemeMoods: map<string, string> := map[
      "cozy" := "cozy", "focus" := "focus", "ocean" := "ocean", "sunset" := "sunset",
      "forest" := "nature", "midnight" := "mysterious", "minimal" := "calm"
    ]

  /** The mood a single action forces: a `change_theme` whose theme is in the table. */
  function ThemeMoodOf(a: Value): Option<string> {
    var key := ToStr(Field(a, "theme"));
    if Field(a, "type") == Str("change_theme") && key in ThemeMoods then Some(ThemeMoods[key]) else None
  }

  /** The index, from `i` on, of the first action that forces a mood. */
  function ThemeIndex(actions: seq<Value>, i: nat): (r: Option<nat>)
    requires i <= |actions|
    ensures r.None? <==> forall j :: i <= j < |actions| ==> ThemeMoodOf(actions[j]).None?
    ensures r.Some? ==> i <= r.value < |actions| && ThemeMoodOf(actions[r.value]).Some?
                        && forall j :: i <= j < r.value ==> ThemeMoodOf(actions[j]).None?
    decreases |actions| - i
  {
    if i == |actions| then None
    else if ThemeMoodOf(actions[i]).Some? then Some(i)
    else ThemeIndex(actions, i + 1)
  }

  /** The mood forced by the first action that forces one, scanning in list order. */
  function ThemeOverride(actions: seq<Value>): (r: Option<string>)
    ensures r.None? <==> forall i :: 0 <= i < |actions| ==> ThemeMoodOf(actions[i]).None?
    ensures r.Some? ==> exists i :: 0 <= i < |actions| && ThemeMoodOf(actions[i]) == r
                          && forall j :: 0 <= j < i ==> ThemeMoodOf(actions[j]).None?
  {
    match ThemeIndex(actions, 0)
    case None => None
    case Some(i) => ThemeMoodOf(actions[i])
  }

  /**
   * `inferMood(userText, actions)`: the forced theme mood if there is one,
   * otherwise the winning rule's mood; `None` means "leave the mood alone".
   */
  function InferMood(userText: string, actions: seq<Value>): (r: Option<string>)
    ensures r.None? <==>
              && ThemeOverride(actions).None?
              && forall k :: 0 <= k < |Rules| ==> Score(Rules[k], Lower(userText), TypesOf(actions)) == 0
    ensures ThemeOverride(actions).Some? ==> r == ThemeOverride(actions)
    ensures ThemeOverride(actions).None? && r.Some? ==>
              exists k :: 0 <= k < |Rules| && r == Some(Rules[k].mood)
                          && FirstBest(Scores(Rules, Lower(userText), TypesOf(actions)), |Rules|, Some(k))
  {
    match ThemeOverride(actions)
    case Some(m) => Some(m)
    case None =>
      match BestIndex(Scores(Rules, Lower(userText), TypesOf(actions)))
      case Some(k) => Some(Rules[k].mood)
      case None => None
  }

  /**
   * A text that matches the "proud" pattern in a turn that completed a task
   * is classified "proud" unless a theme forces another mood: 4 + 3 is the
   * highest score any rule can reach and "proud" is declared first.
   */
  lemma ProudWhenCompleting(userText: string, actions: seq<Value>)
    requires Matches(Lower(userText), Rules[0].keywords)
    requires Str("complete_task") in TypesOf(actions)
    requires ThemeOverride(actions).None?
    ensures InferMood(userText, actions) == Some("proud")
  {
    var text, types := Lower(userText), TypesOf(actions);
    assert Boosted(Rules[0], types) by { assert "complete_task" in Rules[0].boosts; }
    FirstFullScoreWins(Scores(Rules, text, types));
  }

  /** Without any keyword, boost or theme there is no mood: `inferMood("", [])` is null. */
  lemma EmptyTurnHasNoMood()
    ensures InferMood("", []) == None
  {
    NothingScoresOnEmptyTurn(Rules);
    NoThemeNoScoreNoMood("", []);
  }

  /** With no forced theme and every score zero, the mood is left alone. */
  lemma NoThemeNoScoreNoMood(userText: string, actions: seq<Value>)
    requires ThemeOverride(actions).None?
    requires forall k :: 0 <= k < |Rules| ==> Score(Rules[k], Lower(userText), TypesOf(actions)) == 0
    ensures InferMood(userText, actions) == None
  {
  }

  lemma NothingScoresOnEmptyTurn(rules: seq<MoodRule>)
    ensures forall k :: 0 <= k < |rules| ==> Score(rules[k], Lower(""), TypesOf([])) == 0
  {
    forall k | 0 <= k < |rules|
      ensures Score(rules[k], Lower(""), TypesOf([])) == 0
    {
      NoMatchInEmpty(rules[k].keywords);
    }
  }

  /** A row of the companion character's face table. */
  datatype Lenny = Lenny(id: string, face: string, caption: string)

  /** The face table; the last row, "neutral", is the fallback. */
  const LennyMoods: seq<Lenny> := [
      Lenny("cozy", "( ˘ ω ˘ )", "cozy"),
      Lenny("focus", "( •̀ᴗ•́ )", "locked in"),
      Lenny("productive", "( •̀ᴗ•́ )و", "on it"),
      Lenny("energetic", "( ᗒ ᗨᗕ )", "hyped!"),
      Lenny("happy", "( ◠‿◠ )", "happy"),
      Lenny("calm", "( ◡ ‿ ◡ )", "at peace"),
      Lenny("creative", "( ☆ ᗜ ☆ )", "inspired"),
      Lenny("dreamy", "( ᵕ ꈊ ᵕ )", "dreamy"),
      Lenny("sleepy", "( ᴗ_ᴗ。)", "zzz"),
      Lenny("chill", "( ‾́ ◡ ‾́ )", "vibing"),
      Lenny("mysterious", "( ¬‿¬ )", "hmm..."),
      Lenny("intense", "( ⊙ᗜ⊙ )", "intense"),
      Lenny("romantic", "( ♡ ᴗ ♡ )", "lovely"),
      Lenny("sad", "( ◞‸◟ )", "aw"),
      Lenny("stressed", "( ⊙﹏⊙ )", "eep"),
      Lenny("proud", "( ˙▿˙ )b", "nailed it"),
      Lenny("curious", "( ᐛ )", "curious"),
      Lenny("playful", "( ˙ᗜ˙ )", "wheee"),
      Lenny("ocean", "( ≧ᗜ≦ )~", "wave~"),
      Lenny("nature", "( ᵔ ᵕ ᵔ )", "nature"),
      Lenny("sunset", "( ◠ ꈊ ◠ )", "golden"),
      Lenny("neutral", "( ˘ ᵕ ˘ )", "chillin")
    ]

  /** The first face row from index `i` on whose id is `moodId`. */
  function FindLenny(moodId: string, i: nat): (r: Option<nat>)
    requires i <= |LennyMoods|
    ensures r.None? <==> forall k :: i <= k < |LennyMoods| ==> LennyMoods[k].id != moodId
    ensures r.Some? ==> i <= r.value < |LennyMoods| && LennyMoods[r.value].id == moodId
    decreases |LennyMoods| - i
  {
    if i == |LennyMoods| then None
    else if LennyMoods[i].id == moodId then Some(i)
    else FindLenny(moodId, i + 1)
  }

  /** `getLennyByMood`: the row for the mood, or the last row ("neutral") when the mood has none. */
  function LennyByMood(moodId: string): (r: Lenny)
    ensures r in LennyMoods
    ensures (exists k :: 0 <= k < |LennyMoods| && LennyMoods[k].id == moodId) ==> r.id == moodId
    ensures (forall k :: 0 <= k < |LennyMoods| ==> LennyMoods[k].id != moodId) ==> r.id == "neutral"
  {
    match FindLenny(moodId, 0)
    case Some(k) => LennyMoods[k]
    case None => LennyMoods[|LennyMoods| - 1]
  }

  /** Row `k` of the rule table has a face row of its own. */
  lemma RuleMoodHasFace(k: nat)
    requires k < |Rules|
    ensures exists j :: 0 <= j < |LennyMoods| && LennyMoods[j].id == Rules[k].mood
  {
    match k
    case 0 => assert LennyMoods[15].id == Rules[0].mood;
    case 1 => assert LennyMoods[14].id == Rules[1].mood;
    case 2 => assert LennyMoods[13].id == Rules[2].mood;
    case 3 => assert LennyMoods[3].id == Rules[3].mood;
    case 4 => assert LennyMoods[4].id == Rules[4].mood;
    case 5 => assert LennyMoods[12].id == Rules[5].mood;
    case 6 => assert LennyMoods[0].id == Rules[6].mood;
    case 7 => assert LennyMoods[1].id == Rules[7].mood;
    case 8 => assert LennyMoods[6].id == Rules[8].mood;
    case 9 => assert LennyMoods[8].id == Rules[9].mood;
    case 10 => assert LennyMoods[9].id == Rules[10].mood;
    case 11 => assert LennyMoods[16].id == Rules[11].mood;
    case 12 => assert LennyMoods[17].id == Rules[12].mood;
    case 13 => assert LennyMoods[11].id == Rules[13].mood;
    case 14 => assert LennyMoods[10].id == Rules[14].mood;
    case 15 => assert LennyMoods[18].id == Rules[15].mood;
    case 16 => assert LennyMoods[19].id == Rules[16].mood;
    case 17 => assert LennyMoods[20].id == Rules[17].mood;
    case 18 => assert LennyMoods[7].id == Rules[18].mood;
    case 19 => assert LennyMoods[5].id == Rules[19].mood;
    case 20 => assert LennyMoods[2].id == Rules[20].mood;
  }

  /** Every mood of the theme table has a face row of its own. */
  lemma ThemeMoodHasFace(theme: string)
    requires theme in ThemeMoods
    ensures exists j :: 0 <= j < |LennyMoods| && LennyMoods[j].id == ThemeMoods[theme]
  {
    if theme == "cozy" { assert LennyMoods[0].id == ThemeMoods[theme]; }
    else if theme == "focus" { assert LennyMoods[1].id == ThemeMoods[theme]; }
    else if theme == "ocean" { assert LennyMoods[18].id == ThemeMoods[theme]; }
    else if theme == "sunset" { assert LennyMoods[20].id == ThemeMoods[theme]; }
    else if theme == "forest" { assert LennyMoods[19].id == ThemeMoods[theme]; }
    else if theme == "midnight" { assert LennyMoods[10].id == ThemeMoods[theme]; }
    else { assert LennyMoods[5].id == ThemeMoods[theme]; }
  }

  /** Every mood the classifier can return has its own face, so the fallback only serves unknown moods. */
  lemma InferredMoodHasFace(userText: string, actions: seq<Value>)
    requires InferMood(userText, actions).Some?
    ensures LennyByMood(InferMood(userText, actions).value).id == InferMood(userText, actions).value
  {
    var m := InferMood(userText, actions).value;
    if ThemeOverride(actions).None? {
      var k :| 0 <= k < |Rules| && Some(m) == Some(Rules[k].mood);
      RuleMoodHasFace(k);
    } else {
      var i :| 0 <= i < |actions| && ThemeMoodOf(actions[i]) == Some(m);
      ThemeMoodHasFace(ToStr(Field(actions[i], "theme")));
    }
  }
}
