/**
 * The emoji guesser that decorates task, event, note and expense text:
 * the first keyword rule in table order that matches gives the emoji, and
 * a text that already holds an emoji gets none.
 */
module Emoji {

  import opened Wrappers
  import opened Patterns

  /** One row of the emoji table: keyword alternatives of `/\b(...)\b/i` and the emoji they select. */
  datatype EmojiRule = EmojiRule(keywords: seq<string>, emoji: string)

  const EmojiRules: seq<EmojiRule> := [
      EmojiRule(["meet", "call", "zoom", "standup", "sync", "huddle"], "📞"),
      EmojiRule(["lunch", "dinner", "eat", "food", "restaurant", "cook", "recipe", "breakfast"], "🍽️"),
      EmojiRule(["coffee", "cafe", "latte", "espresso"], "☕"),
      EmojiRule(["gym", "exercise", "workout", "run", "jog", "fitness", "yoga", "swim"], "💪"),
      EmojiRule(["doctor", "dentist", "hospital", "health", "medical", "checkup", "appointment"], "🏥"),
      EmojiRule(["deploy", "ship", "release", "launch", "production", "hotfix"], "🚀"),
      EmojiRule(["bug", "fix", "debug", "error", "crash"], "🐛"),
      EmojiRule(["code", "develop", "program", "build", "implement", "refactor"], "💻"),
      EmojiRule(["design", "sketch", "figma", "ui", "ux", "wireframe", "prototype"], "🎨"),
      EmojiRule(["write", "draft", "blog", "article", "essay", "report", "document"], "✍️"),
      EmojiRule(["review", "feedback", "check", "audit", "inspect", "proofread"], "🔍"),
      EmojiRule(["email", "mail", "inbox", "send", "reply", "message"], "📧"),
      EmojiRule(["buy", "shop", "order", "purchase", "store", "grocery", "groceries"], "🛒"),
      EmojiRule(["travel", "flight", "trip", "hotel", "vacation", "airport", "train"], "✈️"),
      EmojiRule(["learn", "study", "course", "class", "read", "book", "research"], "📚"),
      EmojiRule(["money", "pay", "bill", "invoice", "budget", "tax", "salary", "bank"], "💰"),
      EmojiRule(["clean", "organize", "tidy", "laundry", "vacuum", "wash"], "🧹"),
      EmojiRule(["birthday", "party", "celebrate", "cake", "gift", "anniversary"], "🎂"),
      EmojiRule(["plan", "strategy", "roadmap", "brainstorm", "think"], "🧠"),
      EmojiRule(["present", "slides", "deck", "powerpoint", "keynote", "pitch"], "📊"),
      EmojiRule(["test", "qa", "quality", "spec", "validate"], "🧪"),
      EmojiRule(["team", "hire", "interview", "onboard", "people", "hr"], "👥"),
      EmojiRule(["urgent", "asap", "critical", "emergency", "deadline"], "🔴"),
      EmojiRule(["car", "drive", "garage", "mechanic", "oil", "tire"], "🚗"),
      EmojiRule(["pet", "dog", "cat", "vet", "walk"], "🐾"),
      EmojiRule(["music", "song", "playlist", "concert", "guitar", "piano"], "🎵"),
      EmojiRule(["movie", "film", "watch", "netflix", "cinema", "show"], "🎬"),
      EmojiRule(["game", "play", "gaming"], "🎮"),
      EmojiRule(["photo", "picture", "camera", "shoot"], "📸"),
      EmojiRule(["plant", "garden", "water", "flower"], "🌱"),
      EmojiRule(["sleep", "rest", "nap", "relax", "chill"], "😴"),
      EmojiRule(["idea", "creative", "brainstorm", "inspiration"], "💡")
    ]

  /** The index, from `i` on, of the first rule of `rules` whose pattern matches `text`. */
  function FirstRule(rules: seq<EmojiRule>, text: string, i: nat): (r: Option<nat>)
    requires i <= |rules|
    ensures r.None? <==> forall k :: i <= k < |rules| ==> !Matches(text, rules[k].keywords)
    ensures r.Some? ==> i <= r.value < |rules| && Matches(text, rules[r.value].keywords)
                        && forall k :: i <= k < r.value ==> !Matches(text, rules[k].keywords)
    decreases |rules| - i
  {
    if i == |rules| then None
    else if Matches(text, rules[i].keywords) then Some(i)
    else FirstRule(rules, text, i + 1)
  }

  /** `HAS_EMOJI.test(text)`, for the Unicode property class given as `pictographic`. */
  predicate HasEmoji(text: string, pictographic: char -> bool) {
    exists i | 0 <= i < |text| :: pictographic(text[i])
  }

  /** `guessEmoji` over an emoji table `rules` whose emoji are all non-empty. */
  function GuessWith(rules: seq<EmojiRule>, text: string, pictographic: char -> bool): (r: string)
    requires forall k :: 0 <= k < |rules| ==> rules[k].emoji != ""
    ensures text == "" || HasEmoji(text, pictographic) ==> r == ""
    ensures text != "" && !HasEmoji(text, pictographic) ==>
              (r == "" <==> forall k :: 0 <= k < |rules| ==> !Matches(text, rules[k].keywords))
    ensures r != "" ==> exists k :: 0 <= k < |rules| && r == rules[k].emoji
                          && Matches(text, rules[k].keywords)
                          && forall j :: 0 <= j < k ==> !Matches(text, rules[j].keywords)
  {
    if text == "" || HasEmoji(text, pictographic) then ""
    else match FirstRule(rules, text, 0)
      case None => ""
      case Some(k) => rules[k].emoji
  }

  /** Every emoji of the table is a non-empty string. */
  lemma EmojiNonEmpty()
    ensures forall k :: 0 <= k < |EmojiRules| ==> EmojiRules[k].emoji != ""
  {
  }

  /**
   * `guessEmoji(text)`: "" for an empty text or one that already holds an
   * emoji, otherwise the emoji of the first matching rule in table order,
   * or "" when no rule matches.
   */
  function GuessEmoji(text: string, pictographic: char -> bool): (r: string)
    ensures text == "" || HasEmoji(text, pictographic) ==> r == ""
    ensures text != "" && !HasEmoji(text, pictographic) ==>
              (r == "" <==> forall k :: 0 <= k < |EmojiRules| ==> !Matches(text, EmojiRules[k].keywords))
    ensures r != "" ==> exists k :: 0 <= k < |EmojiRules| && r == EmojiRules[k].emoji
                          && Matches(text, EmojiRules[k].keywords)
                          && forall j :: 0 <= j < k ==> !Matches(text, EmojiRules[j].keywords)
  {
    EmojiNonEmpty();
    GuessWith(EmojiRules, text, pictographic)
  }
}
