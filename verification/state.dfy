/**
 * The dashboard's workspace: the entities the command interpreter creates
 * and edits, the ambient styling, the initial state, and the invariant that
 * generated ids are issued from a counter and never repeat in a list.
 */
module State {

  import opened Wrappers
  import opened Text
  import opened Collections

  /** An entity id: one of the seeded ids of the initial state, or the counter value `n` that renders as "i<n>". */
  datatype Id = Seeded(name: string) | Generated(n: nat)

  /** The text of an id as the dashboard renders it. */
  function IdText(id: Id): (r: string)
    ensures id.Generated? ==> |r| >= 2 && r[0] == 'i' && r[1..] == NatToDecimal(id.n) && AllDigits(r[1..])
  {
    match id
    case Seeded(name) => name
    case Generated(n) => "i" + NatToDecimal(n)
  }

  /** Two generated ids render the same text only when they are the same id. */
  lemma GeneratedTextsDistinct(m: nat, n: nat)
    requires IdText(Generated(m)) == IdText(Generated(n))
    ensures m == n
  {
    assert NatToDecimal(m) == IdText(Generated(m))[1..];
    assert DigitsValue(NatToDecimal(m)) == DigitsValue(NatToDecimal(n));
  }

  /** A post-it coordinate: the supplied number, or a random offset drawn from `[origin, origin + spread)`. */
  datatype Placement = At(pos: real) | Scattered(origin: real, spread: real)

  datatype PostIt = PostIt(id: Id, content: string, color: string, x: Placement, y: Placement)

  datatype Task = Task(id: Id, text: string, priority: string, done: bool, parentId: Option<Id>, isParent: bool)

  datatype Timer = Timer(id: Id, minutes: real, caption: string)

  datatype Widget = Widget(id: Id, kind: string)

  datatype Event = Event(id: Id, title: string, date: string, time: string, duration: real, color: string)

  datatype Expense = Expense(id: Id, description: string, amount: real, category: string)

  /** The ambient styling layer. */
  datatype Ambient = Ambient(
    glowColor: string,
    glowIntensity: real,
    grainOpacity: real,
    panelBlur: real,
    panelOpacity: real,
    borderWarmth: real,
    mood: string,
    particles: string)

  const DefaultAmbient := Ambient("transparent", 0.0, 0.03, 20.0, 0.03, 0.0, "neutral", "none")

  /** Upper bounds of the three ambient fields the model may set; each is clamped to `[0, bound]`. */
  const MaxGlowIntensity: real := 0.35
  const MaxGrainOpacity: real := 0.08
  const MaxBorderWarmth: real := 1.0

  /** The ambient fields the interpreter clamps lie in their ranges. */
  predicate AmbientInRange(a: Ambient) {
    && 0.0 <= a.glowIntensity <= MaxGlowIntensity
    && 0.0 <= a.grainOpacity <= MaxGrainOpacity
    && 0.0 <= a.borderWarmth <= MaxBorderWarmth
  }

  /** Everything the command interpreter reads and writes, plus the id counter. */
  datatype Workspace = Workspace(
    bg: string,
    greeting: string,
    accent: string,
    ambient: Ambient,
    postits: seq<PostIt>,
    tasks: seq<Task>,
    timers: seq<Timer>,
    widgets: seq<Widget>,
    events: seq<Event>,
    expenses: seq<Expense>,
    budget: real,
    lenny: string,
    nextId: nat)

  const FirstGeneratedId: nat := 300

  /** The state the dashboard starts in; `today` and `tomorrow` are the ISO dates of the two seeded events. */
  function Initial(today: string, tomorrow: string): (r: Workspace)
    ensures r.nextId == FirstGeneratedId && r.lenny == "neutral" && r.ambient == DefaultAmbient
    ensures AmbientInRange(r.ambient)
    ensures WellFormed(r)
  {
    var r := Workspace(
      "linear-gradient(135deg, #0f0f1a 0%, #1a1a2e 50%, #16213e 100%)",
      "Welcome to your dashboard.",
      "#00cec9",
      DefaultAmbient,
      [],
      [ Task(Seeded("t1"), "Review project proposal 📝", "high", false, None, false),
        Task(Seeded("t2"), "Prepare meeting notes 📞", "medium", false, None, false),
        Task(Seeded("t3"), "Update documentation 📚", "low", false, None, false) ],
      [], [],
      [ Event(Seeded("e1"), "Team standup 👥", today, "09:00", 30.0, "#6c5ce7"),
        Event(Seeded("e2"), "Design review 🎨", tomorrow, "14:00", 60.0, "#00cec9") ],
      [ Expense(Seeded("x1"), "Coffee ☕", 4.5, "food"),
        Expense(Seeded("x2"), "Bus pass 🚆", 30.0, "transport"),
        Expense(Seeded("x3"), "Groceries 🛒", 42.8, "food") ],
      500.0,
      "neutral",
      FirstGeneratedId);
    r
  }

  function PostItKey(p: PostIt): Id { p.id }
  function TaskKey(t: Task): Id { t.id }
  function TimerKey(t: Timer): Id { t.id }
  function WidgetKey(w: Widget): Id { w.id }
  function EventKey(e: Event): Id { e.id }
  function ExpenseKey(e: Expense): Id { e.id }

  /** Every generated id in `s` was issued before the counter reached `bound`. */
  ghost predicate Below<T>(s: seq<T>, key: T -> Id, bound: nat) {
    forall i :: 0 <= i < |s| ==> (key(s[i]).Generated? ==> key(s[i]).n < bound)
  }

  /** A list whose ids were all issued before `bound` and never repeat. */
  ghost predicate Keyed<T>(s: seq<T>, key: T -> Id, bound: nat) {
    Below(s, key, bound) && Unique(s, key)
  }

  /** The workspace invariant: in each list, ids are below the counter and distinct. */
  ghost predicate WellFormed(ws: Workspace) {
    && Keyed(ws.postits, PostItKey, ws.nextId)
    && Keyed(ws.tasks, TaskKey, ws.nextId)
    && Keyed(ws.timers, TimerKey, ws.nextId)
    && Keyed(ws.widgets, WidgetKey, ws.nextId)
    && Keyed(ws.events, EventKey, ws.nextId)
    && Keyed(ws.expenses, ExpenseKey, ws.nextId)
  }

  /** Appending an element with the counter's current id keeps a list keyed under the advanced counter. */
  lemma AppendFresh<T>(s: seq<T>, x: T, key: T -> Id, bound: nat)
    requires Keyed(s, key, bound) && key(x) == Generated(bound)
    ensures Keyed(s + [x], key, bound + 1)
  {
    UniqueConcat(s, [x], key);
  }

  /** Raising the bound keeps a list keyed. */
  lemma KeyedRaise<T>(s: seq<T>, key: T -> Id, bound: nat, bound': nat)
    requires Keyed(s, key, bound) && bound <= bound'
    ensures Keyed(s, key, bound')
  {
  }

  /** A filtered list stays keyed. */
  lemma KeyedFilter<T(!new)>(s: seq<T>, keep: T -> bool, key: T -> Id, bound: nat)
    requires Keyed(s, key, bound)
    ensures Keyed(Filter(s, keep), key, bound)
  {
    FilterUnique(s, keep, key);
    var r := Filter(s, keep);
    forall i | 0 <= i < |r| ensures key(r[i]).Generated? ==> key(r[i]).n < bound {
      assert r[i] in s;
    }
  }
}
