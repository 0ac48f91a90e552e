/**
 * The command interpreter: `exec(actions)` applies the language model's
 * action objects to the workspace one by one, in order. Each action is
 * dispatched on its `type`; a missing or unrecognised type, or a failed
 * guard, leaves the workspace unchanged. Reading `type` off a null action,
 * or handing a non-string mood to the mood inference, throws, and the
 * remaining actions are not applied.
 */
module Interpreter {

  import opened Wrappers
  import opened Text
  import opened JsValue
  import opened Collections
  import opened State
  import Mood

  // ---------------------------------------------------------------------
  // Tasks

  /** `String(a.text).toLowerCase()`: the search string of a task or event command. */
  function Query(v: Value): string {
    Lower(ToStr(v))
  }

  /** A task matches a lower-cased query when its lower-cased text contains the query. */
  predicate TaskMatches(t: Task, q: string) {
    Includes(Lower(t.text), q)
  }

  /** A task `complete_task` marks: open, not a parent, and matching. */
  predicate Completes(t: Task, q: string) {
    !t.done && !t.isParent && TaskMatches(t, q)
  }

  /** `complete_task`: every open, non-parent task whose text matches is marked done. */
  function CompleteTasks(tasks: seq<Task>, q: string): (r: seq<Task>)
    ensures |r| == |tasks|
    ensures forall i :: 0 <= i < |tasks| ==> r[i] == tasks[i].(done := r[i].done)
    ensures forall i :: 0 <= i < |tasks| ==>
              (r[i].done <==> tasks[i].done || (!tasks[i].isParent && TaskMatches(tasks[i], q)))
  {
    seq(|tasks|, i requires 0 <= i < |tasks| =>
      if Completes(tasks[i], q) then tasks[i].(done := true) else tasks[i])
  }

  /** Completing the same query twice is completing it once. */
  lemma CompleteIdempotent(tasks: seq<Task>, q: string)
    ensures CompleteTasks(CompleteTasks(tasks, q), q) == CompleteTasks(tasks, q)
  {
  }

  /** The tasks `delete_task` keeps: those whose text does not match. */
  function KeepTask(q: string): Task -> bool {
    (t: Task) => !TaskMatches(t, q)
  }

  /** `delete_task`: every task whose text matches is removed, parents and done tasks included. */
  function DeleteTasks(tasks: seq<Task>, q: string): (r: seq<Task>)
    ensures forall t :: t in r <==> t in tasks && !TaskMatches(t, q)
  {
    Filter(tasks, KeepTask(q))
  }

  /** Deleting with the same query twice is deleting once. */
  lemma DeleteIdempotent(tasks: seq<Task>, q: string)
    ensures DeleteTasks(DeleteTasks(tasks, q), q) == DeleteTasks(tasks, q)
  {
    FilterIdempotent(tasks, KeepTask(q));
  }

  /** `findIndex` over the tasks from index `i`: the first task whose text matches, done or not, parent or not. */
  function FindTask(tasks: seq<Task>, q: string, i: nat): (r: Option<nat>)
    requires i <= |tasks|
    ensures r.None? <==> forall k :: i <= k < |tasks| ==> !TaskMatches(tasks[k], q)
    ensures r.Some? ==> i <= r.value < |tasks| && TaskMatches(tasks[r.value], q)
    ensures r.Some? ==> forall k :: i <= k < r.value ==> !TaskMatches(tasks[k], q)
    decreases |tasks| - i
  {
    if i == |tasks| then None
    else if TaskMatches(tasks[i], q) then Some(i)
    else FindTask(tasks, q, i + 1)
  }

  /** The search for the task to split reads only the texts: flags and ids do not affect it. */
  lemma {:induction false} FindTaskReadsOnlyText(tasks: seq<Task>, other: seq<Task>, q: string, i: nat)
    requires |tasks| == |other| && i <= |tasks|
    requires forall k :: 0 <= k < |tasks| ==> tasks[k].text == other[k].text
    ensures FindTask(tasks, q, i) == FindTask(other, q, i)
    decreases |tasks| - i
  {
    if i < |tasks| {
      var m := TaskMatches(tasks[i], q);
      assert TaskMatches(other[i], q) == m by {
        assert tasks[i].text == other[i].text;
      }
      FindTaskReadsOnlyText(tasks, other, q, i + 1);
      assert FindTask(tasks, q, i) == if m then Some(i) else FindTask(tasks, q, i + 1);
      assert FindTask(other, q, i) == if m then Some(i) else FindTask(other, q, i + 1);
    }
  }

  /** At most this many subtasks are created by one split. */
  const MaxSubtasks: nat := 5

  /** The text of a subtask entry: a string as is, else its truthy `text`, else "Subtask". */
  function SubtaskText(st: Value): (r: string)
    ensures st.Str? ==> r == st.s
    ensures !st.Str? && Truthy(Field(st, "text")) ==> r == ToStr(Field(st, "text"))
    ensures !st.Str? && !Truthy(Field(st, "text")) ==> r == "Subtask"
  {
    if st.Str? then st.s else StrOr(Field(st, "text"), "Subtask")
  }

  /** The number of subtasks a split creates. */
  function ChildCount(subtasks: seq<Value>): (n: nat)
    ensures n <= MaxSubtasks && n <= |subtasks|
    ensures n == MaxSubtasks || n == |subtasks|
  {
    if |subtasks| < MaxSubtasks then |subtasks| else MaxSubtasks
  }

  /** The subtask created from entry `k`: a fresh id, the parent's priority, open, linked to the parent. */
  function Child(parent: Task, st: Value, id: nat): Task {
    Task(Generated(id), SubtaskText(st), parent.priority, false, Some(parent.id), false)
  }

  /** The children a split creates under `parent`, with ids issued from `nextId` on. */
  function Children(parent: Task, subtasks: seq<Value>, nextId: nat): (r: seq<Task>)
    ensures |r| == ChildCount(subtasks)
    ensures forall k :: 0 <= k < |r| ==> r[k] == Child(parent, subtasks[k], nextId + k)
  {
    var n := ChildCount(subtasks);
    seq(n, k requires 0 <= k < n => Child(parent, subtasks[k], nextId + k))
  }

  /** The outcome of a split: the new task list and the advanced counter. */
  datatype Split = Split(tasks: seq<Task>, nextId: nat)

  /**
   * `split_task`: the first task whose text matches becomes a parent, and
   * the first five subtask entries are inserted right after it as its
   * children, with ids issued from the counter in order. Without a match
   * nothing changes.
   */
  function SplitTask(tasks: seq<Task>, q: string, subtasks: seq<Value>, nextId: nat): (r: Split)
    ensures FindTask(tasks, q, 0).None? ==> r == Split(tasks, nextId)
    ensures FindTask(tasks, q, 0).Some? ==>
              && r.nextId == nextId + ChildCount(subtasks)
              && |r.tasks| == |tasks| + ChildCount(subtasks)
  {
    var found := FindTask(tasks, q, 0);
    if found.None? then Split(tasks, nextId) else SplitAt(tasks, found.value, subtasks, nextId)
  }

  /**
   * Where a split puts things: the tasks before the matched one stay, the
   * matched one is flagged as a parent, its children follow it in order,
   * and the rest of the list comes after them.
   */
  lemma SplitTaskPlacement(tasks: seq<Task>, q: string, subtasks: seq<Value>, nextId: nat)
    requires FindTask(tasks, q, 0).Some?
    ensures var pi, n, r := FindTask(tasks, q, 0).value, ChildCount(subtasks), SplitTask(tasks, q, subtasks, nextId);
              && r.tasks[..pi] == tasks[..pi]
              && r.tasks[pi] == tasks[pi].(isParent := true)
              && (forall k :: 0 <= k < n ==> r.tasks[pi + 1 + k] == Child(tasks[pi], subtasks[k], nextId + k))
              && r.tasks[pi + 1 + n..] == tasks[pi + 1..]
  {
    var pi := FindTask(tasks, q, 0).value;
    assert SplitTask(tasks, q, subtasks, nextId) == SplitAt(tasks, pi, subtasks, nextId);
  }

  /** The split of the task at index `pi`. */
  function SplitAt(tasks: seq<Task>, pi: nat, subtasks: seq<Value>, nextId: nat): (r: Split)
    requires pi < |tasks|
    ensures var n := ChildCount(subtasks);
              && r.nextId == nextId + n
              && |r.tasks| == |tasks| + n
              && r.tasks[..pi] == tasks[..pi]
              && r.tasks[pi] == tasks[pi].(isParent := true)
              && (forall k :: 0 <= k < n ==> r.tasks[pi + 1 + k] == Child(tasks[pi], subtasks[k], nextId + k))
              && r.tasks[pi + 1 + n..] == tasks[pi + 1..]
  {
    var children := Children(tasks[pi], subtasks, nextId);
    var before := tasks[..pi] + [tasks[pi].(isParent := true)];
    var r := Split(before + children + tasks[pi + 1..], nextId + |children|);
    assert r.tasks[pi + 1 + |children|..] == tasks[pi + 1..];
    assert forall k :: 0 <= k < |children| ==> r.tasks[pi + 1 + k] == children[k];
    r
  }

  /** A task the split did not create: its id was not issued at or after `bound`. */
  function Older(bound: nat): Task -> bool {
    (t: Task) => !(t.id.Generated? && t.id.n >= bound)
  }

  /** A filter that keeps nothing yields nothing. */
  lemma {:induction false} FilterDropsAll<T(!new)>(s: seq<T>, keep: T -> bool)
    requires forall i :: 0 <= i < |s| ==> !keep(s[i])
    ensures Filter(s, keep) == []
    decreases |s|
  {
    if s != [] {
      FilterDropsAll(s[1..], keep);
    }
  }

  /**
   * A split is undone by dropping the tasks with the ids it issued: what
   * remains is the original list with the parent flagged.
   */
  lemma SplitUndo(tasks: seq<Task>, q: string, subtasks: seq<Value>, nextId: nat)
    requires Keyed(tasks, TaskKey, nextId)
    requires FindTask(tasks, q, 0).Some?
    ensures var pi := FindTask(tasks, q, 0).value;
      Filter(SplitTask(tasks, q, subtasks, nextId).tasks, Older(nextId)) == tasks[pi := tasks[pi].(isParent := true)]
  {
    SplitAtUndo(tasks, FindTask(tasks, q, 0).value, subtasks, nextId);
  }

  lemma SplitAtUndo(tasks: seq<Task>, pi: nat, subtasks: seq<Value>, nextId: nat)
    requires Keyed(tasks, TaskKey, nextId) && pi < |tasks|
    ensures Filter(SplitAt(tasks, pi, subtasks, nextId).tasks, Older(nextId)) == tasks[pi := tasks[pi].(isParent := true)]
  {
    var flagged := tasks[pi].(isParent := true);
    var a, c, b := tasks[..pi] + [flagged], Children(tasks[pi], subtasks, nextId), tasks[pi + 1..];
    assert SplitAt(tasks, pi, subtasks, nextId).tasks == a + c + b;
    OlderKeepsPrefix(tasks, pi, nextId);
    OlderKeepsSuffix(tasks, pi, nextId);
    ChildrenAreDropped(tasks[pi], subtasks, nextId);
    FilterAroundDropped(a, c, b, Older(nextId));
    ReplaceAsConcat(tasks, pi, flagged);
  }

  /** The tasks up to and including the flagged parent predate the split. */
  lemma OlderKeepsPrefix(tasks: seq<Task>, pi: nat, nextId: nat)
    requires Below(tasks, TaskKey, nextId) && pi < |tasks|
    ensures Filter(tasks[..pi] + [tasks[pi].(isParent := true)], Older(nextId)) == tasks[..pi] + [tasks[pi].(isParent := true)]
  {
    var a := tasks[..pi] + [tasks[pi].(isParent := true)];
    forall i | 0 <= i < |a| ensures Older(nextId)(a[i]) {
      assert a[i].id == tasks[i].id;
    }
    FilterKeepsAll(a, Older(nextId));
  }

  /** The tasks after the parent predate the split. */
  lemma OlderKeepsSuffix(tasks: seq<Task>, pi: nat, nextId: nat)
    requires Below(tasks, TaskKey, nextId) && pi < |tasks|
    ensures Filter(tasks[pi + 1..], Older(nextId)) == tasks[pi + 1..]
  {
    var b := tasks[pi + 1..];
    forall i | 0 <= i < |b| ensures Older(nextId)(b[i]) {
      assert b[i] == tasks[pi + 1 + i];
    }
    FilterKeepsAll(b, Older(nextId));
  }

  /** Every child carries an id issued by the split. */
  lemma ChildrenAreDropped(parent: Task, subtasks: seq<Value>, nextId: nat)
    ensures Filter(Children(parent, subtasks, nextId), Older(nextId)) == []
  {
    var c := Children(parent, subtasks, nextId);
    forall i | 0 <= i < |c| ensures !Older(nextId)(c[i]) {
      assert c[i].id == Generated(nextId + i);
    }
    FilterDropsAll(c, Older(nextId));
  }

  /** Filtering out a middle part that is dropped entirely leaves the kept outer parts. */
  lemma FilterAroundDropped<T(!new)>(a: seq<T>, c: seq<T>, b: seq<T>, keep: T -> bool)
    requires Filter(a, keep) == a && Filter(c, keep) == [] && Filter(b, keep) == b
    ensures Filter(a + c + b, keep) == a + b
  {
    FilterAppend(a + c, b, keep);
    FilterAppend(a, c, keep);
    assert a + [] == a;
  }

  /** A split keeps the task list keyed under the advanced counter. */
  lemma SplitKeyed(tasks: seq<Task>, q: string, subtasks: seq<Value>, nextId: nat)
    requires Keyed(tasks, TaskKey, nextId)
    ensures Keyed(SplitTask(tasks, q, subtasks, nextId).tasks, TaskKey, SplitTask(tasks, q, subtasks, nextId).nextId)
  {
    if FindTask(tasks, q, 0).Some? {
      SplitAtKeyed(tasks, FindTask(tasks, q, 0).value, subtasks, nextId);
    }
  }

  lemma SplitAtKeyed(tasks: seq<Task>, pi: nat, subtasks: seq<Value>, nextId: nat)
    requires Keyed(tasks, TaskKey, nextId) && pi < |tasks|
    ensures Keyed(SplitAt(tasks, pi, subtasks, nextId).tasks, TaskKey, SplitAt(tasks, pi, subtasks, nextId).nextId)
  {
    var a, c, b := tasks[..pi] + [tasks[pi].(isParent := true)], Children(tasks[pi], subtasks, nextId), tasks[pi + 1..];
    assert SplitAt(tasks, pi, subtasks, nextId).tasks == a + c + b;
    SurroundingKeyed(tasks, pi, nextId);
    ChildrenFresh(tasks[pi], subtasks, nextId);
    KeyedSplice(a, c, b, nextId, nextId + |c|);
  }

  /** The tasks around the parent keep their ids: below the counter and pairwise distinct. */
  lemma SurroundingKeyed(tasks: seq<Task>, pi: nat, nextId: nat)
    requires Keyed(tasks, TaskKey, nextId) && pi < |tasks|
    ensures var a, b := tasks[..pi] + [tasks[pi].(isParent := true)], tasks[pi + 1..];
      && Keyed(a, TaskKey, nextId) && Keyed(b, TaskKey, nextId)
      && forall i, j :: 0 <= i < |a| && 0 <= j < |b| ==> TaskKey(a[i]) != TaskKey(b[j])
  {
    var a, b := tasks[..pi] + [tasks[pi].(isParent := true)], tasks[pi + 1..];
    assert forall i :: 0 <= i < |a| ==> TaskKey(a[i]) == TaskKey(tasks[i]);
    assert forall j :: 0 <= j < |b| ==> b[j] == tasks[|a| + j];
  }

  /** The children's ids are distinct and issued in `[nextId, nextId + n)`. */
  lemma ChildrenFresh(parent: Task, subtasks: seq<Value>, nextId: nat)
    ensures var c := Children(parent, subtasks, nextId);
      && Unique(c, TaskKey)
      && forall i :: 0 <= i < |c| ==> TaskKey(c[i]).Generated? && nextId <= TaskKey(c[i]).n < nextId + |c|
  {
    var c := Children(parent, subtasks, nextId);
    assert forall i :: 0 <= i < |c| ==> TaskKey(c[i]) == Generated(nextId + i);
  }

  /** Fresh ids spliced between two keyed lists with disjoint ids give a keyed list under the advanced counter. */
  lemma KeyedSplice(a: seq<Task>, c: seq<Task>, b: seq<Task>, nextId: nat, bound: nat)
    requires Keyed(a, TaskKey, nextId) && Keyed(b, TaskKey, nextId) && Unique(c, TaskKey) && nextId <= bound
    requires forall i, j :: 0 <= i < |a| && 0 <= j < |b| ==> TaskKey(a[i]) != TaskKey(b[j])
    requires forall i :: 0 <= i < |c| ==> TaskKey(c[i]).Generated? && nextId <= TaskKey(c[i]).n < bound
    ensures Keyed(a + c + b, TaskKey, bound)
  {
    forall i, j | 0 <= i < |a| && 0 <= j < |c| ensures TaskKey(a[i]) != TaskKey(c[j]) {
    }
    UniqueConcat(a, c, TaskKey);
    forall i, j | 0 <= i < |a + c| && 0 <= j < |b| ensures TaskKey((a + c)[i]) != TaskKey(b[j]) {
      if i < |a| { assert (a + c)[i] == a[i]; } else { assert (a + c)[i] == c[i - |a|]; }
    }
    UniqueConcat(a + c, b, TaskKey);
    forall i | 0 <= i < |a + c + b| ensures TaskKey((a + c + b)[i]).Generated? ==> TaskKey((a + c + b)[i]).n < bound {
      if i < |a| { assert (a + c + b)[i] == a[i]; }
      else if i < |a| + |c| { assert (a + c + b)[i] == c[i - |a|]; }
      else { assert (a + c + b)[i] == b[i - |a| - |c|]; }
    }
  }

  // ---------------------------------------------------------------------
  // Events

  /** The events `delete_event` keeps: those whose title does not match. */
  function KeepEvent(q: string): Event -> bool {
    (e: Event) => !Includes(Lower(e.title), q)
  }

  /** `delete_event`: every event whose lower-cased title contains the query is removed. */
  function DeleteEvents(events: seq<Event>, q: string): (r: seq<Event>)
    ensures forall e :: e in r <==> e in events && !Includes(Lower(e.title), q)
  {
    Filter(events, KeepEvent(q))
  }

  // ---------------------------------------------------------------------
  // Ambient

  function Max(a: real, b: real): real { if a >= b then a else b }
  function Min(a: real, b: real): real { if a <= b then a else b }

  /**
   * One clamped ambient field as the source writes it:
   * `v != null ? Math.min(hi, Math.max(0, Number(v))) : prev`. `Math.max`
   * and `Math.min` propagate NaN, so a value that is not a number stores NaN.
   */
  function ClampAsWritten(v: Value, prev: JsNumber, hi: real): (r: JsNumber)
    requires hi >= 0.0
    ensures Nullish(v) ==> r == prev
    ensures !Nullish(v) && ToNumber(v).NaN? ==> r.NaN?
    ensures !Nullish(v) && ToNumber(v).Finite? ==> r.Finite? && 0.0 <= r.r <= hi
  {
    if Nullish(v) then prev
    else match ToNumber(v)
      case NaN => NaN
      case Finite(x) => Finite(Min(hi, Max(0.0, x)))
  }

  /** A word where a number belongs stores NaN in a field that should stay in `[0, 0.35]`. */
  lemma NaNEscapesClamp()
    ensures ClampAsWritten(Str("high"), Finite(0.1), MaxGlowIntensity) == NaN
  {
    WordIsNaN();
  }

  /** `Number("high")` is NaN. */
  lemma WordIsNaN()
    ensures ToNumber(Str("high")) == NaN
  {
    WordHasNoSign();
    WordIsNotDecimal();
  }

  lemma WordHasNoSign()
    ensures StringToNumber("high") == UnsignedDecimal("high")
  {
    var w := "high";
    assert !IsSpace(w[0]) && !IsSpace(w[|w| - 1]) && w[0] != '-' && w[0] != '+';
    UnsignedWhenUnpadded(w);
  }

  lemma UnsignedWhenUnpadded(s: string)
    requires s != [] && !IsSpace(s[0]) && !IsSpace(s[|s| - 1]) && s[0] != '-' && s[0] != '+'
    ensures StringToNumber(s) == UnsignedDecimal(s)
  {
    TrimNoSpaceEnds(s);
  }

  lemma WordIsNotDecimal()
    ensures UnsignedDecimal("high") == NaN
  {
    var w := "high";
    assert '.' !in w;
    assert !IsDigit(w[0]);
  }

  /**
   * One clamped ambient field as the design intends it: absent or null
   * keeps the previous value, a value that is not a number keeps it too,
   * and a number is clamped to `[0, hi]`; a supplied 0 is applied.
   */
  function ClampField(v: Value, prev: real, hi: real): (r: real)
    requires hi >= 0.0
    ensures Nullish(v) || ToNumber(v).NaN? ==> r == prev
    ensures !Nullish(v) && ToNumber(v).Finite? ==> 0.0 <= r <= hi
    ensures !Nullish(v) && ToNumber(v).Finite? && 0.0 <= ToNumber(v).r <= hi ==> r == ToNumber(v).r
    ensures !Nullish(v) && ToNumber(v).Finite? && ToNumber(v).r < 0.0 ==> r == 0.0
    ensures !Nullish(v) && ToNumber(v).Finite? && ToNumber(v).r > hi ==> r == hi
    ensures 0.0 <= prev <= hi ==> 0.0 <= r <= hi
  {
    if Nullish(v) then prev
    else match ToNumber(v)
      case NaN => prev
      case Finite(x) => Min(hi, Max(0.0, x))
  }

  /** Where the source's clamp yields a number, the corrected clamp yields the same number. */
  lemma ClampAgreesOnNumbers(v: Value, prev: real, hi: real)
    requires hi >= 0.0
    requires ClampAsWritten(v, Finite(prev), hi).Finite?
    ensures ClampAsWritten(v, Finite(prev), hi) == Finite(ClampField(v, prev, hi))
  {
  }

  /**
   * `adjust_ambient`'s merge: colour, particles and mood take the supplied
   * value when it is truthy; the three numeric fields are clamped; the
   * panel blur and opacity are never touched.
   */
  function MergeAmbient(prev: Ambient, a: Value): (r: Ambient)
    ensures r.panelBlur == prev.panelBlur && r.panelOpacity == prev.panelOpacity
    ensures AmbientInRange(prev) ==> AmbientInRange(r)
    ensures Truthy(Field(a, "glowColor")) ==> r.glowColor == ToStr(Field(a, "glowColor"))
    ensures !Truthy(Field(a, "glowColor")) ==> r.glowColor == prev.glowColor
    ensures Truthy(Field(a, "particles")) ==> r.particles == ToStr(Field(a, "particles"))
    ensures !Truthy(Field(a, "particles")) ==> r.particles == prev.particles
    ensures Truthy(Field(a, "mood")) ==> r.mood == ToStr(Field(a, "mood"))
    ensures !Truthy(Field(a, "mood")) ==> r.mood == prev.mood
    ensures Nullish(Field(a, "glowIntensity")) ==> r.glowIntensity == prev.glowIntensity
    ensures Field(a, "glowIntensity") == Num(0.0) ==> r.glowIntensity == 0.0
    ensures Nullish(Field(a, "grainOpacity")) ==> r.grainOpacity == prev.grainOpacity
    ensures Field(a, "grainOpacity") == Num(0.0) ==> r.grainOpacity == 0.0
    ensures Nullish(Field(a, "borderWarmth")) ==> r.borderWarmth == prev.borderWarmth
    ensures Field(a, "borderWarmth") == Num(0.0) ==> r.borderWarmth == 0.0
    ensures r.glowIntensity == ClampField(Field(a, "glowIntensity"), prev.glowIntensity, MaxGlowIntensity)
    ensures r.grainOpacity == ClampField(Field(a, "grainOpacity"), prev.grainOpacity, MaxGrainOpacity)
    ensures r.borderWarmth == ClampField(Field(a, "borderWarmth"), prev.borderWarmth, MaxBorderWarmth)
  {
    MergeFields(prev, Field(a, "glowColor"), Field(a, "glowIntensity"), Field(a, "grainOpacity"),
                Field(a, "borderWarmth"), Field(a, "particles"), Field(a, "mood"))
  }

  /** The merge, given the six values the command supplies. */
  function MergeFields(prev: Ambient, glowColor: Value, glowIntensity: Value, grainOpacity: Value,
                       borderWarmth: Value, particles: Value, mood: Value): (r: Ambient)
    ensures r.panelBlur == prev.panelBlur && r.panelOpacity == prev.panelOpacity
    ensures AmbientInRange(prev) ==> AmbientInRange(r)
    ensures r.glowColor == StrOr(glowColor, prev.glowColor)
    ensures r.particles == StrOr(particles, prev.particles)
    ensures r.mood == StrOr(mood, prev.mood)
    ensures r.glowIntensity == ClampField(glowIntensity, prev.glowIntensity, MaxGlowIntensity)
    ensures r.grainOpacity == ClampField(grainOpacity, prev.grainOpacity, MaxGrainOpacity)
    ensures r.borderWarmth == ClampField(borderWarmth, prev.borderWarmth, MaxBorderWarmth)
  {
    prev.(
      glowColor := StrOr(glowColor, prev.glowColor),
      glowIntensity := ClampField(glowIntensity, prev.glowIntensity, MaxGlowIntensity),
      grainOpacity := ClampField(grainOpacity, prev.grainOpacity, MaxGrainOpacity),
      borderWarmth := ClampField(borderWarmth, prev.borderWarmth, MaxBorderWarmth),
      particles := StrOr(particles, prev.particles),
      mood := StrOr(mood, prev.mood))
  }

  /** Applying the same ambient adjustment twice is applying it once. */
  lemma MergeAmbientIdempotent(prev: Ambient, a: Value)
    ensures MergeAmbient(MergeAmbient(prev, a), a) == MergeAmbient(prev, a)
  {
  }

  /**
   * Where the merge departs from the code as written: each clamped field
   * agrees with `Math.min(hi, Math.max(0, Number(v)))` exactly when the
   * supplied value is absent or converts to a number.
   */
  lemma MergeAmbientAgreesWithSource(prev: Ambient, a: Value)
    ensures var r := MergeAmbient(prev, a);
      && (ClampAsWritten(Field(a, "glowIntensity"), Finite(prev.glowIntensity), MaxGlowIntensity) == Finite(r.glowIntensity)
          <==> Nullish(Field(a, "glowIntensity")) || ToNumber(Field(a, "glowIntensity")).Finite?)
      && (ClampAsWritten(Field(a, "grainOpacity"), Finite(prev.grainOpacity), MaxGrainOpacity) == Finite(r.grainOpacity)
          <==> Nullish(Field(a, "grainOpacity")) || ToNumber(Field(a, "grainOpacity")).Finite?)
      && (ClampAsWritten(Field(a, "borderWarmth"), Finite(prev.borderWarmth), MaxBorderWarmth) == Finite(r.borderWarmth)
          <==> Nullish(Field(a, "borderWarmth")) || ToNumber(Field(a, "borderWarmth")).Finite?)
  {
    assert MergeAmbient(prev, a) == MergeFields(prev, Field(a, "glowColor"), Field(a, "glowIntensity"), Field(a, "grainOpacity"),
                                                Field(a, "borderWarmth"), Field(a, "particles"), Field(a, "mood"));
    FieldAgreesWithSource(Field(a, "glowIntensity"), prev.glowIntensity, MaxGlowIntensity);
    FieldAgreesWithSource(Field(a, "grainOpacity"), prev.grainOpacity, MaxGrainOpacity);
    FieldAgreesWithSource(Field(a, "borderWarmth"), prev.borderWarmth, MaxBorderWarmth);
  }

  /** One clamped field: the corrected and the as-written clamp agree exactly when the value is absent or numeric. */
  lemma FieldAgreesWithSource(v: Value, prev: real, hi: real)
    requires hi >= 0.0
    ensures ClampAsWritten(v, Finite(prev), hi) == Finite(ClampField(v, prev, hi)) <==> Nullish(v) || ToNumber(v).Finite?
  {
    if Nullish(v) || ToNumber(v).Finite? {
      ClampAgreesOnNumbers(v, prev, hi);
    }
  }

  // ---------------------------------------------------------------------
  // Dispatch

  /** The bg and accent a named theme sets. */
  datatype Theme = Theme(bg: string, accent: string)

  const Themes: map<string, Theme> := map[
    "cozy" := Theme("linear-gradient(135deg, #2d1b14 0%, #1a1410 50%, #0d0a07 100%)", "#e17055"),
    "focus" := Theme("#0a0a12", "#636e72"),
    "ocean" := Theme("linear-gradient(135deg, #0c1829 0%, #0a2a3f 40%, #134e5e 100%)", "#00cec9"),
    "sunset" := Theme("linear-gradient(135deg, #1a0a2e 0%, #3d1c56 30%, #c0392b 70%, #e67e22 100%)", "#e67e22"),
    "forest" := Theme("linear-gradient(135deg, #0a1a0a 0%, #1a2f1a 50%, #0d1f0d 100%)", "#00b894"),
    "midnight" := Theme("linear-gradient(135deg, #020111 0%, #0a0a2e 50%, #060620 100%)", "#6c5ce7"),
    "minimal" := Theme("#f5f0eb", "#2d3436")
  ]

  /** The action types the interpreter recognises. */
  const KnownTypes: set<string> := {
    "change_bg", "add_postit", "add_task", "complete_task", "delete_task", "split_task",
    "add_timer", "change_theme", "set_greeting", "add_widget", "add_event", "delete_event",
    "add_expense", "set_budget", "adjust_ambient", "clear_canvas"
  }

  /** The action's `type`, when it is one the interpreter recognises. */
  predicate Recognised(a: Value) {
    Field(a, "type").Str? && Field(a, "type").s in KnownTypes
  }

  /** The actions that throw: a null or undefined action, and an ambient adjustment whose truthy mood is not a string. */
  predicate Throws(a: Value) {
    || Nullish(a)
    || (Field(a, "type") == Str("adjust_ambient") && Truthy(Field(a, "mood")) && !Field(a, "mood").Str?)
  }

  /** The workspace after an action, and whether the action threw. */
  datatype Outcome = Outcome(ws: Workspace, threw: bool)

  /** `Number(v) || 80 + Math.random() * 300`-style placement: the number when it is non-zero, else a random offset. */
  function Place(v: Value, origin: real, spread: real): (r: Placement)
    ensures ToNumber(v).Finite? && ToNumber(v).r != 0.0 ==> r == At(ToNumber(v).r)
    ensures ToNumber(v).NaN? || ToNumber(v) == Finite(0.0) ==> r == Scattered(origin, spread)
  {
    match ToNumber(v)
    case Finite(x) => if x != 0.0 then At(x) else Scattered(origin, spread)
    case NaN => Scattered(origin, spread)
  }

  /**
   * `adjust_ambient`: merge, then let a string mood choose Lenny's face; a
   * truthy mood that is not a string throws after the merge. The empty
   * string, which the source does not pass on, infers no mood either.
   */
  function AdjustAmbient(ws: Workspace, a: Value): (r: Outcome)
    ensures r.ws.ambient == MergeAmbient(ws.ambient, a)
    ensures r.ws == ws.(ambient := r.ws.ambient, lenny := r.ws.lenny)
    ensures r.threw <==> Truthy(Field(a, "mood")) && !Field(a, "mood").Str?
    ensures Field(a, "mood").Str? && Mood.InferMood(Field(a, "mood").s, []).Some? ==>
              r.ws.lenny == Mood.InferMood(Field(a, "mood").s, []).value
    ensures !(Field(a, "mood").Str? && Mood.InferMood(Field(a, "mood").s, []).Some?) ==> r.ws.lenny == ws.lenny
  {
    var merged := ws.(ambient := MergeAmbient(ws.ambient, a));
    var mood := Field(a, "mood");
    if mood.Str? then
      match Mood.InferMood(mood.s, [])
      case None => Outcome(merged, false)
      case Some(m) => Outcome(merged.(lenny := m), false)
    else Outcome(merged, Truthy(mood))
  }

  /** `add_postit`: one post-it with a fresh id, "Note" and a yellow colour by default, and a random position for a missing or zero coordinate. */
  function AddPostIt(ws: Workspace, a: Value): (r: Workspace)
    ensures r == ws.(postits := r.postits, nextId := ws.nextId + 1)
    ensures |r.postits| == |ws.postits| + 1 && r.postits[..|ws.postits|] == ws.postits
    ensures var p := r.postits[|ws.postits|];
      && p.id == Generated(ws.nextId)
      && (Truthy(Field(a, "content")) ==> p.content == ToStr(Field(a, "content")))
      && (!Truthy(Field(a, "content")) ==> p.content == "Note")
      && (Truthy(Field(a, "color")) ==> p.color == ToStr(Field(a, "color")))
      && (!Truthy(Field(a, "color")) ==> p.color == "#fef68a")
      && p.x == Place(Field(a, "x"), 80.0, 300.0) && p.y == Place(Field(a, "y"), 40.0, 200.0)
    ensures WellFormed(ws) ==> WellFormed(r)
  {
    var p := PostIt(Generated(ws.nextId), StrOr(Field(a, "content"), "Note"), StrOr(Field(a, "color"), "#fef68a"),
                    Place(Field(a, "x"), 80.0, 300.0), Place(Field(a, "y"), 40.0, 200.0));
    var r := ws.(postits := ws.postits + [p], nextId := ws.nextId + 1);
    assert WellFormed(ws) ==> WellFormed(r) by {
      if WellFormed(ws) { RaiseCounter(ws, ws.nextId + 1); AppendFresh(ws.postits, p, PostItKey, ws.nextId); }
    }
    r
  }

  /** `add_task`: one open task with a fresh id, "New task" and "medium" by default. */
  function AddTask(ws: Workspace, a: Value): (r: Workspace)
    ensures r == ws.(tasks := r.tasks, nextId := ws.nextId + 1)
    ensures |r.tasks| == |ws.tasks| + 1 && r.tasks[..|ws.tasks|] == ws.tasks
    ensures var t := r.tasks[|ws.tasks|];
      && t.id == Generated(ws.nextId) && !t.done && !t.isParent && t.parentId.None?
      && (Truthy(Field(a, "text")) ==> t.text == ToStr(Field(a, "text")))
      && (!Truthy(Field(a, "text")) ==> t.text == "New task")
      && (Truthy(Field(a, "priority")) ==> t.priority == ToStr(Field(a, "priority")))
      && (!Truthy(Field(a, "priority")) ==> t.priority == "medium")
    ensures WellFormed(ws) ==> WellFormed(r)
  {
    var t := Task(Generated(ws.nextId), StrOr(Field(a, "text"), "New task"), StrOr(Field(a, "priority"), "medium"), false, None, false);
    var r := ws.(tasks := ws.tasks + [t], nextId := ws.nextId + 1);
    assert WellFormed(ws) ==> WellFormed(r) by {
      if WellFormed(ws) { RaiseCounter(ws, ws.nextId + 1); AppendFresh(ws.tasks, t, TaskKey, ws.nextId); }
    }
    r
  }

  /** `add_timer`: one timer with a fresh id; a missing, zero or non-numeric duration gives 5 minutes. */
  function AddTimer(ws: Workspace, a: Value): (r: Workspace)
    ensures r == ws.(timers := r.timers, nextId := ws.nextId + 1)
    ensures |r.timers| == |ws.timers| + 1 && r.timers[..|ws.timers|] == ws.timers
    ensures var t := r.timers[|ws.timers|];
      && t.id == Generated(ws.nextId)
      && (ToNumber(Field(a, "minutes")).Finite? && ToNumber(Field(a, "minutes")).r != 0.0 ==> t.minutes == ToNumber(Field(a, "minutes")).r)
      && (ToNumber(Field(a, "minutes")).NaN? || ToNumber(Field(a, "minutes")) == Finite(0.0) ==> t.minutes == 5.0)
      && (Truthy(Field(a, "label")) ==> t.caption == ToStr(Field(a, "label")))
      && (!Truthy(Field(a, "label")) ==> t.caption == "Timer")
    ensures WellFormed(ws) ==> WellFormed(r)
  {
    var t := Timer(Generated(ws.nextId), NumberOr(Field(a, "minutes"), 5.0), StrOr(Field(a, "label"), "Timer"));
    var r := ws.(timers := ws.timers + [t], nextId := ws.nextId + 1);
    assert WellFormed(ws) ==> WellFormed(r) by {
      if WellFormed(ws) { RaiseCounter(ws, ws.nextId + 1); AppendFresh(ws.timers, t, TimerKey, ws.nextId); }
    }
    r
  }

  /** `add_widget`: one widget of the given kind with a fresh id. */
  function AddWidget(ws: Workspace, kind: string): (r: Workspace)
    ensures r == ws.(widgets := r.widgets, nextId := ws.nextId + 1)
    ensures r.widgets == ws.widgets + [Widget(Generated(ws.nextId), kind)]
    ensures WellFormed(ws) ==> WellFormed(r)
  {
    var w := Widget(Generated(ws.nextId), kind);
    var r := ws.(widgets := ws.widgets + [w], nextId := ws.nextId + 1);
    assert WellFormed(ws) ==> WellFormed(r) by {
      if WellFormed(ws) { RaiseCounter(ws, ws.nextId + 1); AppendFresh(ws.widgets, w, WidgetKey, ws.nextId); }
    }
    r
  }

  /** `add_event`: one event with a fresh id; today, 09:00 and 60 minutes by default. */
  function AddEvent(ws: Workspace, a: Value, today: string): (r: Workspace)
    ensures r == ws.(events := r.events, nextId := ws.nextId + 1)
    ensures |r.events| == |ws.events| + 1 && r.events[..|ws.events|] == ws.events
    ensures var e := r.events[|ws.events|];
      && e.id == Generated(ws.nextId)
      && (Truthy(Field(a, "title")) ==> e.title == ToStr(Field(a, "title")))
      && (!Truthy(Field(a, "title")) ==> e.title == "Event")
      && (Truthy(Field(a, "date")) ==> e.date == ToStr(Field(a, "date")))
      && (!Truthy(Field(a, "date")) ==> e.date == today)
      && (Truthy(Field(a, "time")) ==> e.time == ToStr(Field(a, "time")))
      && (!Truthy(Field(a, "time")) ==> e.time == "09:00")
      && (ToNumber(Field(a, "duration")).Finite? && ToNumber(Field(a, "duration")).r != 0.0 ==> e.duration == ToNumber(Field(a, "duration")).r)
      && (ToNumber(Field(a, "duration")).NaN? || ToNumber(Field(a, "duration")) == Finite(0.0) ==> e.duration == 60.0)
      && (Truthy(Field(a, "color")) ==> e.color == ToStr(Field(a, "color")))
      && (!Truthy(Field(a, "color")) ==> e.color == "#6c5ce7")
    ensures WellFormed(ws) ==> WellFormed(r)
  {
    var e := Event(Generated(ws.nextId), StrOr(Field(a, "title"), "Event"), StrOr(Field(a, "date"), today),
                   StrOr(Field(a, "time"), "09:00"), NumberOr(Field(a, "duration"), 60.0),
                   StrOr(Field(a, "color"), "#6c5ce7"));
    var r := ws.(events := ws.events + [e], nextId := ws.nextId + 1);
    assert WellFormed(ws) ==> WellFormed(r) by {
      if WellFormed(ws) { RaiseCounter(ws, ws.nextId + 1); AppendFresh(ws.events, e, EventKey, ws.nextId); }
    }
    r
  }

  /** `add_expense`: one expense with a fresh id; amount 0 and category "other" by default. */
  function AddExpense(ws: Workspace, a: Value): (r: Workspace)
    ensures r == ws.(expenses := r.expenses, nextId := ws.nextId + 1)
    ensures |r.expenses| == |ws.expenses| + 1 && r.expenses[..|ws.expenses|] == ws.expenses
    ensures var e := r.expenses[|ws.expenses|];
      && e.id == Generated(ws.nextId)
      && (Truthy(Field(a, "description")) ==> e.description == ToStr(Field(a, "description")))
      && (!Truthy(Field(a, "description")) ==> e.description == "Expense")
      && (ToNumber(Field(a, "amount")).NaN? || ToNumber(Field(a, "amount")) == Finite(0.0) ==> e.amount == 0.0)
      && (ToNumber(Field(a, "amount")).Finite? ==> e.amount == ToNumber(Field(a, "amount")).r)
      && (Truthy(Field(a, "category")) ==> e.category == ToStr(Field(a, "category")))
      && (!Truthy(Field(a, "category")) ==> e.category == "other")
    ensures WellFormed(ws) ==> WellFormed(r)
  {
    var e := Expense(Generated(ws.nextId), StrOr(Field(a, "description"), "Expense"), NumberOr(Field(a, "amount"), 0.0),
                     StrOr(Field(a, "category"), "other"));
    var r := ws.(expenses := ws.expenses + [e], nextId := ws.nextId + 1);
    assert WellFormed(ws) ==> WellFormed(r) by {
      if WellFormed(ws) { RaiseCounter(ws, ws.nextId + 1); AppendFresh(ws.expenses, e, ExpenseKey, ws.nextId); }
    }
    r
  }

  /** One iteration of `exec`'s loop. `today` is the ISO date an event without a date gets. */
  function Step(ws: Workspace, a: Value, today: string): (r: Outcome)
    ensures r.threw <==> Throws(a)
    ensures r.ws.nextId >= ws.nextId
    ensures !Recognised(a) ==> r.ws == ws
  {
    if Nullish(a) then Outcome(ws, true)
    else
      var t := Field(a, "type");
      if t == Str("change_bg") && Truthy(Field(a, "color")) then
        Outcome(ws.(bg := ToStr(Field(a, "color"))), false)
      else if t == Str("add_postit") then
        Outcome(AddPostIt(ws, a), false)
      else if t == Str("add_task") then
        Outcome(AddTask(ws, a), false)
      else if t == Str("complete_task") && Truthy(Field(a, "text")) then
        Outcome(ws.(tasks := CompleteTasks(ws.tasks, Query(Field(a, "text")))), false)
      else if t == Str("delete_task") && Truthy(Field(a, "text")) then
        Outcome(ws.(tasks := DeleteTasks(ws.tasks, Query(Field(a, "text")))), false)
      else if t == Str("split_task") && Truthy(Field(a, "text")) && Field(a, "subtasks").Arr? then
        var s := SplitTask(ws.tasks, Query(Field(a, "text")), Field(a, "subtasks").items, ws.nextId);
        Outcome(ws.(tasks := s.tasks, nextId := s.nextId), false)
      else if t == Str("add_timer") then
        Outcome(AddTimer(ws, a), false)
      else
        StepRest(ws, a, today)
  }

  /** The second half of `exec`'s `else if` chain, from `change_theme` on, for an action that is not nullish. */
  function StepRest(ws: Workspace, a: Value, today: string): (r: Outcome)
    requires !Nullish(a)
    ensures r.threw <==> Throws(a)
    ensures r.ws.nextId >= ws.nextId
    ensures !Recognised(a) ==> r.ws == ws
  {
    var t := Field(a, "type");
    if t == Str("change_theme") && ToStr(Field(a, "theme")) in Themes then
      var th := Themes[ToStr(Field(a, "theme"))];
      Outcome(ws.(bg := th.bg, accent := th.accent), false)
    else if t == Str("set_greeting") && Truthy(Field(a, "text")) then
      Outcome(ws.(greeting := ToStr(Field(a, "text"))), false)
    else if t == Str("add_widget") && Truthy(Field(a, "widgetType")) then
      Outcome(AddWidget(ws, ToStr(Field(a, "widgetType"))), false)
    else if t == Str("add_event") then
      Outcome(AddEvent(ws, a, today), false)
    else if t == Str("delete_event") && Truthy(Field(a, "title")) then
      Outcome(ws.(events := DeleteEvents(ws.events, Query(Field(a, "title")))), false)
    else if t == Str("add_expense") then
      Outcome(AddExpense(ws, a), false)
    else
      StepTail(ws, a)
  }

  /** The last branches of the chain: `set_budget`, `adjust_ambient`, `clear_canvas` and the fall-through. */
  function StepTail(ws: Workspace, a: Value): (r: Outcome)
    requires !Nullish(a)
    ensures r.threw <==> Throws(a)
    ensures r.ws.nextId == ws.nextId
    ensures !Recognised(a) ==> r.ws == ws
  {
    var t := Field(a, "type");
    if t == Str("set_budget") then
      Outcome(ws.(budget := NumberOr(Field(a, "amount"), 0.0)), false)
    else if t == Str("adjust_ambient") then
      AdjustAmbient(ws, a)
    else if t == Str("clear_canvas") then
      Outcome(ws.(postits := [], timers := [], widgets := []), false)
    else
      Outcome(ws, false)
  }

  /** The loop of `exec`: actions apply in order, and the first one that throws ends the batch. */
  function Run(ws: Workspace, actions: seq<Value>, today: string): (r: Outcome)
    ensures r.threw <==> exists i :: 0 <= i < |actions| && Throws(actions[i])
    ensures r.ws.nextId >= ws.nextId
    ensures (forall i :: 0 <= i < |actions| ==> !Recognised(actions[i])) ==> r.ws == ws
    decreases |actions|
  {
    if actions == [] then Outcome(ws, false)
    else
      var o := Step(ws, actions[0], today);
      if o.threw then o
      else
        var rest := Run(o.ws, actions[1..], today);
        assert forall i :: 1 <= i < |actions| ==> actions[i] == actions[1..][i - 1];
        rest
  }

  /** `exec(actions)`: anything but an array is ignored. */
  function Exec(ws: Workspace, actions: Value, today: string): (r: Outcome)
    ensures !actions.Arr? ==> r == Outcome(ws, false)
    ensures actions.Arr? ==> (r.threw <==> exists i :: 0 <= i < |actions.items| && Throws(actions.items[i]))
    ensures r.ws.nextId >= ws.nextId
  {
    if actions.Arr? then Run(ws, actions.items, today) else Outcome(ws, false)
  }

  /** Running two batches one after the other is running their concatenation. */
  lemma {:induction false} RunAppend(ws: Workspace, xs: seq<Value>, ys: seq<Value>, today: string)
    ensures !Run(ws, xs, today).threw ==> Run(ws, xs + ys, today) == Run(Run(ws, xs, today).ws, ys, today)
    ensures Run(ws, xs, today).threw ==> Run(ws, xs + ys, today) == Run(ws, xs, today)
    decreases |xs|
  {
    if xs == [] {
      assert xs + ys == ys;
    } else {
      assert (xs + ys)[0] == xs[0];
      assert (xs + ys)[1..] == xs[1..] + ys;
      if !Step(ws, xs[0], today).threw {
        RunAppend(Step(ws, xs[0], today).ws, xs[1..], ys, today);
      }
    }
  }

  /** `clear_canvas` empties the post-its, timers and widgets and touches nothing else. */
  lemma ClearCanvasOnlyClears(ws: Workspace, a: Value, today: string)
    requires Field(a, "type") == Str("clear_canvas")
    ensures Step(ws, a, today) == Outcome(ws.(postits := [], timers := [], widgets := []), false)
  {
    assert !Nullish(a);
    TailCommand(ws, a, today);
  }

  /** A `complete_task` or `delete_task` without a truthy text does nothing. */
  lemma TaskCommandWithoutTextIsIgnored(ws: Workspace, a: Value, today: string)
    requires Field(a, "type") == Str("complete_task") || Field(a, "type") == Str("delete_task")
    requires !Nullish(a) && !Truthy(Field(a, "text"))
    ensures Step(ws, a, today) == Outcome(ws, false)
  {
  }

  /** A `change_theme` naming a known theme sets the background and accent from the table. */
  lemma KnownThemeApplied(ws: Workspace, a: Value, today: string)
    requires Field(a, "type") == Str("change_theme") && ToStr(Field(a, "theme")) in Themes
    ensures var th := Themes[ToStr(Field(a, "theme"))];
      Step(ws, a, today) == Outcome(ws.(bg := th.bg, accent := th.accent), false)
  {
  }

  /** A `change_theme` naming no known theme does nothing. */
  lemma UnknownThemeIgnored(ws: Workspace, a: Value, today: string)
    requires !Nullish(a) && Field(a, "type") == Str("change_theme") && ToStr(Field(a, "theme")) !in Themes
    ensures Step(ws, a, today) == Outcome(ws, false)
  {
  }

  /** `complete_task`, `delete_task` and `split_task` with a truthy text act on the task list only. */
  lemma TaskCommandsDispatch(ws: Workspace, a: Value, today: string)
    requires !Nullish(a) && Truthy(Field(a, "text"))
    ensures Field(a, "type") == Str("complete_task") ==>
      Step(ws, a, today) == Outcome(ws.(tasks := CompleteTasks(ws.tasks, Query(Field(a, "text")))), false)
    ensures Field(a, "type") == Str("delete_task") ==>
      Step(ws, a, today) == Outcome(ws.(tasks := DeleteTasks(ws.tasks, Query(Field(a, "text")))), false)
    ensures Field(a, "type") == Str("split_task") && Field(a, "subtasks").Arr? ==>
      var s := SplitTask(ws.tasks, Query(Field(a, "text")), Field(a, "subtasks").items, ws.nextId);
      Step(ws, a, today) == Outcome(ws.(tasks := s.tasks, nextId := s.nextId), false)
  {
  }

  /** `set_budget` stores the amount as a number, 0 when it is not one. */
  lemma BudgetSet(ws: Workspace, a: Value, today: string)
    requires !Nullish(a) && Field(a, "type") == Str("set_budget")
    ensures Step(ws, a, today) == Outcome(ws.(budget := NumberOr(Field(a, "amount"), 0.0)), false)
  {
    TailCommand(ws, a, today);
  }

  /** `add_postit`, `add_task` and `add_timer` append through their constructors. */
  lemma AddCommandsDispatch(ws: Workspace, a: Value, today: string)
    requires !Nullish(a)
    ensures Field(a, "type") == Str("add_postit") ==> Step(ws, a, today) == Outcome(AddPostIt(ws, a), false)
    ensures Field(a, "type") == Str("add_task") ==> Step(ws, a, today) == Outcome(AddTask(ws, a), false)
    ensures Field(a, "type") == Str("add_timer") ==> Step(ws, a, today) == Outcome(AddTimer(ws, a), false)
  {
  }

  /** `add_widget` (with a truthy kind), `add_event` and `add_expense` append through their constructors. */
  lemma LaterAddCommandsDispatch(ws: Workspace, a: Value, today: string)
    requires !Nullish(a)
    ensures Field(a, "type") == Str("add_widget") && Truthy(Field(a, "widgetType")) ==>
              Step(ws, a, today) == Outcome(AddWidget(ws, ToStr(Field(a, "widgetType"))), false)
    ensures Field(a, "type") == Str("add_event") ==> Step(ws, a, today) == Outcome(AddEvent(ws, a, today), false)
    ensures Field(a, "type") == Str("add_expense") ==> Step(ws, a, today) == Outcome(AddExpense(ws, a), false)
  {
    var t := Field(a, "type");
    if t == Str("add_widget") || t == Str("add_event") || t == Str("add_expense") {
      LaterCommand(ws, a, today);
    }
  }

  /** `change_bg` and `set_greeting`, each with its guard met, set one text field. */
  lemma FieldCommandsDispatch(ws: Workspace, a: Value, today: string)
    requires !Nullish(a)
    ensures Field(a, "type") == Str("change_bg") && Truthy(Field(a, "color")) ==>
              Step(ws, a, today) == Outcome(ws.(bg := ToStr(Field(a, "color"))), false)
    ensures Field(a, "type") == Str("set_greeting") && Truthy(Field(a, "text")) ==>
              Step(ws, a, today) == Outcome(ws.(greeting := ToStr(Field(a, "text"))), false)
  {
  }

  /** `delete_event` with a title keeps exactly the events whose title does not contain it. */
  lemma DeleteEventDispatch(ws: Workspace, a: Value, today: string)
    requires !Nullish(a) && Field(a, "type") == Str("delete_event") && Truthy(Field(a, "title"))
    ensures Step(ws, a, today) == Outcome(ws.(events := DeleteEvents(ws.events, Query(Field(a, "title")))), false)
  {
    LaterCommand(ws, a, today);
  }

  /** `adjust_ambient` is exactly `AdjustAmbient`: the merge, then Lenny's mood or the throw. */
  lemma AmbientDispatch(ws: Workspace, a: Value, today: string)
    requires !Nullish(a) && Field(a, "type") == Str("adjust_ambient")
    ensures Step(ws, a, today) == AdjustAmbient(ws, a)
  {
    TailCommand(ws, a, today);
  }

  /** An action of none of the first fourteen types goes straight to `StepTail`. */
  lemma TailCommand(ws: Workspace, a: Value, today: string)
    requires !Nullish(a)
    requires Field(a, "type") == Str("set_budget") || Field(a, "type") == Str("adjust_ambient")
             || Field(a, "type") == Str("clear_canvas")
    ensures Step(ws, a, today) == StepTail(ws, a)
  {
    LaterCommand(ws, a, today);
  }

  /** An action of none of the first seven types goes straight to `StepRest`. */
  lemma LaterCommand(ws: Workspace, a: Value, today: string)
    requires !Nullish(a)
    requires Field(a, "type") != Str("change_bg") && Field(a, "type") != Str("add_postit")
    requires Field(a, "type") != Str("add_task") && Field(a, "type") != Str("complete_task")
    requires Field(a, "type") != Str("delete_task") && Field(a, "type") != Str("split_task")
    requires Field(a, "type") != Str("add_timer")
    ensures Step(ws, a, today) == StepRest(ws, a, today)
  {
  }

  /** A command whose `&& a.field` guard fails falls through every branch and changes nothing. */
  lemma GuardedCommandIgnored(ws: Workspace, a: Value, today: string)
    requires !Nullish(a)
    requires var t := Field(a, "type");
      || (t == Str("change_bg") && !Truthy(Field(a, "color")))
      || (t == Str("split_task") && (!Truthy(Field(a, "text")) || !Field(a, "subtasks").Arr?))
      || (t == Str("set_greeting") && !Truthy(Field(a, "text")))
      || (t == Str("add_widget") && !Truthy(Field(a, "widgetType")))
      || (t == Str("delete_event") && !Truthy(Field(a, "title")))
    ensures Step(ws, a, today) == Outcome(ws, false)
  {
  }

  // ---------------------------------------------------------------------
  // Invariants

  /** Every step keeps the clamped ambient fields in range. */
  lemma StepKeepsAmbientInRange(ws: Workspace, a: Value, today: string)
    requires AmbientInRange(ws.ambient)
    ensures AmbientInRange(Step(ws, a, today).ws.ambient)
  {
  }

  /** A batch keeps the clamped ambient fields in range. */
  lemma {:induction false} RunKeepsAmbientInRange(ws: Workspace, actions: seq<Value>, today: string)
    requires AmbientInRange(ws.ambient)
    ensures AmbientInRange(Run(ws, actions, today).ws.ambient)
    decreases |actions|
  {
    if actions != [] {
      StepKeepsAmbientInRange(ws, actions[0], today);
      RunKeepsAmbientInRange(Step(ws, actions[0], today).ws, actions[1..], today);
    }
  }

  /** Raising the counter keeps a well-formed workspace well formed. */
  lemma RaiseCounter(ws: Workspace, bound: nat)
    requires WellFormed(ws) && ws.nextId <= bound
    ensures WellFormed(ws.(nextId := bound))
  {
  }

  /** A change that leaves every list and the counter alone keeps the workspace well formed. */
  lemma ListsUnchanged(ws: Workspace, r: Workspace)
    requires WellFormed(ws)
    requires r.postits == ws.postits && r.tasks == ws.tasks && r.timers == ws.timers
    requires r.widgets == ws.widgets && r.events == ws.events && r.expenses == ws.expenses
    requires r.nextId == ws.nextId
    ensures WellFormed(r)
  {
  }

  /** Completing tasks changes no id. */
  lemma CompleteKeyed(tasks: seq<Task>, q: string, bound: nat)
    requires Keyed(tasks, TaskKey, bound)
    ensures Keyed(CompleteTasks(tasks, q), TaskKey, bound)
  {
    var ts := CompleteTasks(tasks, q);
    assert forall i :: 0 <= i < |tasks| ==> TaskKey(ts[i]) == TaskKey(tasks[i]);
  }

  /** A new keyed task list under a counter that did not go back keeps the workspace well formed. */
  lemma TasksReplaced(ws: Workspace, ts: seq<Task>, bound: nat)
    requires WellFormed(ws) && Keyed(ts, TaskKey, bound) && ws.nextId <= bound
    ensures WellFormed(ws.(tasks := ts, nextId := bound))
  {
    RaiseCounter(ws, bound);
  }

  /** A new keyed event list keeps the workspace well formed. */
  lemma EventsReplaced(ws: Workspace, es: seq<Event>)
    requires WellFormed(ws) && Keyed(es, EventKey, ws.nextId)
    ensures WellFormed(ws.(events := es))
  {
  }

  /** Every step keeps the workspace well formed: ids stay below the counter and distinct within each list. */
  lemma StepKeepsWellFormed(ws: Workspace, a: Value, today: string)
    requires WellFormed(ws)
    ensures WellFormed(Step(ws, a, today).ws)
  {
    var r := Step(ws, a, today).ws;
    if !Nullish(a) {
      var t := Field(a, "type");
      if t == Str("change_bg") && Truthy(Field(a, "color")) {
        ListsUnchanged(ws, r);
      } else if t == Str("add_postit") || t == Str("add_task") {
      } else if t == Str("complete_task") && Truthy(Field(a, "text")) {
        var ts := CompleteTasks(ws.tasks, Query(Field(a, "text")));
        CompleteKeyed(ws.tasks, Query(Field(a, "text")), ws.nextId);
        TasksReplaced(ws, ts, ws.nextId);
      } else if t == Str("delete_task") && Truthy(Field(a, "text")) {
        var ts := DeleteTasks(ws.tasks, Query(Field(a, "text")));
        KeyedFilter(ws.tasks, KeepTask(Query(Field(a, "text"))), TaskKey, ws.nextId);
        TasksReplaced(ws, ts, ws.nextId);
      } else if t == Str("split_task") && Truthy(Field(a, "text")) && Field(a, "subtasks").Arr? {
        var s := SplitTask(ws.tasks, Query(Field(a, "text")), Field(a, "subtasks").items, ws.nextId);
        SplitKeyed(ws.tasks, Query(Field(a, "text")), Field(a, "subtasks").items, ws.nextId);
        TasksReplaced(ws, s.tasks, s.nextId);
      } else if t == Str("add_timer") {
      } else if t == Str("change_theme") && ToStr(Field(a, "theme")) in Themes {
        ListsUnchanged(ws, r);
      } else if t == Str("set_greeting") && Truthy(Field(a, "text")) {
        ListsUnchanged(ws, r);
      } else if t == Str("add_widget") && Truthy(Field(a, "widgetType")) {
      } else if t == Str("add_event") {
      } else if t == Str("delete_event") && Truthy(Field(a, "title")) {
        KeyedFilter(ws.events, KeepEvent(Query(Field(a, "title"))), EventKey, ws.nextId);
        EventsReplaced(ws, DeleteEvents(ws.events, Query(Field(a, "title"))));
      } else if t == Str("add_expense") {
      } else if t == Str("set_budget") {
        ListsUnchanged(ws, r);
      } else if t == Str("adjust_ambient") {
        ListsUnchanged(ws, r);
      } else if t == Str("clear_canvas") {
      } else {
        ListsUnchanged(ws, r);
      }
    }
  }

  /** A batch keeps the workspace well formed. */
  lemma {:induction false} RunKeepsWellFormed(ws: Workspace, actions: seq<Value>, today: string)
    requires WellFormed(ws)
    ensures WellFormed(Run(ws, actions, today).ws)
    decreases |actions|
  {
    if actions != [] {
      StepKeepsWellFormed(ws, actions[0], today);
      RunKeepsWellFormed(Step(ws, actions[0], today).ws, actions[1..], today);
    }
  }
}
