/**
 * One chat turn: the user's text goes to the language model, the reply is
 * parsed, its actions are executed, the assistant's reply is logged, the
 * mood is inferred, and, when the turn carried no ambient adjustment, a
 * second "ambient" call may restyle the workspace. The network calls are
 * parameters: each ends as a completed text, an abort, or a failure.
 */
module Conversation {

  import opened Wrappers
  import opened Text
  import opened JsValue
  import opened Collections
  import opened State
  import opened Interpreter
  import opened ResponseParser
  import Mood

  /** How a call to the language model ended. */
  datatype CallOutcome = Completed(raw: string) | Aborted | Failed

  const ParseFallbackReply := "Done! ✨"
  const ErrorReply := "Couldn't process that — try rephrasing?"
  const CrashReply := "Something went wrong — try again?"

  /**
   * `callLLM`: an aborted call replies "" with no actions; a failed call
   * replies with an apology; a completed call yields the parsed actions and
   * reply, with "Done! ✨" when the reply is empty or the text does not parse.
   */
  function CallLLM(call: CallOutcome, decode: string -> Option<Value>): (r: Parsed)
    ensures Truthy(r.reply) <==> !call.Aborted?
    ensures call.Aborted? ==> r == Parsed([], Str(""))
    ensures call.Failed? ==> r == Parsed([], Str(ErrorReply))
    ensures call.Completed? && ParseResponse(call.raw, decode).None? ==> r == Parsed([], Str(ParseFallbackReply))
    ensures call.Completed? && ParseResponse(call.raw, decode).Some? ==>
              && r.actions == ParseResponse(call.raw, decode).value.actions
              && (Truthy(ParseResponse(call.raw, decode).value.reply) ==> r.reply == ParseResponse(call.raw, decode).value.reply)
              && (!Truthy(ParseResponse(call.raw, decode).value.reply) ==> r.reply == Str(ParseFallbackReply))
  {
    match call
    case Aborted => Parsed([], Str(""))
    case Failed => Parsed([], Str(ErrorReply))
    case Completed(raw) =>
      match ParseResponse(raw, decode)
      case None => Parsed([], Str(ParseFallbackReply))
      case Some(p) => Parsed(p.actions, if Truthy(p.reply) then p.reply else Str(ParseFallbackReply))
  }

  /** `callAmbientLLM`: the parsed reply, or no actions when the call does not complete or does not parse. */
  function CallAmbientLLM(call: CallOutcome, decode: string -> Option<Value>): (r: Parsed)
    ensures call.Completed? && ParseResponse(call.raw, decode).Some? ==> r == ParseResponse(call.raw, decode).value
    ensures !(call.Completed? && ParseResponse(call.raw, decode).Some?) ==> r == Parsed([], Str(""))
  {
    match call
    case Completed(raw) => ParseResponse(raw, decode).GetOr(Parsed([], Str("")))
    case _ => Parsed([], Str(""))
  }

  /** An action whose type is `adjust_ambient`. */
  predicate IsAmbient(a: Value) {
    Field(a, "type") == Str("adjust_ambient")
  }

  /**
   * The ambient lane's filter `actions.filter(a => a.type === "adjust_ambient")`:
   * only ambient adjustments pass; a null element makes the filter throw,
   * and then nothing is applied.
   */
  function AmbientActions(actions: seq<Value>): (r: Option<seq<Value>>)
    ensures r.None? <==> exists i :: 0 <= i < |actions| && Nullish(actions[i])
    ensures r.Some? ==> forall a :: a in r.value <==> a in actions && IsAmbient(a)
  {
    if exists i :: 0 <= i < |actions| && Nullish(actions[i]) then None
    else Some(Filter(actions, IsAmbient))
  }

  /** A batch of ambient adjustments changes only the ambient styling and Lenny's mood. */
  lemma {:induction false} AmbientBatchOnlyRestyles(ws: Workspace, actions: seq<Value>, today: string)
    requires forall i :: 0 <= i < |actions| ==> IsAmbient(actions[i])
    ensures var r := Run(ws, actions, today).ws;
      r == ws.(ambient := r.ambient, lenny := r.lenny)
    decreases |actions|
  {
    if actions != [] {
      AmbientStepOnlyRestyles(ws, actions[0], today);
      AmbientBatchOnlyRestyles(Step(ws, actions[0], today).ws, actions[1..], today);
    }
  }

  /** One ambient adjustment changes only the ambient styling and Lenny's mood. */
  lemma AmbientStepOnlyRestyles(ws: Workspace, a: Value, today: string)
    requires IsAmbient(a)
    ensures var r := Step(ws, a, today).ws;
      r == ws.(ambient := r.ambient, lenny := r.lenny)
  {
    assert !Nullish(a);
  }

  /**
   * The ambient lane: the ambient call's adjustments, if there are any and
   * the filter does not throw, are executed; nothing but the ambient
   * styling and Lenny's mood can change.
   */
  function AmbientLane(ws: Workspace, call: CallOutcome, decode: string -> Option<Value>, today: string): (r: Workspace)
    ensures var f := AmbientActions(CallAmbientLLM(call, decode).actions);
      f.Some? && |f.value| > 0 ==> r == Exec(ws, Arr(f.value), today).ws
    ensures var f := AmbientActions(CallAmbientLLM(call, decode).actions);
      f.None? || |f.value| == 0 ==> r == ws
    ensures r == ws.(ambient := r.ambient, lenny := r.lenny)
    ensures AmbientInRange(ws.ambient) ==> AmbientInRange(r.ambient)
  {
    match AmbientActions(CallAmbientLLM(call, decode).actions)
    case None => ws
    case Some(safe) =>
      if |safe| > 0 then
        assert forall i :: 0 <= i < |safe| ==> IsAmbient(safe[i]) by {
          forall i | 0 <= i < |safe| ensures IsAmbient(safe[i]) { assert safe[i] in safe; }
        }
        AmbientBatchOnlyRestyles(ws, safe, today);
        assert AmbientInRange(ws.ambient) ==> AmbientInRange(Run(ws, safe, today).ws.ambient) by {
          if AmbientInRange(ws.ambient) { RunKeepsAmbientInRange(ws, safe, today); }
        }
        Exec(ws, Arr(safe), today).ws
      else ws
  }

  datatype Role = User | Assistant

  /** A chat message; an assistant reply to a turn records how many actions came with it. */
  datatype Msg = Msg(role: Role, text: string, actionCount: Option<nat>)

  /** The chat session around the workspace. */
  datatype Session = Session(ws: Workspace, msgs: seq<Msg>, loading: bool)

  /** Some action of the turn is an ambient adjustment. */
  predicate HasAmbient(actions: seq<Value>) {
    exists i :: 0 <= i < |actions| && IsAmbient(actions[i])
  }

  /** Lenny's mood after a turn: the inferred mood, when there is one. */
  function WithMood(ws: Workspace, txt: string, actions: seq<Value>): (r: Workspace)
    ensures r == ws.(lenny := r.lenny)
    ensures Mood.InferMood(txt, actions).Some? ==> r.lenny == Mood.InferMood(txt, actions).value
    ensures Mood.InferMood(txt, actions).None? ==> r == ws
  {
    match Mood.InferMood(txt, actions)
    case Some(m) => ws.(lenny := m)
    case None => ws
  }

  /** What a turn does after the user's text is logged: the new workspace and the assistant's replies. */
  datatype TurnResult = TurnResult(ws: Workspace, replies: seq<Msg>)

  /**
   * The body of `send` after the user's text is logged: an empty reply (the
   * call was aborted) ends the turn; else the actions run, and a throw logs
   * an apology, while a clean run logs the reply, infers the mood and, if
   * no action adjusted the ambience, runs the ambient lane.
   */
  function Turn(ws: Workspace, txt: string, primary: CallOutcome, ambient: CallOutcome,
                decode: string -> Option<Value>, today: string): (r: TurnResult)
    ensures |r.replies| <= 1 && forall i :: 0 <= i < |r.replies| ==> r.replies[i].role == Assistant
    ensures primary.Aborted? <==> r.replies == []
    ensures WellFormed(ws) ==> WellFormed(r.ws)
    ensures AmbientInRange(ws.ambient) ==> AmbientInRange(r.ws.ambient)
  {
    var reply := CallLLM(primary, decode);
    if !Truthy(reply.reply) then TurnResult(ws, [])
    else Respond(ws, txt, reply, ambient, decode, today)
  }

  /** A turn with a non-empty reply: run the actions, then log, infer the mood and restyle. */
  function Respond(ws: Workspace, txt: string, reply: Parsed, ambient: CallOutcome,
                   decode: string -> Option<Value>, today: string): (r: TurnResult)
    ensures |r.replies| == 1 && r.replies[0].role == Assistant
    ensures var o := Exec(ws, Arr(reply.actions), today);
      o.threw ==> r == TurnResult(o.ws, [Msg(Assistant, CrashReply, None)])
    ensures var o := Exec(ws, Arr(reply.actions), today);
      !o.threw ==> r.replies == [Msg(Assistant, ToStr(reply.reply), Some(|reply.actions|))]
    ensures var o := Exec(ws, Arr(reply.actions), today);
      !o.threw && HasAmbient(reply.actions) ==> r.ws == WithMood(o.ws, txt, reply.actions)
    ensures var o := Exec(ws, Arr(reply.actions), today);
      !o.threw && !HasAmbient(reply.actions) ==> r.ws == AmbientLane(WithMood(o.ws, txt, reply.actions), ambient, decode, today)
    ensures WellFormed(ws) ==> WellFormed(r.ws)
    ensures AmbientInRange(ws.ambient) ==> AmbientInRange(r.ws.ambient)
  {
    var o := Exec(ws, Arr(reply.actions), today);
    assert WellFormed(ws) ==> WellFormed(o.ws) by {
      if WellFormed(ws) { RunKeepsWellFormed(ws, reply.actions, today); }
    }
    assert AmbientInRange(ws.ambient) ==> AmbientInRange(o.ws.ambient) by {
      if AmbientInRange(ws.ambient) { RunKeepsAmbientInRange(ws, reply.actions, today); }
    }
    if o.threw then
      TurnResult(o.ws, [Msg(Assistant, CrashReply, None)])
    else
      var moody := WithMood(o.ws, txt, reply.actions);
      var next := if HasAmbient(reply.actions) then moody else AmbientLane(moody, ambient, decode, today);
      TurnResult(next, [Msg(Assistant, ToStr(reply.reply), Some(|reply.actions|))])
  }

  /**
   * `send(input)`: a blank input, or one sent while a turn is in flight,
   * is ignored. Otherwise the trimmed text is logged and the turn runs.
   * `primary` and `ambient` are how the two model calls end; `today` is
   * the date an event without one gets.
   */
  function Send(s: Session, input: string, primary: CallOutcome, ambient: CallOutcome,
                decode: string -> Option<Value>, today: string): (r: Session)
    ensures Trim(input) == "" || s.loading ==> r == s
    ensures Trim(input) != "" && !s.loading ==>
              && !r.loading
              && |s.msgs| + 1 <= |r.msgs| <= |s.msgs| + 2
              && r.msgs[..|s.msgs| + 1] == s.msgs + [Msg(User, Trim(input), None)]
              && (forall i :: |s.msgs| + 1 <= i < |r.msgs| ==> r.msgs[i].role == Assistant)
    ensures WellFormed(s.ws) ==> WellFormed(r.ws)
    ensures AmbientInRange(s.ws.ambient) ==> AmbientInRange(r.ws.ambient)
  {
    var txt := Trim(input);
    if txt == "" || s.loading then s
    else
      var log := s.msgs + [Msg(User, txt, None)];
      var t := Turn(s.ws, txt, primary, ambient, decode, today);
      var msgs := log + t.replies;
      AppendParts(log, t.replies);
      Session(t.ws, msgs, false)
  }

  /**
   * A call that was not aborted: when the actions throw, the log gains the
   * user's text and the apology, and the workspace keeps the updates made
   * before the throw; otherwise the log gains the user's text and the
   * reply, with the number of actions that came with it.
   */
  lemma SendLogsReplyOrApology(s: Session, input: string, primary: CallOutcome, ambient: CallOutcome,
                               decode: string -> Option<Value>, today: string)
    requires Trim(input) != "" && !s.loading && !primary.Aborted?
    ensures var reply := CallLLM(primary, decode);
      var o := Exec(s.ws, Arr(reply.actions), today);
      var log := s.msgs + [Msg(User, Trim(input), None)];
      var r := Send(s, input, primary, ambient, decode, today);
      && (o.threw ==> r == Session(o.ws, log + [Msg(Assistant, CrashReply, None)], false))
      && (!o.threw ==> r.msgs == log + [Msg(Assistant, ToStr(reply.reply), Some(|reply.actions|))])
  {
    TurnResponds(s.ws, Trim(input), primary, ambient, decode, today);
  }

  /** A call that was not aborted always has a truthy reply, so the turn goes on to `Respond`. */
  lemma TurnResponds(ws: Workspace, txt: string, primary: CallOutcome, ambient: CallOutcome,
                     decode: string -> Option<Value>, today: string)
    requires !primary.Aborted?
    ensures Turn(ws, txt, primary, ambient, decode, today) == Respond(ws, txt, CallLLM(primary, decode), ambient, decode, today)
  {
  }

  /** An aborted call logs the user's text and changes nothing else. */
  lemma AbortedTurnOnlyLogs(s: Session, input: string, ambient: CallOutcome, decode: string -> Option<Value>, today: string)
    requires Trim(input) != "" && !s.loading
    ensures Send(s, input, Aborted, ambient, decode, today) == Session(s.ws, s.msgs + [Msg(User, Trim(input), None)], false)
  {
  }

  /**
   * A reply that does not parse executes nothing: the log gains the user's
   * text and "Done! ✨" with no actions, and the workspace can only change
   * in mood and ambient styling.
   */
  lemma UnparseableTurn(s: Session, input: string, raw: string, ambient: CallOutcome, decode: string -> Option<Value>, today: string)
    requires Trim(input) != "" && !s.loading
    requires ParseResponse(raw, decode).None?
    ensures var r := Send(s, input, Completed(raw), ambient, decode, today);
      && r.msgs == s.msgs + [Msg(User, Trim(input), None), Msg(Assistant, ParseFallbackReply, Some(0))]
      && r.ws == s.ws.(ambient := r.ws.ambient, lenny := r.ws.lenny)
  {
    var t := Turn(s.ws, Trim(input), Completed(raw), ambient, decode, today);
    UnparseableTurnResult(s.ws, Trim(input), raw, ambient, decode, today);
    AppendTwo(s.msgs, Msg(User, Trim(input), None), Msg(Assistant, ParseFallbackReply, Some(0)));
  }

  lemma UnparseableTurnResult(ws: Workspace, txt: string, raw: string, ambient: CallOutcome, decode: string -> Option<Value>, today: string)
    requires ParseResponse(raw, decode).None?
    ensures var t := Turn(ws, txt, Completed(raw), ambient, decode, today);
      && t.replies == [Msg(Assistant, ParseFallbackReply, Some(0))]
      && t.ws == ws.(ambient := t.ws.ambient, lenny := t.ws.lenny)
  {
    var reply := Parsed([], Str(ParseFallbackReply));
    assert CallLLM(Completed(raw), decode) == reply;
    assert Truthy(reply.reply);
    RespondWithoutActions(ws, txt, reply, ambient, decode, today);
    assert ToStr(reply.reply) == ParseFallbackReply;
  }

  /** A reply without actions logs its text and touches only Lenny and the ambience. */
  lemma RespondWithoutActions(ws: Workspace, txt: string, reply: Parsed, ambient: CallOutcome, decode: string -> Option<Value>, today: string)
    requires reply.actions == []
    ensures var t := Respond(ws, txt, reply, ambient, decode, today);
      && t.replies == [Msg(Assistant, ToStr(reply.reply), Some(0))]
      && t.ws == ws.(ambient := t.ws.ambient, lenny := t.ws.lenny)
  {
    assert Exec(ws, Arr([]), today) == Outcome(ws, false);
    assert !HasAmbient(reply.actions);
  }

  /** A turn that already adjusted the ambience does not consult the ambient call. */
  lemma AmbientLaneSkipped(s: Session, input: string, primary: CallOutcome, ambient1: CallOutcome, ambient2: CallOutcome,
                           decode: string -> Option<Value>, today: string)
    requires HasAmbient(CallLLM(primary, decode).actions)
    ensures Send(s, input, primary, ambient1, decode, today) == Send(s, input, primary, ambient2, decode, today)
  {
    var reply := CallLLM(primary, decode);
    if Truthy(reply.reply) {
      RespondIgnoresAmbientCall(s.ws, Trim(input), reply, ambient1, ambient2, decode, today);
    }
  }

  lemma RespondIgnoresAmbientCall(ws: Workspace, txt: string, reply: Parsed, ambient1: CallOutcome, ambient2: CallOutcome,
                                  decode: string -> Option<Value>, today: string)
    requires HasAmbient(reply.actions)
    ensures Respond(ws, txt, reply, ambient1, decode, today) == Respond(ws, txt, reply, ambient2, decode, today)
  {
  }

  /** A turn with no ambient adjustment of its own takes the ambient call's adjustments after the inferred mood. */
  lemma AmbientLaneApplied(s: Session, input: string, primary: CallOutcome, ambient: CallOutcome,
                           decode: string -> Option<Value>, today: string)
    requires Trim(input) != "" && !s.loading && !primary.Aborted?
    requires !HasAmbient(CallLLM(primary, decode).actions)
    requires !Exec(s.ws, Arr(CallLLM(primary, decode).actions), today).threw
    ensures var reply := CallLLM(primary, decode);
      var moody := WithMood(Exec(s.ws, Arr(reply.actions), today).ws, Trim(input), reply.actions);
      Send(s, input, primary, ambient, decode, today).ws == AmbientLane(moody, ambient, decode, today)
  {
    var reply := CallLLM(primary, decode);
    assert Turn(s.ws, Trim(input), primary, ambient, decode, today) == Respond(s.ws, Trim(input), reply, ambient, decode, today);
  }
}
