/**
 * The response parser: strips Markdown code-fence markers from the
 * model's raw text, decodes it, and on failure retries on the greedy span
 * from the first `{` to the last `}`; a decoded value is normalised to an
 * action list and a reply. `JSON.parse` itself is the parameter `decode`
 * (`None` is a SyntaxError).
 */
module ResponseParser {

  import opened Wrappers
  import opened Text
  import opened JsValue
  import opened Collections

  /** A successful parse: the action list and the reply value. */
  datatype Parsed = Parsed(actions: seq<Value>, reply: Value)

  /** The global replace of `marker` followed by any white space: every occurrence of `marker`, with the white space after it, is removed in one left-to-right pass. */
  function RemoveMarker(s: string, marker: string): (r: string)
    requires marker != []
    ensures |r| <= |s|
    decreases |s|
  {
    if s == [] then []
    else if marker <= s then RemoveMarker(TrimStart(s[|marker|..]), marker)
    else [s[0]] + RemoveMarker(s[1..], marker)
  }

  /** A text in which `marker` does not occur is left unchanged. */
  lemma {:induction false} RemoveMarkerAbsent(s: string, marker: string)
    requires marker != [] && !Includes(s, marker)
    ensures RemoveMarker(s, marker) == s
    decreases |s|
  {
    if s != [] {
      if marker <= s {
        assert OccursAt(s, marker, 0);
      }
      if Includes(s[1..], marker) {
        var i :| 0 <= i <= |s[1..]| && OccursAt(s[1..], marker, i);
        assert OccursAt(s, marker, i + 1);
      }
      RemoveMarkerAbsent(s[1..], marker);
      assert [s[0]] + s[1..] == s;
    }
  }

  /** A prefix without the marker's first character passes through unchanged. */
  lemma {:induction false} RemoveMarkerKeepsPrefix(p: string, q: string, marker: string)
    requires marker != [] && marker[0] !in p
    ensures RemoveMarker(p + q, marker) == p + RemoveMarker(q, marker)
    decreases |p|
  {
    if p == [] {
      assert p + q == q;
    } else {
      var s := p + q;
      assert s[0] == p[0] && s[1..] == p[1..] + q;
      RemoveMarkerSkips(s, marker);
      RemoveMarkerKeepsPrefix(p[1..], q, marker);
      ConsAppend(p, RemoveMarker(q, marker));
    }
  }

  /** A text that does not start with the marker's first character keeps that character. */
  lemma RemoveMarkerSkips(s: string, marker: string)
    requires marker != [] && s != [] && s[0] != marker[0]
    ensures RemoveMarker(s, marker) == [s[0]] + RemoveMarker(s[1..], marker)
  {
  }

  /** The two fence-removing passes: "```json" first, then "```". */
  function StripFences(raw: string): string {
    RemoveMarker(RemoveMarker(raw, "```json"), "```")
  }

  /** The text the parser decodes: fences stripped, then trimmed. */
  function Clean(raw: string): string {
    Trim(StripFences(raw))
  }

  /** A text without backticks loses nothing but its outer white space. */
  lemma NoFenceNoChange(raw: string)
    requires '`' !in raw
    ensures Clean(raw) == Trim(raw)
  {
    RemoveMarkerKeepsPrefix(raw, [], "```json");
    assert raw + [] == raw;
    RemoveMarkerKeepsPrefix(raw, [], "```");
  }

  /**
   * A body wrapped in a "```json" fence comes back exactly: the opening
   * marker and the white space after it, and the closing marker, are removed.
   */
  lemma FencedBodyRecovered(body: string, sp1: string, sp2: string)
    requires '`' !in body && body != [] && !IsSpace(body[0]) && !IsSpace(body[|body| - 1])
    requires forall i :: 0 <= i < |sp1| ==> IsSpace(sp1[i])
    requires forall i :: 0 <= i < |sp2| ==> IsSpace(sp2[i])
    ensures Clean("```json" + sp1 + body + "```" + sp2) == body
  {
    var tail := "```" + sp2;
    var rest := body + tail;
    assert "```json" + sp1 + body + "```" + sp2 == "```json" + (sp1 + rest);
    OpeningFenceRemoved(sp1, rest);
    ClosingFenceKept(body, sp2);
    ClosingFenceRemoved(body, sp2);
    TrimNoSpaceEnds(body);
  }

  /** The opening marker and the white space after it go. */
  lemma OpeningFenceRemoved(sp: string, rest: string)
    requires forall i :: 0 <= i < |sp| ==> IsSpace(sp[i])
    requires rest != [] && !IsSpace(rest[0])
    ensures RemoveMarker("```json" + (sp + rest), "```json") == RemoveMarker(rest, "```json")
  {
    var raw := "```json" + (sp + rest);
    assert "```json" <= raw;
    assert raw[7..] == sp + rest;
    TrimStartSpaces(sp, rest);
  }

  /** The first pass leaves the body and the closing marker alone. */
  lemma ClosingFenceKept(body: string, sp: string)
    requires '`' !in body
    requires forall i :: 0 <= i < |sp| ==> IsSpace(sp[i])
    ensures RemoveMarker(body + ("```" + sp), "```json") == body + ("```" + sp)
  {
    var tail := "```" + sp;
    RemoveMarkerKeepsPrefix(body, tail, "```json");
    JsonMarkerAbsent(tail, sp);
    RemoveMarkerAbsent(tail, "```json");
  }

  /** The second pass removes the closing marker and the white space after it. */
  lemma ClosingFenceRemoved(body: string, sp: string)
    requires '`' !in body
    requires forall i :: 0 <= i < |sp| ==> IsSpace(sp[i])
    ensures RemoveMarker(body + ("```" + sp), "```") == body
  {
    var tail := "```" + sp;
    RemoveMarkerKeepsPrefix(body, tail, "```");
    assert "```" <= tail && tail[3..] == sp;
    assert TrimStart(sp) == [];
    assert RemoveMarker(tail, "```") == [];
    assert body + [] == body;
  }

  lemma JsonMarkerAbsent(tail: string, sp: string)
    requires tail == "```" + sp
    requires forall i :: 0 <= i < |sp| ==> IsSpace(sp[i])
    ensures !Includes(tail, "```json")
  {
    assert 'j' !in tail;
    MissingCharAbsent(tail, "```json", 3);
  }

  /** A needle with a character the text lacks does not occur in it. */
  lemma MissingCharAbsent(s: string, needle: string, k: int)
    requires 0 <= k < |needle| && needle[k] !in s
    ensures !Includes(s, needle)
  {
  }

  lemma {:induction false} TrimStartSpaces(sp: string, rest: string)
    requires forall i :: 0 <= i < |sp| ==> IsSpace(sp[i])
    requires rest != [] && !IsSpace(rest[0])
    ensures TrimStart(sp + rest) == rest
    decreases |sp|
  {
    if sp == [] {
      assert sp + rest == rest;
    } else {
      assert (sp + rest)[0] == sp[0];
      assert (sp + rest)[1..] == sp[1..] + rest;
      TrimStartSpaces(sp[1..], rest);
    }
  }

  /** `{` at `i` is the first `{` of `c` and `}` at `j` its last `}`, with `i < j`. */
  predicate BraceSpan(c: string, i: int, j: int) {
    0 <= i < j < |c| && c[i] == '{' && c[j] == '}' && '{' !in c[..i] && '}' !in c[j + 1..]
  }

  /** `c.match(/\{[\s\S]*\}/)`: the span from the first `{` to the last `}`, if a `}` follows the first `{`. */
  function GreedyBraces(c: string): (r: Option<string>)
    ensures r.None? <==> !exists i, j | 0 <= i < j < |c| :: c[i] == '{' && c[j] == '}'
    ensures r.Some? ==> exists i, j :: BraceSpan(c, i, j) && r.value == c[i..j + 1]
    ensures r.Some? ==> |r.value| >= 2 && r.value[0] == '{' && r.value[|r.value| - 1] == '}'
  {
    match IndexOf(c, '{')
    case None => None
    case Some(i) =>
      match LastIndexOf(c, '}')
      case None => None
      case Some(j) =>
        if i < j then
          assert BraceSpan(c, i, j);
          Some(c[i..j + 1])
        else None
  }

  /** One object embedded in prose with no `{` before it and no `}` after it is exactly the span found. */
  lemma EmbeddedObjectFound(pre: string, obj: string, post: string)
    requires '{' !in pre && '}' !in post
    requires |obj| >= 2 && obj[0] == '{' && obj[|obj| - 1] == '}'
    ensures GreedyBraces(pre + obj + post) == Some(obj)
  {
    var c := pre + obj + post;
    var e := |pre| + |obj| - 1;
    assert c[|pre|] == '{' && c[e] == '}';
    var i := IndexOf(c, '{').value;
    var j := LastIndexOf(c, '}').value;
    assert c[|pre|..e + 1] == obj;
  }

  /**
   * The normalisation of a decoded value: `actions` if it is an array, else
   * []; `reply` if truthy, else "". Reading a property of null is a
   * TypeError, which the parser treats like a failed decode.
   */
  function Normalise(v: Value): (r: Option<Parsed>)
    ensures r.None? <==> Nullish(v)
    ensures r.Some? && Field(v, "actions").Arr? ==> r.value.actions == Field(v, "actions").items
    ensures r.Some? && !Field(v, "actions").Arr? ==> r.value.actions == []
    ensures r.Some? && Truthy(Field(v, "reply")) ==> r.value.reply == Field(v, "reply")
    ensures r.Some? && !Truthy(Field(v, "reply")) ==> r.value.reply == Str("")
  {
    match Prop(v, "actions")
    case None => None
    case Some(acts) =>
      var reply := Field(v, "reply");
      Some(Parsed(if acts.Arr? then acts.items else [], if Truthy(reply) then reply else Str("")))
  }

  /** One `try { JSON.parse(..); normalise }` attempt. */
  function Attempt(decoded: Option<Value>): (r: Option<Parsed>)
    ensures r.Some? <==> decoded.Some? && !Nullish(decoded.value)
    ensures r.Some? ==> r == Normalise(decoded.value)
  {
    match decoded
    case None => None
    case Some(v) => Normalise(v)
  }

  /**
   * `parseResponse(raw)`: null for the empty string; otherwise the
   * normalised decode of the cleaned text, or, failing that, of its brace
   * span; null when both attempts fail.
   */
  function ParseResponse(raw: string, decode: string -> Option<Value>): (r: Option<Parsed>)
    ensures raw == "" ==> r.None?
    ensures var c := Clean(raw);
      raw != "" && Attempt(decode(c)).Some? ==> r == Attempt(decode(c))
    ensures var c := Clean(raw);
      raw != "" && Attempt(decode(c)).None? && r.Some? ==>
        GreedyBraces(c).Some? && r == Attempt(decode(GreedyBraces(c).value))
    ensures var c := Clean(raw);
      raw != "" && r.None? ==>
        Attempt(decode(c)).None? && (GreedyBraces(c).None? || Attempt(decode(GreedyBraces(c).value)).None?)
  {
    if raw == "" then None
    else
      var c := Clean(raw);
      match Attempt(decode(c))
      case Some(p) => Some(p)
      case None =>
        match GreedyBraces(c)
        case None => None
        case Some(m) => Attempt(decode(m))
  }

  /** Text that does not decode and has no `{` before a `}` is unparseable. */
  lemma NoBracesNoRecovery(raw: string, decode: string -> Option<Value>)
    requires decode(Clean(raw)).None?
    requires !exists i, j | 0 <= i < j < |Clean(raw)| :: Clean(raw)[i] == '{' && Clean(raw)[j] == '}'
    ensures ParseResponse(raw, decode).None?
  {
  }

  /** An object surrounded by prose is recovered when the whole text does not decode. */
  lemma ProseWrappedObjectRecovered(raw: string, pre: string, obj: string, post: string, v: Value, decode: string -> Option<Value>)
    requires raw != "" && Clean(raw) == pre + obj + post
    requires '{' !in pre && '}' !in post
    requires |obj| >= 2 && obj[0] == '{' && obj[|obj| - 1] == '}'
    requires decode(Clean(raw)).None? && decode(obj) == Some(v) && !Nullish(v)
    ensures ParseResponse(raw, decode) == Normalise(v)
  {
    EmbeddedObjectFound(pre, obj, post);
  }
}
