/** Decoded JSON values and what a usage capture observes in one decoded event. */
module SseEvents {
  import opened Common
  import opened JsonValues

  /** The JSON decoder: None for bytes that are not one JSON value. */
  type Decoder = Bytes -> Option<Json>

  function UsageOf(p: Protocol, event: map<string, Json>): Json {
    var response := Get(event, "response");
    var usage := Get(event, "usage");
    if p.Responses? && response.Obj? then
      var inner := Get(response.fields, "usage");
      if Truthy(inner) then inner else usage
    else usage
  }

  predicate FinishedChoice(choice: Json) {
    choice.Obj? && var reason := Get(choice.fields, "finish_reason"); reason.Str? && reason.s != ""
  }

  predicate IsTerminal(p: Protocol, event: map<string, Json>) {
    match p
    case Chat => var choices := Get(event, "choices");
      choices.Arr? && exists i :: 0 <= i < |choices.items| && FinishedChoice(choices.items[i])
    case Responses => var kind := Get(event, "type");
      kind.Str? && kind.s in ["response.completed", "response.incomplete", "response.failed"]
  }

  // ---- the capture's counters -----------------------------------------------------------

  datatype Tally = Tally(
    latest: Option<map<string, Json>>, sawDone: bool, sawTerminal: bool,
    malformed: nat, oversized: nat, dataAfterDone: bool, dataAfterTerminal: bool)

  const NOTHING_SEEN := Tally(None, false, false, 0, 0, false, false)

  predicate IsSpace(b: Byte) { 9 <= b <= 13 || b == 32 }

  function StripLeft(s: Bytes): Bytes {
    if s != [] && IsSpace(s[0]) then StripLeft(s[1..]) else s
  }
  function StripRight(s: Bytes): Bytes {
    if s != [] && IsSpace(s[|s| - 1]) then StripRight(s[..|s| - 1]) else s
  }
  function Strip(s: Bytes): Bytes { StripRight(StripLeft(s)) }

  /** The bytes of "[DONE]". */
  const DONE: Bytes := [91, 68, 79, 78, 69, 93]

  /** One dispatched event's joined data. */
  function Observe(loads: Decoder, p: Protocol, t: Tally, payload: Bytes): Tally {
    if Strip(payload) == DONE then t.(sawDone := true)
    else
      var t1 := t.(dataAfterDone := t.dataAfterDone || t.sawDone,
                   dataAfterTerminal := t.dataAfterTerminal || t.sawTerminal);
      match loads(payload)
      case None => t1.(malformed := t.malformed + 1)
      case Some(Obj(event)) =>
        var usage := UsageOf(p, event);
        t1.(latest := if usage.Obj? then Some(usage.fields) else t.latest,
            sawTerminal := t.sawTerminal || IsTerminal(p, event))
      case Some(_) => t1
  }

  /** The capture saw one clean protocol terminal and nothing suspicious after it. */
  predicate CleanlyComplete(p: Protocol, t: Tally) {
    && (if p.Chat? then t.sawDone else !t.dataAfterTerminal)
    && t.sawTerminal && !t.dataAfterDone && t.malformed == 0 && t.oversized == 0
  }

  // ---- strict usage ---------------------------------------------------------------------

  datatype Bucket = InputTokens | OutputTokens | CachedTokens
  datatype StrictUsage =
    | Usage(input: int, output: int, cached: int, shape: seq<string>)
    | UsageMissing | UsageIncomplete(name: Bucket) | UsageInvalid(name: Bucket)

  function Paths(p: Protocol, b: Bucket): seq<seq<string>> {
    match (p, b)
    case (Responses, InputTokens) => [["input_tokens"]]
    case (Responses, OutputTokens) => [["output_tokens"]]
    case (Responses, CachedTokens) => [["input_tokens_details", "cached_tokens"], ["cached_input_tokens"]]
    case (Chat, InputTokens) => [["prompt_tokens"]]
    case (Chat, OutputTokens) => [["completion_tokens"]]
    case (Chat, CachedTokens) => [["prompt_cache_hit_tokens"], ["prompt_tokens_details", "cached_tokens"]]
  }

  function Follow(j: Json, path: seq<string>): Json {
    if path == [] then j
    else if j.Obj? && path[0] in j.fields then Follow(j.fields[path[0]], path[1..])
    else Null
  }

  /** The first integer found across the accepted field paths. */
  function FirstInt(usage: map<string, Json>, paths: seq<seq<string>>): Option<int> {
    if paths == [] then None
    else
      var v := Follow(Obj(usage), paths[0]);
      if v.Int? then Some(v.n) else FirstInt(usage, paths[1..])
  }

  function BucketOf(p: Protocol, usage: map<string, Json>, b: Bucket): Option<int> {
    FirstInt(usage, Paths(p, b))
  }

  /** The path that integer was found under. */
  function FirstPath(usage: map<string, Json>, paths: seq<seq<string>>): (r: Option<seq<string>>)
    ensures r.Some? <==> FirstInt(usage, paths).Some?
    ensures r.Some? ==> r.value in paths && Follow(Obj(usage), r.value) == Int(FirstInt(usage, paths).value)
  {
    if paths == [] then None
    else if Follow(Obj(usage), paths[0]).Int? then Some(paths[0]) else FirstPath(usage, paths[1..])
  }

  /** Usage is trusted only as three present, non-negative counts with cached inside the input. */
  function ParseUsage(p: Protocol, latest: Option<map<string, Json>>): (r: StrictUsage)
    ensures r.UsageMissing? <==> latest.None?
    ensures r.Usage? <==>
      && latest.Some?
      && (forall b :: BucketOf(p, latest.value, b).Some? && 0 <= BucketOf(p, latest.value, b).value)
      && BucketOf(p, latest.value, CachedTokens).value <= BucketOf(p, latest.value, InputTokens).value
    ensures r.Usage? ==> 0 <= r.cached <= r.input && 0 <= r.output
    ensures r.Usage? ==> r.shape in Paths(p, CachedTokens) && Follow(Obj(latest.value), r.shape) == Int(r.cached)
    ensures r.UsageIncomplete? ==> BucketOf(p, latest.value, r.name).None?
  {
    if latest.None? then UsageMissing
    else
      var input := BucketOf(p, latest.value, InputTokens);
      var output := BucketOf(p, latest.value, OutputTokens);
      var cached := BucketOf(p, latest.value, CachedTokens);
      if input.None? then UsageIncomplete(InputTokens)
      else if input.value < 0 then UsageInvalid(InputTokens)
      else if output.None? then UsageIncomplete(OutputTokens)
      else if output.value < 0 then UsageInvalid(OutputTokens)
      else if cached.None? then UsageIncomplete(CachedTokens)
      else if cached.value < 0 then UsageInvalid(CachedTokens)
      else if cached.value > input.value then UsageInvalid(CachedTokens)
      else Usage(input.value, output.value, cached.value, FirstPath(latest.value, Paths(p, CachedTokens)).value)
  }
}
