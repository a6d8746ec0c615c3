/** Restoring the names in the streamed response, and the round trip with the request's aliases. */
module ToolRestore {
  import opened Common
  import opened Base64Url
  import opened ToolAlias

  /** A branch of a streamed choice; its tool calls may be absent. */
  datatype Branch = NoBranch | Branch(calls: Option<seq<Name>>)

  datatype Choice = NotObject | Choice(delta: Branch, message: Branch)

  /** A decoded event line. In the responses protocol, item is the type and name of its item. */
  datatype Event =
    | ChatEvent(choices: Option<seq<Choice>>, rest: string)
    | ResponsesEvent(kind: string, item: Option<(string, Name)>, name: Name, rest: string)

  datatype Line = Plain(raw: Bytes) | Done | NotAnEvent(raw: Bytes) | Data(event: Event)

  // ---- the rewrite ----------------------------------------------------------------------

  function OnText(f: Bytes -> Bytes, n: Name): Name { if n.Text? then Text(f(n.utf8)) else n }

  function OnNames(f: Bytes -> Bytes, names: seq<Name>): seq<Name> {
    seq(|names|, i requires 0 <= i < |names| => OnText(f, names[i]))
  }

  function OnBranch(f: Bytes -> Bytes, b: Branch): Branch {
    match b
    case NoBranch => b
    case Branch(calls) => Branch(Some(if calls.None? then [] else OnNames(f, calls.value)))
  }

  /** A missing delta becomes an empty one before its calls are looked at. */
  function OnChoice(f: Bytes -> Bytes, c: Choice): Choice {
    match c
    case NotObject => c
    case Choice(delta, message) =>
      Choice(OnBranch(f, if delta.NoBranch? then Branch(None) else delta), OnBranch(f, message))
  }

  function OnChoices(f: Bytes -> Bytes, choices: seq<Choice>): seq<Choice> {
    seq(|choices|, i requires 0 <= i < |choices| => OnChoice(f, choices[i]))
  }

  const ITEM_EVENTS := ["response.output_item.added", "response.output_item.done"]

  /** Change the typed name slots of an event, and normalise a chat event's missing parts. */
  function OnEvent(f: Bytes -> Bytes, e: Event): Event {
    match e
    case ChatEvent(choices, rest) => ChatEvent(Some(if choices.None? then [] else OnChoices(f, choices.value)), rest)
    case ResponsesEvent(kind, item, name, rest) =>
      if kind in ITEM_EVENTS then
        if item.Some? && item.value.0 == "function_call"
        then ResponsesEvent(kind, Some((item.value.0, OnText(f, item.value.1))), name, rest) else e
      else if kind == "response.function_call_arguments.done" then ResponsesEvent(kind, item, OnText(f, name), rest)
      else e
  }

  function OnLine(f: Bytes -> Bytes, l: Line): Line { if l.Data? then Data(OnEvent(f, l.event)) else l }

  function Lookup(aliases: Aliases): Bytes -> Bytes {
    (name: Bytes) => if name in aliases then aliases[name] else name
  }

  /** _rewrite_sse_line. */
  function RestoreLine(aliases: Aliases, l: Line): Line { OnLine(Lookup(aliases), l) }

  method RestoreNames(aliases: Aliases, names: seq<Name>) returns (out: seq<Name>)
    ensures out == OnNames(Lookup(aliases), names)
  {
    out := names;
    for i := 0 to |names|
      invariant |out| == |names|
      invariant forall j | 0 <= j < i :: out[j] == OnText(Lookup(aliases), names[j])
      invariant forall j | i <= j < |names| :: out[j] == names[j]
    {
      if names[i].Text? && names[i].utf8 in aliases {
        out := out[i := Text(aliases[names[i].utf8])];
      }
    }
  }

  method RestoreBranch(aliases: Aliases, b: Branch) returns (out: Branch)
    ensures out == OnBranch(Lookup(aliases), b)
  {
    out := b;
    if b.Branch? {
      var names := if b.calls.None? then [] else b.calls.value;
      var restored := RestoreNames(aliases, names);
      out := Branch(Some(restored));
    }
  }

  /** The loop over a chat event's choices, each changed in place. */
  method RestoreChoices(aliases: Aliases, choices: seq<Choice>) returns (out: seq<Choice>)
    ensures out == OnChoices(Lookup(aliases), choices)
  {
    out := choices;
    for i := 0 to |choices|
      invariant |out| == |choices|
      invariant forall j | 0 <= j < i :: out[j] == OnChoice(Lookup(aliases), choices[j])
      invariant forall j | i <= j < |choices| :: out[j] == choices[j]
    {
      if choices[i].Choice? {
        var delta := RestoreBranch(aliases, if choices[i].delta.NoBranch? then Branch(None) else choices[i].delta);
        var message := RestoreBranch(aliases, choices[i].message);
        out := out[i := Choice(delta, message)];
      }
    }
  }

  /** _rewrite_sse_line as it runs. */
  method RewriteSseLine(aliases: Aliases, l: Line) returns (out: Line)
    ensures out == RestoreLine(aliases, l)
  {
    out := l;
    if !l.Data? {
      return;
    }
    match l.event {
      case ChatEvent(choices, rest) =>
        var restored := RestoreChoices(aliases, if choices.None? then [] else choices.value);
        assert OnChoices(Lookup(aliases), []) == [];
        out := Data(ChatEvent(Some(restored), rest));
      case ResponsesEvent(kind, item, name, rest) =>
        out := Data(OnEvent(Lookup(aliases), l.event));
    }
  }

  // ---- the provider's side --------------------------------------------------------------

  /** What the provider says when it calls a tool it was given: the alias; any other name as it is. */
  function SpokenWith(names: set<Bytes>): Bytes -> Bytes {
    (name: Bytes) => if name in names && Alias(name).Some? then Alias(name).value else name
  }

  const SAME: Bytes -> Bytes := (name: Bytes) => name

  predicate NameIn(n: Name, used: set<Bytes>) { n.Text? ==> n.utf8 in used }

  predicate BranchUses(b: Branch, used: set<Bytes>) {
    b.Branch? && b.calls.Some? ==> forall i | 0 <= i < |b.calls.value| :: NameIn(b.calls.value[i], used)
  }

  predicate ChoiceUses(c: Choice, used: set<Bytes>) {
    c.Choice? ==> BranchUses(c.delta, used) && BranchUses(c.message, used)
  }

  /** All names in the event's slots are among used. */
  predicate EventUses(e: Event, used: set<Bytes>) {
    match e
    case ChatEvent(choices, _) => choices.Some? ==> forall i | 0 <= i < |choices.value| ::
      ChoiceUses(choices.value[i], used)
    case ResponsesEvent(_, item, name, _) => (item.Some? ==> NameIn(item.value.1, used)) && NameIn(name, used)
  }

  /** If going out with g and back with f is the identity on the used names, so it is on the event. */
  lemma EventRoundTrip(f: Bytes -> Bytes, g: Bytes -> Bytes, e: Event, used: set<Bytes>)
    requires EventUses(e, used) && forall n | n in used :: f(g(n)) == n
    ensures OnEvent(f, OnEvent(g, e)) == OnEvent(SAME, e)
  {
    match e
    case ChatEvent(choices, rest) =>
      if choices.Some? {
        var there := OnChoices(g, choices.value);
        forall i | 0 <= i < |choices.value|
          ensures OnChoice(f, OnChoice(g, choices.value[i])) == OnChoice(SAME, choices.value[i])
        {
          ChoiceRoundTrip(f, g, choices.value[i], used);
        }
        hide OnChoice, ChoiceUses;
        assert OnChoices(f, there) == OnChoices(SAME, choices.value);
      } else {
        assert OnChoices(f, []) == [] && OnChoices(SAME, []) == [];
      }
    case ResponsesEvent(kind, item, name, rest) =>
  }

  lemma ChoiceRoundTrip(f: Bytes -> Bytes, g: Bytes -> Bytes, c: Choice, used: set<Bytes>)
    requires ChoiceUses(c, used) && forall n | n in used :: f(g(n)) == n
    ensures OnChoice(f, OnChoice(g, c)) == OnChoice(SAME, c)
  {
    if c.Choice? {
      BranchRoundTrip(f, g, if c.delta.NoBranch? then Branch(None) else c.delta, used);
      BranchRoundTrip(f, g, c.message, used);
      hide OnBranch;
    }
  }

  lemma BranchRoundTrip(f: Bytes -> Bytes, g: Bytes -> Bytes, b: Branch, used: set<Bytes>)
    requires BranchUses(b, used) && forall n | n in used :: f(g(n)) == n
    ensures OnBranch(f, OnBranch(g, b)) == OnBranch(SAME, b) && OnBranch(g, b).Branch? == b.Branch?
  {
    if b.Branch? {
      var names := if b.calls.Some? then b.calls.value else [];
      assert OnNames(f, OnNames(g, names)) == OnNames(SAME, names);
      assert OnNames(g, []) == [] && OnNames(f, []) == [];
    }
  }

  /** The names of the aliased request. */
  ghost predicate NamesOf(r: Request, names: set<Bytes>) { forall n :: n in names <==> Carries(r, n) }

  /**
   For every request that is rewritten, and every response in either protocol: what the provider says
   about the given tools comes back under their original names, and names that are neither the
   request's nor aliases of them are left alone.
   */
  lemma ResponseRestored(r: Request, aliases: Aliases, names: set<Bytes>, used: set<Bytes>, l: Line)
    requires RequestOk(r) && TableFor(r, aliases) && NamesOf(r, names)
    requires l.Data? ==> EventUses(l.event, used)
    requires forall n | n in used :: n in names || n !in aliases
    ensures RestoreLine(aliases, OnLine(SpokenWith(names), l)) == OnLine(SAME, l)
  {
    hide Alias, Carries;
    forall n | n in used ensures Lookup(aliases)(SpokenWith(names)(n)) == n {
      if n in names { assert Carries(r, n); }
    }
    if l.Data? { EventRoundTrip(Lookup(aliases), SpokenWith(names), l.event, used); }
    hide OnEvent;
  }

  /** A response without any alias is only normalised, never renamed. */
  lemma UnknownNamesKept(aliases: Aliases, used: set<Bytes>, l: Line)
    requires l.Data? ==> EventUses(l.event, used)
    requires forall n | n in used :: n !in aliases
    ensures RestoreLine(aliases, l) == OnLine(SAME, l)
  {
    if l.Data? { UnknownEvent(Lookup(aliases), used, l.event); }
    hide OnEvent, EventUses;
  }

  lemma UnknownEvent(f: Bytes -> Bytes, used: set<Bytes>, e: Event)
    requires EventUses(e, used) && forall n | n in used :: f(n) == n
    ensures OnEvent(f, e) == OnEvent(SAME, e)
  {
    if e.ChatEvent? && e.choices.Some? {
      forall i | 0 <= i < |e.choices.value| ensures OnChoice(f, e.choices.value[i])
        == OnChoice(SAME, e.choices.value[i]) {
        var c := e.choices.value[i];
        assert ChoiceUses(c, used);
        if c.Choice? { UnknownBranch(f, used, c.delta); UnknownBranch(f, used, c.message); }
        assert OnNames(f, []) == OnNames(SAME, []);
      }
      hide OnChoice, ChoiceUses;
      assert OnChoices(f, e.choices.value) == OnChoices(SAME, e.choices.value);
    }
  }

  lemma UnknownBranch(f: Bytes -> Bytes, used: set<Bytes>, b: Branch)
    requires BranchUses(b, used) && forall n | n in used :: f(n) == n
    ensures OnBranch(f, b) == OnBranch(SAME, b)
  {
    if b.Branch? && b.calls.Some? {
      assert OnNames(f, b.calls.value) == OnNames(SAME, b.calls.value);
    }
  }
}
