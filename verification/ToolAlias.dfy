/**
 Tool names on the wire: every typed function-name slot of a request is replaced by an API-safe alias,
 and the aliases in the streamed response are replaced back. Names are their UTF-8 bytes.
 */
module ToolAlias {
  import opened Common
  import opened Base64Url

  datatype Name = NoName | NotText | Text(utf8: Bytes)

  /** A JSON object with a "type" and the function name that belongs to it: its function's name in the
      chat protocol, its own name in the responses protocol. */
  datatype Node = Node(kind: string, name: Name, rest: string)

  /** turns are the tool calls of each message (chat) or the input items, one each (responses); choice is
      the forced function or the allowed tools. */
  datatype Request = Request(protocol: Protocol, tools: seq<Node>, turns: seq<seq<Node>>, choice: seq<Node>,
                             rest: string)

  type Aliases = map<Bytes, Bytes>

  // ---- one name -------------------------------------------------------------------------

  const PREFIX: Bytes := [116, 95]
  const LIMIT := 64

  /** _tool_alias; None is its refusal. */
  function Alias(name: Bytes): Option<Bytes> {
    var alias := PREFIX + Encode(name);
    if name == [] || |alias| > LIMIT then None else Some(alias)
  }

  /** An alias fits exactly for names of 1 to 46 bytes. */
  lemma AliasFits(name: Bytes)
    ensures Alias(name).Some? <==> 1 <= |name| <= 46
  {
    EncodedLength(name);
    hide Encode;
  }

  lemma AliasInjective(a: Bytes, b: Bytes)
    requires Alias(a).Some? && Alias(a) == Alias(b)
    ensures a == b
  {
    assert (PREFIX + Encode(a))[2..] == Encode(a) && (PREFIX + Encode(b))[2..] == Encode(b);
    Injective(a, b);
  }

  // ---- requests -------------------------------------------------------------------------

  function TurnKind(p: Protocol): string { if p.Chat? then "function" else "function_call" }

  /** The name a rewrite must replace, if the node has one. */
  function SlotName(wanted: string, n: Node): Option<Bytes> {
    if n.kind == wanted && n.name.Text? then Some(n.name.utf8) else None
  }

  /** The chat protocol refuses a name that is not text; the responses protocol passes it by. */
  predicate NodeOk(p: Protocol, wanted: string, n: Node) {
    && (p.Chat? && n.kind == wanted ==> !n.name.NotText?)
    && (SlotName(wanted, n).Some? ==> Alias(SlotName(wanted, n).value).Some?)
  }

  function Renamed(wanted: string, n: Node): Node {
    match SlotName(wanted, n)
    case None => n
    case Some(name) => if Alias(name).Some? then n.(name := Text(Alias(name).value)) else n
  }

  function RenamedAll(wanted: string, nodes: seq<Node>): seq<Node> {
    seq(|nodes|, i requires 0 <= i < |nodes| => Renamed(wanted, nodes[i]))
  }

  predicate NodesOk(p: Protocol, wanted: string, nodes: seq<Node>) {
    forall i | 0 <= i < |nodes| :: NodeOk(p, wanted, nodes[i])
  }

  predicate Slot(wanted: string, nodes: seq<Node>, name: Bytes) {
    exists i :: 0 <= i < |nodes| && SlotName(wanted, nodes[i]) == Some(name)
  }

  /** The names the request carries in typed slots. */
  ghost predicate Carries(r: Request, name: Bytes) {
    || Slot("function", r.tools, name)
    || (exists t :: 0 <= t < |r.turns| && Slot(TurnKind(r.protocol), r.turns[t], name))
    || Slot("function", r.choice, name)
  }

  predicate RequestOk(r: Request) {
    && NodesOk(r.protocol, "function", r.tools)
    && (forall t | 0 <= t < |r.turns| :: NodesOk(r.protocol, TurnKind(r.protocol), r.turns[t]))
    && NodesOk(r.protocol, "function", r.choice)
  }

  function RewrittenRequest(r: Request): Request {
    r.(tools := RenamedAll("function", r.tools),
       turns := seq(|r.turns|, t requires 0 <= t < |r.turns| => RenamedAll(TurnKind(r.protocol), r.turns[t])),
       choice := RenamedAll("function", r.choice))
  }

  /** The alias table holds exactly the request's names, each under its own alias. */
  ghost predicate TableFor(r: Request, aliases: Aliases) {
    && (forall a | a in aliases :: Carries(r, aliases[a]) && Alias(aliases[a]) == Some(a))
    && (forall name | Carries(r, name) :: Alias(name).Some? && Alias(name).value in aliases
                                          && aliases[Alias(name).value] == name)
  }

  // ---- the rewrite in place -------------------------------------------------------------

  ghost function SlotNames(wanted: string, nodes: seq<Node>): iset<Bytes> {
    iset name | Slot(wanted, nodes, name)
  }

  /** The table extends an earlier one by exactly the given names, each under its alias. */
  ghost predicate Table(names: iset<Bytes>, before: Aliases, aliases: Aliases) {
    && (forall a | a in before :: a in aliases && aliases[a] == before[a])
    && (forall a | a in aliases :: Alias(aliases[a]) == Some(a) && (a in before || aliases[a] in names))
    && (forall name | name in names ::
          Alias(name).Some? && Alias(name).value in aliases && aliases[Alias(name).value] == name)
  }

  /** The nodes before n have been collected. */
  ghost predicate Collected(wanted: string, nodes: seq<Node>, n: nat, before: Aliases, aliases: Aliases)
    requires n <= |nodes|
  {
    Table(SlotNames(wanted, nodes[..n]), before, aliases)
  }

  lemma CollectOne(p: Protocol, wanted: string, nodes: seq<Node>, n: nat, before: Aliases, aliases: Aliases)
    requires n < |nodes| && Collected(wanted, nodes, n, before, aliases) && NodeOk(p, wanted, nodes[n])
    ensures var name := SlotName(wanted, nodes[n]);
      Collected(wanted, nodes, n + 1, before,
                if name.None? then aliases else aliases[Alias(name.value).value := name.value])
  {
    SlotSnoc(wanted, nodes, n);
    var name := SlotName(wanted, nodes[n]);
    hide Alias, Slot, SlotName, Table;
    if name.None? {
      assert SlotNames(wanted, nodes[..n + 1]) == SlotNames(wanted, nodes[..n]);
    } else {
      CollectName(wanted, nodes, n, before, aliases, name.value, Alias(name.value).value);
    }
  }

  lemma CollectName(wanted: string, nodes: seq<Node>, n: nat, before: Aliases, aliases: Aliases, name: Bytes, a: Bytes)
    requires n < |nodes| && Collected(wanted, nodes, n, before, aliases)
    requires SlotName(wanted, nodes[n]) == Some(name) && Alias(name) == Some(a)
    ensures Collected(wanted, nodes, n + 1, before, aliases[a := name])
  {
    SlotSnoc(wanted, nodes, n);
    hide Slot, SlotName, Alias;
    var names := SlotNames(wanted, nodes[..n]);
    TableGrows(names, before, aliases, name, a);
    assert SlotNames(wanted, nodes[..n + 1]) == names + iset{name};
    hide Table;
  }

  lemma TableGrows(names: iset<Bytes>, before: Aliases, aliases: Aliases, name: Bytes, a: Bytes)
    requires Table(names, before, aliases) && Alias(name) == Some(a)
    ensures Table(names + iset{name}, before, aliases[a := name])
  {
    if a in aliases { AliasInjective(aliases[a], name); }
    hide Alias;
  }

  lemma SlotSnoc(wanted: string, nodes: seq<Node>, n: nat)
    requires n < |nodes|
    ensures forall name :: Slot(wanted, nodes[..n + 1], name) <==>
      Slot(wanted, nodes[..n], name) || SlotName(wanted, nodes[n]) == Some(name)
  {
  }

  /** The renaming loop over one list of nodes. */
  method RenameNodes(p: Protocol, wanted: string, nodes: seq<Node>, before: Aliases)
    returns (ok: bool, out: seq<Node>, aliases: Aliases)
    requires forall a | a in before :: Alias(before[a]) == Some(a)
    ensures ok <==> NodesOk(p, wanted, nodes)
    ensures ok ==> out == RenamedAll(wanted, nodes) && Collected(wanted, nodes, |nodes|, before, aliases)
  {
    out, aliases := nodes, before;
    assert nodes[..0] == [];
    hide Alias, NodeOk, Renamed, SlotName;
    for i := 0 to |nodes|
      invariant |out| == |nodes|
      invariant forall j | 0 <= j < i :: NodeOk(p, wanted, nodes[j]) && out[j] == Renamed(wanted, nodes[j])
      invariant forall j | i <= j < |nodes| :: out[j] == nodes[j]
      invariant Collected(wanted, nodes, i, before, aliases)
    {
      if !NodeOk(p, wanted, nodes[i]) {
        return false, out, aliases;
      }
      CollectOne(p, wanted, nodes, i, before, aliases);
      hide Collected;
      var name := SlotName(wanted, nodes[i]);
      if name.Some? {
        aliases := aliases[Alias(name.value).value := name.value];
      }
      out := out[i := Renamed(wanted, nodes[i])];
    }
    ok := true;
  }

  /** Everything in the table so far comes from the tools, the first n turns, or (if c) the choice. */
  ghost predicate Partial(r: Request, n: nat, c: bool, aliases: Aliases)
    requires n <= |r.turns|
  {
    && (forall a | a in aliases :: Alias(aliases[a]) == Some(a) && CarriesUpTo(r, n, c, aliases[a]))
    && (forall name | CarriesUpTo(r, n, c, name) ::
          Alias(name).Some? && Alias(name).value in aliases && aliases[Alias(name).value] == name)
  }

  ghost predicate CarriesUpTo(r: Request, n: nat, c: bool, name: Bytes)
    requires n <= |r.turns|
  {
    || Slot("function", r.tools, name)
    || (exists t :: 0 <= t < n && Slot(TurnKind(r.protocol), r.turns[t], name))
    || (c && Slot("function", r.choice, name))
  }

  lemma CollectedWhole(wanted: string, nodes: seq<Node>, before: Aliases, aliases: Aliases)
    requires Collected(wanted, nodes, |nodes|, before, aliases)
    ensures forall a | a in before :: a in aliases && aliases[a] == before[a]
    ensures forall a | a in aliases ::
      Alias(aliases[a]) == Some(a) && (Slot(wanted, nodes, aliases[a]) || (a in before && before[a] == aliases[a]))
    ensures forall name | Slot(wanted, nodes, name) ::
      Alias(name).Some? && Alias(name).value in aliases && aliases[Alias(name).value] == name
  {
  }

  /** Rewrite every typed slot and record the aliases; refused as a whole if any name is refused. */
  method RewriteRequest(r: Request) returns (ok: bool, out: Request, aliases: Aliases)
    ensures ok <==> RequestOk(r)
    ensures ok ==> out == RewrittenRequest(r) && TableFor(r, aliases)
  {
    var tools, turns;
    out := r;
    ok, tools, aliases := RenameNodes(r.protocol, "function", r.tools, map[]);
    hide Alias, RenamedAll, NodesOk, Slot;
    if !ok {
      return;
    }
    CollectedWhole("function", r.tools, map[], aliases);
    hide Collected;
    turns := r.turns;
    for t := 0 to |r.turns|
      invariant |turns| == |r.turns|
      invariant forall j | 0 <= j < t ::
        NodesOk(r.protocol, TurnKind(r.protocol), r.turns[j])
          && turns[j] == RenamedAll(TurnKind(r.protocol), r.turns[j])
      invariant Partial(r, t, false, aliases)
    {
      var turnOk, nodes, more := RenameNodes(r.protocol, TurnKind(r.protocol), r.turns[t], aliases);
      if !turnOk {
        return false, r, aliases;
      }
      CollectedWhole(TurnKind(r.protocol), r.turns[t], aliases, more);
      PartialTurn(r, t, aliases, more);
      turns := turns[t := nodes];
      aliases := more;
    }
    var choiceOk, last, more := RenameNodes(r.protocol, "function", r.choice, aliases);
    if !choiceOk {
      return false, r, aliases;
    }
    CollectedWhole("function", r.choice, aliases, more);
    PartialChoice(r, aliases, more);
    out := r.(tools := tools, turns := turns, choice := last);
    aliases := more;
  }

  lemma PartialTurn(r: Request, n: nat, before: Aliases, aliases: Aliases)
    requires n < |r.turns| && Partial(r, n, false, before)
    requires forall a | a in before :: a in aliases && aliases[a] == before[a]
    requires forall a | a in aliases ::
      Alias(aliases[a]) == Some(a)
      && (Slot(TurnKind(r.protocol), r.turns[n], aliases[a]) || (a in before && before[a] == aliases[a]))
    requires forall name | Slot(TurnKind(r.protocol), r.turns[n], name) ::
      Alias(name).Some? && Alias(name).value in aliases && aliases[Alias(name).value] == name
    ensures Partial(r, n + 1, false, aliases)
  {
  }

  lemma PartialChoice(r: Request, before: Aliases, aliases: Aliases)
    requires Partial(r, |r.turns|, false, before)
    requires forall a | a in before :: a in aliases && aliases[a] == before[a]
    requires forall a | a in aliases ::
      Alias(aliases[a]) == Some(a) && (Slot("function", r.choice, aliases[a])
        || (a in before && before[a] == aliases[a]))
    requires forall name | Slot("function", r.choice, name) ::
      Alias(name).Some? && Alias(name).value in aliases && aliases[Alias(name).value] == name
    ensures TableFor(r, aliases)
  {
  }
}
