/** The server's `@tools` Hash, from tool name to tool. A Ruby Hash keeps its
    keys in insertion order and assigning to a present key replaces the value
    where it stands, so the registry is a sequence of tools whose names are
    its keys. */
module Registry {
  import opened Wrappers
  import opened Tool

  type Registry = seq<Tool>

  const Empty: Registry := []

  /** The listing order of the keys. */
  function Names(reg: Registry): (ns: seq<string>)
    ensures |ns| == |reg|
    ensures forall i :: 0 <= i < |reg| ==> ns[i] == reg[i].name
  {
    seq(|reg|, i requires 0 <= i < |reg| => reg[i].name)
  }

  /** No key is listed twice, as in any Hash. */
  predicate UniqueNames(reg: Registry) {
    forall i, j :: 0 <= i < j < |reg| ==> reg[i].name != reg[j].name
  }

  /** The position of the first entry called `name`. */
  function Find(reg: Registry, name: string): (r: Option<nat>)
    ensures r.Some? ==> r.value < |reg| && reg[r.value].name == name
    ensures r.Some? ==> forall j :: 0 <= j < r.value ==> reg[j].name != name
    ensures r.None? <==> name !in Names(reg)
    decreases |reg|
  {
    if |reg| == 0 then None
    else if reg[0].name == name then Some(0)
    else match Find(reg[1..], name)
      case None => None
      case Some(i) => Some(i + 1)
  }

  /** `@tools[name]`, with `@tools.key?(name)` as `Some?`. */
  function Lookup(reg: Registry, name: string): (r: Option<Tool>)
    ensures r.Some? <==> name in Names(reg)
    ensures r.Some? ==> r.value.name == name
    ensures r.Some? ==> r.value == reg[Find(reg, name).value]
  {
    match Find(reg, name)
    case None => None
    case Some(i) => Some(reg[i])
  }

  /** `@tools[tool.name] = tool` (lib/mcp/server.rb:16-17): the name now maps
      to `t`, every other name keeps its tool, a new name is listed last and
      a present name keeps its listing position. */
  function Register(reg: Registry, t: Tool): (r: Registry)
    ensures Lookup(r, t.name) == Some(t)
    ensures forall n :: n != t.name ==> Lookup(r, n) == Lookup(reg, n)
    ensures t.name in Names(reg) ==> Names(r) == Names(reg)
    ensures t.name !in Names(reg) ==> Names(r) == Names(reg) + [t.name]
    ensures t.name in Names(reg) ==> Find(r, t.name) == Find(reg, t.name)
    ensures UniqueNames(reg) ==> UniqueNames(r)
    ensures forall i :: 0 <= i < |reg| && reg[i].name != t.name ==> r[i] == reg[i]
    ensures t.name in Names(reg) ==> r[Find(reg, t.name).value] == t
    ensures t.name !in Names(reg) ==> r[|reg|] == t
  {
    match Find(reg, t.name)
    case None =>
      var r := reg + [t];
      assert Names(r) == Names(reg) + [t.name];
      forall n | true
        ensures Find(r, n) == FindAppended(reg, t, n)
      {
        FindAfterAppend(reg, t, n);
      }
      r
    case Some(i) =>
      var r := reg[i := t];
      assert Names(r) == Names(reg);
      FindSeesOnlyNames(reg, r, t.name);
      r
  }

  /** Where `name` sits in `reg + [t]`, stated over `reg`. */
  function FindAppended(reg: Registry, t: Tool, name: string): Option<nat> {
    if name in Names(reg) then Find(reg, name)
    else if name == t.name then Some(|reg|)
    else None
  }

  lemma {:induction false} FindAfterAppend(reg: Registry, t: Tool, name: string)
    ensures Find(reg + [t], name) == FindAppended(reg, t, name)
    decreases |reg|
  {
    if |reg| > 0 && reg[0].name != name {
      assert (reg + [t])[1..] == reg[1..] + [t];
      FindAfterAppend(reg[1..], t, name);
    }
  }

  /** Where a name is found depends on the listed names alone. */
  lemma {:induction false} FindSeesOnlyNames(a: Registry, b: Registry, name: string)
    requires Names(a) == Names(b)
    ensures Find(a, name) == Find(b, name)
    decreases |a|
  {
    if |a| > 0 && a[0].name != name {
      assert Names(a[1..]) == Names(a)[1..];
      assert Names(b[1..]) == Names(b)[1..];
      FindSeesOnlyNames(a[1..], b[1..], name);
    }
  }
}
