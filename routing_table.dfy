/**
 * The routing table: static and learned entries "to reach `to`, go through
 * `next`", and the two searches over them. resolveEid follows next hops from a
 * destination until it meets convergence-layer (cla) eids; reverseCla follows the
 * entries backwards from a cla eid to every eid it reaches. Both avoid the eids
 * already on the current chain, and both collect their answers without
 * duplicates, so the model gives each answer as a set.
 */
module RoutingTables {
  import opened Wrappers
  import opened Eids

  datatype TableEntry = TableEntry(to: Uri, next: Uri)

  /** ComponentIsDownException. */
  datatype TableError = ComponentIsDown

  // ----- search over a finite graph -----

  type Edge = (Uri, Uri)

  function Successors(edges: set<Edge>, v: Uri): (r: set<Uri>)
    ensures forall c :: c in r <==> (v, c) in edges
  {
    set e | e in edges && e.0 == v :: e.1
  }

  /** The candidates of a step: the eid itself, then where its edges lead. */
  function Candidates(edges: set<Edge>, v: Uri): (r: set<Uri>)
    ensures forall c :: c in r <==> c == v || (v, c) in edges
  {
    {v} + Successors(edges, v)
  }

  function Targets(edges: set<Edge>): set<Uri>
  {
    set e | e in edges :: e.1
  }

  /** The eids a step searches from next: expanded successors not on the chain. */
  function Next(edges: set<Edge>, expand: Uri -> bool, v: Uri, path: set<Uri>): (r: set<Uri>)
    ensures forall c :: c in r <==> (v, c) in edges && expand(c) && c !in path
    ensures r <= Targets(edges)
  {
    set c | c in Successors(edges, v) && expand(c) && c !in path
  }

  function Flatten(ss: set<set<Uri>>): (r: set<Uri>)
    ensures forall x :: x in r <==> exists s :: s in ss && x in s
  {
    set s, x | s in ss && x in s :: x
  }

  /**
   * The candidates of `v` that `emit` accepts, and the results of searching from
   * every candidate that `expand` accepts and that is not on the chain `path` yet
   * (`v` itself always is).
   */
  function Search(edges: set<Edge>, emit: Uri -> bool, expand: Uri -> bool, v: Uri, path: set<Uri>): set<Uri>
    requires v in path
    decreases Targets(edges) - path
  {
    (set c | c in Candidates(edges, v) && emit(c)) +
    Flatten(set c | c in Next(edges, expand, v, path) :: Search(edges, emit, expand, c, path + {c}))
  }

  /**
   * A chain from ch[0] along the edges: each eid strictly between the ends is
   * expanded, off `path` and met once.
   */
  predicate Chain(edges: set<Edge>, expand: Uri -> bool, path: set<Uri>, ch: seq<Uri>)
  {
    && |ch| >= 1
    && (forall i :: 0 <= i < |ch| - 1 ==> (ch[i], ch[i + 1]) in edges)
    && (forall i :: 0 < i < |ch| - 1 ==> expand(ch[i]) && ch[i] !in path)
    && (forall i, j :: 0 < i < j < |ch| - 1 ==> ch[i] != ch[j])
  }

  /** A step onto an expanded eid off the chain, followed by a chain from it. */
  lemma ChainCons(edges: set<Edge>, expand: Uri -> bool, path: set<Uri>, v: Uri, ch': seq<Uri>)
    requires |ch'| >= 1 && (v, ch'[0]) in edges && expand(ch'[0]) && ch'[0] !in path
    requires Chain(edges, expand, path + {ch'[0]}, ch')
    ensures Chain(edges, expand, path, [v] + ch')
  {
    var ch := [v] + ch';
    forall i | 0 < i < |ch| - 1
      ensures expand(ch[i]) && ch[i] !in path
    {
      assert ch[i] == ch'[i - 1];
    }
    forall i, j | 0 < i < j < |ch| - 1
      ensures ch[i] != ch[j]
    {
      assert ch[j] == ch'[j - 1] && ch[i] == ch'[i - 1];
    }
    forall i | 0 <= i < |ch| - 1
      ensures (ch[i], ch[i + 1]) in edges
    {
      if i > 0 {
        assert ch[i] == ch'[i - 1] && ch[i + 1] == ch'[i];
      }
    }
  }

  /** A result that is not an emitted candidate comes from the search of some next eid. */
  lemma SearchStep(edges: set<Edge>, emit: Uri -> bool, expand: Uri -> bool, v: Uri, path: set<Uri>, x: Uri)
      returns (c: Uri)
    requires v in path && x in Search(edges, emit, expand, v, path)
    requires !(x in Candidates(edges, v) && emit(x))
    ensures c in Next(edges, expand, v, path) && x in Search(edges, emit, expand, c, path + {c})
  {
    var ss := set c | c in Next(edges, expand, v, path) :: Search(edges, emit, expand, c, path + {c});
    var s :| s in ss && x in s;
    c :| c in Next(edges, expand, v, path) && s == Search(edges, emit, expand, c, path + {c});
  }

  /** Every result is emitted and ends a chain from `v`, which is returned. */
  lemma {:induction false} SearchSound(edges: set<Edge>, emit: Uri -> bool, expand: Uri -> bool, v: Uri, path: set<Uri>, x: Uri)
      returns (ch: seq<Uri>)
    requires v in path && x in Search(edges, emit, expand, v, path)
    ensures emit(x)
    ensures Chain(edges, expand, path, ch) && ch[0] == v && ch[|ch| - 1] == x
    decreases Targets(edges) - path
  {
    if x in Candidates(edges, v) && emit(x) {
      ch := if x == v then [v] else [v, x];
    } else {
      var c := SearchStep(edges, emit, expand, v, path, x);
      var ch' := SearchSound(edges, emit, expand, c, path + {c}, x);
      ChainCons(edges, expand, path, v, ch');
      ch := [v] + ch';
    }
  }

  /** The end of every chain from `v` that is emitted is a result. */
  lemma {:induction false} SearchComplete(edges: set<Edge>, emit: Uri -> bool, expand: Uri -> bool, path: set<Uri>, ch: seq<Uri>)
    requires Chain(edges, expand, path, ch) && ch[0] in path && emit(ch[|ch| - 1])
    ensures ch[|ch| - 1] in Search(edges, emit, expand, ch[0], path)
    decreases |ch|
  {
    var v, x := ch[0], ch[|ch| - 1];
    if |ch| <= 2 {
      assert x in Candidates(edges, v);
    } else {
      var c := ch[1];
      var ch' := ch[1..];
      assert c !in path;
      forall i, j | 0 < i < j < |ch'| - 1
        ensures ch'[i] != ch'[j]
      {
        assert ch'[i] == ch[i + 1] && ch'[j] == ch[j + 1];
      }
      forall i | 0 < i < |ch'| - 1
        ensures expand(ch'[i]) && ch'[i] !in path + {c}
      {
        assert ch'[i] == ch[i + 1];
      }
      assert Chain(edges, expand, path + {c}, ch');
      SearchComplete(edges, emit, expand, path + {c}, ch');
      assert c in Next(edges, expand, v, path);
    }
  }

  // ----- the table -----

  /** Entries as edges from `to` to `next`: the direction resolveEid follows. */
  function Forward(table: set<TableEntry>): set<Edge>
  {
    set e | e in table :: (e.to, e.next)
  }

  /** Entries as edges from `next` to `to`: the direction reverseCla follows. */
  function Backward(table: set<TableEntry>): set<Edge>
  {
    set e | e in table :: (e.next, e.to)
  }

  /** The search resolveEid makes over a table: cla eids are emitted, the others expanded. */
  function Resolve(table: set<TableEntry>, destination: Uri): set<Uri>
  {
    Search(Forward(table), u => IsClaEid(u), u => !IsClaEid(u), destination, {destination})
  }

  class RoutingTable {
    var enabled: bool
    var staticIsEnabled: bool
    var staticTable: set<TableEntry>
    var routingTable: set<TableEntry>

    constructor()
      ensures !enabled && !staticIsEnabled && staticTable == {} && routingTable == {}
    {
      enabled, staticIsEnabled := false, false;
      staticTable, routingTable := {}, {};
    }

    /**
     * A new value of the component's enable switch: when switched on, componentUp
     * takes the static-routing switch and replaces the static table with the
     * configured routes (their current values are the parameters); when switched
     * off, componentDown changes nothing else. The learned entries stay either way.
     */
    method SetEnabled(b: bool, staticEnabled: bool, routes: map<Uri, Uri>)
      modifies this
      ensures enabled == b && routingTable == old(routingTable)
      ensures b ==> staticIsEnabled == staticEnabled && forall e :: e in staticTable <==> e.to in routes && routes[e.to] == e.next
      ensures !b ==> staticIsEnabled == old(staticIsEnabled) && staticTable == old(staticTable)
      ensures b && staticEnabled ==> forall to :: to in routes ==> TableEntry(to, routes[to]) in DumpTable()
    {
      enabled := b;
      if b {
        staticIsEnabled := staticEnabled;
        SetStaticRoutes(routes);
      }
    }

    /** A new value of the static-routing switch. */
    method SetStaticEnabled(b: bool)
      modifies this
      ensures staticIsEnabled == b
      ensures enabled == old(enabled) && staticTable == old(staticTable) && routingTable == old(routingTable)
    {
      staticIsEnabled := b;
    }

    /** addRoute(to, nextHop): the entry is learned; a disabled table ignores it. */
    method AddRoute(to: Uri, nextHop: Uri)
      modifies this
      ensures enabled == old(enabled) && staticIsEnabled == old(staticIsEnabled) && staticTable == old(staticTable)
      ensures routingTable == if enabled then old(routingTable) + {TableEntry(to, nextHop)} else old(routingTable)
      ensures enabled ==> TableEntry(to, nextHop) in DumpTable()
    {
      if !enabled {
        return;
      }
      routingTable := routingTable + {TableEntry(to, nextHop)};
    }

    /** The static routes configured, replacing the previous ones. */
    method SetStaticRoutes(routes: map<Uri, Uri>)
      modifies this
      ensures enabled == old(enabled) && staticIsEnabled == old(staticIsEnabled) && routingTable == old(routingTable)
      ensures forall e :: e in staticTable <==> e.to in routes && routes[e.to] == e.next
    {
      staticTable := set to | to in routes :: TableEntry(to, routes[to]);
    }

    /** dumpTable: learned entries, with the static ones when static routing is on; none when disabled. */
    function DumpTable(): (r: set<TableEntry>)
      reads this
      ensures !enabled ==> r == {}
      ensures enabled ==> forall e :: e in r <==> e in routingTable || (staticIsEnabled && e in staticTable)
    {
      if !enabled then {} else routingTable + (if staticIsEnabled then staticTable else {})
    }

    /**
     * resolveEid(destination): the cla eids met by following next hops from the
     * destination, never going through a cla eid nor back to an eid already on the chain.
     */
    function ResolveEid(destination: Uri): (r: Result<set<Uri>, TableError>)
      reads this
      ensures r.Err? <==> !enabled
      ensures r.Ok? ==> forall x :: x in r.value ==> IsClaEid(x)
    {
      if !enabled then Err(ComponentIsDown)
      else
        var found := Resolve(DumpTable(), destination);
        assert forall x :: x in found ==> IsClaEid(x) by {
          forall x | x in found
            ensures IsClaEid(x)
          {
            var _ := SearchSound(Forward(DumpTable()), u => IsClaEid(u), u => !IsClaEid(u), destination, {destination}, x);
          }
        }
        Ok(found)
    }

    /** reverseCla(claEid): every eid reached by following the entries backwards from the cla eid, itself included. */
    function ReverseCla(claEid: Uri): (r: Result<set<Uri>, TableError>)
      reads this
      ensures r.Err? <==> !enabled
      ensures r.Ok? ==> claEid in r.value
    {
      if !enabled then Err(ComponentIsDown)
      else Ok(Search(Backward(DumpTable()), u => true, u => true, claEid, {claEid}))
    }
  }

  /**
   * resolveEid finds exactly the cla eids at the end of a chain of entries from
   * the destination whose eids in between are not cla eids and not the destination.
   */
  lemma ResolveEidFinds(t: RoutingTable, destination: Uri, x: Uri)
    requires t.enabled
    ensures x in t.ResolveEid(destination).value <==>
      IsClaEid(x) && exists ch :: Chain(Forward(t.DumpTable()), u => !IsClaEid(u), {destination}, ch)
                                  && ch[0] == destination && ch[|ch| - 1] == x
  {
    var edges, emit, expand := Forward(t.DumpTable()), (u: Uri) => IsClaEid(u), (u: Uri) => !IsClaEid(u);
    if x in t.ResolveEid(destination).value {
      var ch := SearchSound(edges, emit, expand, destination, {destination}, x);
    } else if IsClaEid(x) && exists ch :: Chain(edges, expand, {destination}, ch) && ch[0] == destination && ch[|ch| - 1] == x {
      var ch :| Chain(edges, expand, {destination}, ch) && ch[0] == destination && ch[|ch| - 1] == x;
      SearchComplete(edges, emit, expand, {destination}, ch);
    }
  }

  /** reverseCla finds exactly the eids at the end of a chain of entries followed backwards from the cla eid. */
  lemma ReverseClaFinds(t: RoutingTable, claEid: Uri, x: Uri)
    requires t.enabled
    ensures x in t.ReverseCla(claEid).value <==>
      exists ch :: Chain(Backward(t.DumpTable()), u => true, {claEid}, ch) && ch[0] == claEid && ch[|ch| - 1] == x
  {
    var edges, emit, expand := Backward(t.DumpTable()), (u: Uri) => true, (u: Uri) => true;
    if x in t.ReverseCla(claEid).value {
      var ch := SearchSound(edges, emit, expand, claEid, {claEid}, x);
    } else if exists ch :: Chain(edges, expand, {claEid}, ch) && ch[0] == claEid && ch[|ch| - 1] == x {
      var ch :| Chain(edges, expand, {claEid}, ch) && ch[0] == claEid && ch[|ch| - 1] == x;
      SearchComplete(edges, emit, expand, {claEid}, ch);
    }
  }

  /** A next hop of the destination that is a cla eid is always found. */
  lemma ResolveEidDirect(t: RoutingTable, destination: Uri, cla: Uri)
    requires t.enabled && TableEntry(destination, cla) in t.DumpTable() && IsClaEid(cla)
    ensures cla in t.ResolveEid(destination).value
  {
    var ch := [destination, cla];
    assert (destination, cla) in Forward(t.DumpTable());
    assert Chain(Forward(t.DumpTable()), u => !IsClaEid(u), {destination}, ch);
    ResolveEidFinds(t, destination, cla);
  }
  /** A chain that never returns to its start does not use an edge into the start. */
  lemma ChainWithoutLoopBack(edges: set<Edge>, expand: Uri -> bool, v: Uri, a: Uri, ch: seq<Uri>)
    requires Chain(edges + {(a, v)}, expand, {v}, ch) && ch[|ch| - 1] != v
    ensures Chain(edges, expand, {v}, ch)
  {
    forall i | 0 <= i < |ch| - 1
      ensures (ch[i], ch[i + 1]) in edges
    {
      assert ch[i + 1] != v;
    }
  }

  /** A chain stays a chain when an edge is added. */
  lemma ChainWithMoreEdges(edges: set<Edge>, more: set<Edge>, expand: Uri -> bool, path: set<Uri>, ch: seq<Uri>)
    requires Chain(edges, expand, path, ch) && edges <= more
    ensures Chain(more, expand, path, ch)
  {
  }

  /**
   * An edge back into the start of a search changes nothing when the start itself
   * is not emitted: no chain that ends on an emitted eid can use it.
   */
  lemma SearchLoopBack(edges: set<Edge>, emit: Uri -> bool, expand: Uri -> bool, v: Uri, a: Uri, x: Uri)
    requires !emit(v)
    ensures x in Search(edges + {(a, v)}, emit, expand, v, {v}) <==> x in Search(edges, emit, expand, v, {v})
  {
    var more := edges + {(a, v)};
    if x in Search(more, emit, expand, v, {v}) {
      var ch := SearchSound(more, emit, expand, v, {v}, x);
      ChainWithoutLoopBack(edges, expand, v, a, ch);
      SearchComplete(edges, emit, expand, {v}, ch);
    } else if x in Search(edges, emit, expand, v, {v}) {
      var ch := SearchSound(edges, emit, expand, v, {v}, x);
      ChainWithMoreEdges(edges, more, expand, {v}, ch);
      SearchComplete(more, emit, expand, {v}, ch);
    }
  }

  /**
   * A route that leads back to the destination (a routing loop) leaves what
   * resolveEid finds for that destination unchanged, unless the destination is
   * itself a cla eid.
   */
  lemma ResolveEidIgnoresLoop(table: set<TableEntry>, destination: Uri, from: Uri)
    requires !IsClaEid(destination)
    ensures Resolve(table + {TableEntry(from, destination)}, destination) == Resolve(table, destination)
  {
    assert Forward(table + {TableEntry(from, destination)}) == Forward(table) + {(from, destination)};
    forall x | true
      ensures x in Resolve(table + {TableEntry(from, destination)}, destination) <==> x in Resolve(table, destination)
    {
      SearchLoopBack(Forward(table), u => IsClaEid(u), u => !IsClaEid(u), destination, from, x);
    }
  }
}

