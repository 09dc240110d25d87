/** The ad hoc gateway: which nodes of the cluster provide which services. */
module Gateway {

  datatype Meta = Meta(endpoints: seq<string>, version: nat, protocol: nat)

  /** Service name to node id to description. */
  type Remotes = map<string, map<string, Meta>>

  datatype Answer = Done | DuplicateService | MissingService

  function Providers(remotes: Remotes, name: string): map<string, Meta>
  {
    if name in remotes then remotes[name] else map[]
  }

  /** What one node is known to provide. */
  function View(remotes: Remotes, node: string): (v: map<string, Meta>)
    ensures forall name :: name in v <==> node in Providers(remotes, name)
    ensures forall name | name in v :: v[name] == Providers(remotes, name)[node]
  {
    map name | name in remotes && node in remotes[name] :: remotes[name][node]
  }

  lemma ViewsEqual(a: Remotes, b: Remotes, node: string)
    requires forall name :: node in Providers(a, name) <==> node in Providers(b, name)
    requires forall name | node in Providers(a, name) :: Providers(a, name)[node] == Providers(b, name)[node]
    ensures View(a, node) == View(b, node)
  {
  }

  /** The tables agree on all nodes but one. */
  ghost predicate SameElsewhere(a: Remotes, b: Remotes, node: string)
  {
    forall other | other != node :: View(a, other) == View(b, other)
  }

  class AdhocGateway {
    var remotes: Remotes

    constructor ()
      ensures remotes == map[]
    {
      remotes := map[];
    }

    method Consume(node: string, name: string, meta: Meta) returns (a: Answer)
      modifies this
      ensures a == if name in View(old(remotes), node) then DuplicateService else Done
      ensures View(remotes, node) ==
              if a.Done? then View(old(remotes), node)[name := meta] else View(old(remotes), node)
      ensures SameElsewhere(remotes, old(remotes), node)
    {
      var inner := Providers(remotes, name);
      if node in inner {
        return DuplicateService;
      }
      remotes := remotes[name := inner[node := meta]];
      forall other | other != node ensures View(remotes, other) == View(old(remotes), other) {
        ViewsEqual(remotes, old(remotes), other);
      }
      a := Done;
    }

    /** Leaves the service in the table with no provider when nothing was there to erase. */
    method CleanupService(node: string, name: string) returns (a: Answer)
      modifies this
      ensures a == if name in View(old(remotes), node) then Done else MissingService
      ensures View(remotes, node) == View(old(remotes), node) - {name}
      ensures SameElsewhere(remotes, old(remotes), node)
    {
      var inner := Providers(remotes, name);
      remotes := remotes[name := inner - {node}];
      assert forall n :: n in View(remotes, node) <==> n in View(old(remotes), node) - {name};
      forall other | other != node ensures View(remotes, other) == View(old(remotes), other) {
        ViewsEqual(remotes, old(remotes), other);
      }
      a := if node in inner then Done else MissingService;
    }

    /** Erases the node everywhere and, on the way, every service left without a provider. */
    method CleanupNode(node: string)
      modifies this
      ensures View(remotes, node) == map[] && SameElsewhere(remotes, old(remotes), node)
      ensures forall name | name in remotes :: remotes[name] != map[]
    {
      ghost var before := remotes;
      remotes := Sweep(remotes, node);
      forall other | other != node ensures View(remotes, other) == View(before, other) {
        ViewsEqual(remotes, before, other);
      }
    }

    method TotalCount(name: string) returns (n: nat)
      ensures n == |Providers(remotes, name)|
      ensures n == 0 <==> forall node :: name !in View(remotes, node)
    {
      if name !in remotes {
        n := 0;
      } else {
        n := |remotes[name]|;
      }
      CountZero(Providers(remotes, name));
      assert forall node :: name in View(remotes, node) <==> node in Providers(remotes, name);
    }
  }

  lemma CountZero(m: map<string, Meta>)
    ensures |m| == 0 <==> forall node :: node !in m
  {
  }

  /** The table while the sweep has still `todo` to visit. */
  function Swept(remotes: Remotes, node: string, todo: set<string>): Remotes
  {
    map name | name in remotes && (name in todo || remotes[name] - {node} != map[]) ::
      if name in todo then remotes[name] else remotes[name] - {node}
  }

  method Sweep(remotes: Remotes, node: string) returns (after: Remotes)
    ensures after == Swept(remotes, node, {})
  {
    after := remotes;
    var todo := remotes.Keys;
    while todo != {}
      invariant todo <= remotes.Keys && after == Swept(remotes, node, todo)
      decreases todo
    {
      var name :| name in todo;
      var inner := after[name] - {node};
      SweptNext(remotes, node, todo, name);
      if inner == map[] {
        after := after - {name};
      } else {
        after := after[name := inner];
      }
      todo := todo - {name};
    }
  }

  lemma SweptNext(remotes: Remotes, node: string, todo: set<string>, name: string)
    requires name in todo && name in remotes
    ensures var now, next := Swept(remotes, node, todo), Swept(remotes, node, todo - {name});
            name in now && now[name] == remotes[name]
            && next == if remotes[name] - {node} == map[] then now - {name} else now[name := remotes[name] - {node}]
  {
  }
}
