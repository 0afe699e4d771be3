/** The complexity limits on agent results: a visitor that counts nodes and gives up early. */
module JsonLimits {
  import opened Json

  const MAX_NODES := 5_000
  const MAX_DEPTH := 20
  const MAX_MEMBERS := 100
  const MAX_ITEMS := 1_000

  function Nodes(v: Value): nat {
    match v
    case Scalar(_) => 1
    case Str(_) => 1
    case Array(items) => 1 + NodesOfItems(items)
    case Object(members) => 1 + NodesOfMembers(members)
  }

  function NodesOfItems(items: Items): nat {
    if items.NoItems? then 0 else Nodes(items.head) + NodesOfItems(items.tail)
  }

  function NodesOfMembers(members: Members): nat {
    if members.NoMembers? then 0 else Nodes(members.value) + NodesOfMembers(members.rest)
  }

  function CountItems(items: Items): nat {
    if items.NoItems? then 0 else 1 + CountItems(items.tail)
  }

  function CountMembers(members: Members): nat {
    if members.NoMembers? then 0 else 1 + CountMembers(members.rest)
  }

  predicate Finite(token: string) {
    token !in {"NaN", "Infinity", "-Infinity"}
  }

  /** Every node is shallow enough, no wider than allowed, and finite. */
  predicate Within(v: Value, depth: nat) {
    depth <= MAX_DEPTH &&
    match v
    case Scalar(token) => Finite(token)
    case Str(_) => true
    case Array(items) => CountItems(items) <= MAX_ITEMS && ItemsWithin(items, depth + 1)
    case Object(members) => CountMembers(members) <= MAX_MEMBERS && MembersWithin(members, depth + 1)
  }

  predicate ItemsWithin(items: Items, depth: nat) {
    items.Item? ==> Within(items.head, depth) && ItemsWithin(items.tail, depth)
  }

  predicate MembersWithin(members: Members, depth: nat) {
    members.Member? ==> Within(members.value, depth) && MembersWithin(members.rest, depth)
  }

  class Visitor {
    var nodes: nat

    constructor ()
      ensures nodes == 0
    {
      nodes := 0;
    }

    /** False when it raises: exactly when the nodes so far are too many or a node is out of bounds. */
    method Visit(item: Value, depth: nat) returns (ok: bool)
      modifies this
      ensures ok <==> old(nodes) + Nodes(item) <= MAX_NODES && Within(item, depth)
      ensures ok ==> nodes == old(nodes) + Nodes(item)
      decreases Nodes(item)
    {
      nodes := nodes + 1;
      if nodes > MAX_NODES || depth > MAX_DEPTH {
        return false;
      }
      match item {
        case Object(members) =>
          if CountMembers(members) > MAX_MEMBERS {
            return false;
          }
          ok := VisitMembers(members, depth + 1, Nodes(item));
        case Array(items) =>
          if CountItems(items) > MAX_ITEMS {
            return false;
          }
          ok := VisitItems(items, depth + 1, Nodes(item));
        case Scalar(token) =>
          ok := Finite(token);
        case Str(_) =>
          ok := true;
      }
    }

    method VisitItems(items: Items, depth: nat, ghost bound: nat) returns (ok: bool)
      requires NodesOfItems(items) < bound && nodes <= MAX_NODES
      modifies this
      ensures ok <==> old(nodes) + NodesOfItems(items) <= MAX_NODES && ItemsWithin(items, depth)
      ensures ok ==> nodes == old(nodes) + NodesOfItems(items)
      decreases bound, 0
    {
      var rest := items;
      while rest.Item?
        invariant old(nodes) <= nodes <= MAX_NODES && nodes + NodesOfItems(rest) == old(nodes) + NodesOfItems(items)
        invariant ItemsWithin(rest, depth) <==> ItemsWithin(items, depth)
        decreases rest
      {
        var child := Visit(rest.head, depth);
        if !child {
          return false;
        }
        rest := rest.tail;
      }
      ok := true;
    }

    method VisitMembers(members: Members, depth: nat, ghost bound: nat) returns (ok: bool)
      requires NodesOfMembers(members) < bound && nodes <= MAX_NODES
      modifies this
      ensures ok <==> old(nodes) + NodesOfMembers(members) <= MAX_NODES && MembersWithin(members, depth)
      ensures ok ==> nodes == old(nodes) + NodesOfMembers(members)
      decreases bound, 0
    {
      var rest := members;
      while rest.Member?
        invariant old(nodes) <= nodes <= MAX_NODES
        invariant nodes + NodesOfMembers(rest) == old(nodes) + NodesOfMembers(members)
        invariant MembersWithin(rest, depth) <==> MembersWithin(members, depth)
        decreases rest
      {
        var child := Visit(rest.value, depth);
        if !child {
          return false;
        }
        rest := rest.rest;
      }
      ok := true;
    }
  }

  /** `_validate_json_complexity`: accepted exactly within the five limits, wherever the visitor stops. */
  method ValidateJsonComplexity(v: Value) returns (ok: bool)
    ensures ok <==> Nodes(v) <= 5_000 && Within(v, 0)
  {
    var visitor := new Visitor();
    ok := visitor.Visit(v, 0);
  }

  // ---- what the limits say of every node ----

  /** Every node of a value, with its depth. */
  function Parts(v: Value, depth: nat): set<(Value, nat)> {
    {(v, depth)} +
    match v
    case Scalar(_) => {}
    case Str(_) => {}
    case Array(items) => PartsOfItems(items, depth + 1)
    case Object(members) => PartsOfMembers(members, depth + 1)
  }

  function PartsOfItems(items: Items, depth: nat): set<(Value, nat)> {
    if items.NoItems? then {} else Parts(items.head, depth) + PartsOfItems(items.tail, depth)
  }

  function PartsOfMembers(members: Members, depth: nat): set<(Value, nat)> {
    if members.NoMembers? then {} else Parts(members.value, depth) + PartsOfMembers(members.rest, depth)
  }

  /** What the limits allow of one node at one depth. */
  predicate Allowed(v: Value, depth: nat) {
    && depth <= 20
    && (v.Array? ==> CountItems(v.items) <= 1000) && (v.Object? ==> CountMembers(v.members) <= 100)
    && (v.Scalar? ==> v.token != "NaN" && v.token != "Infinity" && v.token != "-Infinity")
  }

  predicate AllAllowed(parts: set<(Value, nat)>) {
    forall p :: p in parts ==> Allowed(p.0, p.1)
  }

  /** A value is within the limits exactly if each of its nodes is allowed where it is. */
  lemma {:induction false} WithinExactly(v: Value, depth: nat)
    ensures Within(v, depth) <==> AllAllowed(Parts(v, depth))
  {
    hide Allowed;
    AllowedHere(v, depth);
    match v
    case Scalar(_) =>
    case Str(_) =>
    case Array(items) => ItemsExactly(items, depth + 1);
    case Object(members) => MembersExactly(members, depth + 1);
  }

  lemma AllowedHere(v: Value, depth: nat)
    ensures Allowed(v, depth) <==>
      && depth <= MAX_DEPTH && (v.Scalar? ==> Finite(v.token))
      && (v.Array? ==> CountItems(v.items) <= MAX_ITEMS) && (v.Object? ==> CountMembers(v.members) <= MAX_MEMBERS)
  {
  }

  lemma {:induction false} ItemsExactly(items: Items, depth: nat)
    ensures ItemsWithin(items, depth) <==> AllAllowed(PartsOfItems(items, depth))
  {
    hide Allowed;
    if items.Item? {
      WithinExactly(items.head, depth);
      ItemsExactly(items.tail, depth);
    }
  }

  lemma {:induction false} MembersExactly(members: Members, depth: nat)
    ensures MembersWithin(members, depth) <==> AllAllowed(PartsOfMembers(members, depth))
  {
    hide Allowed;
    if members.Member? {
      WithinExactly(members.value, depth);
      MembersExactly(members.rest, depth);
    }
  }
}
