/**
 * The records a route file is made of, and the trip groups formed from them.
 *
 * An element is what the XML reader reports at an element's end event: its
 * tag, its depart attribute (read only for persons) and its serialised form,
 * which the merge copies to the output unchanged.
 */
module Records {

  const VehicleTag: string := "vehicle"
  const PersonTag: string := "person"

  /** One element of a route file; `markup` is its opaque serialisation. */
  datatype Element = Element(tag: string, depart: int, markup: string)

  predicate IsVehicle(e: Element) { e.tag == VehicleTag }

  predicate IsPerson(e: Element) { e.tag == PersonTag }

  predicate AllVehicles(es: seq<Element>) {
    forall k :: 0 <= k < |es| ==> IsVehicle(es[k])
  }

  /** A trip group: the person's depart time, the person, and the vehicles
      that preceded it in its source. */
  datatype Group = Group(depart: int, person: Element, vehicles: seq<Element>)

  /** The sort key of the merge. */
  function Key(g: Group): int { g.depart }

  predicate SortedByDepart(s: seq<Group>) {
    forall a, b :: 0 <= a < b < |s| ==> Key(s[a]) <= Key(s[b])
  }

  /** A group as the parser builds it: a person tagged `person` whose depart
      is the group's key, preceded by vehicles only. */
  predicate WellFormedGroup(g: Group) {
    IsPerson(g.person) && g.depart == g.person.depart && AllVehicles(g.vehicles)
  }

  predicate WellFormed(gs: seq<Group>) {
    forall k :: 0 <= k < |gs| ==> WellFormedGroup(gs[k])
  }

  /** The records of a sequence of groups in output order: each group's
      vehicles, then its person. */
  function Flatten(gs: seq<Group>): seq<Element> {
    if gs == [] then [] else gs[0].vehicles + [gs[0].person] + Flatten(gs[1..])
  }

  lemma {:induction false} FlattenAppend(a: seq<Group>, b: seq<Group>)
    ensures Flatten(a + b) == Flatten(a) + Flatten(b)
  {
    if a == [] {
      assert a + b == b;
    } else {
      assert (a + b)[1..] == a[1..] + b;
      FlattenAppend(a[1..], b);
    }
  }
}
