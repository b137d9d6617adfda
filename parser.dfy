/**
 * The grouping parser of one route file (`make_parser`): the file is the
 * sequence of its elements in end-event order; every vehicle is held back
 * until the next person, which is emitted together with them.
 */
module Parser {
  import opened Records

  /** The groups produced from `es` when `stored` vehicles are already held. */
  function ParseFrom(es: seq<Element>, stored: seq<Element>): seq<Group>
    decreases |es|
  {
    if es == [] then []
    else if IsVehicle(es[0]) then ParseFrom(es[1..], stored + [es[0]])
    else if IsPerson(es[0]) then [Group(es[0].depart, es[0], stored)] + ParseFrom(es[1..], [])
    else ParseFrom(es[1..], stored)
  }

  /** The groups a parser over `es` yields, in order. */
  function Parse(es: seq<Element>): seq<Group> {
    ParseFrom(es, [])
  }

  /** The elements the parser looks at: vehicles and persons, in order. */
  function Relevant(es: seq<Element>): seq<Element> {
    if es == [] then []
    else (if IsVehicle(es[0]) || IsPerson(es[0]) then [es[0]] else []) + Relevant(es[1..])
  }

  /** The persons of `es`, in order. */
  function Persons(es: seq<Element>): seq<Element> {
    if es == [] then []
    else (if IsPerson(es[0]) then [es[0]] else []) + Persons(es[1..])
  }

  /** The persons of a sequence of groups. */
  function PersonsOf(gs: seq<Group>): seq<Element> {
    if gs == [] then [] else [gs[0].person] + PersonsOf(gs[1..])
  }

  predicate HasPerson(es: seq<Element>) {
    es != [] && (IsPerson(es[0]) || HasPerson(es[1..]))
  }

  /** The vehicles after the last person of `es`: held at end of input and
      never emitted. */
  function Pending(es: seq<Element>): seq<Element> {
    if es == [] then []
    else if IsVehicle(es[0]) && !HasPerson(es[1..]) then [es[0]] + Pending(es[1..])
    else Pending(es[1..])
  }

  /** The loop of `make_parser`: `stored` is the list of held vehicles, which
      is handed over to the group and replaced by a fresh list at each person. */
  method MakeParser(events: seq<Element>) returns (groups: seq<Group>)
    ensures groups == Parse(events)
    ensures WellFormed(groups)
    ensures PersonsOf(groups) == Persons(events)
    ensures Flatten(groups) + Pending(events) == Relevant(events)
  {
    var stored: seq<Element> := [];
    groups := [];
    var i := 0;
    while i < |events|
      invariant 0 <= i <= |events|
      invariant groups + ParseFrom(events[i..], stored) == Parse(events)
    {
      var elem := events[i];
      assert events[i..][1..] == events[i + 1..];
      if elem.tag == VehicleTag {
        stored := stored + [elem];
      } else if elem.tag == PersonTag {
        var vehicles := stored;
        stored := [];
        groups := groups + [Group(elem.depart, elem, vehicles)];
      }
      i := i + 1;
    }
    ParseWellFormed(events, []);
    ParsePersons(events, []);
    ParseRoundTrip(events);
  }

  // ---------------------------------------------------------------------
  // Shape and count of the groups

  /** Every group holds one person, its depart, and vehicles only. */
  lemma {:induction false} ParseWellFormed(es: seq<Element>, stored: seq<Element>)
    requires AllVehicles(stored)
    ensures WellFormed(ParseFrom(es, stored))
    decreases |es|
  {
    if es != [] {
      if IsVehicle(es[0]) {
        ParseWellFormed(es[1..], stored + [es[0]]);
      } else if IsPerson(es[0]) {
        ParseWellFormed(es[1..], []);
      } else {
        ParseWellFormed(es[1..], stored);
      }
    }
  }

  /** Exactly one group per person, in input order. */
  lemma {:induction false} ParsePersons(es: seq<Element>, stored: seq<Element>)
    ensures PersonsOf(ParseFrom(es, stored)) == Persons(es)
    ensures |ParseFrom(es, stored)| == |Persons(es)|
    decreases |es|
  {
    if es != [] {
      if IsVehicle(es[0]) {
        ParsePersons(es[1..], stored + [es[0]]);
      } else if IsPerson(es[0]) {
        var rest := ParseFrom(es[1..], []);
        ParsePersons(es[1..], []);
        assert ([Group(es[0].depart, es[0], stored)] + rest)[1..] == rest;
      } else {
        ParsePersons(es[1..], stored);
      }
    }
  }

  lemma {:induction false} PersonsOfAt(gs: seq<Group>, k: nat)
    requires k < |gs|
    ensures |PersonsOf(gs)| == |gs| && PersonsOf(gs)[k] == gs[k].person
  {
    if k > 0 {
      PersonsOfAt(gs[1..], k - 1);
    } else if |gs| > 1 {
      PersonsOfAt(gs[1..], 0);
    }
  }

  /** The persons of `es` appear in non-decreasing depart order. */
  predicate PersonsInDepartOrder(es: seq<Element>) {
    forall a, b :: 0 <= a < b < |Persons(es)| ==> Persons(es)[a].depart <= Persons(es)[b].depart
  }

  /** The groups of a file are in depart order exactly when its persons are. */
  lemma ParseSortedIff(es: seq<Element>)
    ensures SortedByDepart(Parse(es)) <==> PersonsInDepartOrder(es)
  {
    var gs := Parse(es);
    ParseWellFormed(es, []);
    ParsePersons(es, []);
    forall k | 0 <= k < |gs| ensures Key(gs[k]) == Persons(es)[k].depart {
      PersonsOfAt(gs, k);
      assert WellFormedGroup(gs[k]);
    }
  }

  // ---------------------------------------------------------------------
  // Round trips

  lemma {:induction false} ParseFromRoundTrip(es: seq<Element>, stored: seq<Element>)
    ensures Flatten(ParseFrom(es, stored))
              + (if HasPerson(es) then Pending(es) else stored + Pending(es))
            == stored + Relevant(es)
    decreases |es|
  {
    if es != [] {
      var e, rest := es[0], es[1..];
      if IsVehicle(e) {
        ParseFromRoundTrip(rest, stored + [e]);
        assert Relevant(es) == [e] + Relevant(rest);
        assert HasPerson(es) == HasPerson(rest);
        assert Pending(es) == if HasPerson(rest) then Pending(rest) else [e] + Pending(rest);
        assert stored + [e] + Relevant(rest) == stored + Relevant(es);
      } else if IsPerson(e) {
        var gs := ParseFrom(rest, []);
        ParseFromRoundTrip(rest, []);
        assert ([Group(e.depart, e, stored)] + gs)[1..] == gs;
        assert Flatten(ParseFrom(es, stored)) == stored + [e] + Flatten(gs);
        assert [] + Pending(rest) == Pending(rest) && [] + Relevant(rest) == Relevant(rest);
        assert Flatten(gs) + Pending(rest) == Relevant(rest);
        assert HasPerson(es) && Pending(es) == Pending(rest);
        assert Relevant(es) == [e] + Relevant(rest);
        assert stored + [e] + Flatten(gs) + Pending(rest) == stored + ([e] + Relevant(rest));
      } else {
        ParseFromRoundTrip(rest, stored);
        assert Relevant(es) == Relevant(rest);
      }
    }
  }

  /** Concatenating every group's vehicles and person, then the vehicles held
      at end of input, gives back the vehicles and persons of the input. The
      held vehicles are vehicles. */
  lemma ParseRoundTrip(es: seq<Element>)
    ensures Flatten(Parse(es)) + Pending(es) == Relevant(es)
    ensures AllVehicles(Pending(es))
  {
    ParseFromRoundTrip(es, []);
    assert [] + Pending(es) == Pending(es) && [] + Relevant(es) == Relevant(es);
    PendingAreVehicles(es);
  }

  lemma {:induction false} PendingAreVehicles(es: seq<Element>)
    ensures AllVehicles(Pending(es))
  {
    if es != [] {
      PendingAreVehicles(es[1..]);
    }
  }

  lemma {:induction false} PendingEndsAtPerson(es: seq<Element>, p: Element)
    requires IsPerson(p)
    ensures Pending(es + [p]) == []
  {
    if es == [] {
      assert ([p])[1..] == [];
    } else {
      assert (es + [p])[1..] == es[1..] + [p];
      HasPersonAppend(es[1..], p);
      PendingEndsAtPerson(es[1..], p);
    }
  }

  lemma {:induction false} HasPersonAppend(es: seq<Element>, p: Element)
    requires IsPerson(p)
    ensures HasPerson(es + [p])
  {
    if es != [] {
      assert (es + [p])[1..] == es[1..] + [p];
      HasPersonAppend(es[1..], p);
    }
  }

  /** A file that ends with a person loses nothing: its groups flatten back
      to exactly its vehicles and persons. */
  lemma ParseCompleteRoundTrip(es: seq<Element>, p: Element)
    requires IsPerson(p)
    ensures Flatten(Parse(es + [p])) == Relevant(es + [p])
  {
    ParseRoundTrip(es + [p]);
    PendingEndsAtPerson(es, p);
  }

  lemma {:induction false} NoPersonNoGroups(es: seq<Element>, stored: seq<Element>)
    requires !HasPerson(es)
    ensures ParseFrom(es, stored) == []
    decreases |es|
  {
    if es != [] {
      if IsVehicle(es[0]) {
        NoPersonNoGroups(es[1..], stored + [es[0]]);
      } else {
        NoPersonNoGroups(es[1..], stored);
      }
    }
  }

  /** Elements after the last person never reach any group. */
  lemma {:induction false} ParseDropsTrailing(pre: seq<Element>, post: seq<Element>, stored: seq<Element>)
    requires !HasPerson(post)
    ensures ParseFrom(pre + post, stored) == ParseFrom(pre, stored)
    decreases |pre|
  {
    if pre == [] {
      assert pre + post == post;
      NoPersonNoGroups(post, stored);
    } else {
      assert (pre + post)[1..] == pre[1..] + post;
      if IsVehicle(pre[0]) {
        ParseDropsTrailing(pre[1..], post, stored + [pre[0]]);
      } else if IsPerson(pre[0]) {
        ParseDropsTrailing(pre[1..], post, []);
      } else {
        ParseDropsTrailing(pre[1..], post, stored);
      }
    }
  }

  /** Tags other than vehicle and person make no difference to the groups. */
  lemma {:induction false} ParseIgnoresOtherTags(es: seq<Element>, stored: seq<Element>)
    ensures ParseFrom(Relevant(es), stored) == ParseFrom(es, stored)
    decreases |es|
  {
    if es != [] {
      var e, rest := es[0], es[1..];
      if IsVehicle(e) || IsPerson(e) {
        assert Relevant(es) == [e] + Relevant(rest);
        assert Relevant(es)[1..] == Relevant(rest);
        if IsVehicle(e) {
          ParseIgnoresOtherTags(rest, stored + [e]);
        } else {
          ParseIgnoresOtherTags(rest, []);
        }
      } else {
        assert Relevant(es) == Relevant(rest);
        ParseIgnoresOtherTags(rest, stored);
      }
    }
  }

  lemma {:induction false} ParseOnlyVehicles(t: seq<Element>, stored: seq<Element>)
    requires AllVehicles(t)
    ensures ParseFrom(t, stored) == []
    decreases |t|
  {
    if t != [] {
      ParseOnlyVehicles(t[1..], stored + [t[0]]);
    }
  }

  lemma {:induction false} ParseVehiclesThenPerson(v: seq<Element>, p: Element, rest: seq<Element>, stored: seq<Element>)
    requires AllVehicles(v) && IsPerson(p)
    ensures ParseFrom(v + [p] + rest, stored) == [Group(p.depart, p, stored + v)] + ParseFrom(rest, [])
    decreases |v|
  {
    if v == [] {
      assert v + [p] + rest == [p] + rest;
      assert ([p] + rest)[1..] == rest;
      assert stored + v == stored;
    } else {
      assert (v + [p] + rest)[1..] == v[1..] + [p] + rest;
      ParseVehiclesThenPerson(v[1..], p, rest, stored + [v[0]]);
      assert stored + [v[0]] + v[1..] == stored + v;
    }
  }

  /** Parsing the flattening of well-formed groups, with any trailing
      vehicles, gives back exactly those groups. */
  lemma {:induction false} ParseFlattenInverse(gs: seq<Group>, t: seq<Element>)
    requires WellFormed(gs) && AllVehicles(t)
    ensures Parse(Flatten(gs) + t) == gs
  {
    if gs == [] {
      assert Flatten(gs) + t == t;
      ParseOnlyVehicles(t, []);
    } else {
      var g := gs[0];
      assert WellFormedGroup(g);
      assert Flatten(gs) + t == g.vehicles + [g.person] + (Flatten(gs[1..]) + t);
      ParseVehiclesThenPerson(g.vehicles, g.person, Flatten(gs[1..]) + t, []);
      assert [] + g.vehicles == g.vehicles;
      ParseFlattenInverse(gs[1..], t);
      assert gs == [g] + gs[1..];
    }
  }

  /** The grouping is the only way to cut the vehicles and persons of a file
      into well-formed groups followed by vehicles: whatever does so is the
      parser's output, with the held vehicles left over. */
  lemma GroupingUnique(es: seq<Element>, gs: seq<Group>, t: seq<Element>)
    requires WellFormed(gs) && AllVehicles(t)
    requires Flatten(gs) + t == Relevant(es)
    ensures gs == Parse(es)
    ensures t == Pending(es)
  {
    ParseFlattenInverse(gs, t);
    ParseIgnoresOtherTags(es, []);
    ParseRoundTrip(es);
    assert t == Relevant(es)[|Flatten(gs)|..];
  }
}
