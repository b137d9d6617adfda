/**
 * The writer (`write_results`) and the composition of parsers, merge and
 * writer that the program's entry point performs. The output file is the
 * sequence of strings written to it, in order.
 */
module Writer {
  import opened Records
  import opened Parser
  import opened MergeEngine

  /** The fixed opening of a SUMO routes file. */
  const RoutesTop: string :=
    "<?xml version=\"1.0\" encoding=\"UTF-8\"?>\n\n"
    + "<!-- Generated with SUMO Activity-Based Mobility Generator [https://github.com/lcodeca/SUMOActivityGen] -->\n\n"
    + "<routes xmlns:xsi=\"http://www.w3.org/2001/XMLSchema-instance\" xsi:noNamespaceSchemaLocation=\"http://sumo.dlr.de/xsd/routes_file.xsd\">\n    "

  /** The fixed closing of a SUMO routes file. */
  const RoutesBottom: string := "</routes>"

  /** The serialised forms of `es`, one write each. */
  function Serialize(es: seq<Element>): (w: seq<string>)
    ensures |w| == |es|
    ensures forall k :: 0 <= k < |es| ==> w[k] == es[k].markup
  {
    seq(|es|, k requires 0 <= k < |es| => es[k].markup)
  }

  /** The writes of a complete output file for the merged groups. */
  function Document(merged: seq<Group>): seq<string> {
    [RoutesTop] + Serialize(Flatten(merged)) + [RoutesBottom]
  }

  /** `write_results`: the opening, then for each group its vehicles and its
      person, then the closing. */
  method WriteResults(merged: seq<Group>) returns (out: seq<string>)
    ensures out == Document(merged)
    ensures |out| == |Flatten(merged)| + 2
    ensures out[0] == RoutesTop && out[|out| - 1] == RoutesBottom
  {
    out := [RoutesTop];
    var i := 0;
    while i < |merged|
      invariant 0 <= i <= |merged|
      invariant out == [RoutesTop] + Serialize(Flatten(merged[..i]))
    {
      var g := merged[i];
      ghost var done := Flatten(merged[..i]);
      var j := 0;
      while j < |g.vehicles|
        invariant 0 <= j <= |g.vehicles|
        invariant out == [RoutesTop] + Serialize(done + g.vehicles[..j])
      {
        assert done + g.vehicles[..j + 1] == (done + g.vehicles[..j]) + [g.vehicles[j]];
        SerializeAppend(done + g.vehicles[..j], [g.vehicles[j]]);
        out := out + [g.vehicles[j].markup];
        j := j + 1;
      }
      assert g.vehicles[..j] == g.vehicles;
      SerializeAppend(done + g.vehicles, [g.person]);
      out := out + [g.person.markup];
      FlattenOneMore(merged, i);
      i := i + 1;
    }
    assert merged[..i] == merged;
    out := out + [RoutesBottom];
  }

  lemma SerializeAppend(a: seq<Element>, b: seq<Element>)
    ensures Serialize(a + b) == Serialize(a) + Serialize(b)
  {
  }

  lemma FlattenOneMore(gs: seq<Group>, i: nat)
    requires i < |gs|
    ensures Flatten(gs[..i + 1]) == Flatten(gs[..i]) + gs[i].vehicles + [gs[i].person]
  {
    assert gs[..i + 1] == gs[..i] + [gs[i]];
    FlattenAppend(gs[..i], [gs[i]]);
    assert Flatten([gs[i]]) == gs[i].vehicles + [gs[i].person];
  }

  /** With nothing to merge the file is the opening followed by the closing. */
  lemma EmptyDocument(sources: seq<seq<Group>>)
    requires AllEmpty(sources)
    ensures Document(Merge(sources)) == [RoutesTop, RoutesBottom]
  {
  }

  /** One file ending with a person comes out as its vehicles and persons,
      in their original order, inside the envelope. */
  lemma SingleFileDocument(es: seq<Element>, p: Element)
    requires IsPerson(p)
    ensures Document(Merge([Parse(es + [p])])) == [RoutesTop] + Serialize(Relevant(es + [p])) + [RoutesBottom]
  {
    MergeSingle(Parse(es + [p]));
    ParseCompleteRoundTrip(es, p);
  }

  /** The groups of every input file, in the order the files are given. */
  function ParseAll(files: seq<seq<Element>>): (r: seq<seq<Group>>)
    ensures |r| == |files|
    ensures forall i :: 0 <= i < |files| ==> r[i] == Parse(files[i])
  {
    seq(|files|, i requires 0 <= i < |files| => Parse(files[i]))
  }

  /** The entry point without its argument parsing and file handling: one
      parser per input file, merged, written. */
  method MergeTrips(files: seq<seq<Element>>) returns (out: seq<string>)
    ensures out == Document(Merge(ParseAll(files)))
  {
    var parsers: seq<seq<Group>> := [];
    var i := 0;
    while i < |files|
      invariant 0 <= i <= |files|
      invariant parsers == ParseAll(files[..i])
    {
      var groups := MakeParser(files[i]);
      parsers := parsers + [groups];
      i := i + 1;
    }
    assert files[..i] == files;
    var merged := MergeParsers(parsers);
    out := WriteResults(merged);
  }

  /** End to end: when the persons of every file are in depart order, the
      persons of the output are too. */
  lemma MergeTripsOrdered(files: seq<seq<Element>>)
    requires forall i :: 0 <= i < |files| ==> PersonsInDepartOrder(files[i])
    ensures SortedByDepart(Merge(ParseAll(files)))
  {
    forall i | 0 <= i < |files| ensures SortedByDepart(ParseAll(files)[i]) {
      ParseSortedIff(files[i]);
    }
    MergeSorted(ParseAll(files));
  }
}
