# merge_trips: streaming k-way merge of SUMO route files

This project is a Dafny model of `merge_trips.py` from SUMOActivityGen. The
tool merges several SUMO route files into one. Each file is read as a stream
of `vehicle` and `person` elements. Every person is grouped with the vehicles
that came just before it. The groups of all files are then merged into one
stream in depart order, and that stream is written inside a fixed `<routes>`
envelope.

The model has four modules:

- `Records` (records.dfy): an element is a tag, a depart key and an opaque
  serialised form (`markup`). A group is `(depart, person, vehicles)`, the
  same triple the program yields. `Flatten` lists each group's vehicles and
  then its person.
- `Parser` (parser.dfy): `make_parser`. The method `MakeParser` runs the
  program's loop over the elements in end-event order, with the `stored`
  accumulator. `Parse` is the function it is proved against. The lemmas give
  the grouping's meaning: one group per person, round trips in both
  directions, the vehicles dropped after the last person, and uniqueness of
  the decomposition.
- `MergeEngine` (merge.dfy): `merge_parsers`. A source is the queue of groups
  it has not handed out yet, and `next()` takes the head of that queue.
  `Merge` is a reference definition. It keeps every source at its original
  index and skips exhausted ones. At each step it emits the head of the first
  minimum, the lowest-index source among those with the least head depart.
  `MergeParsers` follows the program: it has the two parallel lists `parsers`
  and `values`, in-place removal during the first pull, overwriting of the
  emitted slot, and paired deletion when a parser runs out. Ghost state maps
  the live slots back to original indices. `parsers.remove(parser)` removes
  the first list entry equal to the generator; generators are distinct
  objects, so this is the removal at the parser's current slot, which is how
  the model states it. The predicate `Aligned` is the
  loop invariant that ties the two lists to the reference state.
- `Writer` (writer.dfy): `write_results`, modelled as the sequence of strings
  written to the output file. It also holds the entry point's composition of
  parsing, merging and writing.

Depart times are `int`, standing in for the program's floats. The output
file and the input files are plain values: the inputs are sequences of
elements, and the output is the sequence of writes.

A person without a numeric depart makes `float(elem.get('depart'))`
(merge_trips.py:25) raise a TypeError when the attribute is missing, or a
ValueError when it is not numeric. Neither is modelled (see below).

## Model

| member | source | states |
|---|---|---|
| Parser.MakeParser | merge_trips.py:17-25 | The loop's groups equal `Parse(events)`. They are well formed, there is one per person in input order, and flattening them and appending the held vehicles gives back the input's vehicles and persons. |
| Parser.ParseWellFormed | merge_trips.py:21-25 | Every group holds a person-tagged element, carries that person's depart as its key, and has only vehicle-tagged elements in its vehicle list. |
| Parser.ParsePersons | merge_trips.py:23-25 | The persons of the groups are exactly the persons of the input, in input order, so there are as many groups as persons. |
| Parser.ParseRoundTrip | merge_trips.py:19-25 | The groups' vehicles and persons, followed by the vehicles held after the last person, are the input with all other tags removed. The held vehicles are all vehicles. |
| Parser.ParseCompleteRoundTrip | merge_trips.py:19-25 | An input that ends with a person loses nothing: its groups flatten to exactly its vehicles and persons. |
| Parser.ParseDropsTrailing | merge_trips.py:19-25 | Appending elements that contain no person does not change the groups, so vehicles after the last person are never emitted. |
| Parser.ParseIgnoresOtherTags | merge_trips.py:20-23 | Removing every element that is neither a vehicle nor a person does not change the groups. |
| Parser.ParseFlattenInverse | merge_trips.py:21-25 | Parsing the flattening of well-formed groups, followed by any vehicles, gives back exactly those groups. |
| Parser.GroupingUnique | merge_trips.py:19-25 | Any well-formed groups plus trailing vehicles that flatten to the input's vehicles and persons are the parser's groups and held vehicles. The grouping is the only such decomposition. |
| Parser.ParseSortedIff | merge_trips.py:25 | A file's groups are in depart order if and only if its persons are. |
| MergeEngine.FirstMin | merge_trips.py:40 | `min(enumerate(values), key=depart)` returns a position whose depart is minimal, and every earlier position has a strictly later depart. |
| MergeEngine.PickBelow | merge_trips.py:40 | Among the first `n` sources, it returns the first one holding a minimal head, or `n` exactly when all of them are exhausted. |
| MergeEngine.Pick | merge_trips.py:40 | The chosen source holds a group, its head is minimal among all heads, and every lower-index non-exhausted source has a strictly later head. |
| MergeEngine.FirstMinUnique | merge_trips.py:40 | At most one source satisfies the first-minimum condition, so the tie-break is deterministic. |
| MergeEngine.Advance | merge_trips.py:42-46 | One step keeps every source in its place and leaves the sources holding exactly one group fewer. |
| MergeEngine.DropHead | merge_trips.py:41-43 | Taking the head of a source removes exactly that group from the multiset of groups the sources hold. |
| MergeEngine.MergeStep | merge_trips.py:39-46 | If source `i` is the first minimum, the stream starts with its head, recorded with origin `i`, and continues as the merge of the sources with that head removed. |
| MergeEngine.MergeConserves | merge_trips.py:39-46 | The output has as many groups as all sources together hold, and it holds the same multiset of groups. |
| MergeEngine.MergeInterleaves | merge_trips.py:39-46 | Every output group has an origin within range. The output groups whose origin is `i` are exactly source `i`, in its order, so the output is an interleaving of the sources. |
| MergeEngine.MergeLowerBound | merge_trips.py:40-41 | If every held group departs no earlier than `b`, then so does every output group. |
| MergeEngine.AfterStepBound | merge_trips.py:40-43 | After one step over sorted sources, the sources are still sorted, and every group they still hold departs no earlier than the group just emitted. |
| MergeEngine.AdvanceSorted | merge_trips.py:42-43 | A merge step over sorted sources leaves every source sorted. |
| MergeEngine.MergeSorted | merge_trips.py:40-41 | If every source is non-decreasing in depart, then so is the output. |
| MergeEngine.MergeStable | merge_trips.py:40 | With sorted sources, output groups with equal depart appear in non-decreasing order of their source's original index, so ties go to the lowest original index. |
| MergeEngine.StableCons | merge_trips.py:40-41 | Emitting a group in front of a stream keeps ties in origin order, provided no later tying group comes from a lower origin. |
| MergeEngine.LaterTieFromLaterSource | merge_trips.py:40 | With sorted sources, a later output group whose depart equals the first group's depart comes from a source whose index is not below the first group's source. |
| MergeEngine.MergeSingle | merge_trips.py:39-46 | Merging a single source gives that source unchanged. |
| MergeEngine.TieBreakExample | merge_trips.py:40 | Sources departing at 2, 5 and at 3, 5 merge to A2, B3, A5, B5. |
| MergeEngine.RemoveAt | merge_trips.py:45-46 | `del s[k]` shortens the list by one, keeps the elements before `k` and shifts the ones after it down by one. |
| MergeEngine.RemoveAtIncreasing | merge_trips.py:45-46 | Deleting a slot keeps the remaining live parsers in their original order. |
| MergeEngine.IndexOf | merge_trips.py:32-46 | The slot of a source in the live list: a slot holding that source's index, or -1 exactly when no live slot holds it. |
| MergeEngine.FirstMinIsPick | merge_trips.py:40 | Under the alignment invariant, the program's first minimum over `values` is the source the reference merge picks. |
| MergeEngine.EmitFromSlot | merge_trips.py:40-41 | Under the alignment invariant, the value at the program's first minimum is the next group of the reference merge, and the reference state advances by replacing that source with what its parser has left. |
| MergeEngine.AlignedAfterRefill | merge_trips.py:43 | Overwriting `values[k]` with the next group of `parsers[k]` keeps the two lists aligned with the reference state advanced by one step. |
| MergeEngine.AlignedAfterRemove | merge_trips.py:44-46 | Deleting slot `k` from both lists when its parser is exhausted keeps them aligned with the reference state advanced by one step. |
| MergeEngine.RemovedSlotsAligned | merge_trips.py:45-46 | After deleting slot `k` from all three lists, every remaining slot still holds the rest of its source. |
| MergeEngine.RemovedLiveKept | merge_trips.py:45-46 | After deleting slot `k`, every other source that still holds groups is still live. |
| MergeEngine.AlignedNoneLive | merge_trips.py:39 | Under the alignment invariant, `values` is empty exactly when every source is exhausted, so the loop ends exactly when the merge is complete. |
| MergeEngine.PullFirst | merge_trips.py:32-37 | After the first pull, `values` and `parsers` have equal length and are aligned with the sources. The live parsers are exactly the sources that yielded something, in original order. No value is pulled only when every source is empty. |
| MergeEngine.PullSkip | merge_trips.py:34-37 | A parser that yields nothing on the first pull is removed from the list in place, and the first-pull state advances to the next source. |
| MergeEngine.PullKeep | merge_trips.py:34-35 | A parser that yields a group on the first pull stays in place and becomes live with that group in `values`. |
| MergeEngine.PullNext | merge_trips.py:41-46 | After emitting slot `k`, either the slot gets its parser's next group or the slot is deleted from both lists. Either way the lists are aligned with the reference state advanced by one step. |
| MergeEngine.MergeParsers | merge_trips.py:28-46 | The emitted stream equals the reference merge of the sources, and it is empty when every source is empty. |
| Writer.WriteResults | merge_trips.py:49-58 | The nested write loop produces the opening envelope, then for each group in merged order its vehicles, each written once as its serialised form, followed by its person, then the closing envelope. |
| Writer.EmptyDocument | merge_trips.py:51-58 | With nothing to merge, the output is exactly the opening envelope followed by the closing one. |
| Writer.SingleFileDocument | merge_trips.py:51-58 | A single file that ends with a person is written as its vehicles and persons in original order, inside the envelope. |
| Writer.MergeTrips | merge_trips.py:66-71 | Building one parser per input file, in the order given, and merging and writing them gives the envelope around the flattened reference merge of the files' groups. |
| Writer.MergeTripsOrdered | merge_trips.py:66-71 | If the persons of every file are in depart order, then the merged groups are too. |

## Left out

- XML parsing (`ET.iterparse`): a file is given as its elements in end-event order. Nested children such as routes are just other tags, and the parser ignores them.
- `float(elem.get('depart'))`: the depart is an `int` key on every element. String-to-float conversion, the exception raised for a missing or non-numeric depart, and float comparison (NaN, signed zero) are not modelled.
- `ET.tostring`: each element carries its serialised form as an opaque string.
- `elem.clear()`: not modelled. For records that are not nested inside one another, clearing after writing has no effect on the output. When a vehicle or person is nested inside another record, the inner one is written and cleared first, so the outer record is then written with an emptied child element. The model takes each record's serialised form as given and does not capture that dependence.
- Generator laziness: parsing, merging and writing are interleaved in the program, and the model runs them one after another. The outputs are the same. The model does not show which writes have already happened when an exception occurs mid-stream.
- `parsers` as the caller's list: the program removes exhausted generators from the list object the caller passed in. The model copies the sources into a local list instead, so that aliasing is not modelled.
- `argparse` and the choice between an output file and stdout (merge_trips.py:61-65) are I/O plumbing. `MergeTrips` starts from the files' contents and returns the writes.
- Opening the input files: each file is opened lazily by `ET.iterparse` (merge_trips.py:20) on the first `next` in `merge_parsers` (merge_trips.py:35). That happens after `write_results` has already written the opening envelope (merge_trips.py:51), so a missing or unreadable input leaves an output holding only the opening envelope. The model has no failing inputs and does not capture this.
- The heap-based selection mentioned in the TODO at merge_trips.py:30 is not implemented in the source and is not modelled.
