/**
 * The k-way merge of the parsers' group streams (`merge_parsers`).
 *
 * A source is modelled as the queue of groups it has not handed out yet;
 * pulling from it (`next`) takes the head. The reference definition `Merge`
 * keeps every source at its original index and skips exhausted ones; the
 * method `MergeParsers` follows the program, which drops exhausted sources
 * from two parallel lists.
 */
module MergeEngine {
  import opened Records

  // ---------------------------------------------------------------------
  // Queues of groups

  predicate AllEmpty(qs: seq<seq<Group>>) {
    forall i :: 0 <= i < |qs| ==> qs[i] == []
  }

  /** The number of groups still held by all sources. */
  function TotalLength(qs: seq<seq<Group>>): nat {
    if qs == [] then 0 else |qs[0]| + TotalLength(qs[1..])
  }

  /** All groups still held by all sources, as a multiset. */
  function AllGroups(qs: seq<seq<Group>>): multiset<Group> {
    if qs == [] then multiset{} else multiset(qs[0]) + AllGroups(qs[1..])
  }

  lemma {:induction false} UpdateQueue(qs: seq<seq<Group>>, i: nat, q: seq<Group>)
    requires i < |qs|
    ensures TotalLength(qs[i := q]) == TotalLength(qs) - |qs[i]| + |q|
  {
    if i == 0 {
      assert qs[i := q][1..] == qs[1..];
    } else {
      assert qs[i := q][1..] == qs[1..][i - 1 := q];
      UpdateQueue(qs[1..], i - 1, q);
    }
  }

  lemma {:induction false} DropHead(qs: seq<seq<Group>>, i: nat)
    requires i < |qs| && qs[i] != []
    ensures AllGroups(qs) == AllGroups(qs[i := qs[i][1..]]) + multiset{qs[i][0]}
  {
    var r := qs[i := qs[i][1..]];
    assert AllGroups(r) == multiset(r[0]) + AllGroups(r[1..]);
    if i == 0 {
      assert r[1..] == qs[1..];
      assert qs[0] == [qs[0][0]] + qs[0][1..];
      assert multiset(qs[0]) == multiset{qs[0][0]} + multiset(qs[0][1..]);
    } else {
      assert r[1..] == qs[1..][i - 1 := qs[i][1..]];
      assert r[0] == qs[0] && qs[1..][i - 1] == qs[i];
      DropHead(qs[1..], i - 1);
    }
  }

  // ---------------------------------------------------------------------
  // Choosing the source to emit from

  /** Source `i` holds a minimal head, and every source before it that still
      holds groups has a strictly later head: the first minimum. */
  predicate IsFirstMin(qs: seq<seq<Group>>, i: int) {
    && 0 <= i < |qs|
    && qs[i] != []
    && (forall j :: 0 <= j < |qs| && qs[j] != [] ==> Key(qs[i][0]) <= Key(qs[j][0]))
    && (forall j :: 0 <= j < i && qs[j] != [] ==> Key(qs[i][0]) < Key(qs[j][0]))
  }

  /** The first minimum among the first `n` sources, or `n` if they are all
      exhausted. */
  function PickBelow(qs: seq<seq<Group>>, n: nat): (r: nat)
    requires n <= |qs|
    ensures r <= n
    ensures r == n <==> forall j :: 0 <= j < n ==> qs[j] == []
    ensures r < n ==> IsFirstMin(qs[..n], r)
  {
    if n == 0 then 0
    else
      var p := PickBelow(qs, n - 1);
      if qs[n - 1] == [] then (if p == n - 1 then n else p)
      else if p == n - 1 then n - 1
      else if Key(qs[n - 1][0]) < Key(qs[p][0]) then n - 1
      else p
  }

  /** The source the merge emits from next. */
  function Pick(qs: seq<seq<Group>>): (i: nat)
    requires !AllEmpty(qs)
    ensures IsFirstMin(qs, i)
  {
    assert qs[..|qs|] == qs;
    PickBelow(qs, |qs|)
  }

  /** The first minimum is unique. */
  lemma FirstMinUnique(qs: seq<seq<Group>>, i: int, j: int)
    requires IsFirstMin(qs, i) && IsFirstMin(qs, j)
    ensures i == j
  {
  }

  // ---------------------------------------------------------------------
  // The merge, as a reference definition

  /** The sources after one merge step: the chosen source loses its head. */
  function Advance(qs: seq<seq<Group>>): (r: seq<seq<Group>>)
    requires !AllEmpty(qs)
    ensures |r| == |qs|
    ensures TotalLength(r) == TotalLength(qs) - 1
  {
    var i := Pick(qs);
    UpdateQueue(qs, i, qs[i][1..]);
    qs[i := qs[i][1..]]
  }

  /** The merged stream: emit the head of the first minimum, advance that
      source, repeat until every source is exhausted. */
  function Merge(qs: seq<seq<Group>>): seq<Group>
    decreases TotalLength(qs)
  {
    if AllEmpty(qs) then [] else [qs[Pick(qs)][0]] + Merge(Advance(qs))
  }

  /** Each step emits the head of the first minimum: among sources whose
      heads share the least depart, the one with the lowest index. */
  lemma MergeStep(qs: seq<seq<Group>>, i: nat)
    requires IsFirstMin(qs, i)
    ensures Merge(qs) == [qs[i][0]] + Merge(qs[i := qs[i][1..]])
    ensures Origins(qs) == [i] + Origins(qs[i := qs[i][1..]])
  {
    assert !AllEmpty(qs);
    FirstMinUnique(qs, i, Pick(qs));
  }

  /** The original index of the source each merged group comes from. */
  function Origins(qs: seq<seq<Group>>): seq<nat>
    decreases TotalLength(qs)
  {
    if AllEmpty(qs) then [] else [Pick(qs)] + Origins(Advance(qs))
  }

  /** The groups of `out` whose origin is `i`, in order. */
  function Project(out: seq<Group>, origins: seq<nat>, i: nat): seq<Group>
    requires |out| == |origins|
  {
    if out == [] then []
    else (if origins[0] == i then [out[0]] else []) + Project(out[1..], origins[1..], i)
  }

  lemma {:induction false} ProjectHas(out: seq<Group>, origins: seq<nat>, i: nat, b: nat)
    requires |out| == |origins| && b < |out| && origins[b] == i
    ensures out[b] in Project(out, origins, i)
  {
    if b > 0 {
      ProjectHas(out[1..], origins[1..], i, b - 1);
    }
  }

  // ---------------------------------------------------------------------
  // Properties of the merge

  /** Nothing is dropped or duplicated: as many groups come out as the
      sources hold, and the same ones. */
  lemma {:induction false} MergeConserves(qs: seq<seq<Group>>)
    ensures |Merge(qs)| == TotalLength(qs)
    ensures multiset(Merge(qs)) == AllGroups(qs)
    decreases TotalLength(qs)
  {
    if AllEmpty(qs) {
      EmptyQueues(qs);
    } else {
      MergeConserves(Advance(qs));
      DropHead(qs, Pick(qs));
    }
  }

  lemma {:induction false} EmptyQueues(qs: seq<seq<Group>>)
    requires AllEmpty(qs)
    ensures TotalLength(qs) == 0 && AllGroups(qs) == multiset{}
  {
    if qs != [] {
      assert qs[0] == [];
      EmptyQueues(qs[1..]);
    }
  }

  /** The merge interleaves the sources: the groups that come from source
      `i` are exactly the groups of source `i`, in their order. */
  lemma {:induction false} MergeInterleaves(qs: seq<seq<Group>>, i: nat)
    requires i < |qs|
    ensures |Origins(qs)| == |Merge(qs)|
    ensures forall k :: 0 <= k < |Origins(qs)| ==> Origins(qs)[k] < |qs|
    ensures Project(Merge(qs), Origins(qs), i) == qs[i]
    decreases TotalLength(qs)
  {
    if !AllEmpty(qs) {
      var p, qs' := Pick(qs), Advance(qs);
      MergeInterleaves(qs', i);
      var m, o := Merge(qs), Origins(qs);
      assert m[1..] == Merge(qs') && o[1..] == Origins(qs');
      if p == i {
        assert qs[i] == [qs[i][0]] + qs'[i];
      } else {
        assert qs'[i] == qs[i];
      }
    }
  }

  /** Every group of the stream has a depart no earlier than `b` when every
      group the sources hold does. */
  lemma {:induction false} MergeLowerBound(qs: seq<seq<Group>>, b: int)
    requires forall i, k :: 0 <= i < |qs| && 0 <= k < |qs[i]| ==> b <= Key(qs[i][k])
    ensures forall k :: 0 <= k < |Merge(qs)| ==> b <= Key(Merge(qs)[k])
    decreases TotalLength(qs)
  {
    if !AllEmpty(qs) {
      var p, qs' := Pick(qs), Advance(qs);
      forall i, k | 0 <= i < |qs'| && 0 <= k < |qs'[i]| ensures b <= Key(qs'[i][k]) {
        if i == p {
          assert qs'[i][k] == qs[p][k + 1];
        } else {
          assert qs'[i] == qs[i];
        }
      }
      MergeLowerBound(qs', b);
    }
  }

  /** After a merge step over sorted sources, every group still held
      departs no earlier than the group just emitted. */
  lemma AfterStepBound(qs: seq<seq<Group>>)
    requires !AllEmpty(qs)
    requires forall i :: 0 <= i < |qs| ==> SortedByDepart(qs[i])
    ensures forall i :: 0 <= i < |Advance(qs)| ==> SortedByDepart(Advance(qs)[i])
    ensures forall i, k :: 0 <= i < |Advance(qs)| && 0 <= k < |Advance(qs)[i]|
              ==> Key(qs[Pick(qs)][0]) <= Key(Advance(qs)[i][k])
  {
    var p, qs' := Pick(qs), Advance(qs);
    AdvanceSorted(qs);
    forall i, k | 0 <= i < |qs'| && 0 <= k < |qs'[i]| ensures Key(qs[p][0]) <= Key(qs'[i][k]) {
      if i == p {
        assert qs'[i][k] == qs[p][k + 1];
        assert SortedByDepart(qs[p]);
      } else {
        assert qs'[i] == qs[i] && qs[i] != [];
        assert SortedByDepart(qs[i]);
        assert Key(qs[i][0]) <= Key(qs[i][k]);
      }
    }
  }

  /** Ordering: when every source is sorted by depart, so is the merge. */
  lemma {:induction false} MergeSorted(qs: seq<seq<Group>>)
    requires forall i :: 0 <= i < |qs| ==> SortedByDepart(qs[i])
    ensures SortedByDepart(Merge(qs))
    decreases TotalLength(qs)
  {
    if !AllEmpty(qs) {
      var qs' := Advance(qs);
      AfterStepBound(qs);
      MergeSorted(qs');
      MergeLowerBound(qs', Key(qs[Pick(qs)][0]));
    }
  }

  /** Tie-break: when every source is sorted, groups with the same depart
      come out in the order of their sources' original indices. */
  lemma {:induction false} MergeStable(qs: seq<seq<Group>>)
    requires forall i :: 0 <= i < |qs| ==> SortedByDepart(qs[i])
    ensures |Origins(qs)| == |Merge(qs)|
    ensures forall a, b :: 0 <= a < b < |Merge(qs)| && Key(Merge(qs)[a]) == Key(Merge(qs)[b])
              ==> Origins(qs)[a] <= Origins(qs)[b]
    decreases TotalLength(qs)
  {
    if !AllEmpty(qs) {
      var p, qs' := Pick(qs), Advance(qs);
      var h := qs[p][0];
      AdvanceSorted(qs);
      MergeStable(qs');
      var m', o' := Merge(qs'), Origins(qs');
      forall c | 0 <= c < |m'| && Key(m'[c]) == Key(h) ensures p <= o'[c] {
        LaterTieFromLaterSource(qs, c);
      }
      StableCons(h, p, m', o');
      assert Merge(qs) == [h] + m' && Origins(qs) == [p] + o';
    }
  }

  /** A merge step keeps every source sorted. */
  lemma AdvanceSorted(qs: seq<seq<Group>>)
    requires !AllEmpty(qs)
    requires forall i :: 0 <= i < |qs| ==> SortedByDepart(qs[i])
    ensures forall i :: 0 <= i < |Advance(qs)| ==> SortedByDepart(Advance(qs)[i])
  {
    var p, qs' := Pick(qs), Advance(qs);
    forall i | 0 <= i < |qs'| ensures SortedByDepart(qs'[i]) {
      if i == p {
        assert SortedByDepart(qs[p]);
      } else {
        assert qs'[i] == qs[i];
      }
    }
  }

  /** Ties stay in order of origin when a group is put in front of a stream
      whose ties are in order, provided no later group tying with it comes
      from a lower origin. */
  lemma StableCons(h: Group, p: nat, m: seq<Group>, o: seq<nat>)
    requires |o| == |m|
    requires forall a, b :: 0 <= a < b < |m| && Key(m[a]) == Key(m[b]) ==> o[a] <= o[b]
    requires forall c :: 0 <= c < |m| && Key(m[c]) == Key(h) ==> p <= o[c]
    ensures forall a, b :: 0 <= a < b < |m| + 1 && Key(([h] + m)[a]) == Key(([h] + m)[b])
              ==> ([p] + o)[a] <= ([p] + o)[b]
  {
    forall a, b | 0 <= a < b < |m| + 1 && Key(([h] + m)[a]) == Key(([h] + m)[b])
      ensures ([p] + o)[a] <= ([p] + o)[b]
    {
      if a == 0 {
        assert ([h] + m)[b] == m[b - 1];
      } else {
        assert ([h] + m)[a] == m[a - 1] && ([h] + m)[b] == m[b - 1];
      }
    }
  }

  /** A group emitted after the first one with the same depart comes from a
      source whose index is not below the first one's, for sorted sources. */
  lemma LaterTieFromLaterSource(qs: seq<seq<Group>>, c: nat)
    requires !AllEmpty(qs)
    requires forall i :: 0 <= i < |qs| ==> SortedByDepart(qs[i])
    requires c < |Merge(Advance(qs))| && Key(Merge(Advance(qs))[c]) == Key(qs[Pick(qs)][0])
    ensures |Origins(Advance(qs))| == |Merge(Advance(qs))|
    ensures Pick(qs) <= Origins(Advance(qs))[c]
  {
    var p, qs' := Pick(qs), Advance(qs);
    var m', o' := Merge(qs'), Origins(qs');
    MergeInterleaves(qs', 0);
    var j := o'[c];
    MergeInterleaves(qs', j);
    ProjectHas(m', o', j, c);
    var x := m'[c];
    assert x in qs'[j];
    if j != p {
      assert qs'[j] == qs[j];
      var k :| 0 <= k < |qs[j]| && qs[j][k] == x;
      assert SortedByDepart(qs[j]);
      assert Key(qs[j][0]) <= Key(x);
    }
  }

  /** A single source comes out unchanged. */
  lemma {:induction false} MergeSingle(q: seq<Group>)
    ensures Merge([q]) == q
    decreases |q|
  {
    if q != [] {
      assert [q][0] == q;
      assert Pick([q]) == 0;
      assert Advance([q]) == [q[1..]];
      MergeSingle(q[1..]);
    }
  }

  /** Two sources departing at 2, 5 and at 3, 5 merge to A2, B3, A5, B5:
      the tie at 5 goes to the first source. */
  lemma TieBreakExample(a2: Group, a5: Group, b3: Group, b5: Group)
    requires Key(a2) == 2 && Key(a5) == 5 && Key(b3) == 3 && Key(b5) == 5
    ensures Merge([[a2, a5], [b3, b5]]) == [a2, b3, a5, b5]
  {
    var q0: seq<seq<Group>> := [[a2, a5], [b3, b5]];
    assert IsFirstMin(q0, 0);
    MergeStep(q0, 0);
    assert q0[0 := q0[0][1..]] == [[a5], [b3, b5]];
    TieBreakFromB3(a5, b3, b5);
  }

  lemma TieBreakFromB3(a5: Group, b3: Group, b5: Group)
    requires Key(a5) == 5 && Key(b3) == 3 && Key(b5) == 5
    ensures Merge([[a5], [b3, b5]]) == [b3, a5, b5]
  {
    var q1: seq<seq<Group>> := [[a5], [b3, b5]];
    assert IsFirstMin(q1, 1);
    MergeStep(q1, 1);
    assert q1[1 := q1[1][1..]] == [[a5], [b5]];
    TieBreakAtTie(a5, b5);
  }

  lemma TieBreakAtTie(a5: Group, b5: Group)
    requires Key(a5) == Key(b5)
    ensures Merge([[a5], [b5]]) == [a5, b5]
  {
    var q2: seq<seq<Group>> := [[a5], [b5]];
    assert IsFirstMin(q2, 0);
    MergeStep(q2, 0);
    assert q2[0 := q2[0][1..]] == [[], [b5]];
    TieBreakLast(b5);
  }

  lemma TieBreakLast(b5: Group)
    ensures Merge([[], [b5]]) == [b5]
  {
    var q3: seq<seq<Group>> := [[], [b5]];
    assert IsFirstMin(q3, 1);
    MergeStep(q3, 1);
    var q4: seq<seq<Group>> := [[], []];
    assert q3[1 := q3[1][1..]] == q4;
    assert AllEmpty(q4);
  }

  // ---------------------------------------------------------------------
  // The program's state: parallel lists of live parsers and their heads

  /** Strictly increasing: the live parsers keep their original order. */
  predicate Increasing(ids: seq<nat>) {
    forall a, b :: 0 <= a < b < |ids| ==> ids[a] < ids[b]
  }

  /** The alignment of the two parallel lists with the reference state `qs`:
      `values[k]` is the current head of the k-th live parser and
      `parsers[k]` what it has not handed out yet; together they are source
      `ids[k]` of `qs`. The live parsers keep their original order, and every
      source of `qs` that is not live is exhausted. */
  ghost predicate Aligned(qs: seq<seq<Group>>, ids: seq<nat>, values: seq<Group>, parsers: seq<seq<Group>>) {
    && |values| == |parsers| == |ids|
    && Increasing(ids)
    && (forall a :: 0 <= a < |ids| ==> ids[a] < |qs| && qs[ids[a]] == [values[a]] + parsers[a])
    && (forall j :: 0 <= j < |qs| && qs[j] != [] ==> IndexOf(ids, j) >= 0)
  }

  /** The slot of original index `j` in the live list, or -1 when source
      `j` is not live. */
  function IndexOf(ids: seq<nat>, j: nat): (r: int)
    ensures -1 <= r < |ids|
    ensures r >= 0 ==> ids[r] == j
    ensures r == -1 ==> forall a :: 0 <= a < |ids| ==> ids[a] != j
  {
    if ids == [] then -1
    else if ids[0] == j then 0
    else
      var r := IndexOf(ids[1..], j);
      if r == -1 then -1 else r + 1
  }

  /** Appending a new live index keeps every slot and finds the new one at
      the end. */
  lemma {:induction false} IndexOfAppend(ids: seq<nat>, x: nat, j: nat)
    ensures IndexOf(ids + [x], j) == if IndexOf(ids, j) >= 0 then IndexOf(ids, j) else if x == j then |ids| else -1
  {
    if ids != [] {
      assert (ids + [x])[1..] == ids[1..] + [x];
      IndexOfAppend(ids[1..], x, j);
    }
  }

  /** `del s[k]`. */
  function RemoveAt<T>(s: seq<T>, k: nat): (r: seq<T>)
    requires k < |s|
    ensures |r| == |s| - 1
    ensures forall a :: 0 <= a < |r| ==> r[a] == if a < k then s[a] else s[a + 1]
  {
    s[..k] + s[k + 1..]
  }

  /** `min(enumerate(values), key=depart)`: the first position whose depart
      is minimal. */
  predicate FirstMinAt(values: seq<Group>, k: int) {
    && 0 <= k < |values|
    && (forall j :: 0 <= j < |values| ==> Key(values[k]) <= Key(values[j]))
    && (forall j :: 0 <= j < k ==> Key(values[k]) < Key(values[j]))
  }

  method FirstMin(values: seq<Group>) returns (k: nat)
    requires values != []
    ensures FirstMinAt(values, k)
  {
    k := 0;
    var j := 1;
    while j < |values|
      invariant 1 <= j <= |values| && k < j
      invariant forall m :: 0 <= m < j ==> Key(values[k]) <= Key(values[m])
      invariant forall m :: 0 <= m < k ==> Key(values[k]) < Key(values[m])
    {
      if Key(values[j]) < Key(values[k]) {
        k := j;
      }
      j := j + 1;
    }
  }

  /** The first minimum among the live heads is the source the reference
      merge picks. */
  lemma FirstMinIsPick(qs: seq<seq<Group>>, ids: seq<nat>, values: seq<Group>, parsers: seq<seq<Group>>, k: nat)
    requires Aligned(qs, ids, values, parsers)
    requires FirstMinAt(values, k)
    ensures !AllEmpty(qs) && Pick(qs) == ids[k]
  {
    var i := ids[k];
    assert qs[i] == [values[k]] + parsers[k];
    forall j | 0 <= j < |qs| && qs[j] != []
      ensures Key(qs[i][0]) <= Key(qs[j][0])
      ensures j < i ==> Key(qs[i][0]) < Key(qs[j][0])
    {
      var m := IndexOf(ids, j);
      assert qs[j][0] == values[m];
      if j < i {
        assert m < k;
      }
    }
    assert IsFirstMin(qs, i);
    FirstMinUnique(qs, i, Pick(qs));
  }

  /** The program's step emits what the reference merge emits, and leaves
      the reference state advanced by one step. */
  lemma EmitFromSlot(qs: seq<seq<Group>>, ids: seq<nat>, values: seq<Group>, parsers: seq<seq<Group>>, k: nat)
    requires Aligned(qs, ids, values, parsers)
    requires FirstMinAt(values, k)
    ensures !AllEmpty(qs)
    ensures Advance(qs) == qs[ids[k] := parsers[k]]
    ensures Merge(qs) == [values[k]] + Merge(Advance(qs))
  {
    FirstMinIsPick(qs, ids, values, parsers, k);
    assert qs[ids[k]] == [values[k]] + parsers[k];
    assert qs[ids[k]][1..] == parsers[k];
  }

  lemma AlignedAfterRefill(qs: seq<seq<Group>>, ids: seq<nat>, values: seq<Group>, parsers: seq<seq<Group>>, k: nat)
    requires Aligned(qs, ids, values, parsers)
    requires k < |parsers| && parsers[k] != []
    ensures Aligned(qs[ids[k] := parsers[k]], ids, values[k := parsers[k][0]], parsers[k := parsers[k][1..]])
  {
    var i := ids[k];
    var qs' := qs[i := parsers[k]];
    var values', parsers' := values[k := parsers[k][0]], parsers[k := parsers[k][1..]];
    forall a | 0 <= a < |ids| ensures ids[a] < |qs'| && qs'[ids[a]] == [values'[a]] + parsers'[a] {
      if a != k {
        assert ids[a] != i by {
          if a < k { assert ids[a] < ids[k]; } else { assert ids[k] < ids[a]; }
        }
      }
    }
    forall j | 0 <= j < |qs'| && qs'[j] != [] ensures IndexOf(ids, j) >= 0 {
      if j != i {
        assert qs[j] != [];
      } else {
        assert ids[k] == j;
      }
    }
  }

  lemma RemoveAtIncreasing(ids: seq<nat>, k: nat)
    requires k < |ids| && Increasing(ids)
    ensures Increasing(RemoveAt(ids, k))
  {
  }

  lemma AlignedAfterRemove(qs: seq<seq<Group>>, ids: seq<nat>, values: seq<Group>, parsers: seq<seq<Group>>, k: nat)
    requires Aligned(qs, ids, values, parsers)
    requires k < |parsers| && parsers[k] == []
    ensures Aligned(qs[ids[k] := parsers[k]], RemoveAt(ids, k), RemoveAt(values, k), RemoveAt(parsers, k))
  {
    RemoveAtIncreasing(ids, k);
    RemovedSlotsAligned(qs, ids, values, parsers, k);
    RemovedLiveKept(qs, ids, k);
  }

  /** The slots left after deleting slot `k` still hold their sources. */
  lemma RemovedSlotsAligned(qs: seq<seq<Group>>, ids: seq<nat>, values: seq<Group>, parsers: seq<seq<Group>>, k: nat)
    requires Aligned(qs, ids, values, parsers)
    requires k < |parsers|
    ensures forall a :: 0 <= a < |ids| - 1 ==>
      RemoveAt(ids, k)[a] < |qs| && qs[ids[k] := []][RemoveAt(ids, k)[a]] == [RemoveAt(values, k)[a]] + RemoveAt(parsers, k)[a]
  {
    forall a | 0 <= a < |ids| - 1
      ensures RemoveAt(ids, k)[a] < |qs| && qs[ids[k] := []][RemoveAt(ids, k)[a]] == [RemoveAt(values, k)[a]] + RemoveAt(parsers, k)[a]
    {
      RemovedSlotAligned(qs, ids, values, parsers, k, if a < k then a else a + 1);
    }
  }

  /** Slot `a0`, other than the deleted slot `k`, still holds its source. */
  lemma RemovedSlotAligned(qs: seq<seq<Group>>, ids: seq<nat>, values: seq<Group>, parsers: seq<seq<Group>>, k: nat, a0: nat)
    requires |values| == |parsers| == |ids| && Increasing(ids)
    requires k < |ids| && a0 < |ids| && a0 != k
    requires ids[a0] < |qs| && ids[k] < |qs| && qs[ids[a0]] == [values[a0]] + parsers[a0]
    ensures var a := if a0 < k then a0 else a0 - 1;
      RemoveAt(ids, k)[a] == ids[a0] && qs[ids[k] := []][ids[a0]] == [RemoveAt(values, k)[a]] + RemoveAt(parsers, k)[a]
  {
    assert ids[a0] != ids[k] by {
      if a0 < k { assert ids[a0] < ids[k]; } else { assert ids[k] < ids[a0]; }
    }
  }

  /** Every source other than the deleted one that still holds a group is
      still live after the deletion. */
  lemma RemovedLiveKept(qs: seq<seq<Group>>, ids: seq<nat>, k: nat)
    requires k < |ids| && ids[k] < |qs|
    requires forall j :: 0 <= j < |qs| && qs[j] != [] ==> IndexOf(ids, j) >= 0
    ensures forall j :: 0 <= j < |qs| && qs[ids[k] := []][j] != [] ==> IndexOf(RemoveAt(ids, k), j) >= 0
  {
    var i := ids[k];
    var ids' := RemoveAt(ids, k);
    forall j | 0 <= j < |qs| && qs[i := []][j] != [] ensures IndexOf(ids', j) >= 0 {
      assert j != i && qs[j] != [];
      var m := IndexOf(ids, j);
      assert m != k;
      var m' := if m < k then m else m - 1;
      assert ids'[m'] == j;
    }
  }

  lemma AlignedNoneLive(qs: seq<seq<Group>>, ids: seq<nat>, values: seq<Group>, parsers: seq<seq<Group>>)
    requires Aligned(qs, ids, values, parsers)
    ensures values == [] <==> AllEmpty(qs)
  {
    if values != [] {
      assert qs[ids[0]] != [];
    }
  }

  // ---------------------------------------------------------------------
  // The program

  /** The state of the first pull after `n` parsers: the live prefix of
      `parsers` is aligned with the first `n` sources, and the rest of
      `parsers` is the sources not reached yet. */
  ghost predicate PullInv(sources: seq<seq<Group>>, n: nat, ids: seq<nat>, values: seq<Group>, parsers: seq<seq<Group>>) {
    && n <= |sources|
    && |values| == |ids| <= n
    && |parsers| == |values| + (|sources| - n)
    && parsers[|values|..] == sources[n..]
    && Increasing(ids)
    && (forall a :: 0 <= a < |ids| ==> ids[a] < n && sources[ids[a]] == [values[a]] + parsers[a])
    && (forall j :: 0 <= j < n ==> (IndexOf(ids, j) >= 0 <==> sources[j] != []))
  }

  /** Reaching a parser that yields nothing removes it from the list. */
  lemma PullSkip(sources: seq<seq<Group>>, n: nat, ids: seq<nat>, values: seq<Group>, parsers: seq<seq<Group>>)
    requires PullInv(sources, n, ids, values, parsers)
    requires n < |sources| && sources[n] == []
    ensures |values| < |parsers| && parsers[|values|] == []
    ensures PullInv(sources, n + 1, ids, values, RemoveAt(parsers, |values|))
  {
    var k := |values|;
    assert parsers[k] == parsers[k..][0] == sources[n];
    var parsers' := RemoveAt(parsers, k);
    assert parsers'[k..] == parsers[k + 1..] == parsers[k..][1..];
    forall a | 0 <= a < |ids| ensures sources[ids[a]] == [values[a]] + parsers'[a] {
      assert parsers'[a] == parsers[a];
    }
    assert forall j :: 0 <= j < n + 1 ==> (IndexOf(ids, j) >= 0 <==> sources[j] != []);
  }

  /** Reaching a parser that yields a group makes it live, with that group
      in `values`. */
  lemma PullKeep(sources: seq<seq<Group>>, n: nat, ids: seq<nat>, values: seq<Group>, parsers: seq<seq<Group>>)
    requires PullInv(sources, n, ids, values, parsers)
    requires n < |sources| && sources[n] != []
    ensures |values| < |parsers| && parsers[|values|] == sources[n]
    ensures PullInv(sources, n + 1, ids + [n], values + [sources[n][0]], parsers[|values| := sources[n][1..]])
  {
    var k := |values|;
    assert parsers[k] == parsers[k..][0] == sources[n];
    var ids', values', parsers' := ids + [n], values + [sources[n][0]], parsers[k := sources[n][1..]];
    assert parsers'[k + 1..] == parsers[k + 1..] == parsers[k..][1..];
    forall a | 0 <= a < |ids'| ensures ids'[a] < n + 1 && sources[ids'[a]] == [values'[a]] + parsers'[a] {
      if a == k {
        assert sources[n] == [sources[n][0]] + sources[n][1..];
      }
    }
    forall j | 0 <= j < n + 1 ensures IndexOf(ids', j) >= 0 <==> sources[j] != [] {
      IndexOfAppend(ids, n, j);
    }
  }

  /** The first pull from every parser (`for parser in list(parsers)`): a
      parser that yields nothing is removed from the live list in place; the
      others keep their position, with their first group in `values`. */
  method PullFirst(sources: seq<seq<Group>>) returns (parsers: seq<seq<Group>>, values: seq<Group>, ghost ids: seq<nat>)
    ensures Aligned(sources, ids, values, parsers)
    ensures forall j :: 0 <= j < |sources| ==> (IndexOf(ids, j) >= 0 <==> sources[j] != [])
    ensures values == [] <==> AllEmpty(sources)
  {
    parsers := sources;
    values := [];
    ids := [];
    var n := 0;
    while n < |sources|
      invariant PullInv(sources, n, ids, values, parsers)
    {
      var k := |values|;  // where the n-th parser sits in the live list
      if parsers[k] == [] {
        PullSkip(sources, n, ids, values, parsers);
        parsers := RemoveAt(parsers, k);
      } else {
        PullKeep(sources, n, ids, values, parsers);
        values := values + [parsers[k][0]];
        parsers := parsers[k := parsers[k][1..]];
        ids := ids + [n];
      }
      n := n + 1;
    }
    assert |parsers| == |values|;
    AlignedNoneLive(sources, ids, values, parsers);
  }

  /** The pull after an emission (`values[parser_nr] = next(...)`): the
      emitted slot gets the parser's next group, or, when the parser is
      exhausted, the parser and its slot are deleted from both lists. */
  method PullNext(ghost qs: seq<seq<Group>>, ghost ids: seq<nat>, values: seq<Group>, parsers: seq<seq<Group>>, k: nat)
    returns (parsers': seq<seq<Group>>, values': seq<Group>, ghost ids': seq<nat>)
    requires Aligned(qs, ids, values, parsers)
    requires FirstMinAt(values, k)
    ensures !AllEmpty(qs)
    ensures Aligned(Advance(qs), ids', values', parsers')
    ensures parsers[k] != [] ==> values' == values[k := parsers[k][0]] && parsers' == parsers[k := parsers[k][1..]]
    ensures parsers[k] == [] ==> values' == RemoveAt(values, k) && parsers' == RemoveAt(parsers, k)
  {
    EmitFromSlot(qs, ids, values, parsers, k);
    if parsers[k] != [] {
      AlignedAfterRefill(qs, ids, values, parsers, k);
      values' := values[k := parsers[k][0]];
      parsers' := parsers[k := parsers[k][1..]];
      ids' := ids;
    } else {
      AlignedAfterRemove(qs, ids, values, parsers, k);
      parsers' := RemoveAt(parsers, k);
      values' := RemoveAt(values, k);
      ids' := RemoveAt(ids, k);
    }
  }

  /** Moving the emitted group from the front of the rest to the end of the
      output keeps their concatenation. */
  lemma ConsAssoc(m: seq<Group>, v: Group, rest: seq<Group>)
    ensures m + ([v] + rest) == (m + [v]) + rest
  {
  }

  /** `merge_parsers`: repeatedly emit the first minimal head and pull the
      next group from the same parser, dropping the parser and its slot from
      both lists once it is exhausted. */
  method MergeParsers(sources: seq<seq<Group>>) returns (merged: seq<Group>)
    ensures merged == Merge(sources)
    ensures AllEmpty(sources) ==> merged == []
  {
    var parsers, values, ids := PullFirst(sources);
    ghost var qs := sources;
    merged := [];
    while |parsers| > 0 && |values| > 0
      invariant Aligned(qs, ids, values, parsers)
      invariant |qs| == |sources|
      invariant merged + Merge(qs) == Merge(sources)
      decreases TotalLength(qs)
    {
      var k := FirstMin(values);
      EmitFromSlot(qs, ids, values, parsers, k);
      ConsAssoc(merged, values[k], Merge(Advance(qs)));
      merged := merged + [values[k]];
      parsers, values, ids := PullNext(qs, ids, values, parsers, k);
      qs := Advance(qs);
    }
    AlignedNoneLive(qs, ids, values, parsers);
  }
}
