/** Comparing two snapshots: sorted UID lists of what was added, updated and removed. */
module Deltas {
  import opened Snapshots
  import opened Orders

  datatype Delta = Delta(added: seq<string>, updated: seq<string>, removed: seq<string>)

  /** d names exactly the UIDs that differ between two indexes, in order and without repeats. */
  ghost predicate IsDelta(d: Delta, before: map<string, Item>, after: map<string, Item>) {
    && SortedStrings(d.added) && SortedStrings(d.updated) && SortedStrings(d.removed)
    && (forall uid :: uid in d.added <==> uid in after && uid !in before)
    && (forall uid :: uid in d.updated <==> uid in before && uid in after && before[uid] != after[uid])
    && (forall uid :: uid in d.removed <==> uid in before && uid !in after)
  }

  /** Replaying a delta: drop what was removed, take current values for the rest. */
  function Replay(d: Delta, before: map<string, Item>, after: map<string, Item>): map<string, Item>
    requires forall uid :: uid in d.added || uid in d.updated ==> uid in after
  {
    (before - (set uid | uid in d.removed)) + (map uid | uid in d.added + d.updated :: after[uid])
  }

  /** The delta is exact: the three lists are disjoint, applying them rebuilds the current index,
      and they are all empty exactly when nothing changed. */
  lemma DeltaExact(d: Delta, before: map<string, Item>, after: map<string, Item>)
    requires IsDelta(d, before, after)
    ensures forall uid :: !(uid in d.added && uid in d.updated) && !(uid in d.added && uid in d.removed) &&
                          !(uid in d.updated && uid in d.removed)
    ensures Replay(d, before, after) == after
    ensures d == Delta([], [], []) <==> before == after
  {
    hide SortedStrings, Replay;
    ReplayRebuilds(d, before, after);
    NonEmpty(d.added);
    NonEmpty(d.updated);
    NonEmpty(d.removed);
    if d == Delta([], [], []) {
      forall uid ensures uid in before <==> uid in after {
        assert uid !in d.added && uid !in d.removed;
      }
      forall uid | uid in before ensures before[uid] == after[uid] {
        assert uid !in d.updated;
      }
    }
  }

  lemma ReplayRebuilds(d: Delta, before: map<string, Item>, after: map<string, Item>)
    requires IsDelta(d, before, after)
    ensures Replay(d, before, after) == after
  {
  }

  lemma NonEmpty(s: seq<string>)
    ensures s == [] <==> forall x :: x !in s
  {
    if s != [] { assert s[0] in s; }
  }

  /** A delta is determined by the two indexes. */
  lemma DeltaUnique(d: Delta, e: Delta, before: map<string, Item>, after: map<string, Item>)
    requires IsDelta(d, before, after) && IsDelta(e, before, after)
    ensures d == e
  {
    SortedStringsUnique(d.added, e.added);
    SortedStringsUnique(d.updated, e.updated);
    SortedStringsUnique(d.removed, e.removed);
  }

  method Compare(previous: seq<Item>, current: seq<Item>) returns (d: Delta)
    ensures IsDelta(d, IndexOf(previous), IndexOf(current))
  {
    var before, after := IndexOf(previous), IndexOf(current);
    var added := SortStrings(after.Keys - before.Keys);
    var updated := SortStrings(set uid | uid in before.Keys * after.Keys && before[uid] != after[uid]);
    var removed := SortStrings(before.Keys - after.Keys);
    d := Delta(added, updated, removed);
  }
}
