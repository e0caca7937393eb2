/**
 * The request tree of a multiplexed request: an `IndividualRequestMap` maps
 * ids to individual requests, and each individual request carries its own
 * map of dependent requests.
 *
 * A map is modelled as the sequence of its entries in iteration order; its
 * ids are distinct because it is a map, and no property below needs that.
 */
module IndividualRequests {

  /** One sub-request; its own fields are opaque to the multiplexer. */
  datatype IndividualRequest = IndividualRequest(
    httpMethod: string,
    relativeUrl: string,
    headers: map<string, string>,
    entity: seq<int>,
    dependentRequests: seq<Entry>)

  /** One entry of an `IndividualRequestMap`. */
  datatype Entry = Entry(id: string, request: IndividualRequest)

  /**
   * Every entry of the tree, at every depth, in pre-order: each entry comes
   * right before the entries of its dependents.
   */
  function Flatten(level: seq<Entry>): (all: seq<Entry>)
    ensures |all| >= |level|
    ensures forall e :: e in level ==> e in all
  {
    if level == [] then []
    else
      var last := level[|level| - 1];
      Flatten(level[..|level| - 1]) + [last] + Flatten(last.request.dependentRequests)
  }

  /** The ids used anywhere in the tree. */
  function Ids(level: seq<Entry>): set<string>
  {
    set e | e in Flatten(level) :: e.id
  }

  /** The number of entries below the top level, summed over `level`. */
  function DependentCount(level: seq<Entry>): nat
  {
    if level == [] then 0
    else DependentCount(level[..|level| - 1]) + |Flatten(level[|level| - 1].request.dependentRequests)|
  }

  lemma {:induction false} FlattenSize(level: seq<Entry>)
    ensures |Flatten(level)| == |level| + DependentCount(level)
  {
    if level != [] {
      FlattenSize(level[..|level| - 1]);
    }
  }

  /**
   * `totalRequestCount`: the size of the map plus, for each of its requests,
   * the total count of its dependents, so every entry at every depth counts
   * once.
   */
  method TotalRequestCount(individualRequests: seq<Entry>) returns (count: nat)
    ensures count == |Flatten(individualRequests)|
    decreases individualRequests
  {
    count := |individualRequests|;
    for i := 0 to |individualRequests|
      invariant count == |individualRequests| + DependentCount(individualRequests[..i])
    {
      var dependents := TotalRequestCount(individualRequests[i].request.dependentRequests);
      assert individualRequests[..i + 1][..i] == individualRequests[..i];
      count := count + dependents;
    }
    assert individualRequests[..|individualRequests|] == individualRequests;
    FlattenSize(individualRequests);
  }

  /** The count is zero exactly when the top-level map is empty. */
  lemma CountZeroIffEmpty(level: seq<Entry>)
    ensures |Flatten(level)| == 0 <==> level == []
  {
  }

  /** The flattened tree is closed under taking dependents: it holds every depth. */
  lemma {:induction false} FlattenHoldsDependents(level: seq<Entry>, e: Entry, d: Entry)
    requires e in Flatten(level) && d in e.request.dependentRequests
    ensures d in Flatten(level)
  {
    var n := |level|;
    var last := level[n - 1];
    var prefix := level[..n - 1];
    if e in Flatten(prefix) {
      FlattenHoldsDependents(prefix, e, d);
    } else if e == last {
    } else {
      assert e in Flatten(last.request.dependentRequests);
      FlattenHoldsDependents(last.request.dependentRequests, e, d);
    }
  }

  /**
   * The flattened tree holds nothing else: each of its entries is a
   * top-level entry or a dependent of one of its entries.
   */
  lemma {:induction false} FlattenHoldsOnlyTreeEntries(level: seq<Entry>, d: Entry)
    requires d in Flatten(level)
    ensures d in level || exists e :: e in Flatten(level) && d in e.request.dependentRequests
  {
    var n := |level|;
    var last := level[n - 1];
    var prefix := level[..n - 1];
    var deps := last.request.dependentRequests;
    assert Flatten(level) == Flatten(prefix) + [last] + Flatten(deps);
    if d in Flatten(prefix) {
      FlattenHoldsOnlyTreeEntries(prefix, d);
      if d in prefix {
        assert d in level;
      }
    } else if d == last {
    } else {
      assert d in Flatten(deps);
      FlattenHoldsOnlyTreeEntries(deps, d);
      if d in deps {
        assert last in Flatten(level);
      }
    }
  }

  /** Pre-order of a tree with one entry: the entry, then its dependents. */
  lemma {:induction false} FlattenOne(e: Entry)
    ensures Flatten([e]) == [e] + Flatten(e.request.dependentRequests)
  {
    assert [e][..0] == [];
  }

  /** Pre-order splits at the last top-level entry. */
  lemma {:induction false} FlattenSplit(level: seq<Entry>)
    requires level != []
    ensures Flatten(level) == Flatten(level[..|level| - 1]) + Flatten([level[|level| - 1]])
  {
    var last := level[|level| - 1];
    var prefix := Flatten(level[..|level| - 1]);
    var deps := Flatten(last.request.dependentRequests);
    assert Flatten(level) == prefix + [last] + deps;
    FlattenOne(last);
    assert prefix + [last] + deps == prefix + ([last] + deps);
  }


  /** The tree below an entry of the tree is part of the tree. */
  lemma {:induction false} FlattenBelow(level: seq<Entry>, e: Entry, x: Entry)
    requires e in Flatten(level) && x in Flatten(e.request.dependentRequests)
    ensures x in Flatten(level)
  {
    var n := |level|;
    var last := level[n - 1];
    var prefix := level[..n - 1];
    assert Flatten(level) == Flatten(prefix) + [last] + Flatten(last.request.dependentRequests);
    if e in Flatten(prefix) {
      FlattenBelow(prefix, e, x);
    } else if e != last {
      FlattenBelow(last.request.dependentRequests, e, x);
    }
  }
}
