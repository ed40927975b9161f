/**
  The in-memory queue store (src/store/queue.store.ts).

  The store holds one ordered list of entries. Each of its four actions
  replaces that list by a new one computed from the old: `Added` (array
  spread), `Without` (filter), `WithStatus` and `MarkedServed` (map with an
  object spread). The class `QueueStore` owns the list and its methods assign
  the new value, as the store's `set` calls do.
*/
module Queue {
  import opened Optional

  /** The four values the entry's `status` property may take. */
  datatype Status = Waiting | Serving | Served | Cancelled

  /** The join time, as supplied by the caller's clock. */
  type Timestamp = int

  datatype QueueEntry = QueueEntry(
    id: string,
    name: string,
    phone: Option<string>,
    position: int,
    status: Status,
    joinedAt: Timestamp,
    expectedWaitTime: int)

  /** Minutes of waiting assumed for every entry ahead in the list. */
  const MinutesPerCustomer: int := 10

  /** The entry `addToQueue` builds when the list currently is `entries`. */
  function NewEntry(entries: seq<QueueEntry>, id: string, name: string,
                    phone: Option<string>, now: Timestamp): (e: QueueEntry)
    ensures e.id == id && e.name == name && e.phone == phone && e.joinedAt == now
    ensures e.status == Waiting
    ensures e.position == |entries| + 1
    ensures e.expectedWaitTime == |entries| * MinutesPerCustomer == (e.position - 1) * MinutesPerCustomer
  {
    QueueEntry(id, name, phone, |entries| + 1, Waiting, now, |entries| * MinutesPerCustomer)
  }

  /** The list after `addToQueue`: the old list with the new entry at its end. */
  function Added(entries: seq<QueueEntry>, id: string, name: string,
                 phone: Option<string>, now: Timestamp): (r: seq<QueueEntry>)
    ensures |r| == |entries| + 1
    ensures r[..|entries|] == entries
    ensures r[|entries|].id == id && r[|entries|].name == name
    ensures r[|entries|].phone == phone && r[|entries|].joinedAt == now
    ensures r[|entries|].status == Waiting
    ensures r[|entries|].position == |entries| + 1
    ensures r[|entries|].expectedWaitTime == (r[|entries|].position - 1) * MinutesPerCustomer >= 0
  {
    entries + [NewEntry(entries, id, name, phone, now)]
  }

  /** The list after `removeFromQueue(id)`: the entries whose id differs from `id`. */
  function Without(entries: seq<QueueEntry>, id: string): (r: seq<QueueEntry>)
    ensures |r| <= |entries|
    ensures forall k :: 0 <= k < |r| ==> r[k].id != id
  {
    if entries == [] then []
    else if entries[0].id != id then [entries[0]] + Without(entries[1..], id)
    else Without(entries[1..], id)
  }

  /** The list after `updateStatus(id, status)`. */
  function WithStatus(entries: seq<QueueEntry>, id: string, status: Status): (r: seq<QueueEntry>)
    ensures |r| == |entries|
    ensures forall k :: 0 <= k < |r| ==>
      r[k] == if entries[k].id == id then entries[k].(status := status) else entries[k]
  {
    if entries == [] then []
    else [if entries[0].id == id then entries[0].(status := status) else entries[0]]
         + WithStatus(entries[1..], id, status)
  }

  /**
    The list after `markAsServed(id)`, written out as the store writes it: its
    own map, which has the effect of `updateStatus(id, 'served')`.
  */
  function MarkedServed(entries: seq<QueueEntry>, id: string): (r: seq<QueueEntry>)
    ensures r == WithStatus(entries, id, Served)
  {
    if entries == [] then []
    else [if entries[0].id == id then entries[0].(status := Served) else entries[0]]
         + MarkedServed(entries[1..], id)
  }

  // ---------------------------------------------------------------------------
  // addToQueue

  /** A call of `addToQueue`, with the id and clock reading it would generate. */
  datatype JoinRequest = JoinRequest(id: string, name: string, phone: Option<string>, at: Timestamp)

  /** The list after `addToQueue` has been called once for each request, in order. */
  function AddedAll(entries: seq<QueueEntry>, requests: seq<JoinRequest>): seq<QueueEntry>
    decreases |requests|
  {
    if requests == [] then entries
    else
      var last := requests[|requests| - 1];
      Added(AddedAll(entries, requests[..|requests| - 1]), last.id, last.name, last.phone, last.at)
  }

  /**
    Consecutive calls keep the old list as a prefix and give the k-th new entry
    position |entries| + k + 1 and a wait of (|entries| + k) * 10 minutes.
  */
  lemma {:induction false} AddedAllPositions(entries: seq<QueueEntry>, requests: seq<JoinRequest>)
    ensures |AddedAll(entries, requests)| == |entries| + |requests|
    ensures AddedAll(entries, requests)[..|entries|] == entries
    ensures forall k :: 0 <= k < |requests| ==>
      AddedAll(entries, requests)[|entries| + k] ==
        QueueEntry(requests[k].id, requests[k].name, requests[k].phone, |entries| + k + 1,
                   Waiting, requests[k].at, (|entries| + k) * MinutesPerCustomer)
    decreases |requests|
  {
    if requests != [] {
      var n := |requests| - 1;
      AddedAllPositions(entries, requests[..n]);
      var prev := AddedAll(entries, requests[..n]);
      var r := AddedAll(entries, requests);
      assert r == prev + [NewEntry(prev, requests[n].id, requests[n].name, requests[n].phone, requests[n].at)];
      forall k | 0 <= k < |requests|
        ensures r[|entries| + k] ==
          QueueEntry(requests[k].id, requests[k].name, requests[k].phone, |entries| + k + 1,
                     Waiting, requests[k].at, (|entries| + k) * MinutesPerCustomer)
      {
        if k < n {
          assert r[|entries| + k] == prev[|entries| + k];
          assert requests[..n][k] == requests[k];
        }
      }
      calc {
        r[..|entries|];
        prev[..|entries|];
        entries;
      }
    }
  }

  /** From the empty store, N calls give positions 1..N and waits 0, 10, ..., (N-1)*10 in call order. */
  lemma FromEmptyPositions(requests: seq<JoinRequest>)
    ensures |AddedAll([], requests)| == |requests|
    ensures forall k :: 0 <= k < |requests| ==>
      AddedAll([], requests)[k].position == k + 1 &&
      AddedAll([], requests)[k].expectedWaitTime == k * MinutesPerCustomer &&
      AddedAll([], requests)[k].id == requests[k].id &&
      AddedAll([], requests)[k].name == requests[k].name &&
      AddedAll([], requests)[k].status == Waiting
  {
    AddedAllPositions([], requests);
  }

  // ---------------------------------------------------------------------------
  // removeFromQueue

  /** An entry survives removal exactly when it was in the list with another id; it is kept as it was. */
  lemma {:induction false} WithoutMember(entries: seq<QueueEntry>, id: string, e: QueueEntry)
    ensures e in Without(entries, id) <==> e in entries && e.id != id
  {
    if entries != [] {
      WithoutMember(entries[1..], id, e);
      assert entries == [entries[0]] + entries[1..];
    }
  }

  /** Removal distributes over concatenation: relative order is kept. */
  lemma {:induction false} WithoutConcat(a: seq<QueueEntry>, b: seq<QueueEntry>, id: string)
    ensures Without(a + b, id) == Without(a, id) + Without(b, id)
  {
    if a == [] {
      assert a + b == b;
    } else {
      assert (a + b)[1..] == a[1..] + b;
      WithoutConcat(a[1..], b, id);
    }
  }

  /** Removing one entry's worth of list keeps it or drops it, by its id alone. */
  lemma WithoutSingle(e: QueueEntry, id: string)
    ensures Without([e], id) == if e.id == id then [] else [e]
  {
    assert [e][1..] == [];
  }

  /** The list is unchanged exactly when no entry carries the id. */
  lemma {:induction false} WithoutAbsent(entries: seq<QueueEntry>, id: string)
    ensures Without(entries, id) == entries <==> forall k :: 0 <= k < |entries| ==> entries[k].id != id
  {
    if entries != [] {
      WithoutAbsent(entries[1..], id);
      if forall k :: 0 <= k < |entries| ==> entries[k].id != id {
        assert forall k :: 0 <= k < |entries[1..]| ==> entries[1..][k].id != id by {
          forall k | 0 <= k < |entries[1..]| ensures entries[1..][k].id != id {
            assert entries[1..][k] == entries[k + 1];
          }
        }
        assert entries == [entries[0]] + entries[1..];
      }
    }
  }

  /** Removing the same id twice is the same as removing it once. */
  lemma WithoutIdempotent(entries: seq<QueueEntry>, id: string)
    ensures Without(Without(entries, id), id) == Without(entries, id)
  {
    WithoutAbsent(Without(entries, id), id);
  }

  /** The length drops by exactly the number of entries carrying the id. */
  function CountId(entries: seq<QueueEntry>, id: string): nat
  {
    if entries == [] then 0
    else (if entries[0].id == id then 1 else 0) + CountId(entries[1..], id)
  }

  lemma {:induction false} WithoutLength(entries: seq<QueueEntry>, id: string)
    ensures |Without(entries, id)| == |entries| - CountId(entries, id)
  {
    if entries != [] {
      WithoutLength(entries[1..], id);
    }
  }

  // ---------------------------------------------------------------------------
  // updateStatus and markAsServed

  /** A later status update of the same id overrides an earlier one. */
  lemma WithStatusLastWins(entries: seq<QueueEntry>, id: string, s: Status, t: Status)
    ensures WithStatus(WithStatus(entries, id, s), id, t) == WithStatus(entries, id, t)
  {
  }

  /** An update for an id no entry carries changes nothing. */
  lemma WithStatusAbsent(entries: seq<QueueEntry>, id: string, s: Status)
    requires forall k :: 0 <= k < |entries| ==> entries[k].id != id
    ensures WithStatus(entries, id, s) == entries
  {
  }

  /**
    No transition table exists: any status can be followed by any other,
    `Served` back to `Waiting` included, and restoring an entry's status
    restores the list.
  */
  lemma WithStatusReversible(entries: seq<QueueEntry>, k: nat, s: Status)
    requires k < |entries|
    requires forall j :: 0 <= j < |entries| && entries[j].id == entries[k].id ==> j == k
    ensures WithStatus(WithStatus(entries, entries[k].id, s), entries[k].id, entries[k].status) == entries
  {
    WithStatusLastWins(entries, entries[k].id, s, entries[k].status);
  }

  /** Marking the same id as served twice is the same as doing it once. */
  lemma MarkedServedIdempotent(entries: seq<QueueEntry>, id: string)
    ensures MarkedServed(MarkedServed(entries, id), id) == MarkedServed(entries, id)
  {
    WithStatusLastWins(entries, id, Served, Served);
  }

  // ---------------------------------------------------------------------------
  // The invariant every action keeps

  /** An entry's wait is (position - 1) * 10 minutes, and its position is at least 1. */
  predicate WaitMatchesPosition(e: QueueEntry)
  {
    e.position >= 1 && e.expectedWaitTime == (e.position - 1) * MinutesPerCustomer
  }

  predicate WellFormed(entries: seq<QueueEntry>)
  {
    forall k :: 0 <= k < |entries| ==> WaitMatchesPosition(entries[k])
  }

  lemma AddedWellFormed(entries: seq<QueueEntry>, id: string, name: string,
                        phone: Option<string>, now: Timestamp)
    requires WellFormed(entries)
    ensures WellFormed(Added(entries, id, name, phone, now))
  {
    var r := Added(entries, id, name, phone, now);
    forall k | 0 <= k < |r| ensures WaitMatchesPosition(r[k]) {
      if k < |entries| {
        assert r[k] == r[..|entries|][k];
      }
    }
  }

  lemma WithoutWellFormed(entries: seq<QueueEntry>, id: string)
    requires WellFormed(entries)
    ensures WellFormed(Without(entries, id))
  {
    var r := Without(entries, id);
    forall k | 0 <= k < |r| ensures WaitMatchesPosition(r[k]) {
      WithoutMember(entries, id, r[k]);
    }
  }

  lemma WithStatusWellFormed(entries: seq<QueueEntry>, id: string, s: Status)
    requires WellFormed(entries)
    ensures WellFormed(WithStatus(entries, id, s))
  {
  }

  lemma MarkedServedWellFormed(entries: seq<QueueEntry>, id: string)
    requires WellFormed(entries)
    ensures WellFormed(MarkedServed(entries, id))
  {
    WithStatusWellFormed(entries, id, Served);
  }

  // ---------------------------------------------------------------------------
  // Consequences of positions counting every entry

  /**
    Removal does not renumber: after Alice (1) and Bob (2) join and Alice is
    removed, Bob keeps position 2 and a wait of 10 minutes.
  */
  lemma NoRenumbering(a: JoinRequest, b: JoinRequest)
    requires a.id != b.id
    ensures Without(AddedAll([], [a, b]), a.id) ==
      [QueueEntry(b.id, b.name, b.phone, 2, Waiting, b.at, 10)]
  {
    AddedAllPositions([], [a, b]);
    var two := AddedAll([], [a, b]);
    assert two == [two[0], two[1]];
    WithoutConcat([two[0]], [two[1]], a.id);
  }

  /**
    After a removal, a new entry can receive a position another entry already
    holds: Alice and Bob join, Alice is removed, Carol joins with position 2
    like Bob.
  */
  lemma PositionsCanRepeat(a: JoinRequest, b: JoinRequest, c: JoinRequest)
    requires a.id != b.id
    ensures var r := Added(Without(AddedAll([], [a, b]), a.id), c.id, c.name, c.phone, c.at);
            |r| == 2 && r[0].position == 2 && r[1].position == 2
  {
    NoRenumbering(a, b);
  }

  // ---------------------------------------------------------------------------
  // The store

  /** The zustand store: one list of entries, replaced by each action. */
  class QueueStore {
    var entries: seq<QueueEntry>

    ghost predicate Valid()
      reads this
    {
      WellFormed(entries)
    }

    /** The store starts with no entries. */
    constructor ()
      ensures Valid() && entries == []
    {
      entries := [];
    }

    /** `addToQueue(name, phone)`; `id` and `now` stand for the generated id and `new Date()`. */
    method AddToQueue(id: string, name: string, phone: Option<string>, now: Timestamp)
      requires Valid()
      modifies this
      ensures Valid()
      ensures entries == Added(old(entries), id, name, phone, now)
    {
      AddedWellFormed(entries, id, name, phone, now);
      entries := Added(entries, id, name, phone, now);
    }

    /** `removeFromQueue(id)`. */
    method RemoveFromQueue(id: string)
      requires Valid()
      modifies this
      ensures Valid()
      ensures entries == Without(old(entries), id)
    {
      WithoutWellFormed(entries, id);
      entries := Without(entries, id);
    }

    /** `markAsServed(id)`. */
    method MarkAsServed(id: string)
      requires Valid()
      modifies this
      ensures Valid()
      ensures entries == MarkedServed(old(entries), id)
      ensures entries == WithStatus(old(entries), id, Served)
    {
      MarkedServedWellFormed(entries, id);
      entries := MarkedServed(entries, id);
    }

    /** `updateStatus(id, status)`: any status is accepted. */
    method UpdateStatus(id: string, status: Status)
      requires Valid()
      modifies this
      ensures Valid()
      ensures entries == WithStatus(old(entries), id, status)
    {
      WithStatusWellFormed(entries, id, status);
      entries := WithStatus(entries, id, status);
    }
  }
}
