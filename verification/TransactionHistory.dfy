/**
  The transaction history kept in the browser: at most 200 items stored, merged with the
  server's list by id, and descending by the text of their dates.

  Dates are locale strings compared by `localeCompare`, which is any total preorder here.
  Whether that order is also the order of time is a question of its own, answered by
  `MergeIsChronologicalIff`.
*/
module TransactionHistory {
  import opened Common
  import opened StableSorting

  const CAPACITY := 200

  datatype Status = Completed | Scheduled | Processing | Failed | Cancelled

  datatype Tx = Tx(id: string, date: string, amount: real, currency: string, recipient: string, status: Status)

  /** An entry of the server's list; `executed` is the server's word for completed. */
  datatype Remote = Remote(jobId: Option<string>, id: Option<string>, date: Option<string>, amount: real,
                           currency: Option<string>, recipient: Option<string>, executed: bool, status: Status)

  /** `collate(a, b)`: `a` comes no later than `b` in the collation of the browser. */
  type Collation = (string, string) -> bool

  function ByDate(collate: Collation): (Tx, Tx) -> bool {
    (a: Tx, b: Tx) => collate(b.date, a.date)
  }

  function OrElse(o: Option<string>, default: string): string {
    if o.Some? then o.value else default
  }

  /** What the clock gives an entry that lacks them: a name and a date. */
  datatype Reading = Reading(name: string, day: string)

  /** The clock is read anew for every entry of a response. */
  type Clock = nat -> Reading

  /** The stored form of a server entry; without any id of its own it is named after the clock. */
  function ItemOf(r: Remote, now: Reading): Tx {
    Tx(OrElse(r.jobId, OrElse(r.id, now.name)), OrElse(r.date, now.day), r.amount, OrElse(r.currency, "USDm"),
       OrElse(r.recipient, ""), if r.executed then Completed else r.status)
  }

  /** What becomes of a server entry: the job id comes before the entry's own, and what the server calls
      executed is completed. */
  lemma ItemIs(r: Remote, now: Reading)
    ensures var t := ItemOf(r, now);
      && (r.jobId.Some? ==> t.id == r.jobId.value)
      && (r.jobId.None? && r.id.Some? ==> t.id == r.id.value)
      && (r.jobId.None? && r.id.None? ==> t.id == now.name)
      && (r.date.Some? ==> t.date == r.date.value) && (r.date.None? ==> t.date == now.day)
      && t.amount == r.amount
      && (r.currency.Some? ==> t.currency == r.currency.value) && (r.currency.None? ==> t.currency == "USDm")
      && (r.recipient.Some? ==> t.recipient == r.recipient.value) && (r.recipient.None? ==> t.recipient == "")
      && t.status == (if r.executed then Completed else r.status)
  {
  }

  function ItemsOf(rs: seq<Remote>, clock: Clock): seq<Tx> {
    seq(|rs|, i requires 0 <= i < |rs| => ItemOf(rs[i], clock(i)))
  }

  function Ids(s: seq<Tx>): set<string> { set t | t in s :: t.id }

  /** The remote items whose id is not among the local ones. */
  function New(ids: set<string>, remote: seq<Tx>): seq<Tx> {
    if remote == [] then []
    else (if remote[0].id in ids then [] else [remote[0]]) + New(ids, remote[1..])
  }

  function Merge(local: seq<Tx>, remote: seq<Tx>, collate: Collation): seq<Tx> {
    StableSort(local + New(Ids(local), remote), ByDate(collate))
  }

  function FirstItems(s: seq<Tx>): seq<Tx> {
    if |s| <= CAPACITY then s else s[..CAPACITY]
  }

  lemma FirstItemsAre(s: seq<Tx>)
    ensures FirstItems(s) <= s && |FirstItems(s)| == if |s| < 200 then |s| else 200
  {
  }

  // ---------------------------------------------------------------------------
  // Merging
  // ---------------------------------------------------------------------------

  lemma {:induction false} NewMembers(ids: set<string>, remote: seq<Tx>)
    ensures forall t :: t in New(ids, remote) <==> t in remote && t.id !in ids
    ensures (forall t :: t in remote ==> t.id in ids) <==> New(ids, remote) == []
  {
    if remote == [] {
    } else {
      NewMembers(ids, remote[1..]);
      assert remote == [remote[0]] + remote[1..];
      if remote[0].id !in ids { assert remote[0] in remote; }
    }
  }

  /** The new items keep their order, and each is as often there as in the answer. */
  lemma {:induction false} NewInOrder(ids: set<string>, a: seq<Tx>, b: seq<Tx>, t: Tx)
    ensures New(ids, [t]) == if t.id in ids then [] else [t]
    ensures New(ids, a + b) == New(ids, a) + New(ids, b)
  {
    if a == [] {
      assert a + b == b && [] + New(ids, b) == New(ids, b);
    } else {
      assert (a + b)[1..] == a[1..] + b;
      NewInOrder(ids, a[1..], b, t);
      Associate(if a[0].id in ids then [] else [a[0]], New(ids, a[1..]), New(ids, b));
    }
  }

  lemma Associate<T>(a: seq<T>, b: seq<T>, c: seq<T>)
    ensures (a + b) + c == a + (b + c)
  {
  }

  lemma ByDatePreorder(collate: Collation)
    requires TotalPreorder(collate)
    ensures TotalPreorder(ByDate(collate))
  {
    var le := ByDate(collate);
    forall a, b ensures le(a, b) || le(b, a) { assert collate(a.date, b.date) || collate(b.date, a.date); }
    forall a, b, c | le(a, b) && le(b, c) ensures le(a, c) { assert collate(c.date, b.date) && collate(b.date, a.date); }
  }

  /** A merge keeps every local item, adds every remote item whose id is not local and nothing
      else, descends by date, and keeps the order of items of the same date, local ones first. */
  lemma MergeKeepsAll(local: seq<Tx>, remote: seq<Tx>, collate: Collation)
    requires TotalPreorder(collate)
    ensures var m := Merge(local, remote, collate);
      && multiset(m) == multiset(local) + multiset(New(Ids(local), remote))
      && (forall t :: t in m <==> t in local || (t in remote && t.id !in Ids(local)))
      && Ids(m) == Ids(local) + Ids(remote)
      && Sorted(m, ByDate(collate)) && (forall i, j :: 0 <= i < j < |m| ==> collate(m[j].date, m[i].date))
      && forall t: Tx :: Ties(m, t, ByDate(collate)) == Ties(local + New(Ids(local), remote), t, ByDate(collate))
  {
    var le, all := ByDate(collate), local + New(Ids(local), remote);
    ByDatePreorder(collate);
    NewMembers(Ids(local), remote);
    SortPermutes(all, le);
    SortSorts(all, le);
    SameElements(all, StableSort(all, le));
    forall t: Tx ensures Ties(StableSort(all, le), t, le) == Ties(all, t, le) { SortIsStable(all, t, le); }
    var m := Merge(local, remote, collate);
    forall i, j | 0 <= i < j < |m| ensures collate(m[j].date, m[i].date) { assert le(m[i], m[j]); }
    forall id | id in Ids(local) + Ids(remote) ensures id in Ids(m) {
      if id in Ids(local) {
        var t :| t in local && t.id == id;
        assert t in m;
      } else {
        var t :| t in remote && t.id == id;
        assert t in m;
      }
    }
  }

  /**
    Syncing again with the same answer gives the same list exactly when the server items that
    were not stored, in date order, are what was cut off.
  */
  lemma ResyncStableIff(local: seq<Tx>, remote: seq<Tx>, collate: Collation)
    requires TotalPreorder(collate)
    ensures var m := Merge(local, remote, collate);
      var stored := FirstItems(m);
      Merge(stored, remote, collate) == m <==>
        StableSort(New(Ids(stored), remote), ByDate(collate)) == m[|stored|..]
  {
    var m := Merge(local, remote, collate);
    var stored := FirstItems(m);
    MergeKeepsAll(local, remote, collate);
    assert m == stored + m[|stored|..];
    ResortIff(stored, m[|stored|..], New(Ids(stored), remote), ByDate(collate));
  }

  /** In particular when the merge fits into the store. */
  lemma ResyncStableWhenItFits(local: seq<Tx>, remote: seq<Tx>, collate: Collation)
    requires TotalPreorder(collate)
    requires |Merge(local, remote, collate)| <= CAPACITY
    ensures Merge(FirstItems(Merge(local, remote, collate)), remote, collate) == Merge(local, remote, collate)
  {
    var m := Merge(local, remote, collate);
    MergeKeepsAll(local, remote, collate);
    forall t | t in remote ensures t.id in Ids(m) { assert t.id in Ids(remote); }
    NewMembers(Ids(m), remote);
    ResyncStableIff(local, remote, collate);
  }

  predicate Named(r: Remote) { r.jobId.Some? || r.id.Some? }

  /** Server entries with an id of their own keep it from sync to sync, and with a date they are the
      same items altogether. */
  lemma NamedEntriesAreStable(rs: seq<Remote>, clock: Clock, clock': Clock)
    requires forall r :: r in rs ==> Named(r)
    ensures forall i :: 0 <= i < |rs| ==> ItemsOf(rs, clock)[i].id == ItemsOf(rs, clock')[i].id
    ensures (forall r :: r in rs ==> r.date.Some?) ==> ItemsOf(rs, clock) == ItemsOf(rs, clock')
  {
    forall i | 0 <= i < |rs|
      ensures ItemOf(rs[i], clock(i)).id == ItemOf(rs[i], clock'(i)).id
      ensures rs[i].date.Some? ==> ItemOf(rs[i], clock(i)) == ItemOf(rs[i], clock'(i))
    {
      assert rs[i] in rs;
    }
  }

  /** An entry without an id comes back as a new item when the clock names it anew. */
  lemma AnonymousEntryDuplicates(local: seq<Tx>, rs: seq<Remote>, i: nat, clock: Clock, collate: Collation)
    requires TotalPreorder(collate)
    requires i < |rs| && !Named(rs[i]) && clock(i).name !in Ids(local)
    ensures ItemOf(rs[i], clock(i)) in Merge(local, ItemsOf(rs, clock), collate)
    ensures ItemOf(rs[i], clock(i)) !in local
  {
    var items := ItemsOf(rs, clock);
    MergeKeepsAll(local, items, collate);
    assert items[i] in items;
  }

  /** When every id of the answer is already local, a merge only sorts what is there. */
  lemma NothingNew(local: seq<Tx>, remote: seq<Tx>, collate: Collation)
    requires Sorted(local, ByDate(collate)) && Ids(remote) <= Ids(local)
    ensures Merge(local, remote, collate) == local
  {
    forall t | t in remote ensures t.id in Ids(local) { assert t.id in Ids(remote); }
    NewMembers(Ids(local), remote);
    SortAfterPrefix(local, [], ByDate(collate));
    assert local + [] == local;
  }

  /** Every entry without an id gets a name that is there already. */
  ghost predicate NamesRepeat(rs: seq<Remote>, clock: Clock, ids: set<string>) {
    forall i :: 0 <= i < |rs| && !Named(rs[i]) ==> clock(i).name in ids
  }

  lemma SecondIds(rs: seq<Remote>, clock: Clock, clock': Clock, ids: set<string>)
    requires Ids(ItemsOf(rs, clock)) <= ids && NamesRepeat(rs, clock', ids)
    ensures Ids(ItemsOf(rs, clock')) <= ids
  {
    var first, second := ItemsOf(rs, clock), ItemsOf(rs, clock');
    forall id | id in Ids(second) ensures id in ids {
      var t :| t in second && t.id == id;
      var i :| 0 <= i < |rs| && second[i] == t;
      assert first[i] in first;
      assert second[i].id == ItemOf(rs[i], clock'(i)).id && first[i].id == ItemOf(rs[i], clock(i)).id;
      if Named(rs[i]) { assert first[i].id == id; }
    }
  }

  /**
    Two syncs with the same response of the server, the second at another time, give the same
    list, when the first fits into the store, exactly if every entry has an id of its own or is
    given a name by the clock that is in the list already.
  */
  lemma SecondSyncSameIff(local: seq<Tx>, rs: seq<Remote>, clock: Clock, clock': Clock, collate: Collation)
    requires TotalPreorder(collate)
    requires |Merge(local, ItemsOf(rs, clock), collate)| <= CAPACITY
    ensures var m := Merge(local, ItemsOf(rs, clock), collate);
      Merge(FirstItems(m), ItemsOf(rs, clock'), collate) == m <==> NamesRepeat(rs, clock', Ids(m))
  {
    var m := Merge(local, ItemsOf(rs, clock), collate);
    MergeKeepsAll(local, ItemsOf(rs, clock), collate);
    if NamesRepeat(rs, clock', Ids(m)) {
      SecondIds(rs, clock, clock', Ids(m));
      NothingNew(m, ItemsOf(rs, clock'), collate);
    } else {
      var i :| 0 <= i < |rs| && !Named(rs[i]) && clock'(i).name !in Ids(m);
      AnonymousEntryDuplicates(m, rs, i, clock', collate);
    }
  }

  // ---------------------------------------------------------------------------
  // The order of time
  // ---------------------------------------------------------------------------

  /** The instant that a date string stands for. */
  type Calendar = string -> int

  function NoOlder(instant: Calendar): (Tx, Tx) -> bool {
    (a: Tx, b: Tx) => instant(a.date) >= instant(b.date)
  }

  /** Newest first. */
  ghost predicate Chronological(s: seq<Tx>, instant: Calendar) {
    Sorted(s, NoOlder(instant))
  }

  /**
    A merge is newest first exactly when, on the dates present, the collation never puts an older
    date above a newer one, and items whose dates it does not tell apart were newest first before.
  */
  lemma MergeIsChronologicalIff(local: seq<Tx>, remote: seq<Tx>, collate: Collation, instant: Calendar)
    requires TotalPreorder(collate)
    ensures var all := local + New(Ids(local), remote);
      Chronological(Merge(local, remote, collate), instant)
      <==> Agrees(all, ByDate(collate), NoOlder(instant)) && TiesMeet(all, ByDate(collate), NoOlder(instant))
  {
    ByDatePreorder(collate);
    SortMeetsIff(local + New(Ids(local), remote), ByDate(collate), NoOlder(instant));
  }

  /** What is kept of a list is no older than what is cut off. */
  ghost predicate CutKeepsNewest(m: seq<Tx>, instant: Calendar) {
    forall i, j :: 0 <= i < 200 <= j < |m| ==> instant(m[i].date) >= instant(m[j].date)
  }

  /** Items before the merge, with their places in it: none of the first 200 is older than one of the
      rest. */
  ghost predicate PlacesKeepNewest(all: seq<Tx>, le: (Tx, Tx) -> bool, instant: Calendar) {
    forall i: nat, j: nat :: i < |all| && j < |all| && Place(all, i, le) < 200 <= Place(all, j, le) ==>
      instant(all[i].date) >= instant(all[j].date)
  }

  /** The cut drops nothing newer than what it keeps exactly when, counting for each item those that the
      collation puts before it and those tied with it that were before it, no item with fewer than
      200 is older than one with more. */
  lemma CutKeepsNewestIff(local: seq<Tx>, remote: seq<Tx>, collate: Collation, instant: Calendar)
    requires TotalPreorder(collate)
    ensures CutKeepsNewest(Merge(local, remote, collate), instant)
      <==> PlacesKeepNewest(local + New(Ids(local), remote), ByDate(collate), instant)
  {
    var all, le := local + New(Ids(local), remote), ByDate(collate);
    var m := Merge(local, remote, collate);
    ByDatePreorder(collate);
    SortPermutes(all, le);
    if CutKeepsNewest(m, instant) {
      forall i: nat, j: nat | i < |all| && j < |all| && Place(all, i, le) < CAPACITY <= Place(all, j, le)
        ensures instant(all[i].date) >= instant(all[j].date)
      {
        SortPlaces(all, i, le);
        SortPlaces(all, j, le);
        assert instant(m[Place(all, i, le)].date) >= instant(m[Place(all, j, le)].date);
      }
    }
    if PlacesKeepNewest(all, le, instant) {
      forall a, b | 0 <= a < CAPACITY <= b < |m| ensures instant(m[a].date) >= instant(m[b].date) {
        var i := PlaceIsTaken(all, a, le);
        var j := PlaceIsTaken(all, b, le);
        SortPlaces(all, i, le);
        SortPlaces(all, j, le);
        assert Place(all, i, le) < CAPACITY <= Place(all, j, le);
      }
    }
  }

  /** In particular a merge that is newest first is cut rightly. */
  lemma ChronologicalCut(local: seq<Tx>, remote: seq<Tx>, collate: Collation, instant: Calendar)
    requires Chronological(Merge(local, remote, collate), instant)
    ensures CutKeepsNewest(Merge(local, remote, collate), instant)
    ensures var m := Merge(local, remote, collate);
      forall kept, dropped :: kept in FirstItems(m) && dropped in m[|FirstItems(m)|..] ==>
        instant(kept.date) >= instant(dropped.date)
  {
    var m := Merge(local, remote, collate);
    var n := |FirstItems(m)|;
    forall i, j | 0 <= i < j < |m| ensures instant(m[i].date) >= instant(m[j].date) {
      assert NoOlder(instant)(m[i], m[j]);
    }
    forall kept, dropped | kept in FirstItems(m) && dropped in m[n..] ensures instant(kept.date) >= instant(dropped.date) {
      var i :| 0 <= i < n && m[i] == kept;
      var j :| n <= j < |m| && m[j] == dropped;
    }
  }

  /**
    And it does go wrong.  As text "12/31/2023" comes after "1/2/2024", so with 200 stored items of
    the last day of 2023, a new one of January 2024 sorts below them all and is cut off.
  */
  lemma NewestCanBeCutOff(local: seq<Tx>, late: Tx, collate: Collation, instant: Calendar)
    requires TotalPreorder(collate) && !collate("12/31/2023", "1/2/2024")
    requires instant("12/31/2023") < instant("1/2/2024")
    requires |local| == 200 && forall t :: t in local ==> t.date == "12/31/2023"
    requires late.date == "1/2/2024" && late.id !in Ids(local)
    ensures var m := Merge(local, [late], collate);
      m == local + [late] && FirstItems(m) == local && !Chronological(m, instant) && !CutKeepsNewest(m, instant)
  {
    var le := ByDate(collate);
    assert collate("1/2/2024", "12/31/2023") && collate("12/31/2023", "12/31/2023");
    assert New(Ids(local), [late]) == [late];
    assert forall i :: 0 <= i < |local| ==> local[i] in local;
    SortAfterPrefix(local, [late], le);
    assert StableSort([late], le) == [late];
    var m := local + [late];
    assert m[0] in local && m[CAPACITY] == late;
    assert !NoOlder(instant)(m[0], m[CAPACITY]);
  }

  // ---------------------------------------------------------------------------
  // The service
  // ---------------------------------------------------------------------------

  ghost predicate FirstWithId(s: seq<Tx>, id: string, k: int) {
    0 <= k < |s| && s[k].id == id && forall j :: 0 <= j < k ==> s[j].id != id
  }

  class HistoryService {
    var stored: seq<Tx>

    constructor ()
      ensures stored == []
    {
      stored := [];
    }

    /** `saveToStorage`: a refused write is ignored. */
    method Save(items: seq<Tx>, writable: bool)
      modifies this
      ensures stored == if writable then items else old(stored)
    {
      if writable { stored := items; }
    }

    /** `addTransaction`: in front, and the last one dropped beyond the capacity. */
    method AddTransaction(item: Tx, writable: bool)
      modifies this
      ensures stored == if writable then FirstItems([item] + old(stored)) else old(stored)
      ensures writable ==> |stored| <= 200 && stored[0] == item
    {
      var history := [item] + stored;
      Save(if |history| <= CAPACITY then history else history[..CAPACITY], writable);
    }

    method FindIndex(id: string) returns (index: int)
      ensures -1 <= index < |stored|
      ensures index >= 0 ==> FirstWithId(stored, id, index)
      ensures index == -1 <==> id !in Ids(stored)
    {
      for i := 0 to |stored|
        invariant forall k :: 0 <= k < i ==> stored[k].id != id
      {
        if stored[i].id == id {
          assert stored[i] in stored;
          return i;
        }
      }
      index := -1;
    }

    /** `updateTransactionStatus`: the first item with the id gets the status, nothing else changes.  The
        updated item is returned even if it could not be written. */
    method UpdateTransactionStatus(id: string, status: Status, writable: bool) returns (updated: Option<Tx>)
      modifies this
      ensures updated.None? <==> id !in old(Ids(stored))
      ensures updated.None? || !writable ==> stored == old(stored)
      ensures |stored| == |old(stored)|
      ensures updated.Some? ==>
        exists k :: FirstWithId(old(stored), id, k) && updated.value == old(stored)[k].(status := status)
          && (writable ==> stored == old(stored)[k := updated.value])
      ensures forall collate: Collation :: Sorted(old(stored), ByDate(collate)) ==> Sorted(stored, ByDate(collate))
    {
      var index := FindIndex(id);
      if index == -1 { return None; }
      assert FirstWithId(stored, id, index);
      updated := Some(stored[index].(status := status));
      Save(stored[index := updated.value], writable);
    }

    /** `syncTransactionHistory`: on any failure the stored list is returned as it is. */
    method Sync(answer: Option<seq<Remote>>, clock: Clock, collate: Collation, writable: bool) returns (result: seq<Tx>)
      requires TotalPreorder(collate)
      modifies this
      ensures answer.None? ==> result == stored == old(stored)
      ensures answer.Some? ==>
        && result == Merge(old(stored), ItemsOf(answer.value, clock), collate)
        && stored == if writable then FirstItems(result) else old(stored)
      ensures forall t :: t in old(stored) ==> t in result
    {
      if answer.None? { return stored; }
      var remote := ItemsOf(answer.value, clock);
      MergeKeepsAll(stored, remote, collate);
      var merged := stored + New(Ids(stored), remote);
      merged := StableSort(merged, ByDate(collate));
      Save(if |merged| <= CAPACITY then merged else merged[..CAPACITY], writable);
      result := merged;
    }
  }
}
