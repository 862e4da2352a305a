/**
  Importing and exporting contacts.  An import walks over a parsed JSON array, skips items
  without name or address and items whose address is already known up to case, and inserts
  the rest in one go at the end.

  It awaits the store twice, before the walk and before the insert, so it is two pieces:
  collecting, on a snapshot, and inserting, into whatever the store is by then.  The snapshot is
  of the database, or, when reading that fails, of a second list in `localStorage`, to which
  contacts go that the database refused.

  `toLowerCase` is an arbitrary function here; nothing depends on what it does.
*/
module Contacts {
  datatype Fields = Fields(name: string, address: string, network: string, city: string, country: string,
                           avatar: string, phone: string, email: string, notes: string,
                           favorite: bool, blocked: bool, group: string)

  datatype Contact = Contact(id: string, fields: Fields, createdAt: string, updatedAt: string)

  /**
    An element of the imported array: null, on which reading a property throws; an object
    whose address is truthy but not a string, on which `toLowerCase` throws when it gets that
    far; or fields, a missing one being the empty string or false.
  */
  datatype Item = Null | BadAddress(name: string) | Item(fields: Fields)

  type Lower = string -> string

  /** Defaults of the insert: only the network has one that is not empty. */
  function WithDefaults(f: Fields): Fields {
    f.(network := if f.network == "" then "celo" else f.network)
  }

  predicate Throws(i: Item) { i.Null? || (i.BadAddress? && i.name != "") }

  predicate Named(i: Item) { i.Item? && i.fields.name != "" && i.fields.address != "" }

  function Known(store: seq<Contact>, lower: Lower): set<string> {
    set c | c in store :: lower(c.fields.address)
  }

  /** What the loop has collected: known addresses, contacts to insert, errors, or that it threw. */
  datatype Import = Import(known: set<string>, accepted: seq<Fields>, errors: nat, thrown: bool)

  function ImportOne(s: Import, i: Item, lower: Lower): Import {
    if s.thrown then s
    else if Throws(i) then s.(thrown := true)
    else if !Named(i) then s.(errors := s.errors + 1)
    else if lower(i.fields.address) in s.known then s.(errors := s.errors + 1)
    else s.(known := s.known + {lower(i.fields.address)}, accepted := s.accepted + [WithDefaults(i.fields)])
  }

  function ImportAll(known: set<string>, items: seq<Item>, lower: Lower): Import {
    if items == [] then Import(known, [], 0, false)
    else ImportOne(ImportAll(known, items[..|items| - 1], lower), items[|items| - 1], lower)
  }

  // ---------------------------------------------------------------------------
  // What an import accepts
  // ---------------------------------------------------------------------------

  predicate Valid(items: seq<Item>) { forall i :: i in items ==> !Throws(i) }

  /** Item `k` has a name and an address that is new, to the store and to the items before it. */
  ghost predicate FirstOfItsAddress(known: set<string>, items: seq<Item>, k: nat, lower: Lower) {
    && k < |items| && items[k].Item? && items[k].fields.name != "" && items[k].fields.address != ""
    && lower(items[k].fields.address) !in known
    && forall j :: 0 <= j < k && Named(items[j]) ==> lower(items[j].fields.address) != lower(items[k].fields.address)
  }

  /** The reference: the fields of exactly those items, in order. */
  ghost function FirstOnes(known: set<string>, items: seq<Item>, lower: Lower): seq<Fields> {
    if items == [] then []
    else
      var m := |items| - 1;
      var last := if FirstOfItsAddress(known, items, m, lower) then [WithDefaults(items[m].fields)] else [];
      FirstOnes(known, items[..m], lower) + last
  }

  ghost function NamedAddresses(items: seq<Item>, lower: Lower): set<string> {
    set i | i in items && Named(i) :: lower(i.fields.address)
  }

  lemma NamedAddressesSnoc(items: seq<Item>, i: Item, lower: Lower)
    ensures NamedAddresses(items + [i], lower) ==
      NamedAddresses(items, lower) + if Named(i) then {lower(i.fields.address)} else {}
  {
  }

  /** The address test of the loop is the test of the reference. */
  lemma KnownSoFar(known: set<string>, items: seq<Item>, k: nat, lower: Lower)
    requires k < |items| && Named(items[k])
    ensures FirstOfItsAddress(known, items, k, lower)
      <==> lower(items[k].fields.address) !in known + NamedAddresses(items[..k], lower)
  {
    var a := lower(items[k].fields.address);
    forall j | 0 <= j < k && Named(items[j]) ensures lower(items[j].fields.address) in NamedAddresses(items[..k], lower) {
      assert items[j] in items[..k];
    }
    if a in NamedAddresses(items[..k], lower) {
      var i :| i in items[..k] && Named(i) && lower(i.fields.address) == a;
      var j :| 0 <= j < k && items[j] == i;
    }
  }

  /** Without a throwing item, the import accepts exactly the first item of every new address, and
      accounts for every item. */
  lemma {:induction false} ImportAccepts(known: set<string>, items: seq<Item>, lower: Lower)
    requires Valid(items)
    ensures var r := ImportAll(known, items, lower);
      && !r.thrown
      && r.accepted == FirstOnes(known, items, lower)
      && |r.accepted| + r.errors == |items|
      && r.known == known + NamedAddresses(items, lower)
  {
    if items == [] {
    } else {
      var m := |items| - 1;
      assert items == items[..m] + [items[m]];
      assert Valid(items[..m]) && !Throws(items[m]);
      ImportAccepts(known, items[..m], lower);
      NamedAddressesSnoc(items[..m], items[m], lower);
      if Named(items[m]) { KnownSoFar(known, items, m, lower); }
    }
  }

  lemma {:induction false} ImportThrowsIff(known: set<string>, items: seq<Item>, lower: Lower)
    ensures ImportAll(known, items, lower).thrown <==> !Valid(items)
    ensures Valid(items) <==> forall i :: i in items ==> i != Null && (i.BadAddress? ==> i.name == "")
  {
    if items == [] {
    } else {
      ImportThrowsIff(known, items[..|items| - 1], lower);
      assert items == items[..|items| - 1] + [items[|items| - 1]];
    }
  }

  // ---------------------------------------------------------------------------
  // Uniqueness and idempotence
  // ---------------------------------------------------------------------------

  function Addresses(fs: seq<Fields>, lower: Lower): set<string> {
    set f | f in fs :: lower(f.address)
  }

  lemma AddressesConcat(a: seq<Fields>, b: seq<Fields>, lower: Lower)
    ensures Addresses(a + b, lower) == Addresses(a, lower) + Addresses(b, lower)
  {
  }

  ghost predicate DistinctAddresses(fs: seq<Fields>, lower: Lower) {
    forall i, j :: 0 <= i < j < |fs| ==> lower(fs[i].address) != lower(fs[j].address)
  }

  /** One more accepted contact, of an address not known so far. */
  lemma AnotherAccepted(known: set<string>, fs: seq<Fields>, f: Fields, lower: Lower)
    requires DistinctAddresses(fs, lower)
    requires lower(f.address) !in known + Addresses(fs, lower)
    ensures DistinctAddresses(fs + [f], lower)
    ensures Addresses(fs + [f], lower) == Addresses(fs, lower) + {lower(f.address)}
  {
    forall g | g in fs ensures lower(g.address) != lower(f.address) {
      assert lower(g.address) in Addresses(fs, lower);
    }
  }

  lemma {:induction false} AcceptedAreNew(known: set<string>, items: seq<Item>, lower: Lower)
    ensures var r := ImportAll(known, items, lower);
      && DistinctAddresses(r.accepted, lower)
      && (forall f :: f in r.accepted ==> lower(f.address) !in known)
      && r.known == known + Addresses(r.accepted, lower)
  {
    if items == [] {
    } else {
      AcceptedAreNew(known, items[..|items| - 1], lower);
      var r := ImportAll(known, items[..|items| - 1], lower);
      var r' := ImportAll(known, items, lower);
      if r'.accepted != r.accepted {
        var f := r'.accepted[|r.accepted|];
        assert r'.accepted == r.accepted + [f];
        AnotherAccepted(known, r.accepted, f, lower);
      }
    }
  }

  /** An import accepts nothing exactly when its snapshot has every address that it names. */
  lemma AcceptsNothingIff(known: set<string>, items: seq<Item>, lower: Lower)
    requires Valid(items)
    ensures var r := ImportAll(known, items, lower);
      r.accepted == [] && r.errors == |items| && !r.thrown <==> NamedAddresses(items, lower) <= known
  {
    ImportAccepts(known, items, lower);
    AcceptedAreNew(known, items, lower);
    if NamedAddresses(items, lower) <= known { NothingFirst(known, items, lower); }
  }

  /** A second import of the same items, on a snapshot of the store that the first left behind,
      accepts nothing. */
  lemma ReimportAcceptsNothing(store: seq<Fields>, items: seq<Item>, lower: Lower)
    requires Valid(items)
    ensures var after := store + ImportAll(Addresses(store, lower), items, lower).accepted;
      var again := ImportAll(Addresses(after, lower), items, lower);
      again.accepted == [] && again.errors == |items| && !again.thrown
  {
    var first := ImportAll(Addresses(store, lower), items, lower);
    ImportAccepts(Addresses(store, lower), items, lower);
    AcceptedAreNew(Addresses(store, lower), items, lower);
    AddressesConcat(store, first.accepted, lower);
    AcceptsNothingIff(Addresses(store + first.accepted, lower), items, lower);
  }

  lemma {:induction false} NothingFirst(known: set<string>, items: seq<Item>, lower: Lower)
    requires NamedAddresses(items, lower) <= known
    ensures FirstOnes(known, items, lower) == []
  {
    if items == [] {
    } else {
      var m := |items| - 1;
      assert items == items[..m] + [items[m]];
      NamedAddressesSnoc(items[..m], items[m], lower);
      NothingFirst(known, items[..m], lower);
    }
  }

  // ---------------------------------------------------------------------------
  // Export and import
  // ---------------------------------------------------------------------------

  /** `JSON.parse(exportContacts(contacts))`, as the import reads it. */
  function Exported(contacts: seq<Contact>): seq<Item> {
    seq(|contacts|, i requires 0 <= i < |contacts| => Item(contacts[i].fields))
  }

  function FieldsOf(contacts: seq<Contact>): seq<Fields> {
    seq(|contacts|, i requires 0 <= i < |contacts| => contacts[i].fields)
  }

  /** What a list of contacts must satisfy to survive the round trip. */
  ghost predicate Portable(contacts: seq<Contact>, lower: Lower) {
    && (forall c :: c in contacts ==> c.fields.name != "" && c.fields.address != "" && c.fields.network != "")
    && DistinctAddresses(FieldsOf(contacts), lower)
  }

  lemma PrefixFirst(known: set<string>, items: seq<Item>, m: nat, k: nat, lower: Lower)
    requires k < m <= |items|
    ensures FirstOfItsAddress(known, items[..m], k, lower) <==> FirstOfItsAddress(known, items, k, lower)
  {
    assert items[..m][..k] == items[..k];
  }

  ghost predicate AllFirsts(known: set<string>, items: seq<Item>, lower: Lower) {
    forall k :: 0 <= k < |items| ==> FirstOfItsAddress(known, items, k, lower)
  }

  lemma AllFirstsSnoc(known: set<string>, items: seq<Item>, lower: Lower)
    requires items != []
    ensures AllFirsts(known, items, lower) <==>
      AllFirsts(known, items[..|items| - 1], lower) && FirstOfItsAddress(known, items, |items| - 1, lower)
  {
    var m := |items| - 1;
    forall k | 0 <= k < m ensures FirstOfItsAddress(known, items[..m], k, lower) <==> FirstOfItsAddress(known, items, k, lower) {
      PrefixFirst(known, items, m, k, lower);
    }
  }

  /** Nothing is lost exactly when every item is the first of its address. */
  lemma {:induction false} AllFirst(known: set<string>, items: seq<Item>, lower: Lower)
    ensures |FirstOnes(known, items, lower)| <= |items|
    ensures |FirstOnes(known, items, lower)| == |items| <==> AllFirsts(known, items, lower)
    ensures |FirstOnes(known, items, lower)| == |items| ==>
      forall k :: 0 <= k < |items| ==> items[k].Item? && FirstOnes(known, items, lower)[k] == WithDefaults(items[k].fields)
  {
    if items == [] {
    } else {
      var m := |items| - 1;
      AllFirst(known, items[..m], lower);
      AllFirstsSnoc(known, items, lower);
      if |FirstOnes(known, items, lower)| == |items| {
        var before := FirstOnes(known, items[..m], lower);
        assert FirstOnes(known, items, lower) == before + [WithDefaults(items[m].fields)];
        forall k | 0 <= k < m ensures items[k].Item? && before[k] == WithDefaults(items[k].fields) {
          assert items[..m][k] == items[k];
        }
      }
    }
  }

  lemma PortableImports(contacts: seq<Contact>, lower: Lower)
    requires Portable(contacts, lower)
    ensures FirstOnes({}, Exported(contacts), lower) == FieldsOf(contacts)
  {
    var items, fs := Exported(contacts), FieldsOf(contacts);
    forall k: nat | k < |items| ensures FirstOfItsAddress({}, items, k, lower) && WithDefaults(items[k].fields) == fs[k] {
      assert contacts[k] in contacts;
      assert forall j :: 0 <= j <= k ==> items[j].fields == fs[j];
    }
    AllFirst({}, items, lower);
  }

  lemma ImportedWerePortable(contacts: seq<Contact>, lower: Lower)
    requires FirstOnes({}, Exported(contacts), lower) == FieldsOf(contacts)
    ensures Portable(contacts, lower)
  {
    var items, fs := Exported(contacts), FieldsOf(contacts);
    AllFirst({}, items, lower);
    forall i: nat | i < |contacts|
      ensures Named(items[i]) && contacts[i].fields == WithDefaults(contacts[i].fields)
    {
      assert FirstOfItsAddress({}, items, i, lower) && fs[i] == WithDefaults(items[i].fields);
    }
    forall i, j | 0 <= i < j < |fs| ensures lower(fs[i].address) != lower(fs[j].address) {
      assert FirstOfItsAddress({}, items, j, lower);
      assert Named(items[i]) && items[i].fields == fs[i] && items[j].fields == fs[j];
    }
  }

  /** Exporting contacts and importing them into an empty store reproduces every field of every
      contact, in order, exactly for the portable lists. */
  lemma RoundTripIff(contacts: seq<Contact>, lower: Lower)
    ensures ImportAll({}, Exported(contacts), lower).accepted == FieldsOf(contacts) <==> Portable(contacts, lower)
  {
    ImportAccepts({}, Exported(contacts), lower);
    if Portable(contacts, lower) {
      PortableImports(contacts, lower);
    } else if FirstOnes({}, Exported(contacts), lower) == FieldsOf(contacts) {
      ImportedWerePortable(contacts, lower);
    }
  }

  // ---------------------------------------------------------------------------
  // Overlapping imports
  // ---------------------------------------------------------------------------

  /** An import between its two pieces: the addresses that were in the store and not in its snapshot,
      and those that the store gained since. */
  datatype Waiting = Waiting(accepted: seq<Fields>, missed: set<string>, entered: set<string>)

  /** The database, the list in `localStorage`, and the imports between their pieces. */
  datatype World = World(store: seq<Fields>, fallback: seq<Fields>, waiting: map<nat, Waiting>)

  /** Where a created contact ends up; the caller is told that it was created in any case. */
  datatype Place = Database | LocalStorage | Nowhere

  /** `createContact` adds without any test; a changed address is a deletion and a creation. */
  datatype Event =
    | Collected(call: nat, items: seq<Item>, readOk: bool)
    | Inserted(call: nat)
    | Created(fields: Fields, place: Place)
    | Deleted(index: nat)

  /** `getContacts` */
  function Seen(w: World, readOk: bool): seq<Fields> { if readOk then w.store else w.fallback }

  function Notice(waiting: map<nat, Waiting>, gained: set<string>): map<nat, Waiting> {
    map c | c in waiting :: waiting[c].(entered := waiting[c].entered + gained)
  }

  function Step(w: World, e: Event, lower: Lower): World {
    match e
    case Collected(call, items, readOk) =>
      var seen := Addresses(Seen(w, readOk), lower);
      var r := ImportAll(seen, items, lower);
      if call in w.waiting || r.thrown then w
      else w.(waiting := w.waiting[call := Waiting(r.accepted, Addresses(w.store, lower) - seen, {})])
    case Inserted(call) =>
      if call !in w.waiting then w
      else
        var fs := w.waiting[call].accepted;
        w.(store := w.store + fs, waiting := Notice(w.waiting - {call}, Addresses(fs, lower)))
    case Created(f, Database) => w.(store := w.store + [f], waiting := Notice(w.waiting, {lower(f.address)}))
    case Created(f, LocalStorage) => w.(fallback := w.fallback + [f])
    case Created(_, Nowhere) => w
    case Deleted(k) => if k < |w.store| then w.(store := w.store[..k] + w.store[k + 1..]) else w
  }

  /** A collected import waits unless an item threw; one that waits already is left alone. */
  lemma CollectedWaitsIff(w: World, call: nat, items: seq<Item>, readOk: bool, lower: Lower)
    ensures var r := Step(w, Collected(call, items, readOk), lower);
      && r.store == w.store && r.fallback == w.fallback
      && (call in r.waiting <==> call in w.waiting || Valid(items))
      && (call in w.waiting ==> r == w)
  {
    ImportThrowsIff(Addresses(Seen(w, readOk), lower), items, lower);
  }

  function Opened(store: seq<Fields>, fallback: seq<Fields>): World { World(store, fallback, map[]) }

  function Run(w: World, events: seq<Event>, lower: Lower): World {
    if events == [] then w
    else Step(Run(w, events[..|events| - 1], lower), events[|events| - 1], lower)
  }

  /** What a waiting import accepted is distinct up to case, and if one of its addresses is in the store
      now, the snapshot missed it or it got there afterwards. */
  ghost predicate Tracked(w: World, c: nat, lower: Lower)
    requires c in w.waiting
  {
    && DistinctAddresses(w.waiting[c].accepted, lower)
    && forall f :: f in w.waiting[c].accepted && lower(f.address) in Addresses(w.store, lower) ==>
        lower(f.address) in w.waiting[c].missed + w.waiting[c].entered
  }

  ghost predicate AllTracked(w: World, lower: Lower) {
    forall c :: c in w.waiting ==> Tracked(w, c, lower)
  }

  lemma StepTracks(w: World, e: Event, lower: Lower)
    requires AllTracked(w, lower)
    ensures AllTracked(Step(w, e, lower), lower)
  {
    var w' := Step(w, e, lower);
    match e
    case Collected(call, items, readOk) =>
      AcceptedAreNew(Addresses(Seen(w, readOk), lower), items, lower);
      forall c | c in w'.waiting ensures Tracked(w', c, lower) { assert c in w.waiting ==> Tracked(w, c, lower); }
    case Inserted(call) =>
      if call in w.waiting {
        AddressesConcat(w.store, w.waiting[call].accepted, lower);
        forall c | c in w'.waiting ensures Tracked(w', c, lower) { assert Tracked(w, c, lower); }
      }
    case Created(f, place) =>
      AddressesConcat(w.store, [f], lower);
      forall c | c in w'.waiting ensures Tracked(w', c, lower) { assert Tracked(w, c, lower); }
    case Deleted(k) =>
      assert Addresses(w'.store, lower) <= Addresses(w.store, lower);
      forall c | c in w'.waiting ensures Tracked(w', c, lower) { assert Tracked(w, c, lower); }
  }

  lemma {:induction false} RunTracks(w: World, events: seq<Event>, lower: Lower)
    requires w.waiting == map[]
    ensures AllTracked(Run(w, events, lower), lower)
  {
    if events == [] {
    } else {
      RunTracks(w, events[..|events| - 1], lower);
      StepTracks(Run(w, events[..|events| - 1], lower), events[|events| - 1], lower);
    }
  }

  lemma ConcatDistinctIff(a: seq<Fields>, b: seq<Fields>, lower: Lower)
    requires DistinctAddresses(a, lower) && DistinctAddresses(b, lower)
    ensures DistinctAddresses(a + b, lower) <==> Addresses(a, lower) !! Addresses(b, lower)
  {
    if DistinctAddresses(a + b, lower) {
      forall f, g | f in a && g in b ensures lower(f.address) != lower(g.address) {
        var i :| 0 <= i < |a| && a[i] == f;
        var j :| 0 <= j < |b| && b[j] == g;
        assert (a + b)[i] == f && (a + b)[|a| + j] == g;
      }
    } else {
      var i, j :| 0 <= i < j < |a + b| && lower((a + b)[i].address) == lower((a + b)[j].address);
      assert i < |a| <= j;
      var f, g := a[i], b[j - |a|];
      assert f in a && g in b && lower(f.address) in Addresses(a, lower) && lower(g.address) in Addresses(b, lower);
    }
  }

  lemma InsertIntoTracked(w: World, call: nat, lower: Lower)
    requires call in w.waiting && Tracked(w, call, lower) && DistinctAddresses(w.store, lower)
    ensures var me := w.waiting[call];
      DistinctAddresses(Step(w, Inserted(call), lower).store, lower) <==>
        Addresses(me.accepted, lower) !! (me.missed + me.entered) * Addresses(w.store, lower)
  {
    var me := w.waiting[call];
    ConcatDistinctIff(w.store, me.accepted, lower);
    var mine, there := Addresses(me.accepted, lower), Addresses(w.store, lower);
    assert mine * there <= me.missed + me.entered;
    assert mine !! there <==> mine !! (me.missed + me.entered) * there;
  }

  /**
    In every run, an insert into a store without duplicate addresses keeps it so exactly when none
    of the addresses it accepted was missed by its snapshot, or has entered the store since, and
    is there now.
  */
  lemma InsertKeepsUniqueIff(start: World, events: seq<Event>, call: nat, lower: Lower)
    requires start.waiting == map[]
    requires var w := Run(start, events, lower); call in w.waiting && DistinctAddresses(w.store, lower)
    ensures var w := Run(start, events, lower);
      var me := w.waiting[call];
      DistinctAddresses(Step(w, Inserted(call), lower).store, lower) <==>
        Addresses(me.accepted, lower) !! (me.missed + me.entered) * Addresses(w.store, lower)
  {
    RunTracks(start, events, lower);
    InsertIntoTracked(Run(start, events, lower), call, lower);
  }

  lemma RunSnoc(w: World, events: seq<Event>, e: Event, lower: Lower)
    ensures Run(w, events + [e], lower) == Step(Run(w, events, lower), e, lower)
  {
    assert (events + [e])[..|events|] == events;
  }

  lemma TwoSteps(w: World, e1: Event, e2: Event, lower: Lower)
    ensures Run(w, [] + [e1] + [e2], lower) == Step(Step(w, e1, lower), e2, lower)
  {
    RunSnoc(w, [], e1, lower);
    RunSnoc(w, [] + [e1], e2, lower);
  }

  lemma OneAccepted(known: set<string>, f: Fields, lower: Lower)
    requires f.name != "" && f.address != "" && lower(f.address) !in known
    ensures ImportAll(known, [Item(f)], lower).accepted == [WithDefaults(f)] && !ImportAll(known, [Item(f)], lower).thrown
  {
    assert [Item(f)][..0] == [];
  }

  /** Two imports of the same file that both collect before either inserts store its contact twice. */
  lemma OverlappingImportsDuplicate(f: Fields, lower: Lower)
    requires f.name != "" && f.address != ""
    ensures exists events :: !DistinctAddresses(Run(Opened([], []), events, lower).store, lower)
  {
    var w, items := Opened([], []), [Item(f)];
    BothStored(w, f, Collected(0, items, true), Collected(1, items, true), Inserted(0), Inserted(1), lower);
  }

  lemma BothStored(w: World, f: Fields, c0: Event, c1: Event, i0: Event, i1: Event, lower: Lower)
    requires f.name != "" && f.address != "" && w == Opened([], [])
    requires c0 == Collected(0, [Item(f)], true) && c1 == Collected(1, [Item(f)], true)
    requires i0 == Inserted(0) && i1 == Inserted(1)
    ensures !DistinctAddresses(Run(w, [] + [c0] + [c1] + [i0] + [i1], lower).store, lower)
  {
    FourSteps(w, c0, c1, i0, i1, lower);
    TwoCollected(w, f, lower);
    TwoInserts(Step(Step(w, c0, lower), c1, lower), WithDefaults(f), lower);
  }

  lemma FourSteps(w: World, e1: Event, e2: Event, e3: Event, e4: Event, lower: Lower)
    ensures Run(w, [] + [e1] + [e2] + [e3] + [e4], lower)
      == Step(Step(Step(Step(w, e1, lower), e2, lower), e3, lower), e4, lower)
  {
    TwoSteps(w, e1, e2, lower);
    RunSnoc(w, [] + [e1] + [e2], e3, lower);
    RunSnoc(w, [] + [e1] + [e2] + [e3], e4, lower);
  }

  lemma TwoCollected(w: World, f: Fields, lower: Lower)
    requires f.name != "" && f.address != "" && w == Opened([], [])
    ensures var w2 := Step(Step(w, Collected(0, [Item(f)], true), lower), Collected(1, [Item(f)], true), lower);
      && w2.store == [] && 0 in w2.waiting && 1 in w2.waiting
      && w2.waiting[0].accepted == w2.waiting[1].accepted == [WithDefaults(f)]
  {
    assert Addresses([], lower) == {};
    OneAccepted({}, f, lower);
  }

  lemma TwoInserts(w: World, g: Fields, lower: Lower)
    requires w.store == [] && 0 in w.waiting && 1 in w.waiting
    requires w.waiting[0].accepted == w.waiting[1].accepted == [g]
    ensures !DistinctAddresses(Step(Step(w, Inserted(0), lower), Inserted(1), lower).store, lower)
  {
    var w1 := Step(w, Inserted(0), lower);
    assert w1.waiting[1].accepted == [g] && w1.store == [g];
    var w2 := Step(w1, Inserted(1), lower);
    assert w2.store == [g] + [g] && w2.store[0] == w2.store[1] == g;
  }

  /** A single import is enough when its read of the database fails and its insert does not: a contact
      that is stored already, and not in `localStorage`, is stored again. */
  lemma FallbackReadDuplicates(f: Fields, fallback: seq<Fields>, lower: Lower)
    requires f.name != "" && f.address != "" && lower(f.address) !in Addresses(fallback, lower)
    ensures exists events :: |events| == 2 && !DistinctAddresses(Run(Opened([f], fallback), events, lower).store, lower)
  {
    var w, e1, e2 := Opened([f], fallback), Collected(0, [Item(f)], false), Inserted(0);
    TwoSteps(w, e1, e2, lower);
    FallbackStores(w, f, lower);
    var w2 := Step(Step(w, e1, lower), e2, lower);
    assert w2.store[0] == f && w2.store[1] == WithDefaults(f);
    var events := [] + [e1] + [e2];
    assert |events| == 2 && Run(w, events, lower) == w2;
  }

  lemma FallbackStores(w: World, f: Fields, lower: Lower)
    requires f.name != "" && f.address != "" && w.waiting == map[] && lower(f.address) !in Addresses(w.fallback, lower)
    ensures Step(Step(w, Collected(0, [Item(f)], false), lower), Inserted(0), lower).store == w.store + [WithDefaults(f)]
  {
    OneAccepted(Addresses(w.fallback, lower), f, lower);
  }

  /** When a created contact is listed next: with a database that took it and can be read, or with
      the other list, if it went there and the database cannot be read.  Nobody lists it otherwise. */
  lemma CreatedIsListedIff(w: World, f: Fields, place: Place, readOk: bool, lower: Lower)
    ensures var after := Seen(Step(w, Created(f, place), lower), readOk);
      if (place.Database? && readOk) || (place.LocalStorage? && !readOk) then after == Seen(w, readOk) + [f]
      else after == Seen(w, readOk)
  {
  }

  /** Imports one at a time and on snapshots that miss nothing, as those of the database do, and
      creations in the database only of new addresses and while no import waits. */
  ghost predicate Orderly(start: World, events: seq<Event>, lower: Lower) {
    forall n :: 0 <= n < |events| ==> OrderlyEvent(Run(start, events[..n], lower), events[n], lower)
  }

  ghost predicate OrderlyEvent(w: World, e: Event, lower: Lower) {
    match e
    case Collected(_, _, readOk) => w.waiting == map[] && Addresses(w.store, lower) <= Addresses(Seen(w, readOk), lower)
    case Created(f, Database) => w.waiting == map[] && lower(f.address) !in Addresses(w.store, lower)
    case _ => true
  }

  ghost predicate OneFreshImport(w: World) {
    forall c, d :: c in w.waiting && d in w.waiting ==> c == d && w.waiting[c].missed == w.waiting[c].entered == {}
  }

  lemma OrderlyStep(w: World, e: Event, lower: Lower)
    requires AllTracked(w, lower) && DistinctAddresses(w.store, lower) && OneFreshImport(w)
    requires OrderlyEvent(w, e, lower)
    ensures DistinctAddresses(Step(w, e, lower).store, lower) && OneFreshImport(Step(w, e, lower))
  {
    match e
    case Collected(_, _, readOk) => assert Addresses(w.store, lower) - Addresses(Seen(w, readOk), lower) == {};
    case Inserted(call) =>
      if call in w.waiting {
        assert Tracked(w, call, lower);
        InsertIntoTracked(w, call, lower);
        assert w.waiting - {call} == map[];
      }
    case Created(f, place) => ConcatDistinctIff(w.store, [f], lower);
    case Deleted(k) =>
  }

  /** Then the store never holds an address twice. */
  lemma {:induction false} OrderlyRunsStayUnique(start: World, events: seq<Event>, lower: Lower)
    requires start.waiting == map[] && DistinctAddresses(start.store, lower) && Orderly(start, events, lower)
    ensures var w := Run(start, events, lower); DistinctAddresses(w.store, lower) && OneFreshImport(w)
  {
    if events == [] {
    } else {
      var n := |events| - 1;
      var before := events[..n];
      forall k | 0 <= k < n ensures OrderlyEvent(Run(start, before[..k], lower), before[k], lower) {
        assert before[..k] == events[..k];
        assert OrderlyEvent(Run(start, events[..k], lower), events[k], lower);
      }
      OrderlyRunsStayUnique(start, before, lower);
      RunTracks(start, before, lower);
      assert OrderlyEvent(Run(start, events[..n], lower), events[n], lower);
      OrderlyStep(Run(start, before, lower), events[n], lower);
    }
  }

  /** What is collected of the items at the picked positions, in order: all their fields, the network
      "celo" where none is given, an id of its own and the time of the import. */
  ghost predicate Picked(contacts: seq<Contact>, picked: seq<nat>, items: seq<Item>, newId: nat -> string, now: string) {
    && |picked| == |contacts|
    && (forall k, l :: 0 <= k < l < |picked| ==> picked[k] < picked[l])
    && forall k :: 0 <= k < |picked| ==> picked[k] < |items| && IsPicked(contacts[k], items[picked[k]], newId(picked[k]), now)
  }

  predicate IsPicked(c: Contact, i: Item, id: string, now: string) {
    && i.Item? && c.id == id && c.createdAt == now && c.updatedAt == now
    && c.fields == if i.fields.network == "" then i.fields.(network := "celo") else i.fields
  }

  /** Contacts of one import have ids of their own if the items would have. */
  lemma PickedIdsDiffer(contacts: seq<Contact>, picked: seq<nat>, items: seq<Item>, newId: nat -> string, now: string, k: nat, l: nat)
    requires Picked(contacts, picked, items, newId, now) && k < l < |contacts|
    requires forall i: nat, j: nat :: i < j < |items| ==> newId(i) != newId(j)
    ensures contacts[k].id != contacts[l].id
  {
    assert picked[k] < picked[l] && IsPicked(contacts[k], items[picked[k]], newId(picked[k]), now);
    assert IsPicked(contacts[l], items[picked[l]], newId(picked[l]), now);
  }

  lemma PickedLater(contacts: seq<Contact>, picked: seq<nat>, items: seq<Item>, item: Item, newId: nat -> string, now: string)
    requires Picked(contacts, picked, items, newId, now)
    ensures Picked(contacts, picked, items + [item], newId, now)
  {
  }

  lemma PickedNext(contacts: seq<Contact>, picked: seq<nat>, items: seq<Item>, item: Item, newId: nat -> string, now: string)
    requires Picked(contacts, picked, items, newId, now) && item.Item?
    ensures Picked(contacts + [Contact(newId(|items|), WithDefaults(item.fields), now, now)], picked + [|items|], items + [item], newId, now)
  {
  }

  /** How far the walk over the items has come. */
  ghost predicate Collecting(start: set<string>, items: seq<Item>, lower: Lower, known: set<string>, toInsert: seq<Contact>,
                             errors: nat, picked: seq<nat>, newId: nat -> string, now: string)
  {
    && ImportAll(start, items, lower) == Import(known, FieldsOf(toInsert), errors, false)
    && Picked(toInsert, picked, items, newId, now)
  }

  lemma CollectSkips(start: set<string>, items: seq<Item>, i: nat, lower: Lower, known: set<string>, toInsert: seq<Contact>,
                     errors: nat, picked: seq<nat>, newId: nat -> string, now: string)
    requires i < |items| && Collecting(start, items[..i], lower, known, toInsert, errors, picked, newId, now)
    requires !Throws(items[i]) && (Named(items[i]) ==> lower(items[i].fields.address) in known)
    ensures Collecting(start, items[..i + 1], lower, known, toInsert, errors + 1, picked, newId, now)
  {
    assert items[..i + 1] == items[..i] + [items[i]] && items[..i + 1][..i] == items[..i];
    PickedLater(toInsert, picked, items[..i], items[i], newId, now);
  }

  lemma CollectTakes(start: set<string>, items: seq<Item>, i: nat, lower: Lower, known: set<string>, toInsert: seq<Contact>,
                     errors: nat, picked: seq<nat>, newId: nat -> string, now: string)
    requires i < |items| && Collecting(start, items[..i], lower, known, toInsert, errors, picked, newId, now)
    requires Named(items[i]) && lower(items[i].fields.address) !in known
    ensures Collecting(start, items[..i + 1], lower, known + {lower(items[i].fields.address)},
                       toInsert + [Contact(newId(i), WithDefaults(items[i].fields), now, now)], errors, picked + [i], newId, now)
  {
    assert items[..i + 1] == items[..i] + [items[i]] && items[..i + 1][..i] == items[..i];
    PickedNext(toInsert, picked, items[..i], items[i], newId, now);
    FieldsOfMore(toInsert, Contact(newId(i), WithDefaults(items[i].fields), now, now));
  }

  lemma FieldsOfMore(contacts: seq<Contact>, c: Contact)
    ensures FieldsOf(contacts + [c]) == FieldsOf(contacts) + [c.fields]
  {
  }

  // ---------------------------------------------------------------------------
  // The contact store
  // ---------------------------------------------------------------------------

  class ContactsService {
    const lower: Lower
    var contacts: seq<Contact>
    var local: seq<Contact>       // the list in `localStorage`

    constructor (lower: Lower)
      ensures contacts == local == [] && this.lower == lower
    {
      this.lower, contacts, local := lower, [], [];
    }

    /** `getContacts`: a failing database is answered by the other list. */
    method GetContacts(readOk: bool) returns (seen: seq<Contact>)
      ensures seen == if readOk then contacts else local
    {
      if readOk { return contacts; }
      seen := local;
    }

    /** `createContact`: a refusal of the database sends the contact to the other list, where the
        write may be refused too.  The contact is returned as created in any case. */
    method CreateContact(c: Contact, place: Place) returns (created: Contact)
      modifies this`contacts, this`local
      ensures created == c
      ensures contacts == old(contacts) + if place.Database? then [c] else []
      ensures local == old(local) + if place.LocalStorage? then [c] else []
      ensures FieldsOf(contacts) == FieldsOf(old(contacts)) + if place.Database? then [c.fields] else []
      ensures FieldsOf(local) == FieldsOf(old(local)) + if place.LocalStorage? then [c.fields] else []
    {
      FieldsConcat(contacts, [c]);
      FieldsConcat(local, [c]);
      if place.Database? {
        contacts := contacts + [c];
      } else if place.LocalStorage? {
        local := local + [c];
      }
      created := c;
    }

    lemma FieldsConcat(a: seq<Contact>, b: seq<Contact>)
      ensures FieldsOf(a + b) == FieldsOf(a) + FieldsOf(b)
      ensures |b| == 1 ==> FieldsOf(b) == [b[0].fields]
      ensures FieldsOf(a) + [] == FieldsOf(a) && a + [] == a
    {
    }

    /** No two stored contacts share an address up to case. */
    ghost predicate Unique()
      reads this
    {
      DistinctAddresses(FieldsOf(contacts), lower)
    }

    /** The first piece of `importContacts`: the walk over the parsed array, on the contacts as read. */
    method CollectImport(seen: seq<Contact>, items: seq<Item>, newId: nat -> string, now: string)
      returns (toInsert: seq<Contact>, errors: nat, thrown: bool, ghost picked: seq<nat>)
      ensures var r := ImportAll(Known(seen, lower), items, lower);
        && thrown == r.thrown == !Valid(items)
        && (!thrown ==> FieldsOf(toInsert) == r.accepted && errors == r.errors && |toInsert| + errors == |items|)
      ensures !thrown ==> Picked(toInsert, picked, items, newId, now)
    {
      var known := Known(seen, lower);
      toInsert, errors, picked := [], 0, [];
      ImportThrowsIff(known, items, lower);
      ghost var start := known;
      for i := 0 to |items|
        invariant Collecting(start, items[..i], lower, known, toInsert, errors, picked, newId, now)
      {
        var item := items[i];
        if item.Null? || (item.BadAddress? && item.name != "") {
          assert item in items;
          return toInsert, errors, true, [];
        }
        if item.BadAddress? || item.fields.name == "" || item.fields.address == "" {
          CollectSkips(start, items, i, lower, known, toInsert, errors, picked, newId, now);
          errors := errors + 1;
          continue;
        }
        if lower(item.fields.address) in known {
          CollectSkips(start, items, i, lower, known, toInsert, errors, picked, newId, now);
          errors := errors + 1;
          continue;
        }
        CollectTakes(start, items, i, lower, known, toInsert, errors, picked, newId, now);
        known := known + {lower(item.fields.address)};
        var f := item.fields.(network := if item.fields.network == "" then "celo" else item.fields.network);
        toInsert := toInsert + [Contact(newId(i), f, now, now)];
        picked := picked + [i];
      }
      assert items[..|items|] == items;
      ImportAccepts(start, items, lower);
      thrown := false;
    }

    lemma InsertedFields(there: seq<Contact>, inserted: seq<Contact>)
      ensures FieldsOf(there + inserted) == FieldsOf(there) + FieldsOf(inserted)
      ensures inserted == [] ==> there + inserted == there
      ensures DistinctAddresses(FieldsOf(there), lower) && DistinctAddresses(FieldsOf(inserted), lower) ==>
        (DistinctAddresses(FieldsOf(there + inserted), lower) <==>
          Addresses(FieldsOf(there), lower) !! Addresses(FieldsOf(inserted), lower))
    {
      assert FieldsOf(there + inserted) == FieldsOf(there) + FieldsOf(inserted);
      if DistinctAddresses(FieldsOf(there), lower) && DistinctAddresses(FieldsOf(inserted), lower) {
        ConcatDistinctIff(FieldsOf(there), FieldsOf(inserted), lower);
      }
    }

    /** The second piece: the bulk insert, into the store as it is by now. */
    method InsertCollected(toInsert: seq<Contact>, storeOk: bool) returns (ok: bool)
      modifies this`contacts
      ensures ok <==> toInsert == [] || storeOk
      ensures contacts == old(contacts) + if ok then toInsert else []
      ensures FieldsOf(contacts) == FieldsOf(old(contacts)) + if ok then FieldsOf(toInsert) else []
      ensures ok && old(Unique()) && DistinctAddresses(FieldsOf(toInsert), lower) ==>
        (Unique() <==> Addresses(FieldsOf(old(contacts)), lower) !! Addresses(FieldsOf(toInsert), lower))
    {
      ok := toInsert == [] || storeOk;
      InsertedFields(contacts, toInsert);
      if |toInsert| > 0 && storeOk { contacts := contacts + toInsert; }
    }

    /**
      `importContacts` on a parsed array, when nothing touches the store between its two pieces.
      A throwing item, or a store that cannot be written, makes it report one error and insert
      nothing.  Addresses stay unique when the database could be read, and otherwise exactly if
      nothing accepted was in it.
    */
    method ImportContacts(items: seq<Item>, newId: nat -> string, now: string, readOk: bool, storeOk: bool)
      returns (imported: nat, errors: nat, ghost picked: seq<nat>)
      modifies this`contacts
      ensures |old(contacts)| <= |contacts| && Picked(contacts[|old(contacts)|..], picked, items, newId, now)
      ensures var r := ImportAll(Known(if readOk then old(contacts) else local, lower), items, lower);
        if r.thrown || (r.accepted != [] && !storeOk) then
          imported == 0 && errors == 1 && contacts == old(contacts)
        else
          && imported + errors == |items|
          && imported == |r.accepted|
          && FieldsOf(contacts) == FieldsOf(old(contacts)) + r.accepted
          && contacts[..|old(contacts)|] == old(contacts)
          && (readOk ==> Known(contacts, lower) == r.known)
          && (old(Unique()) ==> (Unique() <==> Addresses(r.accepted, lower) !! Known(old(contacts), lower)))
      ensures readOk && old(Unique()) ==> Unique()
    {
      var seen := GetContacts(readOk);
      var toInsert, skipped, thrown, chosen := CollectImport(seen, items, newId, now);
      picked := [];
      if thrown { return 0, 1, []; }
      AcceptedAreNew(Known(seen, lower), items, lower);
      KnownAddresses(contacts);
      assert FieldsOf(toInsert) == ImportAll(Known(seen, lower), items, lower).accepted;
      var ok := InsertCollected(toInsert, storeOk);
      if !ok {
        assert FieldsOf(toInsert) != [];
        return 0, 1, [];
      }
      imported, errors, picked := |toInsert|, skipped, chosen;
      assert contacts == old(contacts) + toInsert;
      KnownAddresses(contacts);
      AddressesConcat(FieldsOf(old(contacts)), FieldsOf(toInsert), lower);
    }

    lemma KnownAddresses(cs: seq<Contact>)
      ensures Known(cs, lower) == Addresses(FieldsOf(cs), lower)
    {
      var fs := FieldsOf(cs);
      forall c | c in cs ensures lower(c.fields.address) in Addresses(fs, lower) {
        var k :| 0 <= k < |cs| && cs[k] == c;
        assert fs[k] in fs;
      }
      forall f | f in fs ensures lower(f.address) in Known(cs, lower) {
        var k :| 0 <= k < |fs| && fs[k] == f;
        assert cs[k] in cs;
      }
    }
  }
}
