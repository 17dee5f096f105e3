/** Placeholders for byte counts in the records of a trace, and why the length of a record does
    not depend on what they resolve to (tools/zmuxwire/tracedsl.py lines 308-339). */
module Placeholders {
  import opened Base
  import opened Trees
  import opened Dicts

  const PLACEHOLDER_STANDIN: int := 0x4000

  /** Values that take exactly four bytes. */
  predicate InBand(n: int) {
    0x4000 <= n < 0x4000_0000
  }

  predicate EntriesHavePlaceholder(entries: seq<Entry>)
    decreases entries
  {
    entries != [] && (EntryHasPlaceholder(entries[0]) || EntriesHavePlaceholder(entries[1..]))
  }

  predicate ItemsHavePlaceholder(items: seq<Obj>)
    decreases items
  {
    items != [] && (HasPlaceholder(items[0]) || ItemsHavePlaceholder(items[1..]))
  }

  /** has_placeholder. */
  predicate HasPlaceholder(o: Obj)
    decreases o, 0
  {
    match o
    case Dict(entries) => HasKey(entries, KSent) || EntriesHavePlaceholder(entries)
    case List(items) => ItemsHavePlaceholder(items)
    case _ => false
  }

  predicate EntryHasPlaceholder(e: Entry)
    decreases e
  {
    HasPlaceholder(e.val)
  }

  function StandInEntries(entries: seq<Entry>): (r: seq<Entry>)
    ensures |r| == |entries|
    decreases entries
  {
    if entries == [] then [] else [StandInEntry(entries[0])] + StandInEntries(entries[1..])
  }

  function StandInItems(items: seq<Obj>): (r: seq<Obj>)
    ensures |r| == |items|
    decreases items
  {
    if items == [] then [] else [StandIn(items[0])] + StandInItems(items[1..])
  }

  /** _stand_in. */
  function StandIn(o: Obj): Obj
    decreases o, 0
  {
    match o
    case Dict(entries) => if HasKey(entries, KSent) then Num(PLACEHOLDER_STANDIN) else Dict(StandInEntries(entries))
    case List(items) => List(StandInItems(items))
    case _ => o
  }

  function StandInEntry(e: Entry): Entry
    decreases e
  {
    Entry(e.key, StandIn(e.val))
  }

  /** placeholder_record_len; None when encoding raises. */
  function PlaceholderRecordLen(records: seq<Obj>): Option<nat> {
    var b :- RecordsBytes(StandInItems(records));
    Some(|b|)
  }

  // ---------------------------------------------------------------- standing in

  lemma {:induction false} EntriesLeaveNone(entries: seq<Entry>)
    ensures !EntriesHavePlaceholder(StandInEntries(entries))
    ensures HasKey(StandInEntries(entries), KSent) ==> HasKey(entries, KSent)
    decreases entries
  {
    if entries == [] {
    } else {
      EntryLeavesNone(entries[0]);
      EntriesLeaveNone(entries[1..]);
      var r := StandInEntries(entries);
      assert r[1..] == StandInEntries(entries[1..]);
      if HasKey(r, KSent) {
        var i :| 0 <= i < |r| && r[i].key == KSent;
        if i > 0 {
          assert r[1..][i - 1].key == KSent;
          var j :| 0 <= j < |entries[1..]| && entries[1..][j].key == KSent;
          assert entries[j + 1].key == KSent;
        } else {
          assert entries[0].key == KSent;
        }
      }
    }
  }

  lemma {:induction false} ItemsLeaveNone(items: seq<Obj>)
    ensures !ItemsHavePlaceholder(StandInItems(items))
    decreases items
  {
    if items == [] {
    } else {
      StandInLeavesNone(items[0]);
      ItemsLeaveNone(items[1..]);
      assert StandInItems(items)[1..] == StandInItems(items[1..]);
    }
  }

  /** Nothing is left to fill in. */
  lemma {:induction false} StandInLeavesNone(o: Obj)
    ensures !HasPlaceholder(StandIn(o))
    decreases o, 0
  {
    match o
    case Dict(entries) =>
      if !HasKey(entries, KSent) {
        EntriesLeaveNone(entries);
      }
    case List(items) => ItemsLeaveNone(items);
    case _ =>
  }

  lemma {:induction false} EntryLeavesNone(e: Entry)
    ensures !EntryHasPlaceholder(StandInEntry(e)) && StandInEntry(e).key == e.key
    decreases e
  {
    StandInLeavesNone(e.val);
  }

  lemma {:induction false} EntriesIdentity(entries: seq<Entry>)
    requires !EntriesHavePlaceholder(entries)
    ensures StandInEntries(entries) == entries
    decreases entries
  {
    if entries == [] {
    } else {
      EntryIdentity(entries[0]);
      EntriesIdentity(entries[1..]);
      assert entries == [entries[0]] + entries[1..];
    }
  }

  lemma {:induction false} ItemsIdentity(items: seq<Obj>)
    requires !ItemsHavePlaceholder(items)
    ensures StandInItems(items) == items
    decreases items
  {
    if items == [] {
    } else {
      StandInIdentity(items[0]);
      ItemsIdentity(items[1..]);
      assert items == [items[0]] + items[1..];
    }
  }

  /** A tree without placeholders stands for itself. */
  lemma {:induction false} StandInIdentity(o: Obj)
    requires !HasPlaceholder(o)
    ensures StandIn(o) == o
    decreases o, 0
  {
    match o
    case Dict(entries) => EntriesIdentity(entries);
    case List(items) => ItemsIdentity(items);
    case _ =>
  }

  lemma {:induction false} EntryIdentity(e: Entry)
    requires !EntryHasPlaceholder(e)
    ensures StandInEntry(e) == e
    decreases e
  {
    StandInIdentity(e.val);
  }

  // ---------------------------------------------------------------- resolving

  predicate ResolvesEntries(ts: seq<Entry>, os: seq<Entry>)
    decreases ts
  {
    |ts| == |os| && (ts != [] ==> ResolvesEntry(ts[0], os[0]) && ResolvesEntries(ts[1..], os[1..]))
  }

  predicate ResolvesItems(ts: seq<Obj>, os: seq<Obj>)
    decreases ts
  {
    |ts| == |os| && (ts != [] ==> Resolves(ts[0], os[0]) && ResolvesItems(ts[1..], os[1..]))
  }

  /** `o` is `t` with every placeholder replaced by some value in the band. */
  predicate Resolves(t: Obj, o: Obj)
    decreases t, 0
  {
    match t
    case Dict(entries) =>
      if HasKey(entries, KSent) then o.Num? && InBand(o.n) else o.Dict? && ResolvesEntries(entries, o.entries)
    case List(items) => o.List? && ResolvesItems(items, o.items)
    case _ => t == o
  }

  predicate ResolvesEntry(t: Entry, o: Entry)
    decreases t
  {
    t.key == o.key && Resolves(t.val, o.val)
  }

  /** What each placeholder comes to. */
  type Counts = Obj -> int

  function Always(n: int): Counts {
    (_: Obj) => n
  }

  ghost predicate AllInBand(counts: Counts) {
    forall p :: InBand(counts(p))
  }

  function FillInEntries(ts: seq<Entry>, counts: Counts): seq<Entry>
    decreases ts
  {
    if ts == [] then [] else [FillInEntry(ts[0], counts)] + FillInEntries(ts[1..], counts)
  }

  function FillInItems(ts: seq<Obj>, counts: Counts): seq<Obj>
    decreases ts
  {
    if ts == [] then [] else [FillIn(ts[0], counts)] + FillInItems(ts[1..], counts)
  }

  /** The tree with every placeholder replaced by its count. */
  function FillIn(t: Obj, counts: Counts): Obj
    decreases t, 0
  {
    match t
    case Dict(entries) => if HasKey(entries, KSent) then Num(counts(t)) else Dict(FillInEntries(entries, counts))
    case List(items) => List(FillInItems(items, counts))
    case _ => t
  }

  function FillInEntry(t: Entry, counts: Counts): Entry
    decreases t
  {
    Entry(t.key, FillIn(t.val, counts))
  }

  lemma {:induction false} FillInEntriesResolves(ts: seq<Entry>, counts: Counts)
    requires AllInBand(counts)
    ensures ResolvesEntries(ts, FillInEntries(ts, counts))
    decreases ts
  {
    hide FillInEntry, ResolvesEntry;
    if ts == [] {
    } else {
      FillInEntryResolves(ts[0], counts);
      FillInEntriesResolves(ts[1..], counts);
      assert FillInEntries(ts, counts)[1..] == FillInEntries(ts[1..], counts);
    }
  }

  lemma {:induction false} FillInItemsResolves(ts: seq<Obj>, counts: Counts)
    requires AllInBand(counts)
    ensures ResolvesItems(ts, FillInItems(ts, counts))
    decreases ts
  {
    hide FillIn, Resolves;
    if ts == [] {
    } else {
      FillInResolves(ts[0], counts);
      FillInItemsResolves(ts[1..], counts);
      assert FillInItems(ts, counts)[1..] == FillInItems(ts[1..], counts);
    }
  }

  lemma {:induction false} FillInResolves(t: Obj, counts: Counts)
    requires AllInBand(counts)
    ensures Resolves(t, FillIn(t, counts))
    decreases t, 0
  {
    match t
    case Dict(entries) =>
      if !HasKey(entries, KSent) {
        FillInEntriesResolves(entries, counts);
      }
    case List(items) => FillInItemsResolves(items, counts);
    case _ =>
  }

  lemma {:induction false} FillInEntryResolves(t: Entry, counts: Counts)
    requires AllInBand(counts)
    ensures ResolvesEntry(t, FillInEntry(t, counts))
    decreases t
  {
    FillInResolves(t.val, counts);
  }

  lemma {:induction false} FillInEntriesIdentity(ts: seq<Entry>, counts: Counts)
    requires !EntriesHavePlaceholder(ts)
    ensures FillInEntries(ts, counts) == ts
    decreases ts
  {
    if ts == [] {
    } else {
      FillInEntryIdentity(ts[0], counts);
      FillInEntriesIdentity(ts[1..], counts);
      assert ts == [ts[0]] + ts[1..];
    }
  }

  lemma {:induction false} FillInItemsIdentity(ts: seq<Obj>, counts: Counts)
    requires !ItemsHavePlaceholder(ts)
    ensures FillInItems(ts, counts) == ts
    decreases ts
  {
    if ts == [] {
    } else {
      FillInIdentity(ts[0], counts);
      FillInItemsIdentity(ts[1..], counts);
      assert ts == [ts[0]] + ts[1..];
    }
  }

  /** Nothing changes in a tree without placeholders. */
  lemma {:induction false} FillInIdentity(t: Obj, counts: Counts)
    requires !HasPlaceholder(t)
    ensures FillIn(t, counts) == t
    decreases t, 0
  {
    match t
    case Dict(entries) => FillInEntriesIdentity(entries, counts);
    case List(items) => FillInItemsIdentity(items, counts);
    case _ =>
  }

  lemma {:induction false} FillInEntryIdentity(t: Entry, counts: Counts)
    requires !EntryHasPlaceholder(t)
    ensures FillInEntry(t, counts) == t
    decreases t
  {
    FillInIdentity(t.val, counts);
  }

  // ---------------------------------------------------------------- blurred trees

  /** All values of the band taken for one. */
  function Blur(n: int): int {
    if InBand(n) then PLACEHOLDER_STANDIN else n
  }

  function BlurEntries(entries: seq<Entry>): (r: seq<Entry>)
    ensures |r| == |entries|
    decreases entries
  {
    if entries == [] then [] else [BlurEntry(entries[0])] + BlurEntries(entries[1..])
  }

  function BlurItems(items: seq<Obj>): (r: seq<Obj>)
    ensures |r| == |items|
    decreases items
  {
    if items == [] then [] else [BlurObj(items[0])] + BlurItems(items[1..])
  }

  /** A tree in which every integer is blurred. */
  function BlurObj(o: Obj): Obj
    decreases o, 0
  {
    match o
    case Num(n) => Num(Blur(n))
    case List(items) => List(BlurItems(items))
    case Dict(entries) => Dict(BlurEntries(entries))
    case _ => o
  }

  function BlurEntry(e: Entry): Entry
    decreases e
  {
    Entry(e.key, BlurObj(e.val))
  }

  lemma {:induction false} EntriesAreBlurred(ts: seq<Entry>, os: seq<Entry>)
    requires ResolvesEntries(ts, os)
    ensures BlurEntries(StandInEntries(ts)) == BlurEntries(os)
    decreases ts
  {
    hide StandInEntry, BlurEntry, ResolvesEntry;
    if ts == [] {
    } else {
      EntryIsBlurred(ts[0], os[0]);
      EntriesAreBlurred(ts[1..], os[1..]);
      assert StandInEntries(ts)[1..] == StandInEntries(ts[1..]);
    }
  }

  lemma {:induction false} ItemsAreBlurred(ts: seq<Obj>, os: seq<Obj>)
    requires ResolvesItems(ts, os)
    ensures BlurItems(StandInItems(ts)) == BlurItems(os)
    decreases ts
  {
    hide StandIn, BlurObj, Resolves;
    if ts == [] {
    } else {
      ResolvedIsBlurred(ts[0], os[0]);
      ItemsAreBlurred(ts[1..], os[1..]);
      assert StandInItems(ts)[1..] == StandInItems(ts[1..]);
    }
  }

  /** Blurred, a resolved tree is the tree with the stand-ins. */
  lemma {:induction false} ResolvedIsBlurred(t: Obj, o: Obj)
    requires Resolves(t, o)
    ensures BlurObj(StandIn(t)) == BlurObj(o)
    decreases t, 0
  {
    hide StandInEntries, StandInItems, BlurEntries, BlurItems, ResolvesEntries, ResolvesItems;
    match t
    case Dict(entries) =>
      if !HasKey(entries, KSent) {
        EntriesAreBlurred(entries, o.entries);
      }
    case List(items) => ItemsAreBlurred(items, o.items);
    case _ =>
  }

  lemma {:induction false} EntryIsBlurred(t: Entry, o: Entry)
    requires ResolvesEntry(t, o)
    ensures BlurEntry(StandInEntry(t)) == BlurEntry(o)
    decreases t
  {
    ResolvedIsBlurred(t.val, o.val);
  }
}
