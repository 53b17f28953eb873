/** The entry list of an open session: what it shows of each entry, newest first. */
module Listing {
  import opened Bytes
  import opened Model

  /** What the list shows of an entry: neither secret nor description. */
  datatype Summary = Summary(id: EntryId, title: string, createdAt: u64, updatedAt: u64)

  function SummaryOf(e: Entry): Summary {
    Summary(e.id, e.fields.title, e.createdAt, e.updatedAt)
  }

  function Summaries(entries: seq<Entry>): (r: seq<Summary>)
    ensures |r| == |entries| && forall i :: 0 <= i < |r| ==> r[i] == SummaryOf(entries[i])
  {
    if entries == [] then [] else [SummaryOf(entries[0])] + Summaries(entries[1..])
  }

  /** Puts a summary before all that are no newer. */
  function Insert(s: Summary, list: seq<Summary>): seq<Summary> {
    if list == [] || list[0].updatedAt <= s.updatedAt then [s] + list else [list[0]] + Insert(s, list[1..])
  }

  /** The stable sort by time of update, newest first. */
  function Sorted(list: seq<Summary>): seq<Summary> {
    if list == [] then [] else Insert(list[0], Sorted(list[1..]))
  }

  function EntryList(entries: seq<Entry>): seq<Summary> {
    Sorted(Summaries(entries))
  }

  /** What a list of summaries says of a list of entries, one by one. */
  predicate Summarizes(summaries: seq<Summary>, entries: seq<Entry>) {
    && |summaries| == |entries|
    && forall i :: 0 <= i < |entries| ==>
         && summaries[i].id == entries[i].id && summaries[i].title == entries[i].fields.title
         && summaries[i].createdAt == entries[i].createdAt && summaries[i].updatedAt == entries[i].updatedAt
  }

  predicate NewestFirst(list: seq<Summary>) {
    forall i, j :: 0 <= i < j < |list| ==> list[j].updatedAt <= list[i].updatedAt
  }

  /** The summaries updated at one time, in order. */
  function UpdatedAt(list: seq<Summary>, time: u64): seq<Summary> {
    if list == [] then []
    else (if list[0].updatedAt == time then [list[0]] else []) + UpdatedAt(list[1..], time)
  }

  lemma {:induction false} InsertKeepsOrder(s: Summary, list: seq<Summary>)
    requires NewestFirst(list)
    ensures NewestFirst(Insert(s, list))
    ensures multiset(Insert(s, list)) == multiset{s} + multiset(list)
  {
    if list != [] && list[0].updatedAt > s.updatedAt {
      var rest := list[1..];
      InsertKeepsOrder(s, rest);
      assert list == [list[0]] + rest;
      InsertBelow(s, rest, list[0].updatedAt);
      FirstIsNewest(list[0], Insert(s, rest));
    } else {
      FirstIsNewest(s, list);
    }
  }

  lemma FirstIsNewest(s: Summary, list: seq<Summary>)
    requires NewestFirst(list) && forall i :: 0 <= i < |list| ==> list[i].updatedAt <= s.updatedAt
    ensures NewestFirst([s] + list)
  {
  }

  lemma {:induction false} InsertIsStable(s: Summary, list: seq<Summary>, time: u64)
    ensures UpdatedAt(Insert(s, list), time) == UpdatedAt([s] + list, time)
  {
    hide UpdatedAt;
    if list != [] && list[0].updatedAt > s.updatedAt {
      var rest := list[1..];
      InsertIsStable(s, rest, time);
      assert list == [list[0]] + rest;
      UpdatedAtCons(s, rest, time);
      UpdatedAtCons(s, list, time);
      UpdatedAtCons(list[0], rest, time);
      UpdatedAtCons(list[0], Insert(s, rest), time);
    }
  }

  lemma UpdatedAtCons(s: Summary, list: seq<Summary>, time: u64)
    ensures UpdatedAt([s] + list, time) == (if s.updatedAt == time then [s] else []) + UpdatedAt(list, time)
  {
    assert ([s] + list)[1..] == list;
  }

  lemma {:induction false} InsertBelow(s: Summary, list: seq<Summary>, bound: u64)
    requires s.updatedAt <= bound && forall i :: 0 <= i < |list| ==> list[i].updatedAt <= bound
    ensures forall i :: 0 <= i < |Insert(s, list)| ==> Insert(s, list)[i].updatedAt <= bound
  {
    if list != [] && list[0].updatedAt > s.updatedAt {
      InsertBelow(s, list[1..], bound);
    }
  }

  /** The list is in order, holds exactly what it was made from, and keeps the order of equal times. */
  lemma {:induction false} SortedIsStable(list: seq<Summary>, time: u64)
    ensures NewestFirst(Sorted(list)) && multiset(Sorted(list)) == multiset(list)
    ensures UpdatedAt(Sorted(list), time) == UpdatedAt(list, time)
  {
    if list != [] {
      var rest := list[1..];
      SortedIsStable(rest, time);
      InsertKeepsOrder(list[0], Sorted(rest));
      InsertIsStable(list[0], Sorted(rest), time);
      assert list == [list[0]] + rest;
      assert ([list[0]] + Sorted(rest))[1..] == Sorted(rest);
    }
  }

  /** The list of some entries: newest first, of each just what is shown of it, and in order at equal times. */
  ghost predicate Lists(list: seq<Summary>, entries: seq<Entry>) {
    exists summaries ::
      && Summarizes(summaries, entries)
      && NewestFirst(list) && multiset(list) == multiset(summaries)
      && forall time: u64 :: UpdatedAt(list, time) == UpdatedAt(summaries, time)
  }

  lemma EntryListLists(entries: seq<Entry>)
    ensures Lists(EntryList(entries), entries)
  {
    hide UpdatedAt, NewestFirst;
    var summaries := Summaries(entries);
    SortedIsStable(summaries, 0);
    forall time: u64 ensures UpdatedAt(Sorted(summaries), time) == UpdatedAt(summaries, time) {
      SortedIsStable(summaries, time);
    }
    assert Summarizes(summaries, entries);
  }

  /** Entries that differ in secrets and descriptions alone are listed alike. */
  lemma ListHidesSecrets(entries: seq<Entry>, others: seq<Entry>)
    requires |entries| == |others|
    requires forall i :: 0 <= i < |entries| ==>
      && entries[i].id == others[i].id && entries[i].fields.title == others[i].fields.title
      && entries[i].createdAt == others[i].createdAt && entries[i].updatedAt == others[i].updatedAt
    ensures EntryList(entries) == EntryList(others)
  {
    hide Sorted;
    assert Summaries(entries) == Summaries(others);
  }
}
