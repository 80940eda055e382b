/**
 * `processCategoryData` of the analytics page
 * (src/app/admin/analytics/page.jsx): products counted per category, one
 * `{ name, value }` entry per category in the order categories first appear.
 */
module Analytics {
  import opened Options
  import Seqs

  datatype Entry = Entry(name: string, value: int)

  predicate NamesDistinct(entries: seq<Entry>)
  {
    forall i, j :: 0 <= i < j < |entries| ==> entries[i].name != entries[j].name
  }

  /** Where `name` has its entry, if it has one. */
  function FindName(entries: seq<Entry>, name: string): (r: Option<nat>)
    ensures r.Some? ==> r.value < |entries| && entries[r.value].name == name
    ensures r.Some? ==> forall j :: 0 <= j < r.value ==> entries[j].name != name
    ensures r.None? ==> forall i :: 0 <= i < |entries| ==> entries[i].name != name
  {
    if |entries| == 0 then None
    else if entries[0].name == name then Some(0)
    else match FindName(entries[1..], name)
      case None => None
      case Some(k) => Some(k + 1)
  }

  /** One step of the `reduce`: `acc[category] = (acc[category] || 0) + 1`. */
  function Bump(entries: seq<Entry>, category: string): (r: seq<Entry>)
    ensures (forall i :: 0 <= i < |entries| ==> entries[i].name != category) ==> r == entries + [Entry(category, 1)]
    ensures forall k :: 0 <= k < |entries| && entries[k].name == category
                        && (forall j :: 0 <= j < k ==> entries[j].name != category) ==>
              |r| == |entries| && r[k] == Entry(category, entries[k].value + 1)
              && forall j :: 0 <= j < |entries| && j != k ==> r[j] == entries[j]
    ensures NamesDistinct(entries) ==> NamesDistinct(r)
  {
    match FindName(entries, category)
    case Some(k) => entries[k := Entry(category, entries[k].value + 1)]
    case None => entries + [Entry(category, 1)]
  }

  /** `processCategoryData(data)`, given each product's category in list order. */
  function ProcessCategoryData(categories: seq<string>): (r: seq<Entry>)
    ensures NamesDistinct(r)
    ensures |r| <= |categories|
    ensures forall i :: 0 <= i < |r| ==> r[i].value >= 1
    decreases |categories|
  {
    if |categories| == 0 then []
    else Bump(ProcessCategoryData(categories[..|categories| - 1]), categories[|categories| - 1])
  }

  function EntryValue(e: Entry): int { e.value }

  /** No input, no entries. */
  lemma EmptyInputEmptyOutput()
    ensures ProcessCategoryData([]) == []
  {
  }

  /** The categories that have an entry. */
  function Names(entries: seq<Entry>): set<string>
  {
    set i | 0 <= i < |entries| :: entries[i].name
  }

  /** One step of the `reduce` adds the category to the names and nothing else. */
  lemma BumpNames(entries: seq<Entry>, category: string)
    ensures Names(Bump(entries, category)) == Names(entries) + {category}
  {
    match FindName(entries, category)
    case Some(k) =>
      NamesUpdate(entries, k, Entry(category, entries[k].value + 1));
    case None =>
      NamesAppend(entries, Entry(category, 1));
  }

  lemma NamesUpdate(entries: seq<Entry>, k: nat, e: Entry)
    requires k < |entries| && e.name == entries[k].name
    ensures Names(entries[k := e]) == Names(entries)
  {
    var r := entries[k := e];
    assert forall i :: 0 <= i < |r| ==> r[i].name == entries[i].name;
  }

  lemma NamesAppend(entries: seq<Entry>, e: Entry)
    ensures Names(entries + [e]) == Names(entries) + {e.name}
  {
    var r := entries + [e];
    assert forall i :: 0 <= i < |entries| ==> r[i] == entries[i];
    assert r[|entries|] == e;
  }

  /** Each category gets exactly one entry, and only categories that occur get one. */
  lemma {:induction false} OneEntryPerCategory(categories: seq<string>)
    ensures NamesDistinct(ProcessCategoryData(categories))
    ensures forall c :: c in categories <==> c in Names(ProcessCategoryData(categories))
    decreases |categories|
  {
    if |categories| > 0 {
      var front := categories[..|categories| - 1];
      var c := categories[|categories| - 1];
      assert categories == front + [c];
      OneEntryPerCategory(front);
      BumpNames(ProcessCategoryData(front), c);
    }
  }

  /** An entry's value is the number of products in its category, so it is at least 1. */
  predicate ValuesAreCounts(entries: seq<Entry>, categories: seq<string>)
  {
    forall i :: 0 <= i < |entries| ==> entries[i].value == Seqs.Count(categories, entries[i].name) && entries[i].value >= 1
  }

  lemma {:induction false} ValueIsCount(categories: seq<string>)
    ensures ValuesAreCounts(ProcessCategoryData(categories), categories)
    decreases |categories|
  {
    if |categories| > 0 {
      var front := categories[..|categories| - 1];
      var c := categories[|categories| - 1];
      assert categories == front + [c];
      ValueIsCount(front);
      OneEntryPerCategory(front);
      var acc := ProcessCategoryData(front);
      var r := ProcessCategoryData(categories);
      assert r == Bump(acc, c);
      forall i | 0 <= i < |r|
        ensures r[i].value == Seqs.Count(categories, r[i].name) && r[i].value >= 1
      {
        Seqs.CountAppend(front, [c], r[i].name);
        assert Seqs.Count(categories, r[i].name) == Seqs.Count(front, r[i].name) + Seqs.Count([c], r[i].name);
        assert [c][1..] == [];
        assert Seqs.Count([c], r[i].name) == if r[i].name == c then 1 else 0;
        match FindName(acc, c)
        case Some(k) =>
          if i != k {
            assert r[i] == acc[i];
            assert acc[i].name != acc[k].name;
          } else {
            assert r[i] == Entry(c, acc[k].value + 1);
            assert acc[k].value == Seqs.Count(front, acc[k].name);
          }
        case None =>
          if i < |acc| {
            assert r[i] == acc[i];
          } else {
            assert r[i] == Entry(c, 1);
            Seqs.CountPositive(front, c);
          }
      }
    }
  }

  /** The values add up to the number of products. */
  lemma {:induction false} ValuesSumToLength(categories: seq<string>)
    ensures Seqs.Sum(ProcessCategoryData(categories), EntryValue) == |categories|
    decreases |categories|
  {
    if |categories| > 0 {
      var front := categories[..|categories| - 1];
      ValuesSumToLength(front);
      BumpAddsOne(ProcessCategoryData(front), categories[|categories| - 1]);
    }
  }

  /** One step of the `reduce` adds exactly 1 to the total of the values. */
  lemma BumpAddsOne(entries: seq<Entry>, category: string)
    ensures Seqs.Sum(Bump(entries, category), EntryValue) == Seqs.Sum(entries, EntryValue) + 1
  {
    match FindName(entries, category)
    case Some(k) =>
      var bumped := Entry(category, entries[k].value + 1);
      assert Bump(entries, category) == entries[k := bumped];
      Seqs.SumUpdate(entries, k, bumped, EntryValue);
      assert EntryValue(bumped) == EntryValue(entries[k]) + 1;
    case None =>
      var added := Entry(category, 1);
      assert Bump(entries, category) == entries + [added];
      Seqs.SumAppend(entries, [added], EntryValue);
      assert Seqs.Sum([added], EntryValue) == 1 by {
        assert [added][1..] == [];
      }
  }
}
