/** The dict-of-lists ledger that the submit gate and the killer share.
    Items are removed by identity: the item itself carries whatever
    distinguishes two objects with equal fields. */
module Ledger {

  function Entries<K, T>(table: map<K, seq<T>>, key: K): seq<T> {
    if key in table then table[key] else []
  }

  function RemoveFirst<T(==)>(items: seq<T>, item: T): seq<T> {
    if items == [] then []
    else if items[0] == item then items[1..]
    else [items[0]] + RemoveFirst(items[1..], item)
  }

  /** No key is kept for an empty list. */
  ghost predicate NoEmptyLists<K, T>(table: map<K, seq<T>>) {
    forall key <- table :: table[key] != []
  }

  lemma {:induction false} RemoveFirstContents<T>(items: seq<T>, item: T)
    ensures multiset(RemoveFirst(items, item)) == multiset(items) - multiset{item}
    ensures forall x :: x in RemoveFirst(items, item) ==> x in items
    ensures forall x :: x in items && x != item ==> x in RemoveFirst(items, item)
  {
    if items == [] {
    } else {
      assert items == [items[0]] + items[1..];
      if items[0] != item {
        RemoveFirstContents(items[1..], item);
      }
    }
  }

  lemma {:induction false} RemoveFirstAt<T>(items: seq<T>, item: T, i: nat)
    requires i < |items| && items[i] == item
    requires item !in items[..i]
    ensures RemoveFirst(items, item) == items[..i] + items[i + 1..]
  {
    if i == 0 {
    } else {
      assert items[0] in items[..i];
      assert item !in items[1..][..i - 1] by {
        assert items[1..][..i - 1] == items[1..i] == items[..i][1..];
      }
      RemoveFirstAt(items[1..], item, i - 1);
      assert items[1..][..i - 1] == items[1..i];
      assert items[1..][i..] == items[i + 1..];
      assert [items[0]] + items[1..i] == items[..i];
    }
  }

  lemma {:induction false} RemoveFirstAbsent<T>(items: seq<T>, item: T)
    requires item !in items
    ensures RemoveFirst(items, item) == items
  {
    if items == [] {
    } else {
      assert items == [items[0]] + items[1..];
      RemoveFirstAbsent(items[1..], item);
    }
  }

  method Add<K, T>(table: map<K, seq<T>>, key: K, item: T) returns (table': map<K, seq<T>>)
    ensures Entries(table', key) == Entries(table, key) + [item]
    ensures forall other :: other != key ==> Entries(table', other) == Entries(table, other)
    ensures NoEmptyLists(table) ==> NoEmptyLists(table')
  {
    table' := table;
    if key !in table' {
      table' := table'[key := []];
    }
    table' := table'[key := table'[key] + [item]];
  }

  /** Removes one occurrence of the item and drops a list that becomes empty; a no-op
      when the item is already gone. */
  method Remove<K, T(==)>(table: map<K, seq<T>>, key: K, item: T) returns (table': map<K, seq<T>>)
    requires NoEmptyLists(table)
    ensures Entries(table', key) == RemoveFirst(Entries(table, key), item)
    ensures forall other :: other != key ==> Entries(table', other) == Entries(table, other)
    ensures NoEmptyLists(table')
  {
    table' := table;
    if key !in table {
      return;
    }
    var items := table[key];
    var i := 0;
    while i < |items| && items[i] != item
      invariant 0 <= i <= |items|
      invariant item !in items[..i]
    {
      i := i + 1;
    }
    if i < |items| {
      RemoveFirstAt(items, item, i);
      items := items[..i] + items[i + 1..];
    } else {
      assert items[..i] == items;
      RemoveFirstAbsent(items, item);
    }
    if items == [] {
      table' := table - {key};
    } else {
      table' := table[key := items];
    }
  }
}
