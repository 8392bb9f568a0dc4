/** pkg/compaction/worldstate.go: what a merged world state holds, read off the items of the states one by one. */
module MergeLaws {
  import opened WS = WorldState
  import Order

  // All items of one kind, oldest state first.
  function Items(states: seq<WorldState>, k: Kind): seq<Item> {
    if states == [] then [] else Items(states[..|states| - 1], k) + states[|states| - 1].lists[k]
  }

  // The item that counts for a key: for todos, skills, files and subagents the one touched in the latest turn, and of
  // several the last; for plans, tasks and tools the last.
  ghost predicate Counts(items: seq<Item>, k: Kind, key: string, p: int) {
    && 0 <= p < |items| && items[p].key == key
    && match k
       case Todos => Latest(items, key, p)
       case Skills => Latest(items, key, p)
       case Files => Latest(items, key, p)
       case Subagents => Latest(items, key, p)
       case Plans => Last(items, key, p)
       case Tasks => Last(items, key, p)
       case Tools => Last(items, key, p)
  }

  ghost predicate Latest(items: seq<Item>, key: string, p: int)
    requires 0 <= p < |items|
  {
    forall q :: 0 <= q < |items| && items[q].key == key ==>
      items[q].lastTurn <= items[p].lastTurn && (q > p ==> items[q].lastTurn < items[p].lastTurn)
  }

  ghost predicate Last(items: seq<Item>, key: string, p: int) {
    forall q :: 0 <= q < |items| && p < q ==> items[q].key != key
  }

  ghost predicate Present(items: seq<Item>, key: string) {
    key != "" && exists q :: 0 <= q < |items| && items[q].key == key
  }

  // The same item, but for the order of a task's blockers.
  ghost predicate Tidied(k: Kind, was: Item, now: Item) {
    if k == Tasks then
      now == was.(blockedBy := now.blockedBy) && Order.Ascending(now.blockedBy) && multiset(now.blockedBy) == multiset(was.blockedBy)
    else now == was
  }

  // The entry of a key is the item that counts.
  ghost predicate IsEntry(items: seq<Item>, k: Kind, key: string, entry: Item) {
    exists p :: Counts(items, k, key, p) && Tidied(k, items[p], entry)
  }

  ghost predicate Gathers(k: Kind, items: seq<Item>, t: Table) {
    forall key :: (key in t <==> Present(items, key)) && (key in t ==> IsEntry(items, k, key, t[key]))
  }

  lemma NormalizedIsTidied(k: Kind, item: Item)
    ensures Tidied(k, item, Normalized(k, item))
  {
    Order.SortAscending(item.blockedBy);
    Order.SortMultiset(item.blockedBy, Order.Less);
  }

  lemma TidiedTurn(k: Kind, was: Item, now: Item)
    requires Tidied(k, was, now)
    ensures now.lastTurn == was.lastTurn && now.key == was.key
  {
  }

  lemma PresentGrows(items: seq<Item>, item: Item, key: string)
    ensures Present(items + [item], key) <==> Present(items, key) || (key != "" && item.key == key)
  {
    var all := items + [item];
    assert all[|items|] == item;
    assert forall q :: 0 <= q < |items| ==> all[q] == items[q];
  }

  lemma EntryStays(items: seq<Item>, k: Kind, key: string, entry: Item, item: Item)
    requires IsEntry(items, k, key, entry) && (item.key != key || (NewestWins(k) && item.lastTurn < entry.lastTurn))
    ensures IsEntry(items + [item], k, key, entry)
  {
    hide Tidied;
    var p :| Counts(items, k, key, p) && Tidied(k, items[p], entry);
    TidiedTurn(k, items[p], entry);
    assert Counts(items + [item], k, key, p) && (items + [item])[p] == items[p];
  }

  lemma EntryIsReplaced(items: seq<Item>, k: Kind, key: string, entry: Item, item: Item)
    requires IsEntry(items, k, key, entry) && item.key == key && (NewestWins(k) ==> item.lastTurn >= entry.lastTurn)
    ensures IsEntry(items + [item], k, key, Normalized(k, item))
  {
    hide Tidied, Normalized;
    NormalizedIsTidied(k, item);
    var p :| Counts(items, k, key, p) && Tidied(k, items[p], entry);
    TidiedTurn(k, items[p], entry);
    assert Counts(items + [item], k, key, |items|) && (items + [item])[|items|] == item;
  }

  lemma EntryIsNew(items: seq<Item>, k: Kind, item: Item)
    requires !Present(items, item.key) && item.key != ""
    ensures IsEntry(items + [item], k, item.key, Normalized(k, item))
  {
    hide Tidied, Normalized;
    NormalizedIsTidied(k, item);
    assert Counts(items + [item], k, item.key, |items|) && (items + [item])[|items|] == item;
  }

  // One key, as one more item comes in.
  lemma KeyGathered(k: Kind, items: seq<Item>, t: Table, item: Item, key: string)
    requires Gathers(k, items, t)
    ensures var n := Enter(k, t, item);
            && (key in n <==> Present(items + [item], key))
            && (key in n ==> IsEntry(items + [item], k, key, n[key]))
  {
    hide Normalized, IsEntry, Present;
    PresentGrows(items, item, key);
    if key in t {
      if item.key != key || (NewestWins(k) && item.lastTurn < t[key].lastTurn) {
        EntryStays(items, k, key, t[key], item);
      } else {
        EntryIsReplaced(items, k, key, t[key], item);
      }
      KeyIsNotEmpty(items, key);
    } else if item.key == key != "" {
      EntryIsNew(items, k, item);
    }
  }

  lemma KeyIsNotEmpty(items: seq<Item>, key: string)
    requires Present(items, key)
    ensures key != ""
  {
  }

  lemma {:induction false} EnterAllGathers(k: Kind, items: seq<Item>)
    ensures Gathers(k, items, EnterAll(k, map[], items))
  {
    if items != [] {
      var front, item := items[..|items| - 1], items[|items| - 1];
      EnterAllGathers(k, front);
      var t := EnterAll(k, map[], front);
      assert front + [item] == items;
      hide Enter, IsEntry, Present;
      forall key
        ensures key in Enter(k, t, item) <==> Present(items, key)
        ensures key in Enter(k, t, item) ==> IsEntry(items, k, key, Enter(k, t, item)[key])
      {
        KeyGathered(k, front, t, item, key);
      }
    }
  }

  lemma {:induction false} EnterAllConcat(k: Kind, t: Table, a: seq<Item>, b: seq<Item>)
    ensures EnterAll(k, t, a + b) == EnterAll(k, EnterAll(k, t, a), b)
  {
    if b == [] {
      assert a + b == a;
    } else {
      EnterAllConcat(k, t, a, b[..|b| - 1]);
      assert (a + b)[..|a + b| - 1] == a + b[..|b| - 1];
    }
  }

  lemma {:induction false} JoinedIsEntered(states: seq<WorldState>, k: Kind)
    ensures JoinAll(states).tables[k] == EnterAll(k, map[], Items(states, k))
  {
    if states != [] {
      var front, last := states[..|states| - 1], states[|states| - 1];
      JoinedIsEntered(front, k);
      var t := EnterAll(k, map[], Items(front, k));
      EnterAllConcat(k, map[], Items(front, k), last.lists[k]);
      EnterAllIsJoin(k, t, last.lists[k]);
      LoadedAt(last.lists, k);
      JoinTablesAt(JoinAll(front).tables, Load(last).tables, k);
    }
  }

  // A list with one entry for each key that occurs, in key order, each the item that counts.
  ghost predicate ListsWhatCounts(k: Kind, items: seq<Item>, list: seq<Item>) {
    && (forall i, j :: 0 <= i < j < |list| ==> Order.Less(list[i].key, list[j].key))
    && (forall key :: Present(items, key) ==> exists i :: 0 <= i < |list| && list[i].key == key)
    && (forall i :: 0 <= i < |list| ==>
          list[i].key != "" && IsEntry(items, k, list[i].key, list[i]))
  }

  lemma ListingCounts(k: Kind, items: seq<Item>, t: Table)
    requires Keyed(k, t) && Gathers(k, items, t)
    ensures ListsWhatCounts(k, items, Listing(t))
  {
    hide IsEntry, Present, Normalized, Listing;
    ListingIsExact(k, t);
    ListingInOrder(k, t);
    var list := Listing(t);
    forall i | 0 <= i < |list|
      ensures list[i].key != "" && IsEntry(items, k, list[i].key, list[i])
    {
      assert list[i].key in t && t[list[i].key] == list[i];
    }
  }

  lemma ListingInOrder(k: Kind, t: Table)
    requires Keyed(k, t)
    ensures var list := Listing(t); forall i, j :: 0 <= i < j < |list| ==> Order.Less(list[i].key, list[j].key)
  {
    hide Normalized;
    SortedKeysIncreasing(t.Keys);
    var keys, list := SortedKeys(t.Keys), Listing(t);
    forall i | 0 <= i < |keys|
      ensures list[i].key == keys[i]
    {
      assert keys[i] in keys;
    }
  }

  // The largest of some numbers that are not negative.
  ghost predicate IsMax(m: int, xs: seq<int>) {
    m >= 0 && (forall i :: 0 <= i < |xs| ==> xs[i] <= m) && (m > 0 ==> exists i :: 0 <= i < |xs| && xs[i] == m)
  }

  function Turns(states: seq<WorldState>): seq<int> {
    seq(|states|, i requires 0 <= i < |states| => states[i].turn)
  }

  function Compactions(states: seq<WorldState>): seq<int> {
    seq(|states|, i requires 0 <= i < |states| => states[i].compactions)
  }

  // The last that says anything.
  ghost predicate IsLastWord(extra: string, states: seq<WorldState>) {
    if forall i :: 0 <= i < |states| ==> states[i].extra == "" then extra == ""
    else exists i :: 0 <= i < |states| && states[i].extra == extra != "" && forall j :: i < j < |states| ==> states[j].extra == ""
  }

  lemma MaxGrows(m: int, xs: seq<int>, x: int)
    requires IsMax(m, xs)
    ensures IsMax(Max(m, Max(0, x)), xs + [x])
  {
    var all := xs + [x];
    assert all[|xs|] == x;
    if m > 0 && x <= m {
      var i :| 0 <= i < |xs| && xs[i] == m;
      assert all[i] == m;
    }
  }

  lemma LastWordGrows(extra: string, states: seq<WorldState>, s: WorldState)
    requires IsLastWord(extra, states)
    ensures IsLastWord(if s.extra != "" then s.extra else extra, states + [s])
  {
    var all := states + [s];
    assert all[|states|] == s;
    if s.extra == "" && !(forall i :: 0 <= i < |states| ==> states[i].extra == "") {
      var i :| 0 <= i < |states| && states[i].extra == extra != "" && forall j :: i < j < |states| ==> states[j].extra == "";
      assert all[i] == states[i];
    }
  }

  ghost predicate Counters(t: Tables, states: seq<WorldState>) {
    IsMax(t.turn, Turns(states)) && IsMax(t.compactions, Compactions(states)) && IsLastWord(t.extra, states)
  }

  lemma CountersGrow(t: Tables, states: seq<WorldState>, s: WorldState)
    requires Counters(t, states)
    ensures Counters(Join(t, Load(s)), states + [s])
  {
    hide IsMax, IsLastWord, LoadLists, JoinTables;
    MaxGrows(t.turn, Turns(states), s.turn);
    MaxGrows(t.compactions, Compactions(states), s.compactions);
    LastWordGrows(t.extra, states, s);
    assert Turns(states) + [s.turn] == Turns(states + [s]);
    assert Compactions(states) + [s.compactions] == Compactions(states + [s]);
  }

  lemma JoinedOneMore(states: seq<WorldState>, s: WorldState)
    ensures JoinAll(states + [s]) == Join(JoinAll(states), Load(s))
  {
    hide Join, Load;
    assert (states + [s])[..|states|] == states;
  }

  lemma NothingCounted()
    ensures Counters(JoinAll([]), [])
  {
  }

  lemma {:induction false} CountersJoin(states: seq<WorldState>)
    ensures Counters(JoinAll(states), states)
  {
    hide *;
    if states == [] {
      NothingCounted();
    } else {
      var front, last := states[..|states| - 1], states[|states| - 1];
      CountersJoin(front);
      CountersGrow(JoinAll(front), front, last);
      JoinedOneMore(front, last);
      assert front + [last] == states;
    }
  }

  // A merged state has the latest turn and the largest count of its parts, the last extra that says anything, and in each
  // list, in key order, exactly one entry for each key of its parts: the one that counts for that kind.
  lemma MergeIsWhatCounts(states: seq<WorldState>)
    ensures var m := Merge(states);
            && IsMax(m.turn, Turns(states)) && IsMax(m.compactions, Compactions(states)) && IsLastWord(m.extra, states)
            && forall k: Kind :: ListsWhatCounts(k, Items(states, k), m.lists[k])
  {
    CountersJoin(states);
    JoinAllWellKeyed(states);
    hide JoinAll, IsMax, IsLastWord, ListsWhatCounts, Gathers, Keyed, Listing;
    var t := JoinAll(states);
    forall k: Kind
      ensures ListsWhatCounts(k, Items(states, k), Merge(states).lists[k])
    {
      JoinedIsEntered(states, k);
      EnterAllGathers(k, Items(states, k));
      ListingCounts(k, Items(states, k), t.tables[k]);
      RenderedAt(t.tables, k);
    }
  }
}
