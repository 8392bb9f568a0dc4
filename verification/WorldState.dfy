/** pkg/compaction/worldstate.go: the state that rides in message metadata and must survive compaction. Merging is an
 * idempotent monoid on keyed tables, rendered as lists in key order. */
module WorldState {
  import Order

  // An entry of one of the lists; only tasks have blockers, and a tool is nothing but its name.
  datatype Item = Item(key: string, lastTurn: int, payload: string, blockedBy: seq<string>)

  datatype Kind = Plans | Tasks | Todos | Skills | Files | Tools | Subagents

  const KINDS := [Plans, Tasks, Todos, Skills, Files, Tools, Subagents]

  type Lists = m: map<Kind, seq<Item>> | forall k: Kind :: k in m witness map k: Kind | true :: []

  datatype WorldState = WorldState(turn: int, compactions: int, lists: Lists, extra: string)

  type Table = map<string, Item>
  type AllTables = m: map<Kind, Table> | forall k: Kind :: k in m witness map k: Kind | true :: map[]

  // The same, with each list as a table.
  datatype Tables = Tables(turn: int, compactions: int, tables: AllTables, extra: string)

  const NO_ITEMS: Lists := map k: Kind | true :: []
  const NO_TABLES: AllTables := map k: Kind | true :: map[]
  const EMPTY := WorldState(0, 0, NO_ITEMS, "")
  const ZERO := Tables(0, 0, NO_TABLES, "")

  function Max(a: int, b: int): int {
    if a >= b then a else b
  }

  // Plans, tasks and tools: the last entry counts. The others: the one touched last, and of those the last.
  predicate NewestWins(k: Kind) {
    k == Todos || k == Skills || k == Files || k == Subagents
  }

  function Normalized(k: Kind, item: Item): Item {
    if k == Tasks then item.(blockedBy := Order.Sort(item.blockedBy, Order.Less)) else item
  }

  // ---- One table ----

  function Enter(k: Kind, t: Table, item: Item): Table {
    if item.key == "" then t
    else if NewestWins(k) && item.key in t && item.lastTurn < t[item.key].lastTurn then t
    else t[item.key := Normalized(k, item)]
  }

  function EnterAll(k: Kind, t: Table, items: seq<Item>): Table {
    if items == [] then t else Enter(k, EnterAll(k, t, items[..|items| - 1]), items[|items| - 1])
  }

  // The entry of one key after a then b.
  function Pick(k: Kind, a: Table, b: Table, key: string): Item
    requires key in a || key in b
  {
    if key !in b || (NewestWins(k) && key in a && b[key].lastTurn < a[key].lastTurn) then a[key] else b[key]
  }

  function JoinTable(k: Kind, a: Table, b: Table): Table {
    map key | key in a.Keys + b.Keys :: Pick(k, a, b, key)
  }

  ghost predicate Keyed(k: Kind, t: Table) {
    "" !in t && forall key :: key in t ==> t[key].key == key && Normalized(k, t[key]) == t[key]
  }

  lemma JoinTableAssociative(k: Kind, a: Table, b: Table, c: Table)
    ensures JoinTable(k, JoinTable(k, a, b), c) == JoinTable(k, a, JoinTable(k, b, c))
  {
    var l, r := JoinTable(k, JoinTable(k, a, b), c), JoinTable(k, a, JoinTable(k, b, c));
    assert l.Keys == r.Keys;
  }

  lemma JoinTableIdempotent(k: Kind, a: Table)
    ensures JoinTable(k, a, a) == a && JoinTable(k, map[], a) == a && JoinTable(k, a, map[]) == a
  {
  }

  lemma {:induction false} EnterAllIsJoin(k: Kind, t: Table, items: seq<Item>)
    ensures EnterAll(k, t, items) == JoinTable(k, t, EnterAll(k, map[], items))
  {
    if items == [] {
      JoinTableIdempotent(k, t);
    } else {
      var before, item := items[..|items| - 1], items[|items| - 1];
      EnterAllIsJoin(k, t, before);
      EnterJoins(k, t, EnterAll(k, map[], before), item);
    }
  }

  lemma NormalizedKeeps(k: Kind, item: Item)
    ensures Normalized(k, item).key == item.key && Normalized(k, item).lastTurn == item.lastTurn
  {
  }

  lemma EnterJoins(k: Kind, a: Table, b: Table, item: Item)
    ensures Enter(k, JoinTable(k, a, b), item) == JoinTable(k, a, Enter(k, b, item))
  {
    var l, r := Enter(k, JoinTable(k, a, b), item), JoinTable(k, a, Enter(k, b, item));
    NormalizedKeeps(k, item);
    hide Normalized;
    assert l.Keys == r.Keys;
    forall key | key in l
      ensures l[key] == r[key]
    {
      assert key != item.key ==> l[key] == Pick(k, a, b, key) && r[key] == Pick(k, a, b, key);
    }
  }

  lemma {:induction false} EnterAllKeyed(k: Kind, t: Table, items: seq<Item>)
    requires Keyed(k, t)
    ensures Keyed(k, EnterAll(k, t, items))
  {
    if items != [] {
      EnterAllKeyed(k, t, items[..|items| - 1]);
      SortTwice(items[|items| - 1].blockedBy);
    }
  }

  // ---- Sorting ----

  lemma {:induction false} InsertLeast(x: string, xs: seq<string>)
    requires forall j :: 0 <= j < |xs| ==> !Order.Less(xs[j], x)
    ensures Order.Insert(x, xs, Order.Less) == [x] + xs
  {
    if xs != [] && !Order.Less(x, xs[0]) {
      Order.LessIsTotal(x, xs[0]);
      InsertLeast(x, xs[1..]);
      assert xs == [x] + xs[1..];
    }
  }

  lemma {:induction false} SortKeepsAscending(xs: seq<string>)
    requires Order.Ascending(xs)
    ensures Order.Sort(xs, Order.Less) == xs
  {
    if xs != [] {
      SortKeepsAscending(xs[1..]);
      InsertLeast(xs[0], xs[1..]);
      assert xs == [xs[0]] + xs[1..];
    }
  }

  lemma SortTwice(xs: seq<string>)
    ensures Order.Sort(Order.Sort(xs, Order.Less), Order.Less) == Order.Sort(xs, Order.Less)
  {
    Order.SortAscending(xs);
    SortKeepsAscending(Order.Sort(xs, Order.Less));
  }

  // ---- Whole states ----

  function LoadLists(lists: Lists): AllTables {
    map k: Kind | true :: EnterAll(k, map[], lists[k])
  }

  function Load(ws: WorldState): Tables {
    Tables(Max(0, ws.turn), Max(0, ws.compactions), LoadLists(ws.lists), ws.extra)
  }

  function JoinTables(a: AllTables, b: AllTables): AllTables {
    map k: Kind | true :: JoinTable(k, a[k], b[k])
  }

  function Join(a: Tables, b: Tables): Tables {
    Tables(Max(a.turn, b.turn), Max(a.compactions, b.compactions), JoinTables(a.tables, b.tables),
           if b.extra != "" then b.extra else a.extra)
  }

  function JoinAll(states: seq<WorldState>): Tables {
    if states == [] then ZERO else Join(JoinAll(states[..|states| - 1]), Load(states[|states| - 1]))
  }

  ghost predicate WellKeyed(t: Tables) {
    t.turn >= 0 && t.compactions >= 0 && forall k: Kind :: Keyed(k, t.tables[k])
  }

  lemma JoinTablesAt(a: AllTables, b: AllTables, k: Kind)
    ensures JoinTables(a, b)[k] == JoinTable(k, a[k], b[k])
  {
  }

  lemma SameTables(a: AllTables, b: AllTables)
    requires forall k: Kind :: a[k] == b[k]
    ensures a == b
  {
  }

  lemma JoinTablesAssociative(a: AllTables, b: AllTables, c: AllTables)
    ensures JoinTables(JoinTables(a, b), c) == JoinTables(a, JoinTables(b, c))
  {
    hide *;
    var l, r := JoinTables(JoinTables(a, b), c), JoinTables(a, JoinTables(b, c));
    forall k: Kind
      ensures l[k] == r[k]
    {
      JoinTablesAt(a, b, k);
      JoinTablesAt(JoinTables(a, b), c, k);
      JoinTablesAt(b, c, k);
      JoinTablesAt(a, JoinTables(b, c), k);
      JoinTableAssociative(k, a[k], b[k], c[k]);
    }
    SameTables(l, r);
  }

  lemma JoinAssociative(a: Tables, b: Tables, c: Tables)
    ensures Join(Join(a, b), c) == Join(a, Join(b, c))
  {
    JoinTablesAssociative(a.tables, b.tables, c.tables);
    hide JoinTables;
  }

  lemma JoinIdempotent(a: Tables)
    ensures Join(a, a) == a
    ensures WellKeyed(a) ==> Join(ZERO, a) == a && Join(a, ZERO) == a
  {
    forall k: Kind
      ensures JoinTable(k, a.tables[k], a.tables[k]) == a.tables[k] && JoinTable(k, map[], a.tables[k]) == a.tables[k]
              && JoinTable(k, a.tables[k], map[]) == a.tables[k]
    {
      JoinTableIdempotent(k, a.tables[k]);
    }
    hide JoinTable;
    assert Join(a, a).tables == a.tables;
    assert Join(ZERO, a).tables == a.tables && Join(a, ZERO).tables == a.tables;
  }

  lemma LoadWellKeyed(ws: WorldState)
    ensures WellKeyed(Load(ws))
  {
    forall k: Kind
      ensures Keyed(k, EnterAll(k, map[], ws.lists[k]))
    {
      EnterAllKeyed(k, map[], ws.lists[k]);
    }
  }

  lemma JoinTableKeyed(k: Kind, a: Table, b: Table)
    requires Keyed(k, a) && Keyed(k, b)
    ensures Keyed(k, JoinTable(k, a, b))
  {
    hide Normalized;
  }

  lemma JoinWellKeyed(a: Tables, b: Tables)
    requires WellKeyed(a) && WellKeyed(b)
    ensures WellKeyed(Join(a, b))
  {
    forall k: Kind
      ensures Keyed(k, JoinTables(a.tables, b.tables)[k])
    {
      JoinTablesAt(a.tables, b.tables, k);
      JoinTableKeyed(k, a.tables[k], b.tables[k]);
      hide Keyed, JoinTables;
    }
    hide Keyed, JoinTables;
  }

  lemma {:induction false} JoinAllWellKeyed(states: seq<WorldState>)
    ensures WellKeyed(JoinAll(states))
  {
    if states == [] {
      assert forall k: Kind :: Keyed(k, ZERO.tables[k]);
    } else {
      JoinAllWellKeyed(states[..|states| - 1]);
      LoadWellKeyed(states[|states| - 1]);
      JoinWellKeyed(JoinAll(states[..|states| - 1]), Load(states[|states| - 1]));
    }
  }

  lemma {:induction false} JoinAllConcat(a: seq<WorldState>, b: seq<WorldState>)
    ensures JoinAll(a + b) == Join(JoinAll(a), JoinAll(b))
  {
    JoinAllWellKeyed(a);
    hide WellKeyed, Load, Join;
    if b == [] {
      assert a + b == a;
      JoinIdempotent(JoinAll(a));
    } else {
      var before, last := b[..|b| - 1], b[|b| - 1];
      JoinAllConcat(a, before);
      assert (a + b)[..|a + b| - 1] == a + before;
      JoinAssociative(JoinAll(a), JoinAll(before), Load(last));
    }
  }

  // What came last may be merged in once more without any effect.
  lemma SuffixIsAbsorbed(a: seq<WorldState>, b: seq<WorldState>)
    ensures Join(JoinAll(a + b), JoinAll(b)) == JoinAll(a + b)
  {
    JoinAllConcat(a, b);
    JoinAssociative(JoinAll(a), JoinAll(b), JoinAll(b));
    JoinIdempotent(JoinAll(b));
    hide Join;
  }

  // ---- Rendering ----

  // The keys in order.
  ghost function SortedKeys(keys: set<string>): (r: seq<string>)
    decreases keys
  {
    if keys == {} then []
    else
      var k :| k in keys;
      Order.Insert(k, SortedKeys(keys - {k}), Order.Less)
  }

  ghost function Listing(t: Table): seq<Item> {
    var keys := SortedKeys(t.Keys);
    seq(|keys|, i requires 0 <= i < |keys| => if keys[i] in t then t[keys[i]] else Item("", 0, "", []))
  }

  ghost function RenderTables(tables: AllTables): Lists {
    map k: Kind | true :: Listing(tables[k])
  }

  ghost function Render(t: Tables): WorldState {
    WorldState(t.turn, t.compactions, RenderTables(t.tables), t.extra)
  }

  // MergeWorldState
  ghost function Merge(states: seq<WorldState>): WorldState {
    Render(JoinAll(states))
  }

  lemma {:induction false} InsertIncreasing(x: string, xs: seq<string>)
    requires Order.Increasing(xs) && x !in xs
    ensures Order.Increasing(Order.Insert(x, xs, Order.Less))
    ensures forall y :: y in Order.Insert(x, xs, Order.Less) <==> y == x || y in xs
  {
    hide Order.Less;
    if xs == [] {
    } else if Order.Less(x, xs[0]) {
      forall j | 0 <= j < |xs|
        ensures Order.Less(x, xs[j])
      {
        if j > 0 {
          Order.LessIsTransitive(x, xs[0], xs[j]);
        }
      }
    } else {
      Order.LessIsTotal(x, xs[0]);
      InsertIncreasing(x, xs[1..]);
      var rest := Order.Insert(x, xs[1..], Order.Less);
      assert forall j :: 0 <= j < |rest| ==> rest[j] == x || rest[j] in xs[1..];
      assert xs == [xs[0]] + xs[1..];
    }
  }

  lemma {:induction false} SortedKeysIncreasing(keys: set<string>)
    ensures Order.Increasing(SortedKeys(keys)) && forall y :: y in SortedKeys(keys) <==> y in keys
    decreases keys
  {
    if keys != {} {
      var k :| k in keys && SortedKeys(keys) == Order.Insert(k, SortedKeys(keys - {k}), Order.Less);
      SortedKeysIncreasing(keys - {k});
      InsertIncreasing(k, SortedKeys(keys - {k}));
    }
  }

  lemma HeadIsMember(ys: seq<string>)
    ensures ys != [] ==> ys[0] in ys
  {
  }

  lemma SameHead(xs: seq<string>, ys: seq<string>)
    requires Order.Increasing(xs) && Order.Increasing(ys) && xs != [] && ys != [] && xs[0] in ys && ys[0] in xs
    ensures xs[0] == ys[0]
  {
    var i :| 0 <= i < |ys| && ys[i] == xs[0];
    var j :| 0 <= j < |xs| && xs[j] == ys[0];
    if i > 0 && j > 0 {
      Order.LessIsTransitive(ys[0], xs[0], ys[0]);
      Order.LessIsIrreflexive(ys[0]);
    }
  }

  // Behind the head is everything but the head.
  lemma BehindHead(xs: seq<string>, y: string)
    requires Order.Increasing(xs) && xs != []
    ensures y in xs[1..] <==> y in xs && y != xs[0]
  {
    Order.LessIsIrreflexive(xs[0]);
    hide Order.Less;
    assert xs == [xs[0]] + xs[1..];
    if y in xs[1..] {
      var k :| 0 < k < |xs| && xs[k] == y;
      assert Order.Less(xs[0], xs[k]);
    }
  }

  lemma {:induction false} IncreasingIsUnique(xs: seq<string>, ys: seq<string>)
    requires Order.Increasing(xs) && Order.Increasing(ys) && forall y :: y in xs <==> y in ys
    ensures xs == ys
  {
    if xs == [] {
      HeadIsMember(ys);
    } else {
      assert xs[0] in ys;
      HeadIsMember(ys);
      SameHead(xs, ys);
      forall y
        ensures y in xs[1..] <==> y in ys[1..]
      {
        BehindHead(xs, y);
        BehindHead(ys, y);
      }
      IncreasingIsUnique(xs[1..], ys[1..]);
      hide Order.Less, Order.Increasing;
      assert xs == [xs[0]] + xs[1..] && ys == [ys[0]] + ys[1..];
    }
  }

  // A list that gives exactly the entries of a table, each once.
  ghost predicate Entries(t: Table, items: seq<Item>) {
    && (forall i, j :: 0 <= i < j < |items| ==> items[i].key != items[j].key)
    && (forall i :: 0 <= i < |items| ==> items[i].key in t && t[items[i].key] == items[i])
  }

  function KeysOf(items: seq<Item>): set<string> {
    if items == [] then {} else KeysOf(items[..|items| - 1]) + {items[|items| - 1].key}
  }

  lemma {:induction false} KeysOfMembers(items: seq<Item>, key: string)
    ensures key in KeysOf(items) <==> exists i :: 0 <= i < |items| && items[i].key == key
  {
    if items != [] {
      KeysOfMembers(items[..|items| - 1], key);
      assert forall i :: 0 <= i < |items| - 1 ==> items[..|items| - 1][i] == items[i];
    }
  }

  lemma {:induction false} EnterDistinct(k: Kind, items: seq<Item>, t: Table)
    requires Keyed(k, t) && Entries(t, items)
    ensures var r := EnterAll(k, map[], items);
            r.Keys == KeysOf(items) && forall key :: key in r ==> key in t && r[key] == t[key]
  {
    if items != [] {
      var before, last := items[..|items| - 1], items[|items| - 1];
      assert forall i :: 0 <= i < |before| ==> before[i] == items[i];
      EnterDistinct(k, before, t);
      KeysOfMembers(before, last.key);
      hide Normalized;
    }
  }

  lemma ListingIsExact(k: Kind, t: Table)
    requires Keyed(k, t)
    ensures Entries(t, Listing(t)) && forall key :: key in t ==> exists i :: 0 <= i < |Listing(t)| && Listing(t)[i].key == key
  {
    var keys, items := SortedKeys(t.Keys), Listing(t);
    SortedKeysIncreasing(t.Keys);
    hide SortedKeys, Normalized;
    forall i | 0 <= i < |keys|
      ensures keys[i] in t && items[i] == t[keys[i]] && items[i].key == keys[i]
    {
      assert keys[i] in keys;
    }
    forall i, j | 0 <= i < j < |items|
      ensures items[i].key != items[j].key
    {
      Order.LessIsIrreflexive(keys[i]);
    }
    forall key | key in t
      ensures exists i :: 0 <= i < |items| && items[i].key == key
    {
      var i :| 0 <= i < |keys| && keys[i] == key;
      assert items[i].key == key;
    }
  }

  lemma ListingLoads(k: Kind, t: Table)
    requires Keyed(k, t)
    ensures EnterAll(k, map[], Listing(t)) == t
  {
    ListingIsExact(k, t);
    EnterDistinct(k, Listing(t), t);
    hide EnterAll, Listing, Keyed, Entries, KeysOf;
    forall key
      ensures key in t ==> key in EnterAll(k, map[], Listing(t))
    {
      KeysOfMembers(Listing(t), key);
    }
  }

  // Rendered tables read back as themselves.
  lemma RenderLoads(t: Tables)
    requires WellKeyed(t)
    ensures Load(Render(t)) == t
  {
    var loaded := LoadLists(RenderTables(t.tables));
    forall k: Kind
      ensures loaded[k] == t.tables[k]
    {
      ListingLoads(k, t.tables[k]);
      LoadedAt(RenderTables(t.tables), k);
      RenderedAt(t.tables, k);
      hide LoadLists, RenderTables, EnterAll, Listing;
    }
    hide LoadLists, RenderTables, Keyed;
    SameTables(loaded, t.tables);
  }

  lemma LoadedAt(lists: Lists, k: Kind)
    ensures LoadLists(lists)[k] == EnterAll(k, map[], lists[k])
  {
  }

  lemma RenderedAt(tables: AllTables, k: Kind)
    ensures RenderTables(tables)[k] == Listing(tables[k])
  {
  }

  // Merging a merged state is merging its parts.
  lemma MergeIsAssociative(a: seq<WorldState>, b: seq<WorldState>)
    ensures Merge([Merge(a)] + b) == Merge(a + b) == Merge(a + [Merge(b)])
  {
    JoinAllWellKeyed(a);
    JoinAllWellKeyed(b);
    RenderLoads(JoinAll(a));
    RenderLoads(JoinAll(b));
    JoinIdempotent(JoinAll(a));
    JoinIdempotent(JoinAll(b));
    JoinAllConcat(a, b);
    JoinAllConcat([Merge(a)], b);
    JoinAllConcat(a, [Merge(b)]);
    assert [Merge(a)][..0] == [] && [Merge(b)][..0] == [];
    hide WellKeyed, Join, Load, Render;
  }

  // ---- Overruled states ----

  // An entry that w puts over e, and t, which e already had absorbed, puts back.
  predicate ClashAt(k: Kind, e: Table, w: Table, t: Table, key: string) {
    key in w && key in t && t[key] != w[key]
    && (NewestWins(k) ==> t[key].lastTurn >= w[key].lastTurn && (key in e ==> w[key].lastTurn >= e[key].lastTurn))
  }

  ghost predicate TableClash(k: Kind, e: Table, w: Table, t: Table) {
    exists key :: ClashAt(k, e, w, t, key)
  }

  ghost predicate Clash(e: Tables, w: Tables, t: Tables) {
    (w.extra != "" && t.extra != "" && w.extra != t.extra) || exists k: Kind :: TableClash(k, e.tables[k], w.tables[k], t.tables[k])
  }

  lemma KeySurvives(k: Kind, e: Table, w: Table, t: Table, key: string)
    requires JoinTable(k, e, t) == e && (key in e || key in w)
    ensures var x := JoinTable(k, e, w);
            key in x && (Pick(k, x, t, key) == x[key] <==> !ClashAt(k, e, w, t, key))
  {
    assert key in t ==> key in JoinTable(k, e, t) && Pick(k, e, t, key) == e[key];
  }

  lemma TableSurvives(k: Kind, e: Table, w: Table, t: Table)
    requires JoinTable(k, e, t) == e
    ensures JoinTable(k, JoinTable(k, e, w), t) == JoinTable(k, e, w) <==> !TableClash(k, e, w, t)
  {
    var x := JoinTable(k, e, w);
    var again := JoinTable(k, x, t);
    assert t.Keys <= JoinTable(k, e, t).Keys;
    assert again.Keys == x.Keys;
    forall key | key in x
      ensures again[key] == x[key] <==> !ClashAt(k, e, w, t, key)
    {
      KeySurvives(k, e, w, t, key);
    }
    assert forall key :: ClashAt(k, e, w, t, key) ==> key in x;
    hide JoinTable, ClashAt;
  }

  // A state put over the history survives being merged with the rest of the history again exactly if nothing clashes.
  lemma SurvivesUnlessClash(e: Tables, w: Tables, t: Tables)
    requires Join(e, t) == e
    ensures Join(Join(e, w), t) == Join(e, w) <==> !Clash(e, w, t)
  {
    var x := Join(e, w);
    var again := Join(x, t);
    assert t.turn <= e.turn && t.compactions <= e.compactions;
    forall k: Kind
      ensures again.tables[k] == x.tables[k] <==> !TableClash(k, e.tables[k], w.tables[k], t.tables[k])
    {
      JoinTablesAt(e.tables, t.tables, k);
      JoinTablesAt(e.tables, w.tables, k);
      JoinTablesAt(x.tables, t.tables, k);
      TableSurvives(k, e.tables[k], w.tables[k], t.tables[k]);
    }
    hide TableClash, JoinTables;
    if forall k: Kind :: again.tables[k] == x.tables[k] {
      SameTables(again.tables, x.tables);
    }
  }

  lemma KeyOnTopAgain(k: Kind, e: Table, w: Table, t: Table, key: string)
    requires JoinTable(k, e, t) == e
    ensures var x := JoinTable(k, e, w);
            var y := JoinTable(k, x, t);
            && (key in JoinTable(k, y, w) <==> key in x)
            && (key in x ==> JoinTable(k, y, w)[key] == x[key])
  {
    assert key in t ==> key in JoinTable(k, e, t) && Pick(k, e, t, key) == e[key];
  }

  // However often what the history already says comes in between, putting the same state on top again changes nothing.
  lemma OnTopAgain(e: Tables, w: Tables, t: Tables)
    requires Join(e, t) == e
    ensures Join(Join(Join(e, w), t), w) == Join(e, w)
  {
    var x := Join(e, w);
    var y := Join(x, t);
    assert t.turn <= e.turn && t.compactions <= e.compactions;
    forall k: Kind
      ensures Join(y, w).tables[k] == x.tables[k]
    {
      JoinTablesAt(e.tables, t.tables, k);
      JoinTablesAt(e.tables, w.tables, k);
      JoinTablesAt(x.tables, t.tables, k);
      JoinTablesAt(y.tables, w.tables, k);
      TableOnTopAgain(k, e.tables[k], w.tables[k], t.tables[k]);
    }
    hide JoinTables;
    SameTables(Join(y, w).tables, x.tables);
  }

  lemma TableOnTopAgain(k: Kind, e: Table, w: Table, t: Table)
    requires JoinTable(k, e, t) == e
    ensures JoinTable(k, JoinTable(k, JoinTable(k, e, w), t), w) == JoinTable(k, e, w)
  {
    forall key: string
      ensures var x := JoinTable(k, e, w);
              var y := JoinTable(k, x, t);
              (key in JoinTable(k, y, w) <==> key in x) && (key in x ==> JoinTable(k, y, w)[key] == x[key])
    {
      KeyOnTopAgain(k, e, w, t, key);
    }
    hide JoinTable;
  }

  // ---- The loops ----

  // Sorting distinct keys gives the increasing sequence of them.
  lemma SortedIncreasing(xs: seq<string>, keys: set<string>)
    requires Order.DistinctBy(xs, Order.Itself) && forall y :: y in xs <==> y in keys
    ensures Order.Sort(xs, Order.Less) == SortedKeys(keys)
  {
    var sorted := Order.Sort(xs, Order.Less);
    Order.SortIncreasing(xs);
    hide Order.Sort, SortedKeys, Order.Less;
    SortedKeysIncreasing(keys);
    IncreasingIsUnique(sorted, SortedKeys(keys));
  }

  method Keys(t: Table) returns (keys: seq<string>)
    ensures keys == SortedKeys(t.Keys)
  {
    keys := [];
    var rest := t.Keys;
    while rest != {}
      invariant rest <= t.Keys && Order.DistinctBy(keys, Order.Itself)
      invariant forall y :: y in keys <==> y in t.Keys - rest
      decreases |rest|
    {
      var key :| key in rest;
      Order.DistinctSnoc(keys, key, Order.Itself);
      hide Order.DistinctBy;
      keys, rest := keys + [key], rest - {key};
    }
    SortedIncreasing(keys, t.Keys);
    keys := Order.Sort(keys, Order.Less);
  }

  method ValuesByKey(t: Table) returns (out: seq<Item>)
    ensures out == Listing(t)
  {
    var keys := Keys(t);
    SortedKeysIncreasing(t.Keys);
    hide SortedKeys, Order.Increasing;
    out := [];
    for i := 0 to |keys|
      invariant |out| == i && forall j :: 0 <= j < i ==> keys[j] in t && out[j] == t[keys[j]]
    {
      assert keys[i] in keys;
      out := out + [t[keys[i]]];
    }
  }

  method EnterItems(k: Kind, before: Table, items: seq<Item>) returns (t: Table)
    ensures t == EnterAll(k, before, items)
  {
    t := before;
    for i := 0 to |items|
      invariant t == EnterAll(k, before, items[..i])
    {
      var item := items[i];
      assert items[..i + 1][..i] == items[..i];
      if item.key == "" {
        continue;
      }
      if !NewestWins(k) || item.key !in t || item.lastTurn >= t[item.key].lastTurn {
        t := t[item.key := Normalized(k, item)];
      }
    }
    assert items[..|items|] == items;
  }

  lemma AllKinds(k: Kind)
    ensures k in KINDS
  {
    assert KINDS[0] == Plans && KINDS[1] == Tasks && KINDS[2] == Todos && KINDS[3] == Skills && KINDS[4] == Files
        && KINDS[5] == Tools && KINDS[6] == Subagents;
  }

  lemma ListsEntered(before: AllTables, lists: Lists, tables: AllTables)
    requires forall k: Kind :: tables[k] == EnterAll(k, before[k], lists[k])
    ensures tables == JoinTables(before, LoadLists(lists))
  {
    forall k: Kind
      ensures tables[k] == JoinTables(before, LoadLists(lists))[k]
    {
      EnterAllIsJoin(k, before[k], lists[k]);
      JoinTablesAt(before, LoadLists(lists), k);
    }
    hide *;
    SameTables(tables, JoinTables(before, LoadLists(lists)));
  }

  method EnterLists(before: AllTables, lists: Lists) returns (tables: AllTables)
    ensures tables == JoinTables(before, LoadLists(lists))
  {
    tables := before;
    for j := 0 to |KINDS|
      invariant forall k: Kind :: tables[k] == if k in KINDS[..j] then EnterAll(k, before[k], lists[k]) else before[k]
    {
      var k := KINDS[j];
      var t := EnterItems(k, before[k], lists[k]);
      assert KINDS[..j + 1] == KINDS[..j] + [k];
      hide EnterAll;
      tables := tables[k := t];
    }
    forall k: Kind
      ensures k in KINDS[..|KINDS|]
    {
      AllKinds(k);
    }
    ListsEntered(before, lists, tables);
  }

  method RenderLists(tables: AllTables) returns (lists: Lists)
    ensures lists == RenderTables(tables)
  {
    hide *;
    lists := NO_ITEMS;
    for j := 0 to |KINDS|
      invariant forall k: Kind :: k in KINDS[..j] ==> lists[k] == Listing(tables[k])
    {
      var k := KINDS[j];
      var values := ValuesByKey(tables[k]);
      assert KINDS[..j + 1] == KINDS[..j] + [k];
      lists := lists[k := values];
    }
    forall k: Kind
      ensures k in KINDS[..|KINDS|]
    {
      AllKinds(k);
    }
    AllListed(tables, lists);
  }

  lemma AllListed(tables: AllTables, lists: Lists)
    requires forall k: Kind :: lists[k] == Listing(tables[k])
    ensures lists == RenderTables(tables)
  {
    hide Listing;
  }

  // The loop body: one state into what the loop has gathered.
  method AddState(all: Tables, state: WorldState) returns (sum: Tables)
    requires all.turn >= 0 && all.compactions >= 0
    ensures sum == Join(all, Load(state)) && sum.turn >= 0 && sum.compactions >= 0
  {
    hide JoinTables, LoadLists;
    var turn, compactions, extra := all.turn, all.compactions, all.extra;
    if state.turn > turn {
      turn := state.turn;
    }
    if state.compactions > compactions {
      compactions := state.compactions;
    }
    var tables := EnterLists(all.tables, state.lists);
    if |state.extra| > 0 {
      extra := state.extra;
    }
    sum := Tables(turn, compactions, tables, extra);
  }

  lemma JoinAllSnoc(states: seq<WorldState>, i: nat)
    requires i < |states|
    ensures JoinAll(states[..i + 1]) == Join(JoinAll(states[..i]), Load(states[i]))
  {
    assert states[..i + 1][..i] == states[..i];
    hide Join, Load;
  }

  lemma MergeIs(states: seq<WorldState>, all: Tables)
    requires all == JoinAll(states)
    ensures Merge(states) == WorldState(all.turn, all.compactions, RenderTables(all.tables), all.extra)
  {
    hide JoinAll, RenderTables;
  }

  lemma NothingYet()
    ensures JoinAll([]) == ZERO && ZERO.turn == 0 && ZERO.compactions == 0
  {
  }

  method MergeWorldState(states: seq<WorldState>) returns (out: WorldState)
    ensures out == Merge(states)
  {
    hide *;
    var all := ZERO;
    NothingYet();
    assert states[..0] == [];
    for i := 0 to |states|
      invariant all == JoinAll(states[..i]) && all.turn >= 0 && all.compactions >= 0
    {
      JoinAllSnoc(states, i);
      all := AddState(all, states[i]);
    }
    assert states[..|states|] == states;
    var lists := RenderLists(all.tables);
    MergeIs(states, all);
    out := WorldState(all.turn, all.compactions, lists, all.extra);
  }
}
