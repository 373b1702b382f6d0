/** The service registry: its environment-string parser, its printed form, and its lookup. */
module Registry {
  import opened Outcomes
  import opened Text

  type ServiceRegistry = map<string, string>

  function Resolve(registry: ServiceRegistry, service: string): Outcome<string> {
    if service in registry then Ok(registry[service]) else Typed(UnknownService)
  }

  /** The two halves of an item around its first colon, stripped. */
  function NameOf(item: string): string { Strip(Until(item, {':'})) }

  function WorkerOf(item: string): string {
    var i := FirstOf(item, {':'});
    if i < |item| then Strip(item[i + 1..]) else ""
  }

  predicate GoodItem(item: string) {
    ':' in item && NameOf(item) != "" && WorkerOf(item) != ""
  }

  type Entry = (string, string)

  function Read(items: seq<string>): (entries: seq<Entry>)
    ensures |entries| == |items|
    ensures forall i | 0 <= i < |items| :: entries[i] == (NameOf(items[i]), WorkerOf(items[i]))
  {
    seq(|items|, i requires 0 <= i < |items| => (NameOf(items[i]), WorkerOf(items[i])))
  }

  /** The comma items of a text; a blank text has none. */
  function ItemsOf(raw: string): seq<string> {
    if Strip(raw) == "" then [] else Split(raw, ',')
  }

  ghost predicate DistinctNames(entries: seq<Entry>) {
    forall i, j | 0 <= i < j < |entries| :: entries[i].0 != entries[j].0
  }

  /** What a text must be to be accepted: every item good, no name twice. */
  ghost predicate Acceptable(raw: string) {
    (forall i | 0 <= i < |ItemsOf(raw)| :: GoodItem(ItemsOf(raw)[i])) && DistinctNames(Read(ItemsOf(raw)))
  }

  /** `m` holds the entries, each once, and nothing else. */
  ghost predicate Holds(m: ServiceRegistry, entries: seq<Entry>) {
    && DistinctNames(entries)
    && (forall i | 0 <= i < |entries| :: entries[i].0 in m && m[entries[i].0] == entries[i].1)
    && forall name :: name in m ==> exists i :: 0 <= i < |entries| && entries[i].0 == name
  }

  /** The loop of `from_env_string`; `None` is its ValueError. */
  method FromEnvString(raw: string) returns (r: Option<ServiceRegistry>)
    ensures r.Some? <==> Acceptable(raw)
    ensures r.Some? ==> Holds(r.value, Read(ItemsOf(raw)))
  {
    hide NameOf, WorkerOf, Strip, Split;
    if Strip(raw) == "" {
      return Some(map[]);
    }
    var items := Split(raw, ',');
    assert ItemsOf(raw) == items;
    hide ItemsOf;
    var entries := Read(items);
    var byName: ServiceRegistry := map[];
    for i := 0 to |items|
      invariant forall k | 0 <= k < i :: GoodItem(items[k])
      invariant Holds(byName, entries[..i])
    {
      var item := items[i];
      if ':' !in item {
        return None;
      }
      var name, worker := NameOf(item), WorkerOf(item);
      if name == "" || worker == "" {
        return None;
      }
      if name in byName {
        MetBefore(byName, entries, i);
        return None;
      }
      HoldsOneMore(byName, entries[..i], (name, worker));
      assert entries[..i + 1] == entries[..i] + [(name, worker)];
      byName := byName[name := worker];
    }
    assert entries[..|items|] == entries;
    r := Some(byName);
  }

  lemma HoldsOneMore(m: ServiceRegistry, entries: seq<Entry>, e: Entry)
    requires Holds(m, entries) && e.0 !in m
    ensures Holds(m[e.0 := e.1], entries + [e])
  {
    var more := entries + [e];
    var bigger := m[e.0 := e.1];
    forall name | name in bigger ensures exists i :: 0 <= i < |more| && more[i].0 == name {
      if name == e.0 {
        assert more[|entries|].0 == name;
      } else {
        var i :| 0 <= i < |entries| && entries[i].0 == name;
        assert more[i].0 == name;
      }
    }
  }

  lemma MetBefore(m: ServiceRegistry, entries: seq<Entry>, i: nat)
    requires i < |entries| && Holds(m, entries[..i]) && entries[i].0 in m
    ensures !DistinctNames(entries)
  {
    var k :| 0 <= k < |entries[..i]| && entries[..i][k].0 == entries[i].0;
    assert entries[k].0 == entries[i].0;
  }

  /** The entries fix the registry. */
  lemma HeldOnce(a: ServiceRegistry, b: ServiceRegistry, entries: seq<Entry>)
    requires Holds(a, entries) && Holds(b, entries)
    ensures a == b
  {
    assert forall name :: name in a <==> name in b;
  }

  /** An entry whose text is read back as itself. */
  predicate Printable(entry: Entry) {
    && entry.0 != "" && Trimmed(entry.0) && ',' !in entry.0 && ':' !in entry.0
    && entry.1 != "" && Trimmed(entry.1) && ',' !in entry.1
  }

  function Item(entry: Entry): string { entry.0 + ":" + entry.1 }

  function Items(entries: seq<Entry>): (items: seq<string>)
    ensures |items| == |entries| && forall i | 0 <= i < |entries| :: items[i] == Item(entries[i])
  {
    seq(|entries|, i requires 0 <= i < |entries| => Item(entries[i]))
  }

  /** The comma-joined `name:worker` text of a registry. */
  function Print(entries: seq<Entry>): string { Join(Items(entries), ',') }

  lemma ItemReadsBack(entry: Entry)
    requires Printable(entry)
    ensures GoodItem(Item(entry)) && NameOf(Item(entry)) == entry.0 && WorkerOf(Item(entry)) == entry.1
    ensures ',' !in Item(entry) && Item(entry) != "" && !IsSpace(Item(entry)[0])
  {
    var item := Item(entry);
    FirstOfAt(item, {':'}, |entry.0|);
    assert item[..|entry.0|] == entry.0 && item[|entry.0| + 1..] == entry.1;
    assert item[|entry.0|] == ':';
  }

  lemma JoinStarts(items: seq<string>)
    requires items != [] && items[0] != ""
    ensures Join(items, ',') != "" && Join(items, ',')[0] == items[0][0]
  {
  }

  lemma {:induction false} RStripKeeps(s: string)
    requires s != "" && !IsSpace(s[0])
    ensures RStrip(s) != ""
  {
    if IsSpace(s[|s| - 1]) {
      assert s[..|s| - 1][0] == s[0];
      RStripKeeps(s[..|s| - 1]);
    }
  }

  /** The text of well-formed entries is accepted and read as those entries, in their order. */
  lemma PrintedReadsBack(entries: seq<Entry>)
    requires DistinctNames(entries) && forall i | 0 <= i < |entries| :: Printable(entries[i])
    ensures Acceptable(Print(entries)) && Read(ItemsOf(Print(entries))) == entries
  {
    hide GoodItem, NameOf, WorkerOf, Item, Join, Split, RStrip, LStrip;
    var items := Items(entries);
    forall i | 0 <= i < |items|
      ensures GoodItem(items[i]) && NameOf(items[i]) == entries[i].0 && WorkerOf(items[i]) == entries[i].1
      ensures ',' !in items[i] && items[i] != "" && !IsSpace(items[i][0])
    {
      ItemReadsBack(entries[i]);
    }
    ItemsBack(items);
    var read := Read(items);
    assert forall i | 0 <= i < |entries| :: read[i] == (entries[i].0, entries[i].1) == entries[i];
    assert read == entries;
  }

  lemma ItemsBack(items: seq<string>)
    requires forall i | 0 <= i < |items| :: ',' !in items[i] && items[i] != "" && !IsSpace(items[i][0])
    ensures ItemsOf(Join(items, ',')) == items
  {
    if items != [] {
      SplitJoin(items, ',');
      JoinStarts(items);
      hide Join, Split;
      RStripKeeps(Join(items, ','));
    }
  }

  /** And every text the parser accepts is read as such entries. */
  lemma AcceptedIsPrintable(raw: string)
    requires Acceptable(raw)
    ensures forall i | 0 <= i < |ItemsOf(raw)| :: Printable(Read(ItemsOf(raw))[i])
  {
    var items := ItemsOf(raw);
    forall i | 0 <= i < |items| ensures Printable(Read(items)[i]) {
      assert GoodItem(items[i]) && ',' !in items[i];
      GoodItemIsPrintable(items[i]);
    }
  }

  lemma GoodItemIsPrintable(item: string)
    requires GoodItem(item) && ',' !in item
    ensures Printable((NameOf(item), WorkerOf(item)))
  {
    hide Strip, FirstOf, Trimmed;
    var at := FirstOf(item, {':'});
    var before, after := item[..at], item[at + 1..];
    assert forall c :: c in before ==> c in item;
    assert forall c :: c in after ==> c in item;
    assert ':' !in before;
  }

  /** So parse, print, parse is stable: the printed form of an accepted text is accepted, and its
      registry is the registry of the text. */
  lemma PrintParseStable(raw: string, first: ServiceRegistry, second: ServiceRegistry)
    requires Acceptable(raw) && Holds(first, Read(ItemsOf(raw)))
    requires Holds(second, Read(ItemsOf(Print(Read(ItemsOf(raw))))))
    ensures Acceptable(Print(Read(ItemsOf(raw)))) && second == first
  {
    var entries := Read(ItemsOf(raw));
    AcceptedIsPrintable(raw);
    hide ItemsOf, Print, Printable, Read;
    PrintedReadsBack(entries);
    HeldOnce(first, second, entries);
  }
}
