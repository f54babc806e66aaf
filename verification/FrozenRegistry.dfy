/**
 The sealed import registry: nested dictionaries packed into lists, unpacked again, and replayed
 for the subtree at a path. Dictionaries keep their enumeration order, which varies between hosts.
 */
module FrozenRegistry {
  import opened Wrappers

  datatype Key = Path(name: string) | Backends(names: set<string>) | UnsupportedKey

  datatype Registry = Dict(items: seq<Item>) | Exports(names: set<string>) | Unsupported

  datatype Item = Item(key: Key, value: Registry)

  /** What the sealed file holds: lists, strings, objects (of which only the keys matter), and anything else. */
  datatype Json = List(items: seq<Json>) | Text(text: string) | Record(keys: seq<string>) | Scalar

  type Sorter = set<string> -> seq<string>

  predicate NoDuplicate<T(==)>(s: seq<T>) {
    forall i, j :: 0 <= i < j < |s| ==> s[i] != s[j]
  }

  function Elements<T>(s: seq<T>): set<T> {
    set x | x in s
  }

  /** Any listing of a set, each element once; sorting is one. */
  ghost predicate Lists(sorted: Sorter) {
    forall s :: NoDuplicate(sorted(s)) && Elements(sorted(s)) == s
  }

  // ----- Packing

  function Texts(s: seq<string>): (r: seq<Json>)
    ensures |r| == |s| && forall i :: 0 <= i < |s| ==> r[i] == Text(s[i])
  {
    seq(|s|, i requires 0 <= i < |s| => Text(s[i]))
  }

  function PackKey(k: Key, sorted: Sorter): Option<Json> {
    match k
    case Path(name) => Some(List([Text("path"), Text(name)]))
    case Backends(names) => Some(List([Text("backends"), List(Texts(sorted(names)))]))
    case UnsupportedKey => None
  }

  function Pack(v: Registry, sorted: Sorter): Option<Json> {
    match v
    case Dict(items) =>
      var pairs :- PackItems(items, sorted);
      Some(List([Text("dict"), List(pairs)]))
    case Exports(names) => Some(List([Text("exports"), List(Texts(sorted(names)))]))
    case Unsupported => None
  }

  function PackItems(items: seq<Item>, sorted: Sorter): Option<seq<Json>> {
    if items == [] then Some([])
    else
      var first :- PackItem(items[0], sorted);
      var rest :- PackItems(items[1..], sorted);
      Some([first] + rest)
  }

  function PackItem(i: Item, sorted: Sorter): Option<Json> {
    var key :- PackKey(i.key, sorted);
    var item :- Pack(i.value, sorted);
    Some(List([key, item]))
  }

  // ----- Unpacking

  function Strings(items: seq<Json>): Option<seq<string>> {
    if items == [] then Some([])
    else if !items[0].Text? then None
    else
      var rest :- Strings(items[1..]);
      Some([items[0].text] + rest)
  }

  /** A list of strings, each once. */
  function UnpackSet(items: seq<Json>): Option<set<string>> {
    var names :- Strings(items);
    if NoDuplicate(names) then Some(Elements(names)) else None
  }

  /** A kind and its data; an object of two keys is taken apart like a list of two strings. */
  function UnpackKey(key: Json): Option<Key> {
    match key
    case List(items) =>
      if |items| != 2 then None
      else if items[0] == Text("path") && items[1].Text? then Some(Path(items[1].text))
      else if items[0] == Text("backends") && items[1].List? then
        var names :- UnpackSet(items[1].items);
        Some(Backends(names))
      else None
    case Record(keys) => if |keys| == 2 && keys[0] == "path" then Some(Path(keys[1])) else None
    case _ => None
  }

  function Unpack(j: Json): Option<Registry> {
    if !j.List? || |j.items| != 2 || !j.items[1].List? then None
    else
      var (tag, items) := (j.items[0], j.items[1].items);
      if tag == Text("exports") then
        var names :- UnpackSet(items);
        Some(Exports(names))
      else if tag == Text("dict") then
        var result :- UnpackItems(items, []);
        Some(Dict(result))
      else None
  }

  predicate HasKey(items: seq<Item>, k: Key) {
    exists i :: 0 <= i < |items| && items[i].key == k
  }

  /**
   The pairs still to come, after those already in the result. A string or an object in place of a
   pair would give a string for its key, and no string is a key.
   */
  function UnpackItems(items: seq<Json>, result: seq<Item>): Option<seq<Item>> {
    if items == [] then Some(result)
    else if !items[0].List? || |items[0].items| != 2 then None
    else
      var key :- UnpackKey(items[0].items[0]);
      if HasKey(result, key) then None
      else
        var item :- Unpack(items[0].items[1]);
        UnpackItems(items[1..], result + [Item(key, item)])
  }

  // ----- The round trip

  /** A dictionary's keys differ, all the way down. */
  predicate Proper(v: Registry) {
    v.Dict? ==> ProperItems(v.items)
  }

  predicate ProperItems(items: seq<Item>) {
    items == [] || (!HasKey(items[1..], items[0].key) && ProperItem(items[0]) && ProperItems(items[1..]))
  }

  predicate ProperItem(i: Item) {
    Proper(i.value)
  }

  lemma {:induction false} StringsBack(s: seq<string>)
    ensures Strings(Texts(s)) == Some(s)
  {
    if s == [] {
      assert Texts(s) == [];
    } else {
      StringsBack(s[1..]);
      assert Texts(s)[1..] == Texts(s[1..]);
      assert s == [s[0]] + s[1..];
    }
  }

  lemma {:induction false} KeyBack(k: Key, sorted: Sorter)
    requires Lists(sorted) && PackKey(k, sorted).Some?
    ensures UnpackKey(PackKey(k, sorted).value) == Some(k)
  {
    if k.Backends? {
      StringsBack(sorted(k.names));
      assert NoDuplicate(sorted(k.names)) && Elements(sorted(k.names)) == k.names;
      KindsDiffer();
    }
  }

  lemma KindsDiffer()
    ensures Text("path") != Text("backends") && Text("dict") != Text("exports")
  {
    assert |"path"| != |"backends"| && |"dict"| != |"exports"|;
  }

  /** Unpacking a packed registry gives it back, in the same enumeration order. */
  lemma {:induction false} RoundTrip(v: Registry, sorted: Sorter)
    requires Lists(sorted) && Proper(v) && Pack(v, sorted).Some?
    ensures Unpack(Pack(v, sorted).value) == Some(v)
    decreases v
  {
    KindsDiffer();
    match v
    case Dict(items) =>
      ItemsBack(items, [], sorted);
      assert [] + items == items;
    case Exports(names) =>
      StringsBack(sorted(names));
      assert NoDuplicate(sorted(names)) && Elements(sorted(names)) == names;
  }

  lemma {:induction false} ItemsBack(items: seq<Item>, result: seq<Item>, sorted: Sorter)
    requires Lists(sorted) && ProperItems(items) && PackItems(items, sorted).Some?
    requires forall i :: 0 <= i < |items| ==> !HasKey(result, items[i].key)
    ensures UnpackItems(PackItems(items, sorted).value, result) == Some(result + items)
    decreases items
  {
    if items == [] {
      assert result + items == result;
    } else {
      var first, rest := PackItem(items[0], sorted).value, PackItems(items[1..], sorted).value;
      ItemBack(items[0], sorted);
      assert ([first] + rest)[1..] == rest;
      Remaining(items, result);
      ItemsBack(items[1..], result + [items[0]], sorted);
      assert result + [items[0]] + items[1..] == result + items;
    }
  }

  lemma {:induction false} Remaining(items: seq<Item>, result: seq<Item>)
    requires items != [] && !HasKey(items[1..], items[0].key)
    requires forall i :: 0 <= i < |items| ==> !HasKey(result, items[i].key)
    ensures forall i :: 0 <= i < |items| - 1 ==> !HasKey(result + [items[0]], items[1..][i].key)
  {
    forall i | 0 <= i < |items| - 1
      ensures !HasKey(result + [items[0]], items[1..][i].key)
    {
      assert !HasKey(result, items[i + 1].key) && items[1..][i] == items[i + 1];
      assert items[1..][i].key != items[0].key;
    }
  }

  lemma {:induction false} ItemBack(i: Item, sorted: Sorter)
    requires Lists(sorted) && ProperItem(i) && PackItem(i, sorted).Some?
    ensures var packed := PackItem(i, sorted).value;
            packed.List? && |packed.items| == 2 && UnpackKey(packed.items[0]) == Some(i.key) && Unpack(packed.items[1]) == Some(i.value)
    decreases i
  {
    KeyBack(i.key, sorted);
    RoundTrip(i.value, sorted);
  }

  /** Different registries pack differently, whichever way sets are listed. */
  lemma {:induction false} PackInjective(a: Registry, b: Registry, sorted: Sorter)
    requires Lists(sorted) && Proper(a) && Proper(b) && Pack(a, sorted).Some? && Pack(a, sorted) == Pack(b, sorted)
    ensures a == b
  {
    RoundTrip(a, sorted);
    RoundTrip(b, sorted);
  }

  /** Whatever is unpacked has distinct keys, and can be packed again. */
  lemma {:induction false} UnpackedProper(j: Json, sorted: Sorter)
    requires Unpack(j).Some?
    ensures Proper(Unpack(j).value) && Pack(Unpack(j).value, sorted).Some?
    decreases j
  {
    var v := Unpack(j).value;
    if v.Dict? {
      UnpackedItemsProper(j.items[1].items, [], sorted);
    }
  }

  lemma {:induction false} UnpackedItemsProper(items: seq<Json>, result: seq<Item>, sorted: Sorter)
    requires UnpackItems(items, result).Some? && ProperItems(result) && PackItems(result, sorted).Some?
    ensures ProperItems(UnpackItems(items, result).value) && PackItems(UnpackItems(items, result).value, sorted).Some?
    decreases items
  {
    if items != [] {
      var key, item := UnpackKey(items[0].items[0]).value, Unpack(items[0].items[1]).value;
      UnpackedProper(items[0].items[1], sorted);
      ProperSnoc(result, Item(key, item), sorted);
      UnpackedItemsProper(items[1..], result + [Item(key, item)], sorted);
    }
  }

  lemma {:induction false} ProperSnoc(items: seq<Item>, x: Item, sorted: Sorter)
    requires ProperItems(items) && PackItems(items, sorted).Some? && !HasKey(items, x.key)
    requires Proper(x.value) && Pack(x.value, sorted).Some? && !x.key.UnsupportedKey?
    ensures ProperItems(items + [x]) && PackItems(items + [x], sorted).Some?
  {
    if items == [] {
      assert [x][1..] == [] && items + [x] == [x];
    } else {
      assert (items + [x])[1..] == items[1..] + [x];
      assert forall i :: 0 <= i < |items| - 1 ==> items[1..][i] == items[i + 1];
      ProperSnoc(items[1..], x, sorted);
    }
  }

  // ----- Replay

  function Find(items: seq<Item>, k: Key): Option<Registry> {
    if items == [] then None else if items[0].key == k then Some(items[0].value) else Find(items[1..], k)
  }

  /** One path component down, which must be a dictionary again. */
  function Descend(v: Registry, part: string): Option<Registry> {
    if !v.Dict? then None
    else
      var found :- Find(v.items, Path(part));
      if found.Dict? then Some(found) else None
  }

  function Subtree(v: Registry, parts: seq<string>): Option<Registry>
    decreases |parts|
  {
    if parts == [] then Some(v)
    else
      var next :- Descend(v, parts[0]);
      Subtree(next, parts[1..])
  }

  ghost predicate DistinctKeys(items: seq<Item>) {
    forall i, j :: 0 <= i < j < |items| ==> items[i].key != items[j].key
  }

  lemma {:induction false} ProperDistinct(items: seq<Item>)
    requires ProperItems(items)
    ensures DistinctKeys(items) && forall x :: x in items ==> Proper(x.value)
  {
    if items != [] {
      ProperDistinct(items[1..]);
      assert forall i :: 0 < i < |items| ==> items[i] == items[1..][i - 1];
    }
  }

  /** The item found is the one with the key, wherever it stands; none is found when no item has the key. */
  lemma {:induction false} FindMeans(items: seq<Item>, k: Key, v: Registry)
    requires DistinctKeys(items)
    ensures Find(items, k) == Some(v) <==> Item(k, v) in items
    ensures Find(items, k).None? <==> !HasKey(items, k)
  {
    if items != [] {
      var rest := items[1..];
      assert forall i :: 0 <= i < |rest| ==> rest[i] == items[i + 1];
      FindMeans(rest, k, v);
      assert items == [items[0]] + rest;
      assert forall x :: x in rest ==> x.key != items[0].key;
      assert HasKey(items, k) <==> items[0].key == k || HasKey(rest, k);
    }
  }

  /** A dictionary that is the other dictionary's item under a component. */
  ghost predicate Below(v: Registry, part: string, w: Registry) {
    v.Dict? && w.Dict? && Item(Path(part), w) in v.items
  }

  /** The dictionaries on the way down a path, each an item of the one before under the next component. */
  ghost predicate Way(v: Registry, parts: seq<string>, w: Registry, way: seq<Registry>) {
    && |way| == |parts| + 1 && way[0] == v && way[|parts|] == w
    && forall i {:trigger parts[i]} :: 0 <= i < |parts| ==> Below(way[i], parts[i], way[i + 1])
  }

  lemma {:induction false} DescendMeans(v: Registry, part: string, w: Registry)
    requires Proper(v)
    ensures Descend(v, part) == Some(w) <==> Below(v, part, w)
    ensures Descend(v, part) == Some(w) ==> Proper(w)
  {
    if v.Dict? {
      ProperDistinct(v.items);
      FindMeans(v.items, Path(part), w);
      if Item(Path(part), w) in v.items {
        assert Proper(Item(Path(part), w).value);
      }
    }
  }

  /** A subtree is what the path leads to, component by component, through items with those keys. */
  lemma {:induction false} SubtreeMeans(v: Registry, parts: seq<string>, w: Registry)
    requires Proper(v)
    ensures Subtree(v, parts) == Some(w) <==> exists way :: Way(v, parts, w, way)
    decreases |parts|
  {
    if parts == [] {
      assert v == w ==> Way(v, parts, w, [v]);
    } else {
      if Subtree(v, parts) == Some(w) {
        var next := Descend(v, parts[0]).value;
        DescendMeans(v, parts[0], next);
        SubtreeMeans(next, parts[1..], w);
        var rest :| Way(next, parts[1..], w, rest);
        assert Way(v, parts, w, [v] + rest);
      }
      if way :| Way(v, parts, w, way) {
        var next := way[1];
        assert way[0] == v;
        DescendMeans(v, parts[0], next);
        SubtreeMeans(next, parts[1..], w);
        WayOn(v, parts, w, way);
      }
    }
  }

  lemma {:induction false} WayOn(v: Registry, parts: seq<string>, w: Registry, way: seq<Registry>)
    requires parts != [] && Way(v, parts, w, way)
    ensures Way(way[1], parts[1..], w, way[1..])
  {
    var rest := way[1..];
    forall i {:trigger parts[1..][i]} | 0 <= i < |parts| - 1
      ensures Below(rest[i], parts[1..][i], rest[i + 1])
    {
      assert parts[1..][i] == parts[i + 1];
    }
  }

  /** A path continued by another is the other one inside the subtree. */
  lemma {:induction false} SubtreeInside(v: Registry, p: seq<string>, q: seq<string>)
    ensures Subtree(v, p + q) == if Subtree(v, p).Some? then Subtree(Subtree(v, p).value, q) else None
    decreases |p|
  {
    if p == [] {
      assert p + q == q;
    } else {
      assert (p + q)[1..] == p[1..] + q;
      if Descend(v, p[0]).Some? {
        SubtreeInside(Descend(v, p[0]).value, p[1..], q);
      }
    }
  }

  method Replay(structure: Registry, parts: seq<string>) returns (r: Option<Registry>)
    ensures r == Subtree(structure, parts)
  {
    var value := structure;
    for i := 0 to |parts|
      invariant Subtree(structure, parts) == Subtree(value, parts[i..])
    {
      assert parts[i..][1..] == parts[i + 1..];
      if !value.Dict? {
        return None;
      }
      var found := Find(value.items, Path(parts[i]));
      if found.None? || !found.value.Dict? {
        return None;
      }
      value := found.value;
    }
    return Some(value);
  }

  /** Replaying from the sealed file is replaying from the original registry. */
  lemma {:induction false} SealedReplay(v: Registry, sorted: Sorter, parts: seq<string>)
    requires Lists(sorted) && Proper(v) && Pack(v, sorted).Some?
    ensures Unpack(Pack(v, sorted).value).Some? && Subtree(Unpack(Pack(v, sorted).value).value, parts) == Subtree(v, parts)
  {
    RoundTrip(v, sorted);
  }
}
