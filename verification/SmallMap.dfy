/** The key table's storage. */
module SmallMaps {
  // An inline vector of at most four pairs that promotes to a hash map.

  import opened Options
  import opened Space
  import Tables = Space

  const INLINE_CAP := 4

  type Pair = (Key, Entry)

  /** The hash map is a finite map; its layout is not modelled. */
  datatype Storage = Inline(entries: seq<Pair>) | Hash(table: map<Key, Entry>)

  /** Inline keys are unique and few. */
  predicate Valid(st: Storage) {
    st.Inline? ==>
      && |st.entries| <= INLINE_CAP
      && forall a, b :: 0 <= a < b < |st.entries| ==> st.entries[a].0 != st.entries[b].0
  }

  function PairsView(entries: seq<Pair>): map<Key, Entry> {
    if entries == [] then map[] else PairsView(entries[1..])[entries[0].0 := entries[0].1]
  }

  /** The finite map that a storage stands for. */
  function View(st: Storage): map<Key, Entry> {
    match st
    case Inline(entries) => PairsView(entries)
    case Hash(table) => table
  }

  /** `insert_vacant`: the fifth entry moves all of them into a hash map. */
  function Inserted(st: Storage, key: Key, entry: Entry): Storage {
    match st
    case Inline(entries) =>
      if |entries| >= INLINE_CAP then Hash(PairsView(entries)[key := entry]) else Inline(entries + [(key, entry)])
    case Hash(table) => Hash(table[key := entry])
  }

  /** `Vec::swap_remove`: the last pair takes the place of the removed one. */
  function SwapRemoved(entries: seq<Pair>, k: nat): seq<Pair>
    requires k < |entries|
  {
    entries[k := entries[|entries| - 1]][..|entries| - 1]
  }

  /** The position of the first pair of `key`, or the number of pairs. */
  function KeyIndex(entries: seq<Pair>, key: Key): (k: nat)
    ensures k <= |entries|
    ensures k < |entries| ==> entries[k].0 == key
    ensures forall j :: 0 <= j < k ==> entries[j].0 != key
  {
    if entries == [] || entries[0].0 == key then 0
    else
      assert forall j :: 0 < j < |entries| ==> entries[j] == entries[1..][j - 1];
      1 + KeyIndex(entries[1..], key)
  }

  /** `get`. */
  function StorageGet(st: Storage, key: Key): Option<Entry> {
    match st
    case Inline(entries) =>
      var k := KeyIndex(entries, key);
      if k < |entries| then Some(entries[k].1) else None
    case Hash(table) => if key in table then Some(table[key]) else None
  }

  /** The storage without the entry of `key`. */
  function Removed(st: Storage, key: Key): Storage {
    match st
    case Inline(entries) =>
      var k := KeyIndex(entries, key);
      if k < |entries| then Inline(SwapRemoved(entries, k)) else st
    case Hash(table) => Hash(table - {key})
  }

  // ---- Views of inline pairs ---------------------------------------------------------------------------

  predicate UniqueKeys(entries: seq<Pair>) {
    forall a, b :: 0 <= a < b < |entries| ==> entries[a].0 != entries[b].0
  }

  /** Looking a key up in the pairs, from the first on. */
  lemma {:induction false} ViewFinds(entries: seq<Pair>, key: Key)
    requires UniqueKeys(entries)
    ensures key in PairsView(entries) <==> exists k :: 0 <= k < |entries| && entries[k].0 == key
    ensures forall k :: 0 <= k < |entries| && entries[k].0 == key ==>
              key in PairsView(entries) && PairsView(entries)[key] == entries[k].1
  {
    if entries != [] {
      ViewFinds(entries[1..], key);
      if key in PairsView(entries[1..]) {
        var k :| 0 <= k < |entries[1..]| && entries[1..][k].0 == key;
        assert entries[k + 1].0 == key;
      }
      forall k | 0 <= k < |entries| && entries[k].0 == key
        ensures key in PairsView(entries) && PairsView(entries)[key] == entries[k].1
      {
        assert k > 0 ==> entries[1..][k - 1] == entries[k];
      }
    }
  }

  lemma ViewEquals(entries: seq<Pair>, m: map<Key, Entry>)
    requires UniqueKeys(entries)
    requires forall k :: 0 <= k < |entries| ==> entries[k].0 in m && m[entries[k].0] == entries[k].1
    requires forall key :: key in m ==> exists k :: 0 <= k < |entries| && entries[k].0 == key
    ensures PairsView(entries) == m
  {
    forall key ensures key in PairsView(entries) <==> key in m {
      ViewFinds(entries, key);
    }
    forall key | key in m ensures PairsView(entries)[key] == m[key] {
      ViewFinds(entries, key);
    }
  }

  /** Inserting a vacant key, inline, on promotion or hashed, is inserting into the finite map. */
  lemma InsertRefines(st: Storage, key: Key, entry: Entry)
    requires Valid(st) && key !in View(st)
    ensures Valid(Inserted(st, key, entry))
    ensures View(Inserted(st, key, entry)) == View(st)[key := entry]
    ensures Inserted(st, key, entry).Hash? <==> st.Hash? || |st.entries| == 4
  {
    if st.Inline? && |st.entries| < INLINE_CAP {
      var entries' := st.entries + [(key, entry)];
      ViewFinds(st.entries, key);
      forall k | 0 <= k < |st.entries|
          ensures st.entries[k].0 in View(st) && View(st)[st.entries[k].0] == st.entries[k].1 {
        ViewFinds(st.entries, st.entries[k].0);
      }
      var grown := View(st)[key := entry];
      forall other | other in grown ensures exists k :: 0 <= k < |entries'| && entries'[k].0 == other {
        ViewFinds(st.entries, other);
        if other == key {
          assert entries'[|st.entries|].0 == key;
        } else {
          var k :| 0 <= k < |st.entries| && st.entries[k].0 == other;
          assert entries'[k].0 == other;
        }
      }
      ViewEquals(entries', grown);
    }
  }

  /** Where a pair of the shorter vector comes from. */
  function Origin(entries: seq<Pair>, i: nat, k: nat): nat {
    if k == i && |entries| > 0 then |entries| - 1 else k
  }

  lemma SwapRemovedAt(entries: seq<Pair>, i: nat, k: nat)
    requires i < |entries| && k < |entries| - 1
    ensures SwapRemoved(entries, i)[k] == entries[Origin(entries, i, k)]
  {
  }

  lemma SwapKeepsUnique(entries: seq<Pair>, i: nat)
    requires UniqueKeys(entries) && i < |entries|
    ensures UniqueKeys(SwapRemoved(entries, i))
  {
    var rest := SwapRemoved(entries, i);
    forall a, b | 0 <= a < b < |rest| ensures rest[a].0 != rest[b].0 {
      SwapRemovedAt(entries, i, a);
      SwapRemovedAt(entries, i, b);
    }
  }

  /** `swap_remove` reorders the pairs and removes exactly one key. */
  lemma SwapRemoveRefines(entries: seq<Pair>, i: nat)
    requires UniqueKeys(entries) && i < |entries|
    ensures UniqueKeys(SwapRemoved(entries, i))
    ensures PairsView(SwapRemoved(entries, i)) == PairsView(entries) - {entries[i].0}
  {
    var rest := SwapRemoved(entries, i);
    var m := PairsView(entries) - {entries[i].0};
    SwapKeepsUnique(entries, i);
    forall k | 0 <= k < |rest| ensures rest[k].0 in m && m[rest[k].0] == rest[k].1 {
      SwapRemovedAt(entries, i, k);
      ViewFinds(entries, rest[k].0);
    }
    forall other | other in m ensures exists k :: 0 <= k < |rest| && rest[k].0 == other {
      ViewFinds(entries, other);
      var k :| 0 <= k < |entries| && entries[k].0 == other;
      var place := if k == |entries| - 1 then i else k;
      SwapRemovedAt(entries, i, place);
      assert rest[place].0 == other;
    }
    ViewEquals(rest, m);
  }

  // ---- The map that the library updates in place ----------------------------------------------------------

  class SmallMap {
    var storage: Storage

    constructor ()
      ensures storage == Inline([])
    {
      storage := Inline([]);
    }

    static method Position(entries: seq<Pair>, key: Key) returns (index: nat)
      ensures index == KeyIndex(entries, key)
    {
      index := 0;
      while index < |entries| && entries[index].0 != key
        invariant index <= KeyIndex(entries, key)
        invariant forall k :: 0 <= k < index ==> entries[k].0 != key
      {
        index := index + 1;
      }
    }

    method Get(key: Key) returns (found: Option<Entry>)
      requires Valid(storage)
      ensures found == StorageGet(storage, key)
      ensures found == if key in View(storage) then Some(View(storage)[key]) else None
    {
      match storage {
        case Inline(entries) =>
          var index := Position(entries, key);
          ViewFinds(entries, key);
          found := if index < |entries| then Some(entries[index].1) else None;
        case Hash(table) =>
          found := if key in table then Some(table[key]) else None;
      }
    }

    method IsVacant(key: Key) returns (vacant: bool)
      requires Valid(storage)
      ensures vacant <==> key !in View(storage)
    {
      match storage {
        case Inline(entries) =>
          var index := Position(entries, key);
          ViewFinds(entries, key);
          vacant := index == |entries|;
        case Hash(table) =>
          vacant := key !in table;
      }
    }

    /** The caller guarantees that the key is vacant. */
    method InsertVacant(key: Key, entry: Entry)
      requires Valid(storage) && key !in View(storage)
      modifies this
      ensures Valid(storage) && storage == Inserted(old(storage), key, entry)
      ensures View(storage) == old(View(storage))[key := entry]
    {
      InsertRefines(storage, key, entry);
      match storage {
        case Inline(entries) =>
          if |entries| >= INLINE_CAP {
            var table := Extended(entries);
            storage := Hash(table[key := entry]);
          } else {
            storage := Inline(entries + [(key, entry)]);
          }
        case Hash(table) =>
          storage := Hash(table[key := entry]);
      }
    }

    /** `map.extend(entries.drain(..))` on an empty map. */
    static method Extended(entries: seq<Pair>) returns (table: map<Key, Entry>)
      requires UniqueKeys(entries)
      ensures table == PairsView(entries)
    {
      table := map[];
      for k := 0 to |entries|
        invariant forall key :: key in table <==> exists j :: 0 <= j < k && entries[j].0 == key
        invariant forall j :: 0 <= j < k ==> entries[j].0 in table && table[entries[j].0] == entries[j].1
      {
        table := table[entries[k].0 := entries[k].1];
      }
      ViewEquals(entries, table);
    }

    /** Remove the entry at `key` if it is exactly `generation`; a stale generation changes nothing. */
    method RemoveIf(key: Key, generation: nat) returns (removed: bool)
      requires Valid(storage)
      modifies this
      ensures Valid(storage)
      ensures removed <==> key in old(View(storage)) && old(View(storage))[key].generation == generation
      ensures View(storage) == Tables.RemoveIf(old(View(storage)), key, generation)
      ensures storage == if removed then Removed(old(storage), key) else old(storage)
    {
      removed := false;
      match storage {
        case Inline(entries) =>
          var index := Position(entries, key);
          ViewFinds(entries, key);
          if index < |entries| && entries[index].1.generation == generation {
            SwapRemoveRefines(entries, index);
            storage := Inline(SwapRemoved(entries, index));
            removed := true;
          }
        case Hash(table) =>
          if key in table && table[key].generation == generation {
            storage := Hash(table - {key});
            removed := true;
          }
      }
    }
  }

  // ---- Every sequence of operations -------------------------------------------------------------------------

  /** `Insert` is guarded by vacancy, as `subject` does it. */
  datatype TableOp = Lookup(key: Key) | Insert(key: Key, entry: Entry) | Remove(key: Key, generation: nat)

  datatype Answer = Found(entry: Option<Entry>) | Inserts(accepted: bool) | Removes(removed: bool)

  function StorageStep(st: Storage, op: TableOp): (Storage, Answer) {
    match op
    case Lookup(key) => (st, Found(StorageGet(st, key)))
    case Insert(key, entry) =>
      if StorageGet(st, key).None? then (Inserted(st, key, entry), Inserts(true)) else (st, Inserts(false))
    case Remove(key, generation) =>
      if StorageGet(st, key).Some? && StorageGet(st, key).value.generation == generation
      then (Removed(st, key), Removes(true)) else (st, Removes(false))
  }

  function StorageAnswers(st: Storage, ops: seq<TableOp>): seq<Answer>
    decreases |ops|
  {
    if ops == [] then [] else [StorageStep(st, ops[0]).1] + StorageAnswers(StorageStep(st, ops[0]).0, ops[1..])
  }

  function MapStep(m: map<Key, Entry>, op: TableOp): (map<Key, Entry>, Answer) {
    match op
    case Lookup(key) => (m, Found(if key in m then Some(m[key]) else None))
    case Insert(key, entry) => if key in m then (m, Inserts(false)) else (m[key := entry], Inserts(true))
    case Remove(key, generation) =>
      (Tables.RemoveIf(m, key, generation), Removes(key in m && m[key].generation == generation))
  }

  function MapAnswers(m: map<Key, Entry>, ops: seq<TableOp>): seq<Answer>
    decreases |ops|
  {
    if ops == [] then [] else [MapStep(m, ops[0]).1] + MapAnswers(MapStep(m, ops[0]).0, ops[1..])
  }

  lemma FoundIsLookup(st: Storage, key: Key)
    requires Valid(st)
    ensures StorageGet(st, key) == if key in View(st) then Some(View(st)[key]) else None
  {
    if st.Inline? {
      ViewFinds(st.entries, key);
    }
  }

  lemma StepRefines(st: Storage, op: TableOp)
    requires Valid(st)
    ensures Valid(StorageStep(st, op).0)
    ensures View(StorageStep(st, op).0) == MapStep(View(st), op).0
    ensures StorageStep(st, op).1 == MapStep(View(st), op).1
    ensures st.Hash? ==> StorageStep(st, op).0.Hash?
  {
    FoundIsLookup(st, op.key);
    if op.Insert? && op.key !in View(st) {
      InsertRefines(st, op.key, op.entry);
    } else if op.Remove? && st.Inline? && op.key in View(st) {
      SwapRemoveRefines(st.entries, KeyIndex(st.entries, op.key));
    }
  }

  /** From any state, across promotion and reordering, the small map answers every sequence of operations as the
      finite map does. */
  lemma {:induction false} SmallMapRefinesMap(st: Storage, ops: seq<TableOp>)
    requires Valid(st)
    ensures StorageAnswers(st, ops) == MapAnswers(View(st), ops)
    decreases |ops|
  {
    if ops != [] {
      StepRefines(st, ops[0]);
      SmallMapRefinesMap(StorageStep(st, ops[0]).0, ops[1..]);
    }
  }
}
