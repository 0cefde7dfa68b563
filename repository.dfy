/** The list repository kept under one storage key. Serialisation is the
    identity: the store holds the list itself. A store may fail to read, to
    write or to remove; these failure modes are fixed properties of the store.
    On the first failure the repository switches, once, to a fresh in-memory
    store, which never fails. */
module Storage {
  import opened Js
  import TodoEntity

  type Item = TodoEntity.TodoJson

  const SaveNeedsId := "LocalStorageRepository.save(): entidade deve ter propriedade \"id\""
  /** The messages of the two failed writes up to the storage key, which
      follows each of them in the source and is not part of this model. */
  const SaveFailed := "[LocalStorageRepository] Não foi possível salvar "
  const DeleteFailed := "[LocalStorageRepository] Não foi possível deletar de "

  /** A storage adapter as far as this key is concerned: its value (`None`
      when the key is missing) and whether each operation throws. */
  datatype Store = Store(contents: Option<seq<Item>>, readFails: bool, writeFails: bool, removeFails: bool)

  /** `createMemoryStorageAdapter()`: empty, and never failing. */
  function MemoryStore(): (s: Store)
    ensures s.contents.None? && !s.readFails && !s.writeFails && !s.removeFails
  {
    Store(None, false, false, false)
  }

  /** `items.findIndex(item => item.id === id)`, or |items| when absent. */
  function FindIndex(items: seq<Item>, id: Value): (i: nat)
    ensures i <= |items|
    ensures i < |items| ==> items[i].id == id
    ensures forall j :: 0 <= j < i ==> items[j].id != id
    decreases |items|
  {
    if items == [] then 0 else if items[0].id == id then 0 else 1 + FindIndex(items[1..], id)
  }

  /** `items.find(item => item.id === id) || null`. */
  function FindById(items: seq<Item>, id: Value): Option<Item>
  {
    var i := FindIndex(items, id);
    if i < |items| then Some(items[i]) else None
  }

  /** Replace the first entry with the entity's id, or append: afterwards the
      entity is found under its id, and every other entry stays where it was. */
  function Upsert(items: seq<Item>, e: Item): (r: seq<Item>)
    ensures FindById(r, e.id) == Some(e)
    ensures |r| == if FindById(items, e.id).Some? then |items| else |items| + 1
    ensures forall j :: 0 <= j < |items| && j != FindIndex(items, e.id) ==> r[j] == items[j]
    ensures FindIndex(items, e.id) < |items| ==> r[FindIndex(items, e.id)] == e
    ensures FindIndex(items, e.id) == |items| ==> r == items + [e]
  {
    var i := FindIndex(items, e.id);
    var r := if i < |items| then items[i := e] else items + [e];
    assert r[i] == e;
    assert forall j :: 0 <= j < i ==> r[j] == items[j];
    assert FindIndex(r, e.id) == i;
    r
  }

  /** `items.filter(item => item.id !== id)`. */
  function Without(items: seq<Item>, id: Value): (r: seq<Item>)
    ensures |r| <= |items|
    ensures forall j :: 0 <= j < |r| ==> r[j].id != id
    decreases |items|
  {
    if items == [] then []
    else if items[0].id == id then Without(items[1..], id)
    else [items[0]] + Without(items[1..], id)
  }

  predicate UniqueIds(items: seq<Item>)
  {
    forall i, j :: 0 <= i < j < |items| ==> items[i].id != items[j].id
  }

  /** What is stored under the key: the list, or `[]` when the key is missing. */
  function Stored(s: Store): seq<Item>
  {
    if s.contents.Some? then s.contents.value else []
  }

  /** What `getAll` returns from a store: the stored list, or `[]` when the
      read fails. */
  function Readable(s: Store): seq<Item>
  {
    if s.readFails then [] else Stored(s)
  }

  /** A store none of whose operations fails. */
  predicate Healthy(s: Store)
  {
    !s.readFails && !s.writeFails && !s.removeFails
  }

  /** Two stores with the same failure modes. */
  predicate SameFaults(s: Store, t: Store)
  {
    s.readFails == t.readFails && s.writeFails == t.writeFails && s.removeFails == t.removeFails
  }

  class Repository {
    var storage: Store
    var isFallback: bool
    /** How many times the repository has switched stores. */
    var switches: nat

    predicate Valid()
      reads this
    {
      switches <= 1 && (switches == 1 ==> isFallback)
    }

    /** The adapter resolution (probing `window.localStorage`) is outside the
        model: the caller passes the resulting store and fallback flag. */
    constructor(storage: Store, isFallback: bool)
      ensures Valid() && this.storage == storage && this.isFallback == isFallback && switches == 0
    {
      this.storage := storage;
      this.isFallback := isFallback;
      switches := 0;
    }

    /** `_switchToFallbackStorage`: a no-op once on the fallback. */
    method SwitchToFallback()
      requires Valid()
      modifies this
      ensures Valid()
      ensures old(isFallback) ==> storage == old(storage) && isFallback && switches == old(switches)
      ensures !old(isFallback) ==> storage == MemoryStore() && isFallback && switches == old(switches) + 1
    {
      if isFallback {
        return;
      }
      storage := MemoryStore();
      isFallback := true;
      switches := switches + 1;
    }

    /** `_safeGetItem`: a failed read switches stores and yields `null`. */
    method SafeGetItem() returns (data: Option<seq<Item>>)
      requires Valid()
      modifies this
      ensures Valid()
      ensures !old(storage.readFails) ==>
                data == old(storage.contents) && storage == old(storage) &&
                isFallback == old(isFallback) && switches == old(switches)
      ensures old(storage.readFails) ==> data.None?
      ensures old(storage.readFails) && old(isFallback) ==> storage == old(storage) && isFallback && switches == old(switches)
      ensures old(storage.readFails) && !old(isFallback) ==> storage == MemoryStore() && isFallback && switches == old(switches) + 1
    {
      if storage.readFails {
        SwitchToFallback();
        return None;
      }
      return storage.contents;
    }

    /** `_safeSetItem(value)`: a failed write switches stores and is retried
        once there. */
    method SafeSetItem(value: seq<Item>) returns (ok: bool)
      requires Valid()
      modifies this
      ensures Valid()
      ensures !old(storage.writeFails) ==>
                ok && storage == old(storage).(contents := Some(value)) &&
                isFallback == old(isFallback) && switches == old(switches)
      ensures old(storage.writeFails) && !old(isFallback) ==>
                ok && storage == MemoryStore().(contents := Some(value)) && isFallback && switches == old(switches) + 1
      ensures old(storage.writeFails) && old(isFallback) ==>
                !ok && storage == old(storage) && isFallback && switches == old(switches)
    {
      if !storage.writeFails {
        storage := storage.(contents := Some(value));
        return true;
      }
      SwitchToFallback();
      if !storage.writeFails {
        storage := storage.(contents := Some(value));
        return true;
      }
      return false;
    }

    /** `_safeRemoveItem`: like a write, with the key removed. */
    method SafeRemoveItem() returns (ok: bool)
      requires Valid()
      modifies this
      ensures Valid()
      ensures !old(storage.removeFails) ==>
                ok && storage == old(storage).(contents := None) &&
                isFallback == old(isFallback) && switches == old(switches)
      ensures old(storage.removeFails) && !old(isFallback) ==>
                ok && storage == MemoryStore() && isFallback && switches == old(switches) + 1
      ensures old(storage.removeFails) && old(isFallback) ==>
                !ok && storage == old(storage) && isFallback && switches == old(switches)
    {
      if !storage.removeFails {
        storage := storage.(contents := None);
        return true;
      }
      SwitchToFallback();
      if !storage.removeFails {
        storage := storage.(contents := None);
        return true;
      }
      return false;
    }

    /** `getAll()`: the stored list, or `[]` when nothing (or nothing
        readable) is stored. */
    method GetAll() returns (items: seq<Item>)
      requires Valid()
      modifies this
      ensures Valid()
      ensures items == Readable(old(storage))
      ensures !old(storage.readFails) ==> storage == old(storage) && isFallback == old(isFallback) && switches == old(switches)
      ensures old(storage.readFails) && old(isFallback) ==> storage == old(storage) && switches == old(switches)
      ensures old(storage.readFails) && !old(isFallback) ==> storage == MemoryStore() && isFallback && switches == old(switches) + 1
      ensures Stored(storage) == Stored(old(storage)) || Stored(storage) == []
    {
      var data := SafeGetItem();
      if data.None? {
        return [];
      }
      return data.value;
    }

    /** `getById(id)`: the first readable entry with that id. */
    method GetById(id: Value) returns (r: Option<Item>)
      requires Valid()
      modifies this
      ensures Valid()
      ensures r == FindById(Readable(old(storage)), id)
      ensures !old(storage.readFails) ==> storage == old(storage) && isFallback == old(isFallback) && switches == old(switches)
      ensures Stored(storage) == Stored(old(storage)) || Stored(storage) == []
    {
      var items := GetAll();
      r := FindById(items, id);
    }

    /** `save(entity)`: an entity without a truthy id is refused; otherwise
        the list is upserted and written back, and a write that fails even on
        the fallback throws. */
    method Save(e: Item) returns (r: Result<Item, string>)
      requires Valid()
      modifies this
      ensures Valid()
      ensures !Truthy(e.id) ==> r == Err(SaveNeedsId) && storage == old(storage) && isFallback == old(isFallback)
      ensures Truthy(e.id) && Healthy(old(storage)) ==>
                r == Ok(e) && SameFaults(storage, old(storage)) && isFallback == old(isFallback) &&
                storage.contents == Some(Upsert(Stored(old(storage)), e))
      ensures r.Ok? ==> r.value == e && storage.contents.Some? && FindById(storage.contents.value, e.id) == Some(e)
      ensures r.Err? && Truthy(e.id) ==> r.error == SaveFailed && storage.writeFails
      ensures Stored(storage) == Stored(old(storage)) || Stored(storage) == Upsert(Stored(old(storage)), e) ||
              Stored(storage) == [e]
    {
      if !Truthy(e.id) {
        return Err(SaveNeedsId);
      }
      var items := GetAll();
      ghost var read := items;
      var index := FindIndex(items, e.id);
      if index < |items| {
        items := items[index := e];
      } else {
        items := items + [e];
      }
      assert items == Upsert(read, e);
      var saved := SafeSetItem(items);
      if !saved {
        return Err(SaveFailed);
      }
      return Ok(e);
    }

    /** `delete(id)`: drop every entry with that id and write back; when none
        has it, return `false` without writing. */
    method Delete(id: Value) returns (r: Result<bool, string>)
      requires Valid()
      modifies this
      ensures Valid()
      ensures FindIndex(Readable(old(storage)), id) == |Readable(old(storage))| ==>
                r == Ok(false) && (Stored(storage) == Stored(old(storage)) || Stored(storage) == [])
      ensures !old(storage.readFails) && FindIndex(Stored(old(storage)), id) == |Stored(old(storage))| ==>
                r == Ok(false) && storage == old(storage) && isFallback == old(isFallback)
      ensures Healthy(old(storage)) ==>
                r == Ok(FindIndex(Stored(old(storage)), id) < |Stored(old(storage))|) &&
                SameFaults(storage, old(storage)) && isFallback == old(isFallback) &&
                Stored(storage) == Without(Stored(old(storage)), id)
      ensures r.Ok? && r.value ==> Stored(storage) == Without(Readable(old(storage)), id)
      ensures r == Ok(false) ==> FindIndex(Readable(old(storage)), id) == |Readable(old(storage))|
      ensures r.Err? ==> r.error == DeleteFailed && storage.writeFails
      ensures Stored(storage) == Stored(old(storage)) || Stored(storage) == Without(Stored(old(storage)), id) ||
              Stored(storage) == []
    {
      var items := GetAll();
      var filtered := Without(items, id);
      WithoutKeepsLength(items, id);
      if |filtered| == |items| {
        WithoutAbsent(items, id);
        return Ok(false);
      }
      var saved := SafeSetItem(filtered);
      if !saved {
        return Err(DeleteFailed);
      }
      return Ok(true);
    }

    /** `clear()`: remove the key; a failure is swallowed. */
    method Clear()
      requires Valid()
      modifies this
      ensures Valid()
      ensures !old(storage.removeFails) ==> storage == old(storage).(contents := None) && isFallback == old(isFallback)
      ensures old(storage.removeFails) && !old(isFallback) ==> storage == MemoryStore() && isFallback
      ensures old(storage.removeFails) && old(isFallback) ==> storage == old(storage)
    {
      var _ := SafeRemoveItem();
    }
  }

  // Properties of the list operations.

  /** Filtering keeps the length exactly when no entry has the id. */
  lemma {:induction false} WithoutKeepsLength(items: seq<Item>, id: Value)
    ensures |Without(items, id)| == |items| <==> FindIndex(items, id) == |items|
    decreases |items|
  {
    if items != [] {
      WithoutKeepsLength(items[1..], id);
    }
  }

  /** Filtering for an id no entry has changes nothing. */
  lemma {:induction false} WithoutAbsent(items: seq<Item>, id: Value)
    requires FindIndex(items, id) == |items|
    ensures Without(items, id) == items
    decreases |items|
  {
    if items != [] {
      WithoutAbsent(items[1..], id);
      assert items == [items[0]] + items[1..];
    }
  }

  /** Filtering keeps every other entry, in order. */
  lemma {:induction false} WithoutKeepsOthers(items: seq<Item>, id: Value, x: Item)
    requires x.id != id
    ensures multiset(Without(items, id))[x] == multiset(items)[x]
    decreases |items|
  {
    if items != [] {
      WithoutKeepsOthers(items[1..], id, x);
      assert items == [items[0]] + items[1..];
    }
  }

  /** A found entry is in the list and has the id. */
  lemma FindByIdIn(items: seq<Item>, id: Value)
    ensures FindById(items, id).Some? ==> FindById(items, id).value in items && FindById(items, id).value.id == id
  {
  }

  /** An upsert holds only old entries and the entity. */
  lemma UpsertMembers(items: seq<Item>, e: Item)
    ensures forall x :: x in Upsert(items, e) ==> x in items || x == e
  {
    var i := FindIndex(items, e.id);
    if i < |items| {
      forall x | x in items[i := e] ensures x in items || x == e {
        var j :| 0 <= j < |items| && items[i := e][j] == x;
        if j != i {
          assert items[j] == x;
        }
      }
    }
  }

  /** Filtering holds only old entries. */
  lemma {:induction false} WithoutMembers(items: seq<Item>, id: Value)
    ensures forall x :: x in Without(items, id) ==> x in items
    decreases |items|
  {
    if items != [] {
      WithoutMembers(items[1..], id);
    }
  }

  /** With unique ids, an upsert keeps them unique. */
  lemma UpsertKeepsUnique(items: seq<Item>, e: Item)
    requires UniqueIds(items)
    ensures UniqueIds(Upsert(items, e))
  {
  }

}
