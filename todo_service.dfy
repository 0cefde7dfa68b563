/** The todo service: create, toggle, edit and delete todos through the
    repository, and the bulk operations over the whole list. The service keeps
    the repository holding only JSON forms of valid todos, so reading an entry
    back (`Todo.fromJSON`) never fails and never consults the id generator. */
module Services {
  import opened Js
  import T = TodoEntity
  import opened Storage

  /** The `TypeError` of `newText?.trim()` on a value that is neither a
      string nor `null`/`undefined`. */
  const TrimNotAFunction := "newText?.trim is not a function"
  /** What `new TodoService` throws without a repository. */
  const RepositoryRequired := "TodoService: repository é obrigatório"

  /** `{ total, completed, active }`. */
  datatype Stats = Stats(total: nat, completed: nat, active: int)

  /** `todos.filter(t => t.completed)`. */
  function CompletedOf(items: seq<Item>): (r: seq<Item>)
    ensures |r| <= |items|
    ensures forall x :: x in r ==> x in items && Truthy(x.completed)
    decreases |items|
  {
    if items == [] then []
    else (if Truthy(items[0].completed) then [items[0]] else []) + CompletedOf(items[1..])
  }

  /** `todos.filter(t => !t.completed)`. */
  function ActiveOf(items: seq<Item>): (r: seq<Item>)
    ensures |r| <= |items|
    ensures forall x :: x in r ==> x in items && !Truthy(x.completed)
    decreases |items|
  {
    if items == [] then []
    else (if Truthy(items[0].completed) then [] else [items[0]]) + ActiveOf(items[1..])
  }

  /** The counts of `getStats` and of the todo model's `_calculateStats`. */
  function StatsOf(items: seq<Item>): (s: Stats)
    ensures s.total == |items| && s.completed == |CompletedOf(items)| && s.active == |ActiveOf(items)|
    ensures s.active + s.completed == s.total && s.active >= 0
  {
    CompletedPlusActive(items);
    Stats(|items|, |CompletedOf(items)|, |items| - |CompletedOf(items)|)
  }

  predicate AllValid(items: seq<Item>, limits: T.Limits)
  {
    forall x :: x in items ==> T.JsonValid(x, limits)
  }

  /** Every entry with its completion flag set to `c`, ids and order kept. */
  function Flagged(items: seq<Item>, c: bool): (r: seq<Item>)
    ensures |r| == |items|
    ensures forall k :: 0 <= k < |items| ==> r[k] == items[k].(completed := Bool(c))
  {
    seq(|items|, k requires 0 <= k < |items| => items[k].(completed := Bool(c)))
  }

  /** The list after saving each of `es` in turn. */
  function UpsertAll(items: seq<Item>, es: seq<Item>): seq<Item>
    decreases |es|
  {
    if es == [] then items else Upsert(UpsertAll(items, es[..|es| - 1]), es[|es| - 1])
  }

  /** The list after deleting the id of each of `ds` in turn. */
  function WithoutAll(items: seq<Item>, ds: seq<Item>): seq<Item>
    decreases |ds|
  {
    if ds == [] then items else Without(WithoutAll(items, ds[..|ds| - 1]), ds[|ds| - 1].id)
  }

  lemma WithoutAllStep(items: seq<Item>, ds: seq<Item>, i: nat)
    requires i < |ds|
    ensures WithoutAll(items, ds[..i + 1]) == Without(WithoutAll(items, ds[..i]), ds[i].id)
  {
    var d := ds[..i + 1];
    assert d[..|d| - 1] == ds[..i] && d[|d| - 1] == ds[i];
  }

  /** The entries whose id is not in `ids`. */
  function Drop(items: seq<Item>, ids: set<Value>): (r: seq<Item>)
    ensures forall x :: x in r <==> x in items && x.id !in ids
    decreases |items|
  {
    if items == [] then []
    else (if items[0].id in ids then [] else [items[0]]) + Drop(items[1..], ids)
  }

  function IdSet(ds: seq<Item>): set<Value>
  {
    set x | x in ds :: x.id
  }

  /** `todos.map(todo => Todo.fromJSON(todo))` over valid JSON forms. */
  function Entities(items: seq<Item>, limits: T.Limits): (ts: seq<T.Todo>)
    requires forall k :: 0 <= k < |items| ==> T.JsonValid(items[k], limits)
    ensures |ts| == |items|
    ensures forall k :: 0 <= k < |items| ==>
              T.JsonValid(items[k], limits) && ts[k] == T.Decode(items[k]) && T.Valid(ts[k], limits)
  {
    seq(|items|, k requires 0 <= k < |items| && T.JsonValid(items[k], limits) => T.Decode(items[k]))
  }

  /** What `editTodo` returns, with the list it leaves stored. */
  datatype Edit = Edit(result: Result<Option<Item>, string>, items: seq<Item>)

  /** `editTodo` on a working store, stated on the JSON forms: an unknown id
      changes nothing; a text that is not a string (nor `null`/`undefined`)
      throws; a blank text deletes every entry with the id; otherwise the
      trimmed text is validated and the entry saved with it. */
  function EditOf(items: seq<Item>, id: Value, newText: Value, limits: T.Limits): (r: Edit)
    ensures FindById(items, id).None? ==> r == Edit(Ok(None), items)
    ensures r.result.Err? ==> r.items == items
    ensures r.result.Ok? && r.result.value.Some? ==>
              FindById(items, id).Some? && r.result.value.value == FindById(items, id).value.(text := r.result.value.value.text) &&
              r.items == Upsert(items, r.result.value.value)
    ensures r.result == Ok(None) ==> FindById(r.items, id).None?
  {
    match FindById(items, id)
    case None => Edit(Ok(None), items)
    case Some(j) =>
      match TrimmedText(newText)
      case Err(e) => Edit(Err(e), items)
      case Ok(t) =>
        if t == "" then Edit(Ok(None), Without(items, id))
        else
          match T.ValidateText(Text(t), limits)
          case Err(e) => Edit(Err(e), items)
          case Ok(v) => Edit(Ok(Some(j.(text := Text(v)))), Upsert(items, j.(text := Text(v))))
  }

  /** `newText?.trim() || ''`. */
  function TrimmedText(v: Value): Result<string, string>
  {
    match v
    case Text(s) => Ok(T.Trim(s))
    case Undefined => Ok("")
    case Null => Ok("")
    case _ => Err(TrimNotAFunction)
  }

  /** The JSON form `new Todo({ text })` is built from. */
  function NewTodoJson(text: Value): T.TodoJson
  {
    T.TodoJson(Undefined, text, Bool(false), Null)
  }

  class TodoService {
    const repo: Repository
    const limits: T.Limits

    predicate Valid()
      reads this, repo
    {
      repo.Valid() && AllValid(Stored(repo.storage), limits)
    }

    /** `new TodoService(repository)` for any `repository`: a missing one
        throws. */
    static method Create(repo: Repository?, limits: T.Limits) returns (r: Result<TodoService, string>)
      requires repo != null ==> repo.Valid() && AllValid(Stored(repo.storage), limits)
      ensures repo == null ==> r == Err(RepositoryRequired)
      ensures repo != null ==> r.Ok? && fresh(r.value) && r.value.Valid() && r.value.repo == repo && r.value.limits == limits
    {
      if repo == null {
        return Err(RepositoryRequired);
      }
      var service := new TodoService(repo, limits);
      return Ok(service);
    }

    constructor(repo: Repository, limits: T.Limits)
      requires repo.Valid() && AllValid(Stored(repo.storage), limits)
      ensures Valid() && this.repo == repo && this.limits == limits
    {
      this.repo := repo;
      this.limits := limits;
    }

    /** `repository.save(json)` of a valid JSON form, which never lacks an id. */
    method SaveEntry(json: Item) returns (r: Result<Item, string>)
      requires Valid() && T.JsonValid(json, limits)
      modifies repo
      ensures Valid()
      ensures r.Ok? ==> r.value == json
      ensures r.Err? ==> r.error == SaveFailed
      ensures Healthy(old(repo.storage)) ==>
                r == Ok(json) && SameFaults(repo.storage, old(repo.storage)) &&
                Stored(repo.storage) == Upsert(Stored(old(repo.storage)), json)
    {
      UpsertMembers(Stored(repo.storage), json);
      r := repo.Save(json);
    }

    /** `createTodo(text)`: the text is validated by the constructor before
        anything is saved; the saved form is read back as an entity. */
    method CreateTodo(text: Value, freshId: string, now: string) returns (r: Result<T.Todo, string>)
      requires Valid() && freshId != "" && now != ""
      modifies repo
      ensures Valid()
      ensures T.Make(NewTodoJson(text), limits, freshId, now).Err? ==>
                r == Err(T.Make(NewTodoJson(text), limits, freshId, now).error) && repo.storage == old(repo.storage)
      ensures r.Ok? ==> r == T.Make(NewTodoJson(text), limits, freshId, now) && T.Valid(r.value, limits)
      ensures T.Make(NewTodoJson(text), limits, freshId, now).Ok? && Healthy(old(repo.storage)) ==>
                (var t := T.Make(NewTodoJson(text), limits, freshId, now).value;
                 r == Ok(t) && SameFaults(repo.storage, old(repo.storage)) &&
                 Stored(repo.storage) == Upsert(Stored(old(repo.storage)), T.ToJson(t)))
    {
      var made := T.Make(NewTodoJson(text), limits, freshId, now);
      if made.Err? {
        return Err(made.error);
      }
      var json := T.ToJson(made.value);
      T.ToJsonValid(made.value, limits);
      var saved := SaveEntry(json);
      if saved.Err? {
        return Err(saved.error);
      }
      T.FromValidJson(saved.value, limits, freshId, now);
      return T.FromJson(saved.value, limits, freshId, now);
    }

    /** `getAllTodos()`. */
    method GetAllTodos() returns (items: seq<Item>)
      requires Valid()
      modifies repo
      ensures Valid()
      ensures items == Readable(old(repo.storage)) && AllValid(items, limits)
      ensures !old(repo.storage.readFails) ==> repo.storage == old(repo.storage)
    {
      items := repo.GetAll();
    }

    /** `getTodoByIdAsEntity(id)`: the entity for the first entry with that
        id, or `null`. */
    method GetTodoByIdAsEntity(id: Value) returns (r: Option<T.Todo>)
      requires Valid()
      modifies repo
      ensures Valid()
      ensures FindById(Readable(old(repo.storage)), id).None? ==> r.None?
      ensures FindById(Readable(old(repo.storage)), id).Some? ==>
                T.JsonValid(FindById(Readable(old(repo.storage)), id).value, limits) &&
                r == Some(T.Decode(FindById(Readable(old(repo.storage)), id).value))
      ensures r.Some? ==> T.Valid(r.value, limits) && r.value.id == id
      ensures !old(repo.storage.readFails) ==> repo.storage == old(repo.storage)
    {
      ghost var before := Readable(repo.storage);
      var found := repo.GetById(id);
      if found.None? {
        return None;
      }
      FindByIdIn(before, id);
      return Some(T.Decode(found.value));
    }

    /** `removeTodo(id)`: the repository's delete. */
    method RemoveTodo(id: Value) returns (r: Result<bool, string>)
      requires Valid()
      modifies repo
      ensures Valid()
      ensures Healthy(old(repo.storage)) ==>
                r == Ok(FindById(Stored(old(repo.storage)), id).Some?) &&
                SameFaults(repo.storage, old(repo.storage)) &&
                Stored(repo.storage) == Without(Stored(old(repo.storage)), id)
      ensures r.Ok? && r.value ==> Stored(repo.storage) == Without(Readable(old(repo.storage)), id)
      ensures r.Ok? && !r.value && !old(repo.storage.readFails) ==> repo.storage == old(repo.storage)
    {
      WithoutMembers(Stored(repo.storage), id);
      r := repo.Delete(id);
    }

    /** `toggleTodo(id)`: `null` without writing for an unknown id; otherwise
        the toggled todo is saved and its saved form returned. */
    method ToggleTodo(id: Value) returns (r: Result<Option<Item>, string>)
      requires Valid()
      modifies repo
      ensures Valid()
      ensures Healthy(old(repo.storage)) && FindById(Stored(old(repo.storage)), id).None? ==>
                r == Ok(None) && repo.storage == old(repo.storage)
      ensures Healthy(old(repo.storage)) && FindById(Stored(old(repo.storage)), id).Some? ==>
                (var j := FindById(Stored(old(repo.storage)), id).value;
                 j.completed.Bool? &&
                 (var toggled := j.(completed := Bool(!j.completed.b));
                  r == Ok(Some(toggled)) && SameFaults(repo.storage, old(repo.storage)) &&
                  Stored(repo.storage) == Upsert(Stored(old(repo.storage)), toggled)))
      ensures r.Ok? && r.value.Some? ==> r.value.value.id == id
    {
      var todo := GetTodoByIdAsEntity(id);
      if todo.None? {
        return Ok(None);
      }
      T.ToggleFlips(todo.value, limits);
      var json := T.ToJson(T.Toggle(todo.value));
      T.ToJsonValid(T.Toggle(todo.value), limits);
      var saved := SaveEntry(json);
      if saved.Err? {
        return Err(saved.error);
      }
      return Ok(Some(saved.value));
    }

    /** `editTodo(id, newText)`: `null` for an unknown id; a blank text
        deletes the todo and returns `null`; otherwise the edited todo is
        saved and its saved form returned. */
    method EditTodo(id: Value, newText: Value) returns (r: Result<Option<Item>, string>)
      requires Valid()
      modifies repo
      ensures Valid()
      ensures Healthy(old(repo.storage)) ==>
                r == EditOf(Stored(old(repo.storage)), id, newText, limits).result &&
                SameFaults(repo.storage, old(repo.storage)) &&
                Stored(repo.storage) == EditOf(Stored(old(repo.storage)), id, newText, limits).items
    {
      ghost var s0 := repo.storage;
      ghost var spec := EditOf(Stored(s0), id, newText, limits);
      var todo := GetTodoByIdAsEntity(id);
      if todo.None? {
        return Ok(None);
      }
      var trimmed := TrimmedText(newText);
      if trimmed.Err? {
        return Err(trimmed.error);
      }
      if trimmed.value == "" {
        var deleted := RemoveTodo(id);
        if deleted.Err? {
          return Err(deleted.error);
        }
        return Ok(None);
      }
      var edited := T.EditText(todo.value, Text(trimmed.value), limits);
      if edited.Err? {
        return Err(edited.error);
      }
      T.EditKeepsValid(todo.value, Text(trimmed.value), limits);
      var json := T.ToJson(edited.value);
      T.ToJsonValid(edited.value, limits);
      assert Healthy(s0) ==> json == spec.result.value.value;
      var saved := SaveEntry(json);
      if saved.Err? {
        return Err(saved.error);
      }
      return Ok(Some(saved.value));
    }

    /** `_getAllTodosAsEntities()`. */
    method GetAllTodosAsEntities() returns (todos: seq<T.Todo>)
      requires Valid()
      modifies repo
      ensures Valid()
      ensures forall k :: 0 <= k < |Readable(old(repo.storage))| ==> T.JsonValid(Readable(old(repo.storage))[k], limits)
      ensures todos == Entities(Readable(old(repo.storage)), limits)
      ensures !old(repo.storage.readFails) ==> repo.storage == old(repo.storage)
    {
      var items := repo.GetAll();
      AllValidAt(items, limits);
      todos := Entities(items, limits);
    }

    /** `toggleAll(completed)`: every todo completed (or uncompleted), each
        saved in turn, and their JSON forms returned. */
    method ToggleAll(completed: bool) returns (r: Result<seq<Item>, string>)
      requires Valid()
      modifies repo
      ensures Valid()
      ensures r.Ok? ==> r.value == Flagged(Readable(old(repo.storage)), completed)
      ensures Healthy(old(repo.storage)) ==>
                r.Ok? && SameFaults(repo.storage, old(repo.storage)) &&
                Stored(repo.storage) == UpsertAll(Stored(old(repo.storage)), r.value)
    {
      ghost var items := Readable(repo.storage);
      var todos := GetAllTodosAsEntities();
      var updated := seq(|todos|, k requires 0 <= k < |todos| =>
                           if completed then T.Complete(todos[k]) else T.Uncomplete(todos[k]));
      var jsons := seq(|updated|, k requires 0 <= k < |updated| => T.ToJson(updated[k]));
      forall k | 0 <= k < |items|
        ensures jsons[k] == Flagged(items, completed)[k] && T.JsonValid(jsons[k], limits)
      {
        FlagThroughEntity(items[k], completed, limits);
      }
      assert jsons == Flagged(items, completed);
      var saved := SaveEach(jsons);
      if saved.Err? {
        return Err(saved.error);
      }
      return Ok(jsons);
    }

    /** `updated.forEach(todo => this._repository.save(todo.toJSON()))`. */
    method SaveEach(jsons: seq<Item>) returns (r: Result<(), string>)
      requires Valid() && forall k :: 0 <= k < |jsons| ==> T.JsonValid(jsons[k], limits)
      modifies repo
      ensures Valid()
      ensures Healthy(old(repo.storage)) ==>
                r.Ok? && SameFaults(repo.storage, old(repo.storage)) &&
                Stored(repo.storage) == UpsertAll(Stored(old(repo.storage)), jsons)
    {
      ghost var s0 := repo.storage;
      for i := 0 to |jsons|
        invariant Valid()
        invariant Healthy(s0) ==> SameFaults(repo.storage, s0) && Stored(repo.storage) == UpsertAll(Stored(s0), jsons[..i])
      {
        var saved := SaveEntry(jsons[i]);
        if saved.Err? {
          return Err(saved.error);
        }
        assert jsons[..i + 1][..i] == jsons[..i] && jsons[..i + 1][i] == jsons[i];
      }
      assert jsons[..|jsons|] == jsons;
      return Ok(());
    }

    /** `clearCompleted()`: delete every completed todo by id, in order, and
        return how many there were. Each delete is the repository's, as
        `removeTodo` makes it. */
    method ClearCompleted() returns (r: Result<nat, string>)
      requires Valid()
      modifies repo
      ensures Valid()
      ensures r.Ok? ==> r.value == |CompletedOf(Readable(old(repo.storage)))|
      ensures Healthy(old(repo.storage)) ==>
                r == Ok(|CompletedOf(Stored(old(repo.storage)))|) && SameFaults(repo.storage, old(repo.storage)) &&
                Stored(repo.storage) == WithoutAll(Stored(old(repo.storage)), CompletedOf(Stored(old(repo.storage))))
    {
      ghost var s0 := repo.storage;
      var items := repo.GetAll();
      var completed := CompletedOf(items);
      for i := 0 to |completed|
        invariant Valid()
        invariant Healthy(s0) ==> SameFaults(repo.storage, s0) && Stored(repo.storage) == WithoutAll(Stored(s0), completed[..i])
      {
        ghost var st := repo.storage;
        var deleted := RemoveTodo(completed[i].id);
        if deleted.Err? {
          return Err(deleted.error);
        }
        WithoutAllStep(Stored(s0), completed, i);
        if Healthy(s0) {
          assert Healthy(st) && Stored(st) == WithoutAll(Stored(s0), completed[..i]);
          assert Stored(repo.storage) == Without(Stored(st), completed[i].id);
        }
      }
      assert completed[..|completed|] == completed;
      assert Healthy(s0) ==> items == Stored(s0);
      return Ok(|completed|);
    }

    /** `getStats()`. */
    method GetStats() returns (s: Stats)
      requires Valid()
      modifies repo
      ensures Valid()
      ensures s == StatsOf(Readable(old(repo.storage)))
      ensures !old(repo.storage.readFails) ==> repo.storage == old(repo.storage)
    {
      var items := repo.GetAll();
      s := StatsOf(items);
    }
  }

  // Properties.

  lemma {:induction false} CompletedPlusActive(items: seq<Item>)
    ensures |CompletedOf(items)| + |ActiveOf(items)| == |items|
    decreases |items|
  {
    if items != [] {
      CompletedPlusActive(items[1..]);
    }
  }

  lemma AllValidAt(items: seq<Item>, limits: T.Limits)
    requires AllValid(items, limits)
    ensures forall k :: 0 <= k < |items| ==> T.JsonValid(items[k], limits)
  {
    forall k | 0 <= k < |items| ensures T.JsonValid(items[k], limits) {
      assert items[k] in items;
    }
  }

  /** Completing (or uncompleting) the entity of a valid JSON form and
      writing it back sets its flag and keeps the other fields. */
  lemma FlagThroughEntity(j: Item, c: bool, limits: T.Limits)
    requires T.JsonValid(j, limits)
    ensures var t := T.Decode(j);
      T.ToJson(if c then T.Complete(t) else T.Uncomplete(t)) == j.(completed := Bool(c)) &&
      T.JsonValid(j.(completed := Bool(c)), limits)
  {
  }

  /** A successful edit rewrites the text of the first entry with the id,
      in place, to the trimmed new text; id, flag and stamp stay, and so does
      every other entry. */
  lemma EditInPlace(items: seq<Item>, id: Value, newText: Value, limits: T.Limits)
    requires EditOf(items, id, newText, limits).result.Ok? && EditOf(items, id, newText, limits).result.value.Some?
    ensures var i := FindIndex(items, id); var e := EditOf(items, id, newText, limits).result.value.value;
      var after := EditOf(items, id, newText, limits).items;
      i < |items| && newText.Text? && e == items[i].(text := Text(T.Trim(newText.s))) &&
      |after| == |items| && after[i] == e &&
      (forall k :: 0 <= k < |items| && k != i ==> after[k] == items[k])
  {
    var i := FindIndex(items, id);
    var j := FindById(items, id).value;
    var t := TrimmedText(newText).value;
    assert newText.Text? && t == T.Trim(newText.s);
    var v := T.ValidateText(Text(t), limits);
    assert v.Ok? && v.value == T.Trim(t);
    T.TrimTwice(newText.s);
    var e := j.(text := Text(v.value));
    assert EditOf(items, id, newText, limits) == Edit(Ok(Some(e)), Upsert(items, e));
    FindIndexAt(items, i, e.id);
  }

  /** A blank edit of a stored id deletes every entry with that id. */
  lemma BlankEditDeletes(items: seq<Item>, id: Value, newText: Value, limits: T.Limits)
    requires FindById(items, id).Some? && TrimmedText(newText) == Ok("")
    ensures EditOf(items, id, newText, limits).result == Ok(None)
    ensures forall x :: x in EditOf(items, id, newText, limits).items ==> x in items && x.id != id
  {
    WithoutMembers(items, id);
  }

  /** Whatever the outcome, an edit of an id nobody has stores nothing new. */
  lemma UnknownIdUnchanged(items: seq<Item>, id: Value, newText: Value, limits: T.Limits)
    requires FindById(items, id).None?
    ensures EditOf(items, id, newText, limits) == Edit(Ok(None), items)
  {
  }

  /** Toggling the same id twice restores the stored list. */
  lemma ToggleTwiceRestores(items: seq<Item>, id: Value)
    requires FindById(items, id).Some? && FindById(items, id).value.completed.Bool?
    ensures var j := FindById(items, id).value;
      var once := Upsert(items, j.(completed := Bool(!j.completed.b)));
      FindById(once, id) == Some(j.(completed := Bool(!j.completed.b))) &&
      Upsert(once, j) == items
  {
    var i := FindIndex(items, id);
    var j := items[i];
    var t := j.(completed := Bool(!j.completed.b));
    var once := items[i := t];
    FindIndexAt(once, i, id);
    assert once[i := j] == items;
  }

  /** Position `i` is the first with that id. */
  lemma FindIndexAt(items: seq<Item>, i: nat, id: Value)
    requires i < |items| && items[i].id == id
    requires forall j :: 0 <= j < i ==> items[j].id != id
    ensures FindIndex(items, id) == i
  {
  }

  /** With unique ids, saving the flagged entries one by one writes the
      flagged list: each save replaces its own entry in place. */
  lemma {:induction false} UpsertFlaggedPrefix(items: seq<Item>, c: bool, k: nat)
    requires UniqueIds(items) && k <= |items|
    ensures UpsertAll(items, Flagged(items, c)[..k]) == Flagged(items, c)[..k] + items[k..]
    decreases k
  {
    var f := Flagged(items, c);
    if k == 0 {
      assert f[..0] == [];
      assert items[0..] == items;
    } else {
      UpsertFlaggedPrefix(items, c, k - 1);
      assert f[..k][..k - 1] == f[..k - 1];
      var before := f[..k - 1] + items[k - 1..];
      assert before[k - 1] == items[k - 1];
      forall j | 0 <= j < k - 1 ensures before[j].id != f[k - 1].id {
        assert before[j] == f[j];
      }
      FindIndexAt(before, k - 1, f[k - 1].id);
      assert Upsert(before, f[k - 1]) == before[k - 1 := f[k - 1]];
      assert before[k - 1 := f[k - 1]] == f[..k] + items[k..];
    }
  }

  /** `toggleAll` over unique ids stores exactly the list it returns. */
  lemma ToggleAllStoresFlagged(items: seq<Item>, c: bool)
    requires UniqueIds(items)
    ensures UpsertAll(items, Flagged(items, c)) == Flagged(items, c)
  {
    UpsertFlaggedPrefix(items, c, |items|);
    assert Flagged(items, c)[..|items|] == Flagged(items, c);
    assert items[|items|..] == [];
  }

  lemma {:induction false} DropNothing(items: seq<Item>)
    ensures Drop(items, {}) == items
    decreases |items|
  {
    if items != [] {
      DropNothing(items[1..]);
      assert items == [items[0]] + items[1..];
    }
  }

  lemma {:induction false} WithoutDrop(items: seq<Item>, ids: set<Value>, id: Value)
    ensures Without(Drop(items, ids), id) == Drop(items, ids + {id})
    decreases |items|
  {
    if items != [] {
      var x := items[0];
      var rest := items[1..];
      WithoutDrop(rest, ids, id);
      var d := Drop(rest, ids);
      assert Drop(items, ids + {id}) == (if x.id in ids + {id} then [] else [x]) + Drop(rest, ids + {id});
      if x.id in ids {
        assert Drop(items, ids) == d;
      } else {
        assert Drop(items, ids) == [x] + d;
        var w := [x] + d;
        assert w[0] == x && w[1..] == d;
        assert Without(w, id) == (if x.id == id then Without(d, id) else [x] + Without(d, id));
      }
    }
  }

  /** Deleting a list of entries by id, one after the other, keeps exactly
      the entries whose id none of them has. */
  lemma {:induction false} WithoutAllIsDrop(items: seq<Item>, ds: seq<Item>)
    ensures WithoutAll(items, ds) == Drop(items, IdSet(ds))
    decreases |ds|
  {
    if ds == [] {
      DropNothing(items);
      assert IdSet(ds) == {};
    } else {
      var n := |ds| - 1;
      WithoutAllIsDrop(items, ds[..n]);
      WithoutDrop(items, IdSet(ds[..n]), ds[n].id);
      assert ds == ds[..n] + [ds[n]];
      assert IdSet(ds) == IdSet(ds[..n]) + {ds[n].id};
    }
  }

  lemma {:induction false} DropIgnoresAbsent(items: seq<Item>, ids: set<Value>, id: Value)
    requires forall x :: x in items ==> x.id != id
    ensures Drop(items, ids + {id}) == Drop(items, ids)
    decreases |items|
  {
    if items != [] {
      DropIgnoresAbsent(items[1..], ids, id);
    }
  }

  /** With unique ids, dropping the ids of the completed entries keeps
      exactly the active ones. */
  lemma {:induction false} DropCompletedIsActive(items: seq<Item>)
    requires UniqueIds(items)
    ensures Drop(items, IdSet(CompletedOf(items))) == ActiveOf(items)
    decreases |items|
  {
    if items != [] {
      var x := items[0];
      var rest := items[1..];
      assert UniqueIds(rest) by {
        forall i, j | 0 <= i < j < |rest| ensures rest[i].id != rest[j].id {
          assert rest[i] == items[i + 1] && rest[j] == items[j + 1];
        }
      }
      DropCompletedIsActive(rest);
      forall y | y in rest ensures y.id != x.id {
        var j :| 0 <= j < |rest| && rest[j] == y;
        assert items[j + 1] == y;
      }
      var cs := CompletedOf(items);
      assert cs == (if Truthy(x.completed) then [x] else []) + CompletedOf(rest);
      assert x.id !in IdSet(CompletedOf(rest));
      if Truthy(x.completed) {
        assert IdSet(cs) == IdSet(CompletedOf(rest)) + {x.id} by {
          assert cs == [x] + CompletedOf(rest);
        }
        DropIgnoresAbsent(rest, IdSet(CompletedOf(rest)), x.id);
      } else {
        assert IdSet(cs) == IdSet(CompletedOf(rest));
      }
    }
  }

  /** `clearCompleted` over unique ids leaves exactly the active todos. */
  lemma ClearCompletedKeepsActive(items: seq<Item>)
    requires UniqueIds(items)
    ensures WithoutAll(items, CompletedOf(items)) == ActiveOf(items)
  {
    WithoutAllIsDrop(items, CompletedOf(items));
    DropCompletedIsActive(items);
  }

  /** `clearCompleted` in general drops every entry sharing an id with a
      completed one, active or not. */
  lemma ClearCompletedDropsIds(items: seq<Item>, x: Item)
    ensures x in WithoutAll(items, CompletedOf(items)) <==> x in items && x.id !in IdSet(CompletedOf(items))
  {
    WithoutAllIsDrop(items, CompletedOf(items));
  }
}
