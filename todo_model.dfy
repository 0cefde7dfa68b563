/** The todo list model: a base model named `todo` whose state holds the
    todos (JSON forms), the filter, the id being edited and two derived
    fields, `filteredTodos` and `stats`, recomputed on every change of the
    list or the filter. Every change goes through the service first. The id
    generator and the clock that a new todo needs are parameters. */
module TodoModels {
  import opened Js
  import T = TodoEntity
  import F = TodoFilter
  import opened Storage
  import opened Services
  import opened Models

  /** A value in the model's state object. */
  datatype Field = List(items: seq<Item>) | Scalar(v: Value) | Counts(stats: Stats)

  const TodosKey := "todos"
  const FilterKey := "filter"
  const EditingKey := "editingId"
  const FilteredKey := "filteredTodos"
  const StatsKey := "stats"
  /** What `new TodoModel` throws without a service. */
  const ServiceRequired := "TodoModel: service é obrigatório"

  /** `{ todos: [], filter: TodoFilter.ALL, editingId: null }`. */
  function DefaultState(): map<string, Field>
  {
    map[TodosKey := List([]), FilterKey := Scalar(Text(F.All)), EditingKey := Scalar(Null)]
  }

  /** `merged.filter`, `undefined` when absent. */
  function FilterOf(st: map<string, Field>): Field
  {
    if FilterKey in st then st[FilterKey] else Scalar(Undefined)
  }

  /** `_getFilteredTodosFrom(todos, filter)`: the active or the completed
      todos, in order, for those two filters, and every todo otherwise. */
  function FilteredFrom(todos: seq<Item>, filter: Field): seq<Item>
  {
    if filter == Scalar(Text(F.Active)) then ActiveOf(todos)
    else if filter == Scalar(Text(F.Completed)) then CompletedOf(todos)
    else todos
  }

  /** The state with both derived fields recomputed from its todos and filter. */
  function Derive(st: map<string, Field>): (r: map<string, Field>)
    requires TodosKey in st && st[TodosKey].List?
    ensures r.Keys == st.Keys + {FilteredKey, StatsKey}
  {
    var todos := st[TodosKey].items;
    st[FilteredKey := List(FilteredFrom(todos, FilterOf(st)))][StatsKey := Counts(StatsOf(todos))]
  }

  /** The derived fields agree with the todos and the filter. */
  predicate Derived(st: map<string, Field>)
  {
    TodosKey in st && st[TodosKey].List? &&
    FilteredKey in st && st[FilteredKey] == List(FilteredFrom(st[TodosKey].items, FilterOf(st))) &&
    StatsKey in st && st[StatsKey] == Counts(StatsOf(st[TodosKey].items))
  }

  /** `todos.map(t => t.id === id ? updated : t)`. */
  function ReplaceId(todos: seq<Item>, id: Value, updated: Item): (r: seq<Item>)
    ensures |r| == |todos|
    ensures forall k :: 0 <= k < |todos| ==> r[k] == if todos[k].id == id then updated else todos[k]
  {
    seq(|todos|, k requires 0 <= k < |todos| => if todos[k].id == id then updated else todos[k])
  }

  class TodoModel {
    const base: BaseModel<Field>
    const service: TodoService

    predicate Valid()
      reads this, base, service, service.repo
    {
      service.Valid() && Derived(base.state)
    }

    /** The logs after exactly one `setState` from the state `previous`:
        every observer called once with the new and the previous state, and
        the `todo:change` event emitted when there is a bus. */
    predicate Announced(notified0: seq<Notification<Field>>, emitted0: seq<ChangeEvent<Field>>,
                        previous: map<string, Field>)
      reads this, base
    {
      base.notified == notified0 + Round(base.observers, base.state, previous) &&
      base.emitted == emitted0 + base.ChangeEvents(base.state, previous)
    }

    /** The logs when `setState` was not called. */
    predicate Quiet(notified0: seq<Notification<Field>>, emitted0: seq<ChangeEvent<Field>>)
      reads this, base
    {
      base.notified == notified0 && base.emitted == emitted0
    }

    function Todos(): seq<Item>
      reads this, base
      requires TodosKey in base.state && base.state[TodosKey].List?
    {
      base.state[TodosKey].items
    }

    /** `new TodoModel({ service, eventBus, initialState })` for any
        `service`: a missing one throws before anything else is done. */
    static method Create(service: TodoService?, hasBus: bool, initialState: map<string, Field>)
        returns (r: Result<TodoModel, string>)
      requires service != null ==> service.Valid()
      modifies if service == null then {} else {service.repo}
      ensures service == null ==> r == Err(ServiceRequired)
      ensures service != null ==>
                r.Ok? && fresh(r.value) && fresh(r.value.base) && r.value.Valid() && r.value.service == service &&
                r.value.base.modelName == "todo" && r.value.base.hasBus == hasBus && r.value.base.observers == [] &&
                r.value.base.state ==
                  Derive(Merge(DefaultState(), initialState)[TodosKey := List(Readable(old(service.repo.storage)))])
      ensures service != null && !old(service.repo.storage).readFails ==> service.repo.storage == old(service.repo.storage)
    {
      if service == null {
        return Err(ServiceRequired);
      }
      var m := new TodoModel(service, hasBus, initialState);
      return Ok(m);
    }

    /** `new TodoModel({ service, eventBus, initialState })`: the defaults
        overridden by the initial state, then the todos replaced by the
        service's list and the derived fields computed. */
    constructor(service: TodoService, hasBus: bool, initialState: map<string, Field>)
      requires service.Valid()
      modifies service.repo
      ensures Valid() && this.service == service && fresh(base)
      ensures base.modelName == "todo" && base.hasBus == hasBus && base.observers == []
      ensures base.state == Derive(Merge(DefaultState(), initialState)[TodosKey := List(Readable(old(service.repo.storage)))])
      ensures base.notified == [] && base.emitted == base.ChangeEvents(base.state, Merge(DefaultState(), initialState))
      ensures !old(service.repo.storage).readFails ==> service.repo.storage == old(service.repo.storage)
    {
      base := new BaseModel(Merge(DefaultState(), initialState), "todo", hasBus);
      this.service := service;
      new;
      LoadFromService();
    }

    /** `_loadFromService()`. */
    method LoadFromService()
      requires service.Valid()
      modifies base, service.repo
      ensures Valid()
      ensures base.state == Derive(old(base.state)[TodosKey := List(Readable(old(service.repo.storage)))])
      ensures base.observers == old(base.observers) && Announced(old(base.notified), old(base.emitted), old(base.state))
      ensures !old(service.repo.storage).readFails ==> service.repo.storage == old(service.repo.storage)
    {
      var todos := service.GetAllTodos();
      MergeOne(base.state, TodosKey, List(todos));
      SetStateWithDerived(map[TodosKey := List(todos)]);
    }

    /** `_setStateWithDerived(partial)`: merge, recompute the derived fields,
        and set the whole result. */
    method SetStateWithDerived(partial: map<string, Field>)
      requires TodosKey in Merge(base.state, partial) && Merge(base.state, partial)[TodosKey].List?
      modifies base
      ensures base.state == Derive(Merge(old(base.state), partial))
      ensures Derived(base.state)
      ensures base.observers == old(base.observers) && Announced(old(base.notified), old(base.emitted), old(base.state))
    {
      var merged := Merge(base.state, partial);
      var filtered := FilteredFrom(merged[TodosKey].items, FilterOf(merged));
      var stats := StatsOf(merged[TodosKey].items);
      SetDerived(base.state, merged, filtered, stats);
      base.SetState(Merge(merged, map[FilteredKey := List(filtered), StatsKey := Counts(stats)]));
      DeriveIsDerived(merged);
    }

    /** `addTodo(text)`: the new todo's JSON form is appended and returned; a
        failure of the service yields `null` and changes nothing. */
    method AddTodo(text: Value, freshId: string, now: string) returns (r: Option<Item>)
      requires Valid() && freshId != "" && now != ""
      modifies base, service.repo
      ensures Valid() && base.observers == old(base.observers)
      ensures T.Make(NewTodoJson(text), service.limits, freshId, now).Err? ==>
                r.None? && service.repo.storage == old(service.repo.storage)
      ensures r.None? ==> base.state == old(base.state) && Quiet(old(base.notified), old(base.emitted))
      ensures r.Some? ==>
                r.value == T.ToJson(T.Make(NewTodoJson(text), service.limits, freshId, now).value) &&
                base.state == Derive(old(base.state)[TodosKey := List(old(Todos()) + [r.value])]) && Announced(old(base.notified), old(base.emitted), old(base.state))
      ensures T.Make(NewTodoJson(text), service.limits, freshId, now).Ok? && Healthy(old(service.repo.storage)) ==>
                r.Some? && SameFaults(service.repo.storage, old(service.repo.storage)) &&
                Stored(service.repo.storage) == Upsert(Stored(old(service.repo.storage)), r.value)
    {
      var created := service.CreateTodo(text, freshId, now);
      if created.Err? {
        return None;
      }
      var json := T.ToJson(created.value);
      MergeOne(base.state, TodosKey, List(Todos() + [json]));
      SetStateWithDerived(map[TodosKey := List(Todos() + [json])]);
      return Some(json);
    }

    /** `removeTodo(id)`: the list is filtered only when the service deleted
        something. */
    method RemoveTodo(id: Value) returns (r: Result<(), string>)
      requires Valid()
      modifies base, service.repo
      ensures Valid() && base.observers == old(base.observers)
      ensures r.Err? ==> base.state == old(base.state) && Quiet(old(base.notified), old(base.emitted))
      ensures Healthy(old(service.repo.storage)) ==>
                r.Ok? &&
                base.state == (if FindById(Stored(old(service.repo.storage)), id).Some?
                               then Derive(old(base.state)[TodosKey := List(Without(old(Todos()), id))])
                               else old(base.state)) &&
                (if FindById(Stored(old(service.repo.storage)), id).Some? then Announced(old(base.notified), old(base.emitted), old(base.state)) else Quiet(old(base.notified), old(base.emitted)))
      ensures Healthy(old(service.repo.storage)) ==>
                SameFaults(service.repo.storage, old(service.repo.storage)) &&
                Stored(service.repo.storage) == Without(Stored(old(service.repo.storage)), id)
    {
      var removed := service.RemoveTodo(id);
      if removed.Err? {
        return Err(removed.error);
      }
      if removed.value {
        MergeOne(base.state, TodosKey, List(Without(Todos(), id)));
        SetStateWithDerived(map[TodosKey := List(Without(Todos(), id))]);
      }
      return Ok(());
    }

    /** `toggleTodo(id)`: every entry with the id is replaced by the saved
        toggled form; nothing changes for an unknown id. */
    method ToggleTodo(id: Value) returns (r: Result<(), string>)
      requires Valid()
      modifies base, service.repo
      ensures Valid() && base.observers == old(base.observers)
      ensures r.Err? ==> base.state == old(base.state) && Quiet(old(base.notified), old(base.emitted))
      ensures Healthy(old(service.repo.storage)) ==>
                r.Ok? &&
                (FindById(Stored(old(service.repo.storage)), id).None? ==> base.state == old(base.state) && Quiet(old(base.notified), old(base.emitted))) &&
                (FindById(Stored(old(service.repo.storage)), id).Some? ==>
                   (var j := FindById(Stored(old(service.repo.storage)), id).value;
                    base.state == Derive(old(base.state)[TodosKey :=
                      List(ReplaceId(old(Todos()), id, j.(completed := Bool(!Truthy(j.completed)))))]) && Announced(old(base.notified), old(base.emitted), old(base.state))))
      ensures Healthy(old(service.repo.storage)) && FindById(Stored(old(service.repo.storage)), id).None? ==> service.repo.storage == old(service.repo.storage)
      ensures Healthy(old(service.repo.storage)) && FindById(Stored(old(service.repo.storage)), id).Some? ==>
                (var j := FindById(Stored(old(service.repo.storage)), id).value;
                 SameFaults(service.repo.storage, old(service.repo.storage)) &&
                 Stored(service.repo.storage) == Upsert(Stored(old(service.repo.storage)), j.(completed := Bool(!Truthy(j.completed)))))
    {
      var updated := service.ToggleTodo(id);
      if updated.Err? {
        return Err(updated.error);
      }
      if updated.value.Some? {
        MergeOne(base.state, TodosKey, List(ReplaceId(Todos(), id, updated.value.value)));
        SetStateWithDerived(map[TodosKey := List(ReplaceId(Todos(), id, updated.value.value))]);
      }
      return Ok(());
    }

    /** `editTodo(id, newText)`: a saved edit replaces the entry and clears
        `editingId`; a `null` from the service calls `removeTodo(id)` and
        then clears `editingId`; any failure is caught and changes nothing. */
    method EditTodo(id: Value, newText: Value)
      requires Valid()
      modifies base, service.repo
      ensures Valid() && base.observers == old(base.observers)
      ensures Healthy(old(service.repo.storage)) ==>
                (var edit := EditOf(Stored(old(service.repo.storage)), id, newText, service.limits);
                 (edit.result.Err? ==> base.state == old(base.state) && Quiet(old(base.notified), old(base.emitted))) &&
                 (edit.result.Ok? && edit.result.value.Some? ==>
                    base.state == Derive(old(base.state)[TodosKey := List(ReplaceId(old(Todos()), id, edit.result.value.value))]
                                                        [EditingKey := Scalar(Null)]) && Announced(old(base.notified), old(base.emitted), old(base.state))) &&
                 (edit.result == Ok(None) ==> base.state == old(base.state)[EditingKey := Scalar(Null)] && Announced(old(base.notified), old(base.emitted), old(base.state))))
      ensures Healthy(old(service.repo.storage)) ==>
                SameFaults(service.repo.storage, old(service.repo.storage)) &&
                Stored(service.repo.storage) == EditOf(Stored(old(service.repo.storage)), id, newText, service.limits).items
    {
      ghost var s0 := service.repo.storage;
      var updated := service.EditTodo(id, newText);
      if updated.Err? {
        return;
      }
      if updated.value.Some? {
        SetTodosClearEditing(ReplaceId(Todos(), id, updated.value.value));
      } else {
        assert Healthy(s0) ==> FindById(Stored(service.repo.storage), id).None? by {
          if Healthy(s0) {
            BlankEditLeavesNoId(Stored(s0), id, newText, service.limits);
          }
        }
        ghost var s1 := service.repo.storage;
        var removed := RemoveTodo(id);
        if Healthy(s0) {
          WithoutAbsent(Stored(s1), id);
        }
        if removed.Err? {
          return;
        }
        SetEditing(Null);
      }
    }

    /** `editTodo` with the blank edit carried through: when the service
        returns `null`, the entries with the id also leave the model's list,
        as they have left the store. */
    method EditTodoCorrected(id: Value, newText: Value)
      requires Valid()
      modifies base, service.repo
      ensures Valid() && base.observers == old(base.observers)
      ensures Healthy(old(service.repo.storage)) ==>
                (var edit := EditOf(Stored(old(service.repo.storage)), id, newText, service.limits);
                 (edit.result.Err? ==> base.state == old(base.state) && Quiet(old(base.notified), old(base.emitted))) &&
                 (edit.result.Ok? && edit.result.value.Some? ==>
                    base.state == Derive(old(base.state)[TodosKey := List(ReplaceId(old(Todos()), id, edit.result.value.value))]
                                                        [EditingKey := Scalar(Null)]) && Announced(old(base.notified), old(base.emitted), old(base.state))) &&
                 (edit.result == Ok(None) ==>
                    base.state == Derive(old(base.state)[TodosKey := List(Without(old(Todos()), id))][EditingKey := Scalar(Null)]) &&
                    Announced(old(base.notified), old(base.emitted), old(base.state))))
      ensures Healthy(old(service.repo.storage)) ==>
                SameFaults(service.repo.storage, old(service.repo.storage)) &&
                Stored(service.repo.storage) == EditOf(Stored(old(service.repo.storage)), id, newText, service.limits).items
    {
      ghost var s0 := service.repo.storage;
      var updated := service.EditTodo(id, newText);
      if updated.Err? {
        return;
      }
      if updated.value.Some? {
        SetTodosClearEditing(ReplaceId(Todos(), id, updated.value.value));
      } else {
        assert Healthy(s0) ==> FindById(Stored(service.repo.storage), id).None? by {
          if Healthy(s0) {
            BlankEditLeavesNoId(Stored(s0), id, newText, service.limits);
          }
        }
        ghost var s1 := service.repo.storage;
        ghost var st0 := base.state;
        var removed := RemoveTodo(id);
        if Healthy(s0) {
          WithoutAbsent(Stored(s1), id);
        }
        if removed.Err? {
          return;
        }
        assert Healthy(s0) ==> base.state == st0;
        SetTodosClearEditing(Without(Todos(), id));
      }
    }

    /** `_setStateWithDerived({ todos, editingId: null })`. */
    method SetTodosClearEditing(todos: seq<Item>)
      requires Valid()
      modifies base
      ensures Valid() && base.observers == old(base.observers)
      ensures base.state == Derive(old(base.state)[TodosKey := List(todos)][EditingKey := Scalar(Null)])
      ensures Announced(old(base.notified), old(base.emitted), old(base.state))
    {
      MergeTwo(base.state, TodosKey, List(todos), EditingKey, Scalar(Null));
      SetStateWithDerived(map[TodosKey := List(todos), EditingKey := Scalar(Null)]);
    }

    /** `setEditing(id)`: the derived fields are not recomputed. */
    method SetEditing(id: Value)
      requires Valid()
      modifies base
      ensures Valid() && base.observers == old(base.observers)
      ensures base.state == old(base.state)[EditingKey := Scalar(id)]
      ensures Announced(old(base.notified), old(base.emitted), old(base.state))
    {
      base.SetState(map[EditingKey := Scalar(id)]);
      assert base.state == old(base.state)[EditingKey := Scalar(id)];
    }

    /** `setFilter(filter)`: only one of the three filter values is taken. */
    method SetFilter(filter: Value)
      requires Valid()
      modifies base
      ensures Valid() && base.observers == old(base.observers)
      ensures !F.IsValid(F.Primitive(filter)) ==> base.state == old(base.state) && Quiet(old(base.notified), old(base.emitted))
      ensures F.IsValid(F.Primitive(filter)) ==> base.state == Derive(old(base.state)[FilterKey := Scalar(filter)]) && Announced(old(base.notified), old(base.emitted), old(base.state))
    {
      if F.IsValid(F.Primitive(filter)) {
        MergeOne(base.state, FilterKey, Scalar(filter));
        SetStateWithDerived(map[FilterKey := Scalar(filter)]);
      }
    }

    /** `toggleAll(completed)`: the list becomes what the service returns. */
    method ToggleAll(completed: bool) returns (r: Result<(), string>)
      requires Valid()
      modifies base, service.repo
      ensures Valid() && base.observers == old(base.observers)
      ensures r.Err? ==> base.state == old(base.state) && Quiet(old(base.notified), old(base.emitted))
      ensures r.Ok? ==> base.state == Derive(old(base.state)[TodosKey := List(Flagged(Readable(old(service.repo.storage)), completed))]) && Announced(old(base.notified), old(base.emitted), old(base.state))
      ensures Healthy(old(service.repo.storage)) ==> r.Ok?
      ensures Healthy(old(service.repo.storage)) ==>
                SameFaults(service.repo.storage, old(service.repo.storage)) &&
                Stored(service.repo.storage) == UpsertAll(Stored(old(service.repo.storage)), Flagged(Stored(old(service.repo.storage)), completed))
    {
      var updated := service.ToggleAll(completed);
      if updated.Err? {
        return Err(updated.error);
      }
      MergeOne(base.state, TodosKey, List(updated.value));
      SetStateWithDerived(map[TodosKey := List(updated.value)]);
      return Ok(());
    }

    /** `clearCompleted()`: the active todos are kept only when the service
        removed at least one. */
    method ClearCompleted() returns (r: Result<(), string>)
      requires Valid()
      modifies base, service.repo
      ensures Valid() && base.observers == old(base.observers)
      ensures r.Err? ==> base.state == old(base.state) && Quiet(old(base.notified), old(base.emitted))
      ensures r.Ok? && |CompletedOf(Readable(old(service.repo.storage)))| == 0 ==> base.state == old(base.state) && Quiet(old(base.notified), old(base.emitted))
      ensures r.Ok? && |CompletedOf(Readable(old(service.repo.storage)))| > 0 ==>
                base.state == Derive(old(base.state)[TodosKey := List(ActiveOf(old(Todos())))]) && Announced(old(base.notified), old(base.emitted), old(base.state))
      ensures Healthy(old(service.repo.storage)) ==> r.Ok?
      ensures Healthy(old(service.repo.storage)) ==>
                SameFaults(service.repo.storage, old(service.repo.storage)) &&
                Stored(service.repo.storage) == WithoutAll(Stored(old(service.repo.storage)), CompletedOf(Stored(old(service.repo.storage))))
    {
      var removedCount := service.ClearCompleted();
      if removedCount.Err? {
        return Err(removedCount.error);
      }
      if removedCount.value > 0 {
        MergeOne(base.state, TodosKey, List(ActiveOf(Todos())));
        SetStateWithDerived(map[TodosKey := List(ActiveOf(Todos()))]);
      }
      return Ok(());
    }

    /** `getFilteredTodos()`: the filter applied to the current todos, which
        is the stored `filteredTodos`. */
    function GetFilteredTodos(): (r: seq<Item>)
      reads this, base, service, service.repo
      requires Valid()
      ensures List(r) == base.state[FilteredKey]
    {
      FilteredFrom(Todos(), FilterOf(base.state))
    }
  }

  // Properties.

  /** Recomputing makes the derived fields agree. */
  lemma DeriveIsDerived(st: map<string, Field>)
    requires TodosKey in st && st[TodosKey].List?
    ensures Derived(Derive(st))
  {
    var d := Derive(st);
    assert d[TodosKey] == st[TodosKey];
    assert FilterOf(d) == FilterOf(st);
  }

  /** Changing `editingId` commutes with recomputing the derived fields. */
  lemma DeriveSkipsEditing(st: map<string, Field>)
    requires TodosKey in st && st[TodosKey].List?
    ensures Derive(st)[EditingKey := Scalar(Null)] == Derive(st[EditingKey := Scalar(Null)])
  {
    var a := Derive(st)[EditingKey := Scalar(Null)];
    var b := Derive(st[EditingKey := Scalar(Null)]);
    assert FilterOf(st[EditingKey := Scalar(Null)]) == FilterOf(st);
    assert a.Keys == b.Keys;
    forall k | k in a.Keys ensures a[k] == b[k] {
    }
  }

  /** After a blank edit (or one of an unknown id) on a working store, no
      stored entry has the id any more, so the `removeTodo` that follows
      deletes nothing. */
  lemma BlankEditLeavesNoId(items: seq<Item>, id: Value, newText: Value, limits: T.Limits)
    requires EditOf(items, id, newText, limits).result == Ok(None)
    ensures FindById(EditOf(items, id, newText, limits).items, id).None?
  {
    WithoutMembers(items, id);
  }

  /** As written, a blank edit of a stored todo leaves the model's list
      alone although the store has dropped the todo: with the list loaded
      from the store, the model still shows an entry the store no longer
      has. */
  lemma BlankEditLeavesStaleEntry(items: seq<Item>, id: Value, newText: Value, limits: T.Limits)
    requires FindById(items, id).Some? && TrimmedText(newText) == Ok("")
    ensures EditOf(items, id, newText, limits).result == Ok(None)
    ensures FindById(items, id).Some? && FindById(EditOf(items, id, newText, limits).items, id).None?
  {
    BlankEditLeavesNoId(items, id, newText, limits);
  }

  /** With the correction, a list that mirrored the store before a `null`
      edit mirrors it afterwards. */
  lemma CorrectedEditMirrorsStore(items: seq<Item>, id: Value, newText: Value, limits: T.Limits)
    requires EditOf(items, id, newText, limits).result == Ok(None)
    ensures Without(items, id) == EditOf(items, id, newText, limits).items
  {
    if FindById(items, id).None? {
      WithoutAbsent(items, id);
    }
  }

  /** A two-key `setState` is two map updates. */
  lemma MergeTwo(st: map<string, Field>, k1: string, v1: Field, k2: string, v2: Field)
    requires k1 != k2
    ensures Merge(st, map[k1 := v1, k2 := v2]) == st[k1 := v1][k2 := v2]
  {
  }

  /** Setting the merged state with its derived fields over the old state
      gives the recomputed merged state. */
  lemma SetDerived(st: map<string, Field>, merged: map<string, Field>, filtered: seq<Item>, stats: Stats)
    requires TodosKey in merged && merged[TodosKey].List? && st.Keys <= merged.Keys
    requires filtered == FilteredFrom(merged[TodosKey].items, FilterOf(merged))
    requires stats == StatsOf(merged[TodosKey].items)
    ensures Merge(st, Merge(merged, map[FilteredKey := List(filtered), StatsKey := Counts(stats)])) == Derive(merged)
  {
    var d := map[FilteredKey := List(filtered), StatsKey := Counts(stats)];
    MergeTwo(merged, FilteredKey, List(filtered), StatsKey, Counts(stats));
    var inner := merged[FilteredKey := List(filtered)][StatsKey := Counts(stats)];
    assert Derive(merged) == inner;
    var a := Merge(st, Merge(merged, d));
    assert a.Keys == inner.Keys;
    forall k | k in a.Keys ensures a[k] == inner[k] {
    }
  }

  /** A one-key `setState` is a map update. */
  lemma MergeOne(st: map<string, Field>, k: string, v: Field)
    ensures Merge(st, map[k := v]) == st[k := v]
  {
  }

  lemma {:induction false} ActiveMembers(todos: seq<Item>, x: Item)
    ensures x in ActiveOf(todos) <==> x in todos && !Truthy(x.completed)
    decreases |todos|
  {
    if todos != [] {
      ActiveMembers(todos[1..], x);
      assert todos == [todos[0]] + todos[1..];
    }
  }

  lemma {:induction false} CompletedMembers(todos: seq<Item>, x: Item)
    ensures x in CompletedOf(todos) <==> x in todos && Truthy(x.completed)
    decreases |todos|
  {
    if todos != [] {
      CompletedMembers(todos[1..], x);
      assert todos == [todos[0]] + todos[1..];
    }
  }

  /** The active and the completed filters keep exactly the todos with the
      flag cleared and set; any other filter value keeps them all. */
  lemma FilterMeaning(todos: seq<Item>, filter: Field, x: Item)
    ensures filter == Scalar(Text(F.Active)) ==> (x in FilteredFrom(todos, filter) <==> x in todos && !Truthy(x.completed))
    ensures filter == Scalar(Text(F.Completed)) ==> (x in FilteredFrom(todos, filter) <==> x in todos && Truthy(x.completed))
    ensures filter != Scalar(Text(F.Active)) && filter != Scalar(Text(F.Completed)) ==> FilteredFrom(todos, filter) == todos
  {
    F.ValuesDistinct();
    ActiveMembers(todos, x);
    CompletedMembers(todos, x);
  }

  /** The stats count the todos, the completed ones and the rest. */
  lemma StatsMeaning(todos: seq<Item>)
    ensures StatsOf(todos).total == |todos|
    ensures StatsOf(todos).completed == |FilteredFrom(todos, Scalar(Text(F.Completed)))|
    ensures StatsOf(todos).active == |FilteredFrom(todos, Scalar(Text(F.Active)))|
    ensures StatsOf(todos).active == StatsOf(todos).total - StatsOf(todos).completed
  {
    F.ValuesDistinct();
  }
}
