/** The todo value object: an id, a validated and trimmed text, a completion
    flag and a creation stamp. Every operation returns a todo (a new one, or
    the same one when nothing changes). The id generator and the clock are
    parameters: `freshId` is what `generateId('todo')` would return and `now`
    what the clock would give. */
module TodoEntity {
  import opened Js

  /** `TEXT_MIN_LENGTH` and `TEXT_MAX_LENGTH`. */
  datatype Limits = Limits(minLength: nat, maxLength: nat)

  const TextEmpty := "Texto da tarefa não pode estar vazio"

  function TextTooLong(limits: Limits): string
  {
    "Texto muito longo (máximo " + NatToString(limits.maxLength) + " caracteres)"
  }

  /** The fields passed to the constructor, also the shape of the JSON form. */
  datatype TodoJson = TodoJson(id: Value, text: Value, completed: Value, createdAt: Value)

  datatype Todo = Todo(id: Value, text: string, completed: bool, createdAt: Value)

  /** The characters `String.prototype.trim` removes: white space and line
      terminators. */
  predicate IsSpace(c: char)
  {
    ('\U{9}' <= c <= '\U{D}') || c == '\U{20}' || c == '\U{A0}' || c == '\U{1680}' ||
    ('\U{2000}' <= c <= '\U{200A}') || c == '\U{2028}' || c == '\U{2029}' || c == '\U{202F}' ||
    c == '\U{205F}' || c == '\U{3000}' || c == '\U{FEFF}'
  }

  /** The index of the first character at or after `i` that is not white
      space, or `|s|`. */
  function SpaceEnd(s: string, i: nat): (n: nat)
    requires i <= |s|
    ensures i <= n <= |s| && (n == |s| || !IsSpace(s[n]))
    ensures forall k :: i <= k < n ==> IsSpace(s[k])
    decreases |s| - i
  {
    if i < |s| && IsSpace(s[i]) then SpaceEnd(s, i + 1) else i
  }

  /** The index just after the last character of `s[lo..j]` that is not
      white space, or `lo`. */
  function SpaceStart(s: string, lo: nat, j: nat): (n: nat)
    requires lo <= j <= |s|
    ensures lo <= n <= j && (n == lo || !IsSpace(s[n - 1]))
    ensures forall k :: n <= k < j ==> IsSpace(s[k])
    decreases j
  {
    if lo < j && IsSpace(s[j - 1]) then SpaceStart(s, lo, j - 1) else j
  }

  /** `text.trim()`: the text without its leading and trailing white space.
      Neither end of the result is white space, and the result is empty
      exactly when the text is all white space. */
  function Trim(s: string): (r: string)
    ensures |r| <= |s| && Tight(r)
    ensures r == [] <==> AllSpace(s)
  {
    var start := SpaceEnd(s, 0);
    var end := SpaceStart(s, start, |s|);
    assert start < end ==> s[start..end][0] == s[start] && s[start..end][end - start - 1] == s[end - 1];
    s[start..end]
  }

  predicate AllSpace(s: string)
  {
    forall k :: 0 <= k < |s| ==> IsSpace(s[k])
  }

  /** Neither end of `m` is white space. */
  predicate Tight(m: string)
  {
    m == [] || (!IsSpace(m[0]) && !IsSpace(m[|m| - 1]))
  }

  /** JavaScript's `length`: the number of UTF-16 code units, two for a
      character outside the Basic Multilingual Plane and one otherwise. */
  function Utf16Length(s: string): (n: nat)
    ensures |s| <= n <= 2 * |s|
    ensures (forall k :: 0 <= k < |s| ==> (s[k] as int) < 0x1_0000) ==> n == |s|
    decreases |s|
  {
    if s == [] then 0
    else (if (s[0] as int) < 0x1_0000 then 1 else 2) + Utf16Length(s[1..])
  }

  /** `_validateText`: a non-string or a trimmed text shorter than the minimum
      is empty; a trimmed text longer than the maximum is too long; otherwise
      the trimmed text is kept. Lengths are counted in UTF-16 code units. */
  function ValidateText(text: Value, limits: Limits): (r: Result<string, string>)
    ensures !text.Text? ==> r == Err(TextEmpty)
    ensures text.Text? && Utf16Length(Trim(text.s)) < limits.minLength ==> r == Err(TextEmpty)
    ensures text.Text? && limits.minLength <= Utf16Length(Trim(text.s)) && Utf16Length(Trim(text.s)) > limits.maxLength ==>
              r == Err(TextTooLong(limits))
    ensures r.Ok? <==> text.Text? && limits.minLength <= Utf16Length(Trim(text.s)) <= limits.maxLength
    ensures r.Ok? ==> r.value == Trim(text.s)
  {
    if !text.Text? then Err(TextEmpty)
    else
      var trimmed := Trim(text.s);
      if Utf16Length(trimmed) < limits.minLength then Err(TextEmpty)
      else if Utf16Length(trimmed) > limits.maxLength then Err(TextTooLong(limits))
      else Ok(trimmed)
  }

  /** What every constructed todo satisfies. */
  predicate Valid(t: Todo, limits: Limits)
  {
    Truthy(t.id) && Truthy(t.createdAt) && ValidateText(Text(t.text), limits) == Ok(t.text)
  }

  /** `new Todo({id, text, completed, createdAt})`: the text first, then the
      id (a falsy id takes the generated one), the flag coerced with
      `Boolean`, and the stamp (a falsy one takes the clock's). */
  function Make(json: TodoJson, limits: Limits, freshId: string, now: string): (r: Result<Todo, string>)
    requires freshId != "" && now != ""
    ensures r.Ok? <==> ValidateText(json.text, limits).Ok?
    ensures r.Err? ==> r.error == ValidateText(json.text, limits).error
    ensures r.Ok? ==> Valid(r.value, limits) && r.value.text == ValidateText(json.text, limits).value
    ensures r.Ok? ==> r.value.id == (if Truthy(json.id) then json.id else Text(freshId))
    ensures r.Ok? ==> r.value.completed == Truthy(json.completed)
    ensures r.Ok? ==> r.value.createdAt == (if Truthy(json.createdAt) then json.createdAt else Text(now))
  {
    var text := ValidateText(json.text, limits);
    if text.Err? then Err(text.error)
    else
      TrimTwice(json.text.s);
      Ok(Todo(if Truthy(json.id) then json.id else Text(freshId),
              text.value,
              Truthy(json.completed),
              if Truthy(json.createdAt) then json.createdAt else Text(now)))
  }

  /** `complete()`: the flag is set and nothing else changes; an already
      completed todo is returned as it is. */
  function Complete(t: Todo): (r: Todo)
    ensures r.completed && r.id == t.id && r.text == t.text && r.createdAt == t.createdAt
    ensures t.completed ==> r == t
  {
    if t.completed then t else t.(completed := true)
  }

  /** `uncomplete()`: the flag is cleared and nothing else changes; an active
      todo is returned as it is. */
  function Uncomplete(t: Todo): (r: Todo)
    ensures !r.completed && r.id == t.id && r.text == t.text && r.createdAt == t.createdAt
    ensures !t.completed ==> r == t
  {
    if !t.completed then t else t.(completed := false)
  }

  /** `toggle()`: the flag flips and nothing else changes. */
  function Toggle(t: Todo): (r: Todo)
    ensures r.completed == !t.completed && r.id == t.id && r.text == t.text && r.createdAt == t.createdAt
  {
    if t.completed then Uncomplete(t) else Complete(t)
  }

  /** `editText(newText)`: the new text is validated; everything else stays. */
  function EditText(t: Todo, newText: Value, limits: Limits): (r: Result<Todo, string>)
    ensures r.Ok? <==> ValidateText(newText, limits).Ok?
    ensures r.Err? ==> r.error == ValidateText(newText, limits).error
    ensures r.Ok? ==> r.value == Todo(t.id, Trim(newText.s), t.completed, t.createdAt)
  {
    var text := ValidateText(newText, limits);
    if text.Err? then Err(text.error) else Ok(t.(text := text.value))
  }

  /** `toJSON()`: a JSON form with a string text and a boolean flag, which
      decodes to the todo. */
  function ToJson(t: Todo): (j: TodoJson)
    ensures j.text.Text? && j.completed.Bool? && Decode(j) == t
  {
    TodoJson(t.id, Text(t.text), Bool(t.completed), t.createdAt)
  }

  /** `Todo.fromJSON(json)`: the constructor over the JSON fields. */
  function FromJson(json: TodoJson, limits: Limits, freshId: string, now: string): (r: Result<Todo, string>)
    requires freshId != "" && now != ""
    ensures r.Ok? <==> ValidateText(json.text, limits).Ok?
    ensures r.Err? ==> r.error == ValidateText(json.text, limits).error
    ensures r.Ok? && Truthy(json.id) && Truthy(json.createdAt) ==> r.value.id == json.id && r.value.createdAt == json.createdAt
    ensures JsonValid(json, limits) ==> r == Ok(Decode(json))
  {
    if JsonValid(json, limits) then
      RebuildKeeps(Decode(json), limits, json.completed.b, freshId, now);
      Make(json, limits, freshId, now)
    else Make(json, limits, freshId, now)
  }

  /** The todo a well-formed JSON form stands for, read field by field. */
  function Decode(j: TodoJson): Todo
    requires j.text.Text? && j.completed.Bool?
  {
    Todo(j.id, j.text.s, j.completed.b, j.createdAt)
  }

  /** The JSON form of a valid todo: what `toJSON` produces and `fromJSON`
      reads back without consulting the id generator or the clock. */
  predicate JsonValid(j: TodoJson, limits: Limits)
  {
    j.text.Text? && j.completed.Bool? && Valid(Decode(j), limits)
  }

  // Properties of trimming.

  /** The trimmed text sits between a run of leading and a run of trailing
      white space that together with it make up the original, and neither
      of its ends is white space. */
  lemma TrimShape(s: string)
    ensures var start := SpaceEnd(s, 0); var end := start + |Trim(s)|;
      end <= |s| && s == s[..start] + Trim(s) + s[end..] && AllSpace(s[..start]) && AllSpace(s[end..])
    ensures Tight(Trim(s))
  {
    var start := SpaceEnd(s, 0);
    var end := SpaceStart(s, start, |s|);
    assert Trim(s) == s[start..end];
    ShapeAt(s, start, end);
  }

  /** The three parts of `s` cut at `start` and `end`, when both outer parts
      are white space and the middle part starts and ends with something
      else. */
  lemma ShapeAt(s: string, start: nat, end: nat)
    requires start <= end <= |s|
    requires forall k :: 0 <= k < start ==> IsSpace(s[k])
    requires forall k :: end <= k < |s| ==> IsSpace(s[k])
    requires start < end ==> !IsSpace(s[start]) && !IsSpace(s[end - 1])
    ensures s == s[..start] + s[start..end] + s[end..]
    ensures AllSpace(s[..start]) && AllSpace(s[end..]) && Tight(s[start..end])
  {
    SplitThree(s, start, end);
    forall k | 0 <= k < start ensures IsSpace(s[..start][k]) {
      assert s[..start][k] == s[k];
    }
    forall k | 0 <= k < |s| - end ensures IsSpace(s[end..][k]) {
      assert s[end..][k] == s[end + k];
    }
    if start < end {
      var m := s[start..end];
      assert m[0] == s[start];
      assert m[|m| - 1] == s[end - 1];
    }
  }

  lemma SplitThree<T>(s: seq<T>, i: nat, j: nat)
    requires i <= j <= |s|
    ensures s == s[..i] + s[i..j] + s[j..]
  {
  }

  /** `SpaceEnd` stops at the first character from `i` on that is not white
      space. */
  lemma {:induction false} SpaceEndAt(s: string, i: nat, n: nat)
    requires i <= n <= |s| && (n == |s| || !IsSpace(s[n]))
    requires forall k :: i <= k < n ==> IsSpace(s[k])
    ensures SpaceEnd(s, i) == n
    decreases n - i
  {
    if i < n {
      SpaceEndAt(s, i + 1, n);
    }
  }

  /** `SpaceStart` stops after the last character before `j` that is not
      white space. */
  lemma {:induction false} SpaceStartAt(s: string, lo: nat, j: nat, n: nat)
    requires lo <= n <= j <= |s| && (n == lo || !IsSpace(s[n - 1]))
    requires forall k :: n <= k < j ==> IsSpace(s[k])
    ensures SpaceStart(s, lo, j) == n
    decreases j - n
  {
    if n < j {
      SpaceStartAt(s, lo, j - 1, n);
    }
  }

  /** Trimming is characterised by its shape: white space, then a text
      whose ends are not white space, then white space trims to that text. */
  lemma TrimUnique(p: string, m: string, q: string)
    requires AllSpace(p) && AllSpace(q) && Tight(m)
    ensures Trim(p + m + q) == m
  {
    var s := p + m + q;
    forall k | 0 <= k < |p| ensures IsSpace(s[k]) {
      assert s[k] == p[k];
    }
    forall k | |p| + |m| <= k < |s| ensures IsSpace(s[k]) {
      assert s[k] == q[k - |p| - |m|];
    }
    if m == [] {
      SpaceEndAt(s, 0, |s|);
      SpaceStartAt(s, |s|, |s|, |s|);
      assert s[|s|..|s|] == m;
    } else {
      assert s[|p|] == m[0] && s[|p| + |m| - 1] == m[|m| - 1];
      SpaceEndAt(s, 0, |p|);
      SpaceStartAt(s, |p|, |s|, |p| + |m|);
      assert s[|p|..|p| + |m|] == m;
    }
  }

  /** Trimming a trimmed text changes nothing. */
  lemma TrimTwice(s: string)
    ensures Trim(Trim(s)) == Trim(s)
  {
    TrimShape(s);
    TrimUnique([], Trim(s), []);
    assert [] + Trim(s) + [] == Trim(s);
  }

  // Properties of the todo.

  /** A valid todo is rebuilt unchanged by the constructor with any flag
      value: the text passes validation again and the id and stamp are kept. */
  lemma RebuildKeeps(t: Todo, limits: Limits, completed: bool, freshId: string, now: string)
    requires Valid(t, limits) && freshId != "" && now != ""
    ensures Make(TodoJson(t.id, Text(t.text), Bool(completed), t.createdAt), limits, freshId, now) ==
              Ok(t.(completed := completed))
  {
  }

  /** `complete` and `uncomplete` return the same todo when the flag already
      has the wanted value, and otherwise change only the flag, just as
      rebuilding with the constructor does. */
  lemma CompleteUncomplete(t: Todo, limits: Limits, freshId: string, now: string)
    requires Valid(t, limits) && freshId != "" && now != ""
    ensures t.completed ==> Complete(t) == t
    ensures !t.completed ==> Uncomplete(t) == t
    ensures Complete(t).completed && !Uncomplete(t).completed
    ensures !t.completed ==> Ok(Complete(t)) == Make(TodoJson(t.id, Text(t.text), Bool(true), t.createdAt), limits, freshId, now)
    ensures t.completed ==> Ok(Uncomplete(t)) == Make(TodoJson(t.id, Text(t.text), Bool(false), t.createdAt), limits, freshId, now)
  {
    RebuildKeeps(t, limits, true, freshId, now);
    RebuildKeeps(t, limits, false, freshId, now);
  }

  /** `toggle` flips the flag and keeps id, text and stamp; toggling twice
      gives the original back. */
  lemma ToggleFlips(t: Todo, limits: Limits)
    requires Valid(t, limits)
    ensures Toggle(t).completed == !t.completed
    ensures Toggle(t).id == t.id && Toggle(t).text == t.text && Toggle(t).createdAt == t.createdAt
    ensures Valid(Toggle(t), limits)
    ensures Toggle(Toggle(t)) == t
  {
  }

  /** An edit keeps the todo valid. */
  lemma EditKeepsValid(t: Todo, newText: Value, limits: Limits)
    requires Valid(t, limits) && EditText(t, newText, limits).Ok?
    ensures Valid(EditText(t, newText, limits).value, limits)
  {
    TrimmedStaysValid(newText.s, limits);
  }

  /** A text that passes validation passes again once trimmed, unchanged. */
  lemma TrimmedStaysValid(s: string, limits: Limits)
    requires ValidateText(Text(s), limits).Ok?
    ensures ValidateText(Text(Trim(s)), limits) == Ok(Trim(s))
  {
    TrimTwice(s);
  }

  /** A todo survives its JSON form: all four fields come back. */
  lemma JsonRoundTrip(t: Todo, limits: Limits, freshId: string, now: string)
    requires Valid(t, limits) && freshId != "" && now != ""
    ensures FromJson(ToJson(t), limits, freshId, now) == Ok(t)
  {
    RebuildKeeps(t, limits, t.completed, freshId, now);
  }

  /** A valid todo's JSON form is valid and decodes to the todo. */
  lemma ToJsonValid(t: Todo, limits: Limits)
    requires Valid(t, limits)
    ensures JsonValid(ToJson(t), limits) && Decode(ToJson(t)) == t
  {
  }

  /** `fromJSON` on a valid JSON form is its decoding, and `toJSON` gives the
      form back. */
  lemma FromValidJson(j: TodoJson, limits: Limits, freshId: string, now: string)
    requires JsonValid(j, limits) && freshId != "" && now != ""
    ensures FromJson(j, limits, freshId, now) == Ok(Decode(j))
    ensures ToJson(Decode(j)) == j
  {
    JsonRoundTrip(Decode(j), limits, freshId, now);
  }

  /** A rejected text makes the constructor fail whatever the id generator
      and the clock would give: they are consulted only after validation. */
  lemma RejectedTextIgnoresGenerator(json: TodoJson, limits: Limits, id1: string, id2: string, now1: string, now2: string)
    requires id1 != "" && id2 != "" && now1 != "" && now2 != ""
    requires ValidateText(json.text, limits).Err?
    ensures Make(json, limits, id1, now1) == Make(json, limits, id2, now2)
  {
  }

  /** `Boolean(completed)`: truthy values complete the todo. */
  lemma CompletedCoerced(json: TodoJson, limits: Limits, freshId: string, now: string)
    requires freshId != "" && now != "" && ValidateText(json.text, limits).Ok?
    ensures Make(json, limits, freshId, now).value.completed <==> Truthy(json.completed)
  {
  }
}
