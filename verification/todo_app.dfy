/**
 * The in-memory todo store and the four /api/todos routes. The store is an
 * ordered list of records plus the next id to hand out; POST and PUT run
 * their validator first, exactly as the routes mount them, and PUT and
 * DELETE find their record with a linear scan.
 */
module TodoApp {
  import opened Wrappers
  import opened JsValues
  import opened Validation

  /** A stored todo. `createdAt` is the creation instant as an ISO-8601 string. */
  datatype Todo = Todo(
    id: int,
    title: JsString,
    description: JsString,
    completed: bool,
    createdAt: string)

  const NOT_FOUND: string := "Todo not found"

  /** The answer a route sends. */
  datatype Response =
    | Listed(todos: seq<Todo>)
    | Created(todo: Todo)
    | Updated(todo: Todo)
    | Deleted
    | BadRequest(error: string, details: seq<string>)
    | NotFound(error: string)
  {
    function Status(): int
    {
      match this
      case Listed(_) => 200
      case Created(_) => 201
      case Updated(_) => 200
      case Deleted => 204
      case BadRequest(_, _) => 400
      case NotFound(_) => 404
    }
  }

  // ---------------------------------------------------------------------
  // Invariants of the stored list

  /**
   * Ids strictly increase along the list, and every id lies in
   * [1, nextId); in particular no two records share an id.
   */
  ghost predicate IdsOrdered(todos: seq<Todo>, nextId: int)
  {
    && 1 <= nextId
    && (forall i, j :: 0 <= i < j < |todos| ==> todos[i].id < todos[j].id)
    && (forall i :: 0 <= i < |todos| ==> 1 <= todos[i].id < nextId)
  }

  /**
   * The field limits the validators guarantee for a stored record: the
   * title is not all white space (so its trim is not empty) and has at most
   * 100 code units, the description at most 500.
   */
  ghost predicate WellFormed(t: Todo)
  {
    && !AllWhiteSpace(t.title)
    && |t.title| <= MAX_TITLE_LENGTH
    && |t.description| <= MAX_DESCRIPTION_LENGTH
  }

  ghost predicate AllWellFormed(todos: seq<Todo>)
  {
    forall i :: 0 <= i < |todos| ==> WellFormed(todos[i])
  }

  // ---------------------------------------------------------------------
  // Lookup: `todos.findIndex(todo => todo.id === id)`

  /**
   * The position of the first record whose id is `id`, or -1. A `None` id
   * stands for the NaN that `parseInt` gives for a non-numeric path
   * segment; it equals no id.
   */
  function IndexOf(todos: seq<Todo>, id: Option<int>): (r: int)
    ensures -1 <= r < |todos|
    ensures r == -1 <==> forall k :: 0 <= k < |todos| ==> Some(todos[k].id) != id
    ensures 0 <= r ==> Some(todos[r].id) == id
    ensures 0 <= r ==> forall k :: 0 <= k < r ==> Some(todos[k].id) != id
  {
    if todos == [] then -1
    else if Some(todos[0].id) == id then 0
    else
      var r := IndexOf(todos[1..], id);
      if r == -1 then -1 else r + 1
  }

  /** The linear scan the PUT and DELETE routes run. */
  method FindIndex(todos: seq<Todo>, id: Option<int>) returns (index: int)
    ensures index == IndexOf(todos, id)
  {
    index := 0;
    while index < |todos|
      invariant 0 <= index <= |todos|
      invariant forall k :: 0 <= k < index ==> Some(todos[k].id) != id
    {
      if Some(todos[index].id) == id {
        return;
      }
      index := index + 1;
    }
    index := -1;
  }

  /** With ids in order, the record with a given id is the one IndexOf finds. */
  lemma IndexOfUnique(todos: seq<Todo>, nextId: int, k: int)
    requires IdsOrdered(todos, nextId) && 0 <= k < |todos|
    ensures IndexOf(todos, Some(todos[k].id)) == k
  {
  }

  // ---------------------------------------------------------------------
  // What each handler does to one record or to the list

  /**
   * The record POST builds for an accepted body: the title trimmed, the
   * description trimmed when it is a non-empty string and "" otherwise,
   * not completed.
   */
  function NewTodo(id: int, body: CreateBody, createdAt: string): (t: Todo)
    requires ValidateCreate(body) == []
    ensures body.title.Str? && t.title == Trim(body.title.s)
    ensures t.id == id && !t.completed && t.createdAt == createdAt
    ensures t.description == if body.description.Str? then Trim(body.description.s) else []
    ensures WellFormed(t)
  {
    assert CreateTitleErrors(body.title) == [] && DescriptionErrors(body.description) == [];
    TrimIsMiddle(body.title.s);
    var description := if Truthy(body.description) then Trim(body.description.s) else [];
    Todo(id, Trim(body.title.s), description, false, createdAt)
  }

  /**
   * The record after PUT: each field present in the body overwrites the
   * stored one as sent, without trimming; the id, `createdAt` and every
   * absent field stay as they were.
   */
  function ApplyUpdate(t: Todo, body: UpdateBody): (u: Todo)
    requires ValidateUpdate(body) == []
    ensures !body.title.Absent? ==> body.title.Str?
    ensures !body.description.Absent? ==> body.description.Str?
    ensures !body.completed.Absent? ==> body.completed.Bool?
    ensures u.id == t.id && u.createdAt == t.createdAt
    ensures u.title == if body.title.Absent? then t.title else body.title.s
    ensures u.description == if body.description.Absent? then t.description else body.description.s
    ensures u.completed == if body.completed.Absent? then t.completed else body.completed.b
    ensures WellFormed(t) ==> WellFormed(u)
  {
    assert UpdateTitleErrors(body.title) == [] && DescriptionErrors(body.description) == [];
    assert CompletedErrors(body.completed) == [];
    StringTitleAccepts(body.title);
    var t1 := if body.title.Str? then t.(title := body.title.s) else t;
    var t2 := if body.description.Str? then t1.(description := body.description.s) else t1;
    if body.completed.Bool? then t2.(completed := body.completed.b) else t2
  }

  /** `todos.splice(index, 1)`: the list without position `index`, the rest in order. */
  function RemoveAt(todos: seq<Todo>, index: nat): (r: seq<Todo>)
    requires index < |todos|
    ensures |r| == |todos| - 1
    ensures forall k :: 0 <= k < index ==> r[k] == todos[k]
    ensures forall k :: index <= k < |r| ==> r[k] == todos[k + 1]
  {
    todos[..index] + todos[index + 1..]
  }

  // ---------------------------------------------------------------------
  // Each mutation keeps the invariants

  /** Appending a record with id `nextId` and then advancing `nextId` keeps ids ordered. */
  lemma AppendKeepsIds(todos: seq<Todo>, nextId: int, t: Todo)
    requires IdsOrdered(todos, nextId) && t.id == nextId
    ensures IdsOrdered(todos + [t], nextId + 1)
  {
    var s := todos + [t];
    forall i, j | 0 <= i < j < |s| ensures s[i].id < s[j].id {
      if j == |todos| {
        assert s[i] == todos[i];
      }
    }
  }

  /**
   * Appending a well-formed record with id `nextId` keeps both invariants,
   * and the new id is above every id already stored.
   */
  lemma AppendKeepsInvariants(todos: seq<Todo>, nextId: int, t: Todo)
    requires IdsOrdered(todos, nextId) && AllWellFormed(todos)
    requires t.id == nextId && WellFormed(t)
    ensures IdsOrdered(todos + [t], nextId + 1) && AllWellFormed(todos + [t])
    ensures forall u :: u in todos ==> u.id < t.id
  {
    AppendKeepsIds(todos, nextId, t);
    var s := todos + [t];
    forall i | 0 <= i < |s| ensures WellFormed(s[i]) {
      if i < |todos| {
        assert s[i] == todos[i];
      }
    }
  }

  /** Replacing a record by one with the same id keeps ids ordered. */
  lemma ReplaceKeepsIds(todos: seq<Todo>, nextId: int, index: nat, u: Todo)
    requires IdsOrdered(todos, nextId) && index < |todos| && u.id == todos[index].id
    ensures IdsOrdered(todos[index := u], nextId)
  {
  }

  /** Removing a record keeps ids ordered. */
  lemma RemoveKeepsIds(todos: seq<Todo>, nextId: int, index: nat)
    requires IdsOrdered(todos, nextId) && index < |todos|
    ensures IdsOrdered(RemoveAt(todos, index), nextId)
  {
    var r := RemoveAt(todos, index);
    forall i, j | 0 <= i < j < |r| ensures r[i].id < r[j].id {
      var i' := if i < index then i else i + 1;
      var j' := if j < index then j else j + 1;
      assert r[i] == todos[i'] && r[j] == todos[j'];
    }
  }

  /**
   * Removing the record at `index` removes exactly the records with its id:
   * that id is no longer found, and every other record is still there.
   */
  lemma RemoveDropsOnlyTarget(todos: seq<Todo>, nextId: int, index: nat)
    requires IdsOrdered(todos, nextId) && index < |todos|
    ensures IndexOf(RemoveAt(todos, index), Some(todos[index].id)) == -1
    ensures forall t :: t in RemoveAt(todos, index) <==> t in todos && t.id != todos[index].id
  {
    var r := RemoveAt(todos, index);
    forall t | t in todos && t.id != todos[index].id ensures t in r {
      var k :| 0 <= k < |todos| && todos[k] == t;
      if k < index {
        assert r[k] == t;
      } else {
        assert r[k - 1] == t;
      }
    }
  }

  // ---------------------------------------------------------------------
  // The store

  class TodoStore {
    var todos: seq<Todo>
    var nextId: int

    ghost predicate Valid()
      reads this
    {
      IdsOrdered(todos, nextId) && AllWellFormed(todos)
    }

    /** The store at start-up: no records, first id 1. */
    constructor ()
      ensures Valid() && todos == [] && nextId == 1
    {
      todos := [];
      nextId := 1;
    }

    /** GET /api/todos: the list as it is, in insertion order. */
    method List() returns (resp: Response)
      ensures resp == Listed(todos) && resp.Status() == 200
    {
      resp := Listed(todos);
    }

    /** POST /api/todos, behind validateCreateTodo. */
    method Post(body: CreateBody, createdAt: string) returns (resp: Response)
      requires Valid()
      modifies this
      ensures Valid()
      ensures ValidateCreate(body) != [] ==>
        && resp == BadRequest(VALIDATION_FAILED, Details(ValidateCreate(body)))
        && todos == old(todos) && nextId == old(nextId)
      ensures ValidateCreate(body) == [] ==>
        && resp == Created(NewTodo(old(nextId), body, createdAt))
        && todos == old(todos) + [resp.todo]
        && nextId == old(nextId) + 1
        && forall t :: t in old(todos) ==> t.id < resp.todo.id
    {
      var errs := ValidateCreate(body);
      var verdict := Gate(errs);
      if verdict.Reject? {
        return BadRequest(verdict.error, verdict.details);
      }
      var todo := NewTodo(nextId, body, createdAt);
      AppendKeepsInvariants(todos, nextId, todo);
      nextId := nextId + 1;
      todos := todos + [todo];
      resp := Created(todo);
    }

    /** PUT /api/todos/:id, behind validateUpdateTodo. */
    method Put(id: Option<int>, body: UpdateBody) returns (resp: Response)
      requires Valid()
      modifies this
      ensures Valid() && nextId == old(nextId)
      ensures ValidateUpdate(body) != [] ==>
        && resp == BadRequest(VALIDATION_FAILED, Details(ValidateUpdate(body)))
        && todos == old(todos)
      ensures ValidateUpdate(body) == [] && IndexOf(old(todos), id) == -1 ==>
        resp == NotFound(NOT_FOUND) && todos == old(todos)
      ensures ValidateUpdate(body) == [] && IndexOf(old(todos), id) != -1 ==>
        var index := IndexOf(old(todos), id);
        && todos == old(todos)[index := ApplyUpdate(old(todos)[index], body)]
        && resp == Updated(todos[index])
    {
      var errs := ValidateUpdate(body);
      var verdict := Gate(errs);
      if verdict.Reject? {
        return BadRequest(verdict.error, verdict.details);
      }
      var index := FindIndex(todos, id);
      if index == -1 {
        return NotFound(NOT_FOUND);
      }
      var updated := ApplyUpdate(todos[index], body);
      ReplaceKeepsIds(todos, nextId, index, updated);
      todos := todos[index := updated];
      resp := Updated(todos[index]);
    }

    /** DELETE /api/todos/:id. */
    method Delete(id: Option<int>) returns (resp: Response)
      requires Valid()
      modifies this
      ensures Valid() && nextId == old(nextId)
      ensures IndexOf(old(todos), id) == -1 ==> resp == NotFound(NOT_FOUND) && todos == old(todos)
      ensures IndexOf(old(todos), id) != -1 ==>
        && resp == Deleted
        && todos == RemoveAt(old(todos), IndexOf(old(todos), id))
        && IndexOf(todos, id) == -1
    {
      var index := FindIndex(todos, id);
      if index == -1 {
        return NotFound(NOT_FOUND);
      }
      RemoveKeepsIds(todos, nextId, index);
      RemoveDropsOnlyTarget(todos, nextId, index);
      todos := RemoveAt(todos, index);
      resp := Deleted;
    }
  }

  // ---------------------------------------------------------------------
  // Client request sequences, concluded from the contracts alone: some
  // from the test suites (a missing or blank title, an empty PUT body, a
  // string `completed`, a create then list), and a PUT to an unknown id and
  // a repeated DELETE

  /** Rejected POSTs: a missing title and a blank one; the store stays as it was. */
  method RejectedCreates(store: TodoStore, createdAt: string)
    requires store.Valid()
    modifies store
  {
    ghost var before := store.todos;
    var resp := store.Post(CreateBody(Absent, Str([0x64])), createdAt);
    assert ValidateCreate(CreateBody(Absent, Str([0x64]))) == [TitleRequired];
    assert resp == BadRequest(VALIDATION_FAILED, [TitleRequired.Text()]);

    var blank: JsString := [0x20, 0x20, 0x20];
    assert AllWhiteSpace(blank);
    resp := store.Post(CreateBody(Str(blank), Absent), createdAt);
    assert resp == BadRequest(VALIDATION_FAILED, [TitleBlank.Text()]);
    assert store.todos == before;
  }

  /** Rejected PUTs: an empty body and a string `completed`; the store stays as it was. */
  method RejectedUpdates(store: TodoStore)
    requires store.Valid()
    modifies store
  {
    ghost var before := store.todos;
    var resp := store.Put(Some(1), UpdateBody(Absent, Absent, Absent));
    assert resp == BadRequest(VALIDATION_FAILED, [NothingToUpdate.Text()]);
    resp := store.Put(Some(1), UpdateBody(Absent, Absent, Str([0x74, 0x72, 0x75, 0x65])));
    assert resp == BadRequest(VALIDATION_FAILED, [CompletedNotBoolean.Text()]);
    assert store.todos == before;
  }

  /**
   * POST with a title that does not start with white space and no
   * description, on a fresh store: id 1, empty description, not completed,
   * listed.
   */
  method FirstRecord(title: JsString, createdAt: string)
    requires 0 < |title| <= MAX_TITLE_LENGTH && !IsWhiteSpace(title[0])
  {
    var store := new TodoStore();
    var body := CreateBody(Str(title), Absent);
    assert !AllWhiteSpace(title);
    CreateAcceptsExactly(body);
    assert ValidateCreate(body) == [];
    var resp := store.Post(body, createdAt);
    assert resp.Created?;
    ghost var rec := resp.todo;
    assert store.todos == [rec];
    assert rec.id == 1 && rec.description == [] && !rec.completed;
    var listed := store.List();
    assert listed == Listed([rec]);
  }

  /** PUT to an unknown id, PUT to record 1, then DELETE it twice. */
  method UpdateThenDeleteTwice(store: TodoStore)
    requires store.Valid() && |store.todos| == 1 && store.todos[0].id == 1
    modifies store
  {
    var resp := store.Put(Some(999), UpdateBody(Absent, Absent, Bool(true)));
    assert resp.Status() == 404;
    resp := store.Put(Some(1), UpdateBody(Absent, Absent, Bool(true)));
    assert resp.Status() == 200 && resp.todo.completed && resp.todo.id == 1;
    resp := store.Delete(Some(1));
    assert resp.Status() == 204;
    resp := store.Delete(Some(1));
    assert resp.Status() == 404;
    var listed := store.List();
    assert listed == Listed([]);
  }
}
