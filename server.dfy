/**
 * The `/todos` routes of server/server.js over the todos collection: a map
 * from id to record plus the collection's natural (insertion) order. Every
 * handler answers with a status and, on success, the record(s) it sends.
 *
 * As written, no route runs `authenticate` and no route filters on
 * `_creator`: every caller sees and changes every todo.
 */
module Server {
  import opened Wrappers
  import opened Json
  import opened Todos
  import Strings

  /** `req.body[key]`; `None` where the body has no such property. */
  function Field(body: Object, key: string): (r: Option<Value>)
    ensures r.Some? <==> key in body
    ensures r.Some? ==> r.value == body[key]
  {
    if key in body then Some(body[key]) else None
  }

  // ---------------------------------------------------------------- PATCH body

  /**
   * The update a PATCH sends: `text` and `completed` picked from the request
   * body, then `completed` forced to a boolean and `completedAt` derived from
   * it (the current time when `completed` is `true`, null otherwise).
   */
  function Normalised(body: Object, now: int): (r: Object)
    ensures r.Keys == (body.Keys * {"text"}) + {"completed", "completedAt"}
    ensures "text" in r ==> r["text"] == body["text"]
    ensures IsTrue(body, "completed") ==> r["completed"] == Bool(true) && r["completedAt"] == Num(now)
    ensures !IsTrue(body, "completed") ==> r["completed"] == Bool(false) && r["completedAt"] == Null
  {
    var picked := Pick(body, {"text", "completed"});
    if IsTrue(picked, "completed") then picked["completedAt" := Num(now)]
    else picked["completed" := Bool(false)]["completedAt" := Null]
  }

  /** Only `text` and `completed` of the request body matter; anything else, `completedAt` included, is dropped. */
  lemma OnlyTextAndCompletedMatter(a: Object, b: Object, now: int)
    requires Field(a, "text") == Field(b, "text")
    requires Field(a, "completed") == Field(b, "completed")
    ensures Normalised(a, now) == Normalised(b, now)
  {
    var ra, rb := Normalised(a, now), Normalised(b, now);
    assert ra.Keys == rb.Keys;
    forall k | k in ra ensures ra[k] == rb[k] {
      if k == "text" {
        assert Field(a, "text") == Some(a["text"]);
      }
    }
  }

  /** The shape of every update `Normalised` produces. */
  predicate UpdateShape(u: Object) {
    && ("completed" in u ==> u["completed"].Bool?)
    && ("completedAt" in u ==> u["completedAt"].Num? || u["completedAt"] == Null)
  }

  /**
   * The update's `text` fails the schema's `String` cast. Mongoose casts an
   * update before it sends the query, so such an update is refused whether
   * or not the id is stored.
   */
  predicate CastRefuses(u: Object) {
    "text" in u && CastToString(u["text"]).CastError?
  }

  /**
   * `{$set: u}` on one record, with the schema's `String` cast of `text`
   * (no setters or validators run on an update). A cast failure refuses
   * the update.
   */
  function ApplySet(t: Todo, u: Object): (r: Option<Todo>)
    requires UpdateShape(u)
    ensures r.None? <==> CastRefuses(u)
    ensures r.Some? ==> r.value.id == t.id && r.value.creator == t.creator
    ensures r.Some? && "text" !in u ==> r.value.text == t.text
    ensures r.Some? && "text" in u && CastToString(u["text"]).Text? ==> r.value.text == Some(CastToString(u["text"]).s)
    ensures r.Some? && "text" in u && u["text"] == Null ==> r.value.text == None
    ensures r.Some? && "completed" in u ==> r.value.completed == u["completed"].b
    ensures r.Some? && "completed" !in u ==> r.value.completed == t.completed
    ensures r.Some? && "completedAt" !in u ==> r.value.completedAt == t.completedAt
    ensures r.Some? && "completedAt" in u && u["completedAt"].Num? ==> r.value.completedAt == Some(u["completedAt"].n)
    ensures r.Some? && "completedAt" in u && u["completedAt"] == Null ==> r.value.completedAt == None
  {
    var text :=
      if "text" !in u then Some(t.text)
      else match CastToString(u["text"])
        case Text(s) => Some(Some(s))
        case Unset => Some(None)
        case CastError => None;
    if text.None? then None
    else
      Some(t.(
        text := text.value,
        completed := if "completed" in u then u["completed"].b else t.completed,
        completedAt :=
          if "completedAt" !in u then t.completedAt
          else if u["completedAt"].Num? then Some(u["completedAt"].n)
          else None))
  }

  /**
   * What a PATCH stores: `completedAt` is the current time exactly when the
   * body's `completed` is the boolean `true`, and null otherwise; id and owner
   * are kept; text is replaced only when the body has one.
   */
  lemma PatchOutcome(t: Todo, body: Object, now: int)
    ensures UpdateShape(Normalised(body, now))
    ensures var r := ApplySet(t, Normalised(body, now));
            && (r.None? <==> "text" in body && CastToString(body["text"]).CastError?)
            && (r.Some? ==>
                  && r.value.id == t.id && r.value.creator == t.creator
                  && r.value.completed == IsTrue(body, "completed")
                  && r.value.completedAt == (if IsTrue(body, "completed") then Some(now) else None)
                  && ("text" !in body ==> r.value.text == t.text)
                  && ("text" in body && body["text"].Str? ==> r.value.text == Some(body["text"].s))
                  && ("text" in body && body["text"].Num? ==> r.value.text == Some(Strings.Decimal(body["text"].n)))
                  && ("text" in body && body["text"].Bool? ==> r.value.text == Some(if body["text"].b then "true" else "false"))
                  && ("text" in body && body["text"] == Null ==> r.value.text == None)
                  && ("text" in body && body["text"].Obj? && HasStringId(body["text"].fields) ==>
                        r.value.text == Some(body["text"].fields["_id"].s)))
  {
    var u := Normalised(body, now);
    assert UpdateShape(u);
    assert "text" in u <==> "text" in body;
  }

  /**
   * A PATCH is refused by the cast exactly when the body's `text` is an array
   * or an object without a non-empty string `_id`.
   */
  lemma PatchCastRefusesIff(body: Object, now: int)
    ensures CastRefuses(Normalised(body, now)) <==>
              "text" in body && (body["text"].Arr? || (body["text"].Obj? && !HasStringId(body["text"].fields)))
  {
    assert "text" in Normalised(body, now) <==> "text" in body;
  }

  /** An update does not re-validate: a PATCH can store an empty text. */
  lemma EmptyTextPatchAccepted(t: Todo, now: int)
    ensures var r := ApplySet(t, Normalised(map["text" := Str("")], now));
            r.Some? && r.value.text == Some("") && !Valid(r.value)
  {
    var u := Normalised(map["text" := Str("")], now);
    assert u["text"] == Str("");
  }

  // ---------------------------------------------------------------- id order

  predicate Distinct(s: seq<Id>) {
    forall i, j :: 0 <= i < j < |s| ==> s[i] != s[j]
  }

  /** A distinct sequence has as many elements as its set. */
  lemma {:induction false} DistinctSize(s: seq<Id>)
    requires Distinct(s)
    ensures |set x | x in s| == |s|
  {
    if s != [] {
      DistinctSize(s[1..]);
      assert (set x | x in s) == {s[0]} + (set x | x in s[1..]);
      assert s[0] !in (set x | x in s[1..]);
    }
  }

  /** `s` with `x` removed, the rest in their order. */
  function Without(s: seq<Id>, x: Id): (r: seq<Id>)
    ensures forall y :: y in r <==> y in s && y != x
    ensures |r| <= |s|
    ensures x !in s ==> r == s
  {
    if s == [] then []
    else if s[0] == x then Without(s[1..], x)
    else [s[0]] + Without(s[1..], x)
  }

  /** Removing an id from a distinct sequence keeps it distinct and one shorter. */
  lemma {:induction false} WithoutDistinct(s: seq<Id>, x: Id)
    requires Distinct(s)
    ensures Distinct(Without(s, x))
    ensures x in s ==> |Without(s, x)| == |s| - 1
  {
    if s != [] {
      WithoutDistinct(s[1..], x);
      if s[0] != x {
        assert s[0] !in s[1..];
        var r := Without(s, x);
        assert r == [s[0]] + Without(s[1..], x);
        forall i, j | 0 <= i < j < |r| ensures r[i] != r[j] {
          if i == 0 {
            assert r[j] in Without(s[1..], x);
          } else {
            assert r[i] == Without(s[1..], x)[i - 1];
            assert r[j] == Without(s[1..], x)[j - 1];
          }
        }
      } else {
        assert x !in s[1..];
      }
    }
  }

  /** Each record sits under its own id, and the order lists every id once. */
  ghost predicate Consistent(todos: map<Id, Todo>, order: seq<Id>) {
    && (forall k :: k in todos ==> todos[k].id == k)
    && Distinct(order)
    && (forall i :: 0 <= i < |order| ==> order[i] in todos)
    && (forall k :: k in todos ==> k in order)
  }

  lemma InsertConsistent(todos: map<Id, Todo>, order: seq<Id>, doc: Todo)
    requires Consistent(todos, order) && doc.id !in todos
    ensures Consistent(todos[doc.id := doc], order + [doc.id])
  {
    var o := order + [doc.id];
    forall i, j | 0 <= i < j < |o| ensures o[i] != o[j] {
      if j == |order| { assert o[i] == order[i]; }
    }
  }

  lemma RemoveConsistent(todos: map<Id, Todo>, order: seq<Id>, id: Id)
    requires Consistent(todos, order)
    ensures Consistent(todos - {id}, Without(order, id))
  {
    WithoutDistinct(order, id);
    var o := Without(order, id);
    forall i | 0 <= i < |o| ensures o[i] in todos - {id} {
      assert o[i] in o;
    }
  }

  // ---------------------------------------------------------------- handlers

  /** The todos collection and the five `/todos` routes. */
  class TodoServer {
    var todos: map<Id, Todo>
    /** The collection's natural order: ids in insertion order. */
    var order: seq<Id>
    /** `ObjectID.isValid`. */
    const isValidId: string -> bool
    /**
     * The cast of a path id to an ObjectId, as the stored id's hex string:
     * `findById` and its siblings look up `toObjectId(id)`, so an upper-case
     * or 12-byte form of a stored id finds it.
     */
    const toObjectId: string -> Id

    ghost predicate Valid()
      reads this
    {
      Consistent(todos, order)
    }

    constructor (isValidId: string -> bool, toObjectId: string -> Id)
      ensures Valid() && todos == map[] && order == []
      ensures this.isValidId == isValidId && this.toObjectId == toObjectId
    {
      todos := map[];
      order := [];
      this.isValidId := isValidId;
      this.toObjectId := toObjectId;
    }

    /** `todo.save()` of a document built by the schema: a refused one is not stored, an accepted one goes at the end of the order. */
    method SaveNew(built: Result<Todo, set<string>>) returns (ok: bool)
      requires Valid() && (built.Ok? ==> built.value.id !in todos)
      modifies this`todos, this`order
      ensures Valid()
      ensures ok <==> built.Ok?
      ensures ok ==> todos == old(todos)[built.value.id := built.value] && order == old(order) + [built.value.id]
      ensures !ok ==> todos == old(todos) && order == old(order)
    {
      ok := built.Ok?;
      if ok {
        var doc := built.value;
        InsertConsistent(todos, order, doc);
        todos := todos[doc.id := doc];
        order := order + [doc.id];
      }
    }

    /**
     * POST /todos: a new todo from `body.text` alone, saved under the fresh
     * id the driver generates. `_creator` is never set, so the schema refuses
     * every such todo and the answer is always 400 with nothing stored.
     */
    method PostTodos(body: Object, newId: Id) returns (status: int, created: Option<Todo>)
      requires Valid() && newId !in todos
      modifies this`todos, this`order
      ensures Valid()
      ensures status == 200 <==> Create(newId, Field(body, "text"), None).Ok?
      ensures status == 200 ==>
                created == Some(Create(newId, Field(body, "text"), None).value)
                && todos == old(todos)[newId := created.value] && order == old(order) + [newId]
      ensures status != 200 ==> status == 400 && created == None && todos == old(todos) && order == old(order)
      ensures status == 400
    {
      var todo := Create(newId, Field(body, "text"), None);
      var ok := SaveNew(todo);
      status := if ok then 200 else 400;
      created := match todo case Ok(t) => Some(t) case Err(_) => None;
      CreatorRequired(newId, Field(body, "text"));
    }

    /** GET /todos: every stored todo, whoever created it, each exactly once. */
    method GetTodos() returns (status: int, list: seq<Todo>)
      requires Valid()
      ensures status == 200
      ensures |list| == |todos| == |order|
      ensures forall i :: 0 <= i < |order| ==> order[i] in todos && list[i] == todos[order[i]]
      ensures forall t :: t in list <==> t in todos.Values
    {
      var o, m := order, todos;
      list := seq(|o|, i requires 0 <= i < |o| && o[i] in m => m[o[i]]);
      DistinctSize(o);
      assert (set x | x in o) == m.Keys;
      assert |m.Keys| == |m|;
      forall t | t in m.Values ensures t in list {
        var k :| k in m && m[k] == t;
        var i :| 0 <= i < |o| && o[i] == k;
        assert list[i] == t;
      }
      status := 200;
    }

    /** GET /todos/:id: 404 for a malformed or unknown id, else 200 with exactly that todo. */
    method GetTodo(id: string) returns (status: int, todo: Option<Todo>)
      requires Valid()
      ensures !isValidId(id) ==> status == 404 && todo == None
      ensures status == 200 <==> isValidId(id) && toObjectId(id) in todos
      ensures status == 200 ==> todo == Some(todos[toObjectId(id)]) && todo.value.id == toObjectId(id)
      ensures status != 200 ==> status == 404 && todo == None
    {
      if !isValidId(id) {
        return 404, None;
      }
      var key := toObjectId(id);
      if key !in todos {
        return 404, None;
      }
      status, todo := 200, Some(todos[key]);
    }

    /**
     * DELETE /todos/:id: a malformed or unknown id gives 404 and no change;
     * otherwise exactly that todo is removed and sent back.
     */
    method DeleteTodo(id: string) returns (status: int, todo: Option<Todo>)
      requires Valid()
      modifies this`todos, this`order
      ensures Valid()
      ensures status == 200 <==> isValidId(id) && toObjectId(id) in old(todos)
      ensures status == 200 ==>
                var key := toObjectId(id);
                todo == Some(old(todos)[key]) && todos == old(todos) - {key}
                && order == Without(old(order), key)
      ensures status != 200 ==> status == 404 && todo == None && todos == old(todos) && order == old(order)
    {
      if !isValidId(id) {
        return 404, None;
      }
      var key := toObjectId(id);
      if key !in todos {
        return 404, None;
      }
      todo := Some(todos[key]);
      RemoveConsistent(todos, order, key);
      todos := todos - {key};
      order := Without(order, key);
      status := 200;
    }

    /**
     * PATCH /todos/:id: normalise the body in place, then `$set` it on the
     * one matching todo and send the updated record. A malformed id gives
     * 404; then a text the cast refuses gives 400 before the store is asked;
     * then an unknown id gives 404. None of these changes anything.
     */
    method PatchTodo(id: string, reqBody: Object, now: int) returns (status: int, todo: Option<Todo>)
      requires Valid()
      modifies this`todos
      ensures Valid() && order == old(order)
      ensures status == 404 <==>
                !isValidId(id) || (!CastRefuses(Normalised(reqBody, now)) && toObjectId(id) !in old(todos))
      ensures status == 400 <==> isValidId(id) && CastRefuses(Normalised(reqBody, now))
      ensures status == 200 <==>
                isValidId(id) && !CastRefuses(Normalised(reqBody, now)) && toObjectId(id) in old(todos)
      ensures status == 200 ==>
                var key := toObjectId(id);
                todo == ApplySet(old(todos)[key], Normalised(reqBody, now)) && todo.Some?
                && todos == old(todos)[key := todo.value]
      ensures status != 200 ==> todo == None && todos == old(todos)
    {
      var body := Pick(reqBody, {"text", "completed"});
      if !isValidId(id) {
        return 404, None;
      }
      if IsTrue(body, "completed") {
        body := body["completedAt" := Num(now)];
      } else {
        body := body["completed" := Bool(false)];
        body := body["completedAt" := Null];
      }
      assert body == Normalised(reqBody, now);
      if CastRefuses(body) {
        return 400, None;
      }
      var key := toObjectId(id);
      if key !in todos {
        return 404, None;
      }
      var updated := ApplySet(todos[key], body);
      todos := todos[key := updated.value];
      status, todo := 200, updated;
    }
  }
}
