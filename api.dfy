/** back-end/main.py: the REST endpoints over the `memory` and
    `user_details` tables. Each table is a sequence of rows in insertion
    order; `gen_random_uuid()` is a counter of fresh identifiers and
    `CURRENT_TIMESTAMP` a clock that advances on every write. */
module Api {
  import opened Basics
  import opened DateTimes

  /** A float vector (a face or text embedding). */
  type Vector = seq<real>

  /** A field of a JSON request body: left out, or given (possibly `null`). */
  datatype Field<T> = Omitted | Given(value: T)

  function OrDefault<T>(f: Field<T>, default: T): (v: T)
    ensures f.Omitted? ==> v == default
    ensures f.Given? ==> v == f.value
  {
    if f.Given? then f.value else default
  }

  /** The columns `add_memory` inserts and `update_memory` sets, besides
      the owner. */
  datatype MemoryFields = MemoryFields(
    memoryType: string,
    title: Option<string>,
    content: Option<string>,
    tags: Option<seq<string>>,
    importance: Option<int>,
    embedding: Option<Vector>,
    memoryTime: Option<ValidDateTime>,
    remindAt: Option<ValidDateTime>,
    repeatInterval: Option<string>,
    completed: Option<bool>,
    priority: Option<int>)

  /** The validated `Memory` model of a request. */
  datatype Memory = Memory(memoryId: Option<nat>, username: string, fields: MemoryFields)

  /** A memory request body as sent: `memory_id`, `username` and
      `memory_type` must be present, every other field may be left out. */
  datatype MemoryBody = MemoryBody(
    memoryId: Option<nat>,
    username: string,
    memoryType: string,
    title: Field<Option<string>>,
    content: Field<Option<string>>,
    tags: Field<Option<seq<string>>>,
    importance: Field<Option<int>>,
    embedding: Field<Option<Vector>>,
    memoryTime: Field<Option<ValidDateTime>>,
    remindAt: Field<Option<ValidDateTime>>,
    repeatInterval: Field<Option<string>>,
    completed: Field<Option<bool>>,
    priority: Field<Option<int>>)

  /** Validation of a body into `Memory`: a field left out takes the
      model's default (`tags` `[]`, `importance` 1, `completed` false,
      `priority` 1, `None` for the rest); a field sent is kept, even `null`. */
  function FromBody(b: MemoryBody): (m: Memory)
    ensures m.memoryId == b.memoryId && m.username == b.username && m.fields.memoryType == b.memoryType
    ensures b.title.Omitted? ==> m.fields.title == None
    ensures b.content.Omitted? ==> m.fields.content == None
    ensures b.tags.Omitted? ==> m.fields.tags == Some([])
    ensures b.importance.Omitted? ==> m.fields.importance == Some(1)
    ensures b.embedding.Omitted? ==> m.fields.embedding == None
    ensures b.memoryTime.Omitted? ==> m.fields.memoryTime == None
    ensures b.remindAt.Omitted? ==> m.fields.remindAt == None
    ensures b.repeatInterval.Omitted? ==> m.fields.repeatInterval == None
    ensures b.completed.Omitted? ==> m.fields.completed == Some(false)
    ensures b.priority.Omitted? ==> m.fields.priority == Some(1)
    ensures b.title.Given? ==> m.fields.title == b.title.value
    ensures b.content.Given? ==> m.fields.content == b.content.value
    ensures b.tags.Given? ==> m.fields.tags == b.tags.value
    ensures b.importance.Given? ==> m.fields.importance == b.importance.value
    ensures b.embedding.Given? ==> m.fields.embedding == b.embedding.value
    ensures b.memoryTime.Given? ==> m.fields.memoryTime == b.memoryTime.value
    ensures b.remindAt.Given? ==> m.fields.remindAt == b.remindAt.value
    ensures b.repeatInterval.Given? ==> m.fields.repeatInterval == b.repeatInterval.value
    ensures b.completed.Given? ==> m.fields.completed == b.completed.value
    ensures b.priority.Given? ==> m.fields.priority == b.priority.value
  {
    Memory(b.memoryId, b.username, MemoryFields(
      b.memoryType,
      OrDefault(b.title, None),
      OrDefault(b.content, None),
      OrDefault(b.tags, Some([])),
      OrDefault(b.importance, Some(1)),
      OrDefault(b.embedding, None),
      OrDefault(b.memoryTime, None),
      OrDefault(b.remindAt, None),
      OrDefault(b.repeatInterval, None),
      OrDefault(b.completed, Some(false)),
      OrDefault(b.priority, Some(1))))
  }

  /** A row of `memory`. */
  datatype Record = Record(memoryId: nat, username: string, fields: MemoryFields, timestamp: nat, updatedAt: nat)

  /** `HTTPException(status_code, detail)`. */
  datatype HttpError = HttpError(status: int, detail: string)

  /** A row of `user_details`, and what `get_users` reports for it. */
  datatype UserDetails = UserDetails(username: string, name: string, faceEmbedding: Vector)
  datatype UserView = UserView(username: string, name: string, faceEmbedding: Option<Vector>)

  /** Identifiers and timestamps increase in insertion order. */
  predicate Ordered(rows: seq<Record>) {
    forall i, j :: 0 <= i < j < |rows| ==> rows[i].memoryId < rows[j].memoryId && rows[i].timestamp < rows[j].timestamp
  }

  /** `username` is the table's key. */
  predicate DistinctUsernames(users: seq<UserDetails>) {
    forall i, j :: 0 <= i < j < |users| ==> users[i].username != users[j].username
  }

  /** Where the row with identifier `id` is, if there is one. */
  function FindMemory(rows: seq<Record>, id: nat): (r: Option<nat>)
    ensures r.Some? ==> r.value < |rows| && rows[r.value].memoryId == id
    ensures r.None? <==> forall i :: 0 <= i < |rows| ==> rows[i].memoryId != id
  {
    if rows == [] then None
    else if rows[0].memoryId == id then Some(0)
    else
      match FindMemory(rows[1..], id)
      case None => None
      case Some(k) => Some(k + 1)
  }

  /** `UPDATE memory SET <every field>, updated_at = now WHERE memory_id = id`. */
  function UpdateRows(rows: seq<Record>, id: nat, fields: MemoryFields, now: nat): (r: seq<Record>)
    ensures |r| == |rows|
    ensures forall i :: 0 <= i < |rows| && rows[i].memoryId == id ==>
      r[i] == Record(id, rows[i].username, fields, rows[i].timestamp, now)
    ensures forall i :: 0 <= i < |rows| && rows[i].memoryId != id ==> r[i] == rows[i]
  {
    if rows == [] then []
    else
      var head := if rows[0].memoryId == id then rows[0].(fields := fields, updatedAt := now) else rows[0];
      [head] + UpdateRows(rows[1..], id, fields, now)
  }

  /** An update keeps every row's identifier, owner and creation time. */
  lemma UpdateKeepsIdentity(rows: seq<Record>, id: nat, fields: MemoryFields, now: nat)
    ensures var r := UpdateRows(rows, id, fields, now);
      forall i :: 0 <= i < |rows| ==>
        r[i].memoryId == rows[i].memoryId && r[i].username == rows[i].username && r[i].timestamp == rows[i].timestamp
  {
  }

  /** An update of an absent identifier changes nothing. */
  lemma UpdateAbsentIsNoOp(rows: seq<Record>, id: nat, fields: MemoryFields, now: nat)
    requires FindMemory(rows, id).None?
    ensures UpdateRows(rows, id, fields, now) == rows
  {
  }

  /** Every field a client leaves out of an update body is reset to the
      model default, whatever the row held before. */
  lemma UpdateResetsOmittedFields(rows: seq<Record>, id: nat, b: MemoryBody, now: nat, i: nat)
    requires i < |rows| && rows[i].memoryId == id
    ensures var f := UpdateRows(rows, id, FromBody(b).fields, now)[i].fields;
      && (b.title.Omitted? ==> f.title == None)
      && (b.content.Omitted? ==> f.content == None)
      && (b.tags.Omitted? ==> f.tags == Some([]))
      && (b.importance.Omitted? ==> f.importance == Some(1))
      && (b.embedding.Omitted? ==> f.embedding == None)
      && (b.memoryTime.Omitted? ==> f.memoryTime == None)
      && (b.remindAt.Omitted? ==> f.remindAt == None)
      && (b.repeatInterval.Omitted? ==> f.repeatInterval == None)
      && (b.completed.Omitted? ==> f.completed == Some(false))
      && (b.priority.Omitted? ==> f.priority == Some(1))
  {
  }

  /** `DELETE FROM memory WHERE memory_id = id`: the other rows, in order. */
  function RemoveId(rows: seq<Record>, id: nat): (r: seq<Record>)
    ensures |r| <= |rows|
    ensures forall x :: x in r <==> x in rows && x.memoryId != id
  {
    if rows == [] then []
    else if rows[0].memoryId == id then RemoveId(rows[1..], id)
    else [rows[0]] + RemoveId(rows[1..], id)
  }

  /** Deleting twice is deleting once. */
  lemma {:induction false} DeleteIdempotent(rows: seq<Record>, id: nat)
    ensures RemoveId(RemoveId(rows, id), id) == RemoveId(rows, id)
  {
    if rows != [] {
      DeleteIdempotent(rows[1..], id);
    }
  }

  /** Deleting an absent identifier changes nothing. */
  lemma {:induction false} DeleteAbsentIsNoOp(rows: seq<Record>, id: nat)
    requires FindMemory(rows, id).None?
    ensures RemoveId(rows, id) == rows
  {
    if rows != [] {
      assert FindMemory(rows[1..], id).None?;
      DeleteAbsentIsNoOp(rows[1..], id);
    }
  }

  /** The rows left by a delete keep their order. */
  lemma {:induction false} RemoveKeepsOrder(rows: seq<Record>, id: nat)
    requires Ordered(rows)
    ensures Ordered(RemoveId(rows, id))
  {
    if rows != [] {
      RemoveKeepsOrder(rows[1..], id);
      var rest := RemoveId(rows[1..], id);
      if rows[0].memoryId != id {
        forall j | 0 <= j < |rest|
          ensures rows[0].memoryId < rest[j].memoryId && rows[0].timestamp < rest[j].timestamp
        {
          assert rest[j] in rows[1..];
        }
      }
    }
  }

  /** `INSERT ... ON CONFLICT (username) DO UPDATE`: the user replaces the
      row with its username, or is appended. */
  function Upsert(users: seq<UserDetails>, u: UserDetails): (r: seq<UserDetails>)
    requires DistinctUsernames(users)
    ensures u in r
    ensures forall v :: v in r ==> v == u || (v in users && v.username != u.username)
    ensures forall v :: v in users && v.username != u.username ==> v in r
  {
    if users == [] then [u]
    else if users[0].username == u.username then
      assert forall v :: v in users[1..] ==> v.username != u.username;
      [u] + users[1..]
    else [users[0]] + Upsert(users[1..], u)
  }

  /** No upsert ever produces a second row with the same username. */
  lemma {:induction false} UpsertKeepsDistinct(users: seq<UserDetails>, u: UserDetails)
    requires DistinctUsernames(users)
    ensures DistinctUsernames(Upsert(users, u))
  {
    if users != [] && users[0].username != u.username {
      UpsertKeepsDistinct(users[1..], u);
      var rest := Upsert(users[1..], u);
      forall j | 0 <= j < |rest| ensures users[0].username != rest[j].username {
        assert rest[j] in rest;
      }
    }
  }

  /** Sending the same user twice is sending it once. */
  lemma {:induction false} UpsertIdempotent(users: seq<UserDetails>, u: UserDetails)
    requires DistinctUsernames(users)
    ensures DistinctUsernames(Upsert(users, u))
    ensures Upsert(Upsert(users, u), u) == Upsert(users, u)
  {
    UpsertKeepsDistinct(users, u);
    if users != [] && users[0].username != u.username {
      UpsertIdempotent(users[1..], u);
    }
  }

  /** What `get_users` reports for a row: an empty embedding reads as `None`. */
  function ViewOf(u: UserDetails): (v: UserView)
    ensures v.username == u.username && v.name == u.name
    ensures v.faceEmbedding.None? <==> u.faceEmbedding == []
    ensures v.faceEmbedding.Some? ==> v.faceEmbedding.value == u.faceEmbedding
  {
    UserView(u.username, u.name, if u.faceEmbedding != [] then Some(u.faceEmbedding) else None)
  }

  /** The database behind the endpoints. */
  class ApiDb {
    var memories: seq<Record>
    var users: seq<UserDetails>
    var clock: nat
    var nextId: nat

    ghost predicate Valid()
      reads this
    {
      && Ordered(memories)
      && (forall i :: 0 <= i < |memories| ==>
            memories[i].memoryId < nextId && memories[i].timestamp < clock && memories[i].updatedAt < clock)
      && DistinctUsernames(users)
    }

    constructor ()
      ensures Valid() && memories == [] && users == []
    {
      memories, users := [], [];
      clock, nextId := 0, 0;
    }

    /** `GET /api/users`: every user, in table order. Reads only. */
    method GetUsers() returns (list: seq<UserView>)
      ensures |list| == |users|
      ensures forall i :: 0 <= i < |users| ==> list[i] == ViewOf(users[i])
    {
      list := MapSeq(ViewOf, users);
    }

    /** `POST /api/users`: an upsert by username; memories are untouched. */
    method AddUser(u: UserDetails) returns (status: string)
      requires Valid()
      modifies this
      ensures Valid()
      ensures users == Upsert(old(users), u)
      ensures memories == old(memories) && clock == old(clock) && nextId == old(nextId)
      ensures status == "success"
    {
      UpsertKeepsDistinct(users, u);
      users := Upsert(users, u);
      status := "success";
    }

    /** `GET /api/memory`: every row, newest timestamp first. Reads only. */
    method GetAllMemories() returns (rows: seq<Record>)
      requires Valid()
      ensures multiset(rows) == multiset(memories)
      ensures forall i, j :: 0 <= i < j < |rows| ==> rows[i].timestamp > rows[j].timestamp
    {
      rows := LastReversed(memories, |memories|);
      ReversedPermutation(memories);
    }

    /** `GET /api/memory/{id}`: the row with that identifier, or a 404. Reads only. */
    method GetMemory(id: nat) returns (r: Result<Record, HttpError>)
      requires Valid()
      ensures r.Success? <==> exists i :: 0 <= i < |memories| && memories[i].memoryId == id
      ensures r.Success? ==> forall i :: 0 <= i < |memories| && memories[i].memoryId == id ==> r.value == memories[i]
      ensures r.Failure? ==> r.error == HttpError(404, "Memory not found")
    {
      match FindMemory(memories, id)
      case None =>
        r := Failure(HttpError(404, "Memory not found"));
      case Some(k) =>
        r := Success(memories[k]);
    }

    /** `POST /api/memory`: one new row with a fresh identifier (the
        request's `memory_id` is not used) and the current time. */
    method AddMemory(m: Memory) returns (status: string)
      requires Valid()
      modifies this
      ensures Valid()
      ensures memories == old(memories) + [Record(old(nextId), m.username, m.fields, old(clock), old(clock))]
      ensures users == old(users)
      ensures status == "success"
    {
      memories := memories + [Record(nextId, m.username, m.fields, clock, clock)];
      clock, nextId := clock + 1, nextId + 1;
      status := "success";
    }

    /** `PUT /api/memory/{id}`: every field of the row is overwritten and
        `updated_at` set to now; "success" whether or not the row exists. */
    method UpdateMemory(id: nat, m: Memory) returns (status: string)
      requires Valid()
      modifies this
      ensures Valid()
      ensures memories == UpdateRows(old(memories), id, m.fields, old(clock))
      ensures users == old(users) && nextId == old(nextId)
      ensures status == "success"
    {
      UpdateKeepsIdentity(memories, id, m.fields, clock);
      memories := UpdateRows(memories, id, m.fields, clock);
      clock := clock + 1;
      status := "success";
    }

    /** `DELETE /api/memory/{id}`: the row is gone; "deleted" either way. */
    method DeleteMemory(id: nat) returns (status: string)
      requires Valid()
      modifies this
      ensures Valid()
      ensures memories == RemoveId(old(memories), id)
      ensures users == old(users) && clock == old(clock) && nextId == old(nextId)
      ensures status == "deleted"
    {
      RemoveKeepsOrder(memories, id);
      memories := RemoveId(memories, id);
      status := "deleted";
    }
  }
}
