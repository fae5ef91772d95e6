/**
 * The task repository of server/src/Controllers/TaskController.php, with the
 * `tasks` table held in memory. The table is kept in insertion order, which
 * is ascending id order because ids come from an auto-increment counter.
 */
module Tasks {
  import opened Wrappers
  import opened Json
  import opened Records
  import opened PhpSession

  /** PHP `!$userId` is false: the slot is set and its id is not 0. */
  predicate Authenticated(slot: Option<int>)
  {
    slot.Some? && slot.value != 0
  }

  ghost predicate Ascending(rows: seq<Task>)
  {
    forall i, j :: 0 <= i < j < |rows| ==> rows[i].id < rows[j].id
  }

  ghost predicate Descending(rows: seq<Task>)
  {
    forall i, j :: 0 <= i < j < |rows| ==> rows[i].id > rows[j].id
  }

  /** The columns that no insert or update can set to null. */
  predicate WellFormed(t: Task)
  {
    t.title != Null && t.priority != Null && t.completed != Null
  }

  // ---------------------------------------------------------------- fetchAll

  /**
   * The WHERE clause of `fetchAll`: owned by `uid` and `completed != 'Deleted'`
   * (under SQL's three-valued logic a NULL `completed` fails the comparison).
   */
  predicate Listed(t: Task, uid: int)
  {
    t.userId == uid && t.completed != Null && t.completed != Str("Deleted")
  }

  /** The rows `fetchAll` selects, read from the end of the table backwards. */
  function Listing(rows: seq<Task>, uid: int): (r: seq<Task>)
    ensures |r| <= |rows|
    ensures forall k :: 0 <= k < |r| ==> Listed(r[k], uid)
  {
    if rows == [] then []
    else
      var last := rows[|rows| - 1];
      (if Listed(last, uid) then [last] else []) + Listing(rows[..|rows| - 1], uid)
  }

  /** The listing holds exactly the caller's rows that are not soft-deleted. */
  lemma {:induction false} ListingMembers(rows: seq<Task>, uid: int)
    ensures forall t :: t in Listing(rows, uid) <==> t in rows && Listed(t, uid)
  {
    if rows != [] {
      var init := rows[..|rows| - 1];
      ListingMembers(init, uid);
      assert rows == init + [rows[|rows| - 1]];
    }
  }

  /** On a table in ascending id order the listing is newest id first. */
  lemma {:induction false} ListingDescending(rows: seq<Task>, uid: int)
    requires Ascending(rows)
    ensures Descending(Listing(rows, uid))
  {
    if rows != [] {
      var init := rows[..|rows| - 1];
      var last := rows[|rows| - 1];
      ListingDescending(init, uid);
      ListingMembers(init, uid);
      var rest := Listing(init, uid);
      forall t | t in rest
        ensures t.id < last.id
      {
        var k :| 0 <= k < |init| && init[k] == t;
      }
    }
  }

  /** Tasks owned by one user never show up in another user's listing. */
  lemma ListingIsolation(rows: seq<Task>, owner: int, other: int, t: Task)
    requires owner != other && t.userId == owner
    ensures t !in Listing(rows, other)
  {
    ListingMembers(rows, other);
  }

  // ------------------------------------------------------------------ create

  /** The value the INSERT of `create` uses when a key is absent or null. */
  function Default(c: Column): Value
  {
    match c
    case Title => Str("")
    case Priority => Str("Low")
    case Completed => Str("Pending")
    case _ => Null
  }

  /** The row `create` inserts for `uid` under id `id`. */
  function NewRow(id: int, uid: int, p: Payload): (t: Task)
    ensures t.id == id && t.userId == uid && WellFormed(t)
    ensures Isset(p, "title") ==> t.title == p["title"]
    ensures !Isset(p, "title") ==> t.title == Str("")
  {
    Task(id, uid,
      Coalesce(p, "title", Str("")),
      Coalesce(p, "description", Null),
      Coalesce(p, "priority", Str("Low")),
      Coalesce(p, "due_date", Null),
      Coalesce(p, "due_time", Null),
      Coalesce(p, "tags", Null),
      Coalesce(p, "recurring", Null),
      Coalesce(p, "completed", Str("Pending")))
  }

  /** Every column of a new row is the payload's non-null value or the column's default. */
  lemma NewRowColumns(id: int, uid: int, p: Payload, c: Column)
    ensures NewRow(id, uid, p).id == id && NewRow(id, uid, p).userId == uid
    ensures Get(NewRow(id, uid, p), c) == if Isset(p, Key(c)) then p[Key(c)] else Default(c)
    ensures WellFormed(NewRow(id, uid, p))
  {
  }

  // ------------------------------------------------------------------ update

  /** Some key that `update` tests is set in the payload. */
  predicate AnyFieldSet(p: Payload)
  {
    exists c :: Isset(p, Key(c))
  }

  /** The columns whose key `update` finds set, with the values it binds. */
  function Recognised(p: Payload): (m: map<Column, Value>)
    ensures forall c :: c in m <==> Isset(p, Key(c))
  {
    EveryColumn();
    map c | c in AllColumns && Isset(p, Key(c)) :: p[Key(c)]
  }

  /** The position of a column's `if` in `update`. */
  function Rank(c: Column): nat
  {
    match c
    case Title => 0
    case Description => 1
    case Priority => 2
    case DueDate => 3
    case DueTime => 4
    case Tags => 5
    case Recurring => 6
    case Completed => 7
  }

  /** The column that the `k`-th `if` of `update` tests. */
  function ColumnAt(k: nat): (c: Column)
    requires k < 8
    ensures Rank(c) == k
  {
    [Title, Description, Priority, DueDate, DueTime, Tags, Recurring, Completed][k]
  }

  /** What the first `k` of the eight `if`s of `update` have bound. */
  ghost function Bound(p: Payload, k: nat): map<Column, Value>
    requires k <= 8
  {
    if k == 0 then map[]
    else
      var c := ColumnAt(k - 1);
      if Isset(p, Key(c)) then Bound(p, k - 1)[c := p[Key(c)]] else Bound(p, k - 1)
  }

  /** One more `if` binds its column exactly when its key is set. */
  lemma BoundStep(p: Payload, k: nat, c: Column)
    requires Rank(c) == k < 8
    ensures Bound(p, k + 1) == if Isset(p, Key(c)) then Bound(p, k)[c := p[Key(c)]] else Bound(p, k)
  {
    RankInjective(c, ColumnAt(k));
  }

  lemma RankInjective(c: Column, d: Column)
    ensures Rank(c) == Rank(d) <==> c == d
  {
  }

  /** The first `k` blocks bind exactly the set keys among their columns. */
  lemma {:induction false} BoundKeys(p: Payload, k: nat)
    requires k <= 8
    ensures forall c :: c in Bound(p, k) <==> Rank(c) < k && Isset(p, Key(c))
    ensures forall c :: c in Bound(p, k) ==> Key(c) in p && Bound(p, k)[c] == p[Key(c)]
  {
    if k > 0 {
      BoundKeys(p, k - 1);
      var d := ColumnAt(k - 1);
      forall c
        ensures Rank(c) == k - 1 ==> c == d
      {
        RankInjective(c, d);
      }
    }
  }

  /** After all eight `if`s the bound columns are the recognised ones. */
  lemma BoundAll(p: Payload)
    ensures Bound(p, 8) == Recognised(p)
    ensures Bound(p, 0) == map[]
  {
    BoundKeys(p, 8);
    assert forall c: Column :: Rank(c) < 8;
  }

  /** None of the first `k` keys that `update` tests is set. */
  ghost predicate NoneSet(p: Payload, k: nat)
    requires k <= 8
  {
    k == 0 || (NoneSet(p, k - 1) && !Isset(p, Key(ColumnAt(k - 1))))
  }

  lemma NoneSetStep(p: Payload, k: nat, c: Column)
    requires Rank(c) == k < 8
    ensures NoneSet(p, k + 1) <==> NoneSet(p, k) && !Isset(p, Key(c))
  {
    RankInjective(c, ColumnAt(k));
  }

  lemma {:induction false} NoneSetMeans(p: Payload, k: nat)
    requires k <= 8
    ensures NoneSet(p, k) <==> forall c :: Rank(c) < k ==> !Isset(p, Key(c))
  {
    if k > 0 {
      NoneSetMeans(p, k - 1);
      var d := ColumnAt(k - 1);
      forall c
        ensures Rank(c) == k - 1 ==> c == d
      {
        RankInjective(c, d);
      }
    }
  }

  lemma NoneSetAll(p: Payload)
    ensures NoneSet(p, 0)
    ensures NoneSet(p, 8) <==> forall c :: !Isset(p, Key(c))
  {
    NoneSetMeans(p, 8);
    assert forall c: Column :: Rank(c) < 8;
  }

  /** A row after `UPDATE tasks SET <the columns of m>`. */
  function Patched(t: Task, m: map<Column, Value>): (r: Task)
    ensures r.id == t.id && r.userId == t.userId
  {
    t.(
      title := if Title in m then m[Title] else t.title,
      description := if Description in m then m[Description] else t.description,
      priority := if Priority in m then m[Priority] else t.priority,
      dueDate := if DueDate in m then m[DueDate] else t.dueDate,
      dueTime := if DueTime in m then m[DueTime] else t.dueTime,
      tags := if Tags in m then m[Tags] else t.tags,
      recurring := if Recurring in m then m[Recurring] else t.recurring,
      completed := if Completed in m then m[Completed] else t.completed)
  }

  /** A patched row holds the patch's value in every column the patch names and its old value elsewhere. */
  lemma PatchedColumns(t: Task, m: map<Column, Value>, c: Column)
    ensures Get(Patched(t, m), c) == if c in m then m[c] else Get(t, c)
  {
  }

  /** `WHERE id = :id`; only a numeric id is compared. */
  predicate Matches(id: Value, t: Task)
    ensures Matches(id, t) <==> id.Num? && id.n == t.id
  {
    id == Num(t.id)
  }

  /** The table after the UPDATE statement: every row whose id matches is patched. */
  function PatchRows(rows: seq<Task>, id: Value, m: map<Column, Value>): (r: seq<Task>)
    ensures |r| == |rows|
  {
    seq(|rows|, i requires 0 <= i < |rows| => if Matches(id, rows[i]) then Patched(rows[i], m) else rows[i])
  }

  /**
   * `update` changes exactly the columns whose key is set in the payload, and
   * only in the row whose id matches, whoever owns it; id and owner never change.
   */
  lemma PatchRowsEffect(rows: seq<Task>, id: Value, p: Payload, i: int, c: Column)
    requires 0 <= i < |rows|
    ensures PatchRows(rows, id, Recognised(p))[i].id == rows[i].id
    ensures PatchRows(rows, id, Recognised(p))[i].userId == rows[i].userId
    ensures Get(PatchRows(rows, id, Recognised(p))[i], c)
         == if Matches(id, rows[i]) && Isset(p, Key(c)) then p[Key(c)] else Get(rows[i], c)
  {
  }

  /** An id that no row has leaves the table as it was. */
  lemma PatchMissingId(rows: seq<Task>, id: Value, m: map<Column, Value>)
    requires forall i :: 0 <= i < |rows| ==> !Matches(id, rows[i])
    ensures PatchRows(rows, id, m) == rows
  {
  }

  /** Patching a table keeps its ids in order and its non-null columns non-null. */
  lemma PatchKeepsShape(rows: seq<Task>, id: Value, p: Payload)
    requires Ascending(rows)
    requires forall i :: 0 <= i < |rows| ==> WellFormed(rows[i])
    ensures Ascending(PatchRows(rows, id, Recognised(p)))
    ensures forall i :: 0 <= i < |rows| ==> PatchRows(rows, id, Recognised(p))[i].id == rows[i].id
    ensures forall i :: 0 <= i < |rows| ==> WellFormed(PatchRows(rows, id, Recognised(p))[i])
  {
    var r := PatchRows(rows, id, Recognised(p));
    forall i | 0 <= i < |rows|
      ensures r[i].id == rows[i].id && WellFormed(r[i])
    {
      PatchRowsEffect(rows, id, p, i, Title);
      PatchRowsEffect(rows, id, p, i, Priority);
      PatchRowsEffect(rows, id, p, i, Completed);
    }
  }

  /** The patch `{"completed": "Deleted"}` sets the status column and nothing else. */
  lemma SoftDeletePatch(p: Payload)
    requires p == map["completed" := Str("Deleted")]
    ensures Recognised(p) == map[Completed := Str("Deleted")]
  {
    var m := Recognised(p);
    forall c | c in m
      ensures c == Completed
    {
      KeyInjective(c, Completed);
    }
  }

  /**
   * Any update that sets the status to 'Deleted', whatever else it sets,
   * keeps the task in the table but takes it out of its owner's listing.
   */
  lemma SoftDeleteHides(rows: seq<Task>, id: int, uid: int, p: Payload, i: int)
    requires Isset(p, "completed") && p["completed"] == Str("Deleted")
    requires 0 <= i < |rows| && rows[i].id == id
    ensures |PatchRows(rows, Num(id), Recognised(p))| == |rows|
    ensures PatchRows(rows, Num(id), Recognised(p))[i].id == id
    ensures PatchRows(rows, Num(id), Recognised(p))[i].completed == Str("Deleted")
    ensures PatchRows(rows, Num(id), Recognised(p))[i] !in Listing(PatchRows(rows, Num(id), Recognised(p)), uid)
  {
    assert Key(Completed) == "completed";
    ListingMembers(PatchRows(rows, Num(id), Recognised(p)), uid);
  }

  /**
   * One `if (isset($payload[key]))` block of `update`: when the column's key
   * is set, append its SET clause and bind its value. Called column by column
   * in the source's order, it keeps `params` equal to what the blocks so far
   * have bound and `fields` empty exactly while none of their keys was set.
   */
  method SetClause(fields: seq<Column>, params: map<Column, Value>, p: Payload, c: Column, ghost k: nat)
    returns (fields': seq<Column>, params': map<Column, Value>)
    requires k == Rank(c)
    requires params == Bound(p, k) && (fields == [] <==> NoneSet(p, k))
    ensures params' == Bound(p, k + 1) && (fields' == [] <==> NoneSet(p, k + 1))
    ensures |fields'| == |fields| + (if Isset(p, Key(c)) then 1 else 0)
  {
    BoundStep(p, k, c);
    NoneSetStep(p, k, c);
    fields', params' := fields, params;
    if Isset(p, Key(c)) {
      fields' := fields' + [c];
      params' := params'[c := p[Key(c)]];
    }
  }

  /**
   * The eight `if`s of `update`: the SET clauses, one per column whose key is
   * set, and the values they bind. `fields` is empty exactly when no key is set.
   */
  method SetClauses(p: Payload) returns (fields: seq<Column>, params: map<Column, Value>)
    ensures params == Recognised(p)
    ensures fields == [] <==> !AnyFieldSet(p)
  {
    BoundAll(p);
    NoneSetAll(p);
    fields, params := LeadingClauses(p);
    fields, params := TrailingClauses(fields, params, p);
  }

  /** The `if`s for title, description, priority and due_date. */
  method LeadingClauses(p: Payload) returns (fields: seq<Column>, params: map<Column, Value>)
    ensures params == Bound(p, 4) && (fields == [] <==> NoneSet(p, 4))
  {
    fields, params := [], map[];
    assert Bound(p, 0) == map[] && NoneSet(p, 0);
    fields, params := SetClause(fields, params, p, Title, 0);
    fields, params := SetClause(fields, params, p, Description, 1);
    fields, params := SetClause(fields, params, p, Priority, 2);
    fields, params := SetClause(fields, params, p, DueDate, 3);
  }

  /** The `if`s for due_time, tags, recurring and completed. */
  method TrailingClauses(fields: seq<Column>, params: map<Column, Value>, p: Payload)
    returns (fields': seq<Column>, params': map<Column, Value>)
    requires params == Bound(p, 4) && (fields == [] <==> NoneSet(p, 4))
    ensures params' == Bound(p, 8) && (fields' == [] <==> NoneSet(p, 8))
  {
    fields', params' := SetClause(fields, params, p, DueTime, 4);
    fields', params' := SetClause(fields', params', p, Tags, 5);
    fields', params' := SetClause(fields', params', p, Recurring, 6);
    fields', params' := SetClause(fields', params', p, Completed, 7);
  }

  // ------------------------------------------------------------- controller

  class TaskController {
    var rows: seq<Task>
    var nextId: int
    const session: Session

    /** Ids ascend and stay below the counter; no stored row has a null title, priority or status. */
    ghost predicate Valid()
      reads this
    {
      && nextId >= 1
      && Ascending(rows)
      && forall i :: 0 <= i < |rows| ==> rows[i].id < nextId && WellFormed(rows[i])
    }

    constructor (s: Session)
      ensures Valid() && rows == [] && nextId == 1 && session == s
    {
      rows := [];
      nextId := 1;
      session := s;
    }

    /** `getUserId`: the session slot, null when no user is logged in. */
    function UserId(): (r: Option<int>)
      reads session
      ensures r.Some? <==> session.userId.Some?
      ensures r.Some? ==> r.value == session.userId.value
    {
      session.userId
    }

    /**
     * `fetchAll`: without a session user, "Not authenticated" and no data;
     * otherwise exactly the caller's rows that are not soft-deleted, newest first.
     */
    function FetchAll(): (r: Envelope)
      requires Valid()
      reads this, session
      ensures !Authenticated(session.userId) <==> r == Failure("Not authenticated")
      ensures Authenticated(session.userId) ==>
        && r.success && r.message.None? && r.data.Some? && r.data.value.TaskRows?
        && (forall t :: t in r.data.value.rows <==> t in rows && Listed(t, session.userId.value))
        && Descending(r.data.value.rows)
    {
      var uid := UserId();
      if !Authenticated(uid) then Failure("Not authenticated")
      else
        ListingMembers(rows, uid.value);
        ListingDescending(rows, uid.value);
        Envelope(true, None, Some(TaskRows(Listing(rows, uid.value))), None)
    }

    /**
     * `create`: without a session user nothing is inserted; otherwise one row,
     * owned by the session user, under the next id, which is returned.
     */
    method Create(p: Payload) returns (r: Envelope)
      requires Valid()
      modifies this
      ensures Valid()
      ensures !Authenticated(session.userId) ==>
        r == Failure("Not authenticated") && rows == old(rows) && nextId == old(nextId)
      ensures Authenticated(session.userId) ==>
        && rows == old(rows) + [NewRow(old(nextId), session.userId.value, p)]
        && nextId == old(nextId) + 1
        && r == Envelope(true, None, Some(InsertedId(old(nextId))), None)
    {
      var uid := UserId();
      if !Authenticated(uid) {
        return Failure("Not authenticated");
      }
      var id := nextId;
      NewRowColumns(id, uid.value, p, Title);
      rows := rows + [NewRow(id, uid.value, p)];
      nextId := nextId + 1;
      r := Envelope(true, None, Some(InsertedId(id)), None);
    }

    /**
     * `update`: collects the set keys column by column; with none it answers
     * "No fields to update" and changes nothing, otherwise it patches every
     * row with that id and answers success, even when no row matched. It
     * consults neither the session nor the owner.
     */
    method Update(id: Value, p: Payload) returns (r: Envelope)
      requires Valid()
      modifies this
      ensures Valid() && nextId == old(nextId)
      ensures !AnyFieldSet(p) ==> r == Failure("No fields to update") && rows == old(rows)
      ensures AnyFieldSet(p) ==> r == Success && rows == PatchRows(old(rows), id, Recognised(p))
    {
      var fields, params := SetClauses(p);
      if |fields| == 0 {
        assert Valid();
        return Failure("No fields to update");
      }
      PatchKeepsShape(rows, id, p);
      rows := PatchRows(rows, id, params);
      assert Valid();
      r := Success;
    }
  }
}
