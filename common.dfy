/** Optional values: PHP's `null`, JavaScript's `undefined`, an absent row. */
module Wrappers {
  datatype Option<+T> = None | Some(value: T)
}

/**
 * Decoded JSON request bodies as the PHP endpoints see them after
 * `json_decode($body, true)`. A body that does not decode to an object
 * behaves as the empty map, because every access the endpoints make is
 * guarded by `isset`, uses `??`, or reads a missing key as null (`Field`).
 */
module Json {
  /** A JSON scalar; arrays and objects as values are not part of the model. */
  datatype Value = Null | Bool(b: bool) | Num(n: int) | Str(s: string)

  /** A decoded JSON object. */
  type Payload = map<string, Value>

  /** PHP `isset($payload[key])`: the key is present and its value is not null. */
  predicate Isset(p: Payload, key: string)
  {
    key in p && p[key] != Null
  }

  /** PHP `$payload[key] ?? default`, which applies exactly the `isset` test. */
  function Coalesce(p: Payload, key: string, default: Value): (v: Value)
    ensures Isset(p, key) ==> v == p[key]
    ensures !Isset(p, key) ==> v == default
  {
    if Isset(p, key) then p[key] else default
  }

  /** PHP `$payload[key]` on a possibly missing key: a missing key reads as null. */
  function Field(p: Payload, key: string): Value
  {
    if key in p then p[key] else Null
  }
}

/**
 * The rows of the two tables and the JSON envelopes the controllers echo.
 */
module Records {
  import opened Wrappers
  import opened Json

  /** The eight task columns a client may set. */
  datatype Column = Title | Description | Priority | DueDate | DueTime | Tags | Recurring | Completed

  const AllColumns: set<Column> :=
    {Title, Description, Priority, DueDate, DueTime, Tags, Recurring, Completed}

  lemma EveryColumn()
    ensures forall c: Column :: c in AllColumns
  {
    forall c: Column
      ensures c in AllColumns
    {
      match c
      case Title => case Description => case Priority => case DueDate =>
      case DueTime => case Tags => case Recurring => case Completed =>
    }
  }

  /** The payload key that names a column. */
  function Key(c: Column): string
  {
    match c
    case Title => "title"
    case Description => "description"
    case Priority => "priority"
    case DueDate => "due_date"
    case DueTime => "due_time"
    case Tags => "tags"
    case Recurring => "recurring"
    case Completed => "completed"
  }

  lemma KeyInjective(c: Column, d: Column)
    ensures Key(c) == Key(d) <==> c == d
  {
  }

  /** A row of the `tasks` table. */
  datatype Task = Task(
    id: int,
    userId: int,
    title: Value,
    description: Value,
    priority: Value,
    dueDate: Value,
    dueTime: Value,
    tags: Value,
    recurring: Value,
    completed: Value)

  /** The value a row holds in a patchable column. */
  function Get(t: Task, c: Column): Value
  {
    match c
    case Title => t.title
    case Description => t.description
    case Priority => t.priority
    case DueDate => t.dueDate
    case DueTime => t.dueTime
    case Tags => t.tags
    case Recurring => t.recurring
    case Completed => t.completed
  }

  /** A row of the `users` table; the password is kept only as its hash. */
  datatype User = User(id: int, username: Value, passwordHash: string)

  /** What `SELECT id, username FROM users` yields for one row. */
  datatype UserInfo = UserInfo(id: int, username: Value)

  /** The `data` member of a successful task reply. */
  datatype Data = TaskRows(rows: seq<Task>) | InsertedId(id: int)

  /** The JSON envelope `{success, message?, data?, user?}` that an endpoint echoes. */
  datatype Envelope = Envelope(success: bool, message: Option<string>, data: Option<Data>, user: Option<UserInfo>)

  /** `['success' => false, 'message' => msg]` */
  function Failure(msg: string): Envelope
  {
    Envelope(false, Some(msg), None, None)
  }

  /** `['success' => true]` */
  const Success: Envelope := Envelope(true, None, None, None)
}

/**
 * The PHP session: one `$_SESSION['user_id']` slot per browser, shared by
 * both controllers. Cookies and session storage are not modelled.
 */
module PhpSession {
  import opened Wrappers

  class Session {
    var userId: Option<int>

    /** `session_start()` for a browser that has no session yet. */
    constructor ()
      ensures userId == None
    {
      userId := None;
    }
  }
}
