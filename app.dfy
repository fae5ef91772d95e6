/**
 * The client of public/assets/js/app.js: the browser keeps a mirror of the
 * task list under one `localStorage` key, refreshes it from the server, falls
 * back to it when the server cannot be reached, and edits it from the buttons
 * of the task table. Each server call is given as its outcome: `Ok` with the
 * reply's `data` member (absent on a `{success: false}` reply) or `Fail` when
 * the request failed, the status was not 2xx or the body was not JSON.
 */
module App {
  import opened Wrappers
  import opened Json
  import opened DueTime

  /** A task as the client holds it: a JSON object with scalar members. */
  type Record = Payload

  /**
   * The `tm_tasks_v1` entry: absent, a text that does not parse (what
   * `saveToLocal(undefined)` leaves behind), or a saved list.
   */
  datatype Storage = Missing | Unparsable | Saved(tasks: seq<Record>)

  /** The outcome of one `fetch` to the task endpoint. */
  datatype Reply<T> = Ok(data: Option<T>) | Fail

  /** The three buttons of a table row. */
  datatype Button = Delete | Complete | Edit

  /**
   * What `saveToLocal` writes: the JSON text of a list, or of `undefined`,
   * which is stored as the text "undefined" and does not parse back.
   */
  function Stored(tasks: Option<seq<Record>>): (s: Storage)
    ensures s.Saved? <==> tasks.Some?
    ensures s.Saved? ==> s.tasks == tasks.value
    ensures s != Missing
  {
    match tasks
    case Some(ts) => Saved(ts)
    case None => Unparsable
  }

  /** What `loadFromLocal` reads: the saved list, or the empty list when there is none. */
  function Loaded(s: Storage): (ts: seq<Record>)
    ensures s.Saved? ==> Stored(Some(ts)) == s
    ensures !s.Saved? ==> ts == []
  {
    if s.Saved? then s.tasks else []
  }

  /** Saving a list and loading it back gives the same list; saving nothing loads as the empty list. */
  lemma LoadAfterSave(tasks: Option<seq<Record>>)
    ensures tasks.Some? ==> Loaded(Stored(tasks)) == tasks.value
    ensures tasks.None? ==> Loaded(Stored(tasks)) == []
  {
  }

  /**
   * The list `fetchTasksFromAPI` resolves to: the server's `data` on a reply,
   * which is nothing on a `{success: false}` reply, and the mirror's list
   * when the call failed.
   */
  function Fetched(reply: Reply<seq<Record>>, s: Storage): (ts: Option<seq<Record>>)
    ensures ts.None? <==> reply == Ok(None)
    ensures reply.Fail? ==> ts == Some(Loaded(s))
  {
    match reply
    case Ok(data) => data
    case Fail => Some(Loaded(s))
  }

  /** The mirror after `fetchTasksFromAPI`: overwritten on a reply, kept on a failure. */
  function AfterFetch(reply: Reply<seq<Record>>, s: Storage): (s': Storage)
    ensures reply.Ok? ==> s' == Stored(reply.data)
    ensures reply.Fail? ==> s' == s
  {
    match reply
    case Ok(data) => Stored(data)
    case Fail => s
  }

  /**
   * Whatever the outcome, the mirror after a fetch loads as the list the
   * fetch resolved to, whenever it resolved to a list.
   */
  lemma FetchAgreesWithMirror(reply: Reply<seq<Record>>, s: Storage)
    ensures Fetched(reply, s).Some? ==> Loaded(AfterFetch(reply, s)) == Fetched(reply, s).value
    ensures Fetched(reply, s).None? ==> AfterFetch(reply, s) == Unparsable
  {
  }

  /** The mirror after `addTaskToAPI`: kept on a reply, the task appended to it on a failure. */
  function AfterAdd(reply: Reply<Record>, task: Record, s: Storage): (s': Storage)
    ensures reply.Ok? ==> s' == s
    ensures reply.Fail? ==> s'.Saved? && |Loaded(s')| == |Loaded(s)| + 1
    ensures reply.Fail? ==> Loaded(s')[..|Loaded(s)|] == Loaded(s) && Loaded(s')[|Loaded(s)|] == task
  {
    match reply
    case Ok(_) => s
    case Fail => Saved(Loaded(s) + [task])
  }

  /** The reference `addTaskToAPI` makes up offline: `{id: 'local-' + Date.now()}`. */
  function LocalRef(now: nat): (ref: Record)
    ensures ref.Keys == {"id"} && ref["id"].Str?
    ensures |ref["id"].s| > 6 && ref["id"].s[..6] == "local-"
    ensures ref["id"].s[6..] == Decimal(now)
  {
    map["id" := Str("local-" + Decimal(now))]
  }

  /** `tasks.splice(idx, 1)`: the element at `idx` removed, or nothing when `idx` is past the end. */
  function RemoveAt(ts: seq<Record>, idx: nat): (r: seq<Record>)
    ensures idx >= |ts| ==> r == ts
    ensures idx < |ts| ==> |r| == |ts| - 1
    ensures idx < |ts| ==> forall j :: 0 <= j < idx ==> r[j] == ts[j]
    ensures idx < |ts| ==> forall j :: idx <= j < |r| ==> r[j] == ts[j + 1]
  {
    if idx < |ts| then ts[..idx] + ts[idx + 1..] else ts
  }

  /** Removing an element loses that element and no other. */
  lemma RemoveAtMultiset(ts: seq<Record>, idx: nat)
    requires idx < |ts|
    ensures multiset(RemoveAt(ts, idx)) + multiset{ts[idx]} == multiset(ts)
  {
    assert ts == ts[..idx] + [ts[idx]] + ts[idx + 1..];
  }

  /** `task.completed === 'Pending' ? 'Completed' : 'Pending'`. */
  function Toggled(v: Value): (w: Value)
    ensures w == Str("Completed") <==> v == Str("Pending")
    ensures w == Str("Completed") || w == Str("Pending")
  {
    if v == Str("Pending") then Str("Completed") else Str("Pending")
  }

  /**
   * Toggling twice gives back the status exactly for "Pending" and
   * "Completed"; any other status, "Deleted" included, ends up "Completed".
   */
  lemma ToggleTwice(v: Value)
    ensures Toggled(Toggled(v)) == v <==> v == Str("Pending") || v == Str("Completed")
    ensures v != Str("Pending") && v != Str("Completed") ==> Toggled(Toggled(v)) == Str("Completed")
  {
  }

  /** The task object after the in-place assignment to its `completed` member. */
  function ToggleTask(t: Record): (t': Record)
    ensures t'.Keys == t.Keys + {"completed"}
    ensures forall k :: k in t && k != "completed" ==> t'[k] == t[k]
    ensures t'["completed"] == Toggled(Field(t, "completed"))
  {
    t["completed" := Toggled(Field(t, "completed"))]
  }

  /**
   * The object `addTask` builds from the form, with the time normalised;
   * `viaDate` is what the `Date`-based reading of the time gave, if it was
   * valid. `tags` and `recurring` are null and every new task is pending.
   */
  function NewTask(title: string, description: string, priority: string, dueDate: string,
                   dueTime: string, viaDate: Option<string>): (t: Record)
    ensures t.Keys == {"title", "description", "priority", "due_date", "due_time", "tags", "recurring", "completed"}
    ensures t["title"] == Str(title) && t["description"] == Str(description)
    ensures t["priority"] == Str(priority) && t["due_date"] == Str(dueDate)
    ensures t["due_time"] == Str(NormalizedTime(dueTime, viaDate))
    ensures t["tags"] == Null && t["recurring"] == Null && t["completed"] == Str("Pending")
  {
    map["title" := Str(title), "description" := Str(description), "priority" := Str(priority),
        "due_date" := Str(dueDate), "due_time" := Str(NormalizedTime(dueTime, viaDate)),
        "tags" := Null, "recurring" := Null, "completed" := Str("Pending")]
  }

  /** The page's view of the browser: the `localStorage` mirror it reads and writes. */
  class TaskPage {
    var mirror: Storage

    constructor (initial: Storage)
      ensures mirror == initial
    {
      mirror := initial;
    }

    /** `saveToLocal(tasks)` */
    method SaveToLocal(tasks: Option<seq<Record>>)
      modifies this
      ensures mirror == Stored(tasks)
      ensures tasks.Some? ==> LoadFromLocal() == tasks.value
    {
      mirror := Stored(tasks);
    }

    /** `loadFromLocal()`: the saved list, or the empty list when the key is missing or does not parse. */
    function LoadFromLocal(): (ts: seq<Record>)
      reads this
      ensures mirror.Saved? ==> ts == mirror.tasks
      ensures mirror == Missing || mirror == Unparsable ==> ts == []
    {
      Loaded(mirror)
    }

    /**
     * `fetchTasksFromAPI()`: on a reply the mirror is overwritten with the
     * server's data, which is returned; on a failure the mirror's list is
     * returned and the mirror is left alone.
     */
    method FetchTasksFromAPI(reply: Reply<seq<Record>>) returns (tasks: Option<seq<Record>>)
      modifies this
      ensures reply.Ok? ==> tasks == reply.data && mirror == Stored(reply.data)
      ensures reply.Fail? ==> tasks == Some(old(LoadFromLocal())) && mirror == old(mirror)
      ensures tasks == Fetched(reply, old(mirror)) && mirror == AfterFetch(reply, old(mirror))
    {
      match reply
      case Ok(data) =>
        SaveToLocal(data);
        tasks := data;
      case Fail =>
        tasks := Some(LoadFromLocal());
    }

    /**
     * `addTaskToAPI(task)`: on a reply the server's `data` is returned and
     * the mirror is left alone; on a failure the task is appended to the
     * mirror as it is, and a made-up `local-` reference is returned.
     */
    method AddTaskToAPI(task: Record, reply: Reply<Record>, now: nat) returns (ref: Option<Record>)
      modifies this
      ensures reply.Ok? ==> ref == reply.data && mirror == old(mirror)
      ensures reply.Fail? ==> ref == Some(LocalRef(now)) && mirror == Saved(old(LoadFromLocal()) + [task])
      ensures mirror == AfterAdd(reply, task, old(mirror))
    {
      match reply
      case Ok(data) =>
        ref := data;
      case Fail =>
        var tasks := LoadFromLocal();
        tasks := tasks + [task];
        SaveToLocal(Some(tasks));
        ref := Some(LocalRef(now));
    }

    /**
     * `addTask`: builds the new task from the form, sends it, and refetches
     * the list, which it returns for rendering.
     */
    method AddTask(title: string, description: string, priority: string, dueDate: string,
                   dueTime: string, viaDate: Option<string>, now: nat,
                   added: Reply<Record>, refreshed: Reply<seq<Record>>)
      returns (shown: Option<seq<Record>>)
      modifies this
      ensures var task := NewTask(title, description, priority, dueDate, dueTime, viaDate);
        var s := AfterAdd(added, task, old(mirror));
        shown == Fetched(refreshed, s) && mirror == AfterFetch(refreshed, s)
    {
      var task := NewTask(title, description, priority, dueDate, dueTime, viaDate);
      var ref := AddTaskToAPI(task, added, now);
      shown := FetchTasksFromAPI(refreshed);
    }

    /**
     * The click handler of the task table. `idx` is the clicked button's
     * `data-idx`, absent when the click was not on a button. The list is
     * fetched first. Delete, once confirmed, removes the row at `idx` and
     * saves the rest. Complete toggles the row's status and sends the row
     * as a new task, then fetches again. Edit hands the row to the form
     * and removes and saves like delete. Indexing an unavailable list, and
     * complete or edit past the end of the list, throw before any further
     * effect. The second result is the row handed to the form.
     */
    method OnClick(idx: Option<nat>, button: Button, listed: Reply<seq<Record>>, confirmed: bool,
                   added: Reply<Record>, refreshed: Reply<seq<Record>>, now: nat)
      returns (form: Option<Record>)
      modifies this
      ensures idx.None? ==> mirror == old(mirror) && form.None?
      ensures idx.Some? ==>
        var ts := Fetched(listed, old(mirror));
        var s := AfterFetch(listed, old(mirror));
        var i := idx.value;
        match button
        case Delete =>
          && form.None?
          && (confirmed && ts.Some? ==> mirror == Saved(RemoveAt(ts.value, i)))
          && (!confirmed || ts.None? ==> mirror == s)
        case Edit =>
          && (ts.Some? && i < |ts.value| ==> mirror == Saved(RemoveAt(ts.value, i)) && form == Some(ts.value[i]))
          && (ts.None? || i >= |ts.value| ==> mirror == s && form.None?)
        case Complete =>
          && form.None?
          && (ts.Some? && i < |ts.value| ==>
                mirror == AfterFetch(refreshed, AfterAdd(added, ToggleTask(ts.value[i]), s)))
          && (ts.None? || i >= |ts.value| ==> mirror == s)
    {
      form := None;
      if idx.None? {
        return;
      }
      var i := idx.value;
      var tasks := FetchTasksFromAPI(listed);
      match button
      case Delete =>
        if confirmed && tasks.Some? {
          tasks := Some(RemoveAt(tasks.value, i));
          SaveToLocal(tasks);
        }
      case Complete =>
        if tasks.Some? && i < |tasks.value| {
          var task := ToggleTask(tasks.value[i]);
          tasks := Some(tasks.value[i := task]);
          var ref := AddTaskToAPI(task, added, now);
          var updated := FetchTasksFromAPI(refreshed);
        }
      case Edit =>
        if tasks.Some? && i < |tasks.value| {
          form := Some(tasks.value[i]);
          tasks := Some(RemoveAt(tasks.value, i));
          SaveToLocal(tasks);
        }
    }
  }

  /**
   * Completing a row while the server is unreachable does not change the
   * row: the mirror keeps the row as it was and gains a toggled copy of it
   * at the end.
   */
  lemma OfflineCompleteAppendsCopy(ts: seq<Record>, i: nat)
    requires i < |ts|
    ensures var s := AfterFetch(Fail, AfterAdd(Fail, ToggleTask(ts[i]), Saved(ts)));
      && Loaded(s) == ts + [ToggleTask(ts[i])]
      && Loaded(s)[i] == ts[i]
      && Field(Loaded(s)[|ts|], "completed") == Toggled(Field(ts[i], "completed"))
  {
  }
}
