/**
 * The task endpoint public/api.php: the request method picks at most one
 * call on the task controller, or an error envelope answered without one.
 */
module Api {
  import opened Wrappers
  import opened Json
  import opened Records
  import opened Tasks

  /** The one controller call a request makes, or the envelope it answers with instead. */
  datatype Route =
    | CallFetchAll
    | CallCreate(payload: Payload)
    | CallUpdate(id: Value, patch: Payload)
    | Answer(reply: Envelope)

  /** The body with its `id` key removed (`unset($payload['id'])`). */
  function WithoutId(body: Payload): (patch: Payload)
    ensures "id" !in patch
    ensures forall k :: k != "id" ==> (k in patch <==> k in body)
    ensures forall k :: k in patch ==> patch[k] == body[k]
  {
    body - {"id"}
  }

  /**
   * The chain of `if`s on the request method: GET lists, POST creates with
   * the decoded body, PATCH updates the body's `id` with the rest of the body
   * (or refuses when the id is missing or null), anything else is refused.
   */
  function Dispatch(verb: string, body: Payload): (r: Route)
    ensures r.CallFetchAll? <==> verb == "GET"
    ensures r.CallCreate? <==> verb == "POST"
    ensures r.CallCreate? ==> r.payload == body
    ensures r.CallUpdate? <==> verb == "PATCH" && Isset(body, "id")
    ensures r.CallUpdate? ==> r.id == body["id"] && r.id != Null && r.patch == WithoutId(body)
    ensures verb == "PATCH" && !Isset(body, "id") ==> r == Answer(Failure("Task ID required for update"))
    ensures verb != "GET" && verb != "POST" && verb != "PATCH" ==> r == Answer(Failure("Unsupported method"))
  {
    if verb == "GET" then CallFetchAll
    else if verb == "POST" then CallCreate(body)
    else if verb == "PATCH" then
      if !Isset(body, "id") then Answer(Failure("Task ID required for update"))
      else CallUpdate(body["id"], WithoutId(body))
    else Answer(Failure("Unsupported method"))
  }

  /**
   * A PATCH request changes exactly the recognised columns its body sets,
   * in the row its `id` names: the `id` key itself is never a column.
   */
  lemma PatchColumns(body: Payload, c: Column)
    requires Isset(body, "id")
    ensures Dispatch("PATCH", body).CallUpdate?
    ensures c in Recognised(Dispatch("PATCH", body).patch) <==> Isset(body, Key(c))
  {
    assert Key(c) != "id" by {
      match c
      case Title => case Description => case Priority => case DueDate =>
      case DueTime => case Tags => case Recurring => case Completed =>
    }
  }

  /** Performs the routed call on the controller and answers with its envelope. */
  method Execute(ctrl: TaskController, route: Route) returns (r: Envelope)
    requires ctrl.Valid()
    modifies ctrl
    ensures ctrl.Valid()
    ensures route.Answer? || route.CallFetchAll? ==> ctrl.rows == old(ctrl.rows) && ctrl.nextId == old(ctrl.nextId)
    ensures route.Answer? ==> r == route.reply
    ensures route.CallFetchAll? ==> r == ctrl.FetchAll()
    ensures route.CallCreate? && Authenticated(ctrl.session.userId) ==>
      && ctrl.rows == old(ctrl.rows) + [NewRow(old(ctrl.nextId), ctrl.session.userId.value, route.payload)]
      && ctrl.nextId == old(ctrl.nextId) + 1
      && r == Envelope(true, None, Some(InsertedId(old(ctrl.nextId))), None)
    ensures route.CallCreate? && !Authenticated(ctrl.session.userId) ==>
      r == Failure("Not authenticated") && ctrl.rows == old(ctrl.rows) && ctrl.nextId == old(ctrl.nextId)
    ensures route.CallUpdate? ==> ctrl.nextId == old(ctrl.nextId)
    ensures route.CallUpdate? && !AnyFieldSet(route.patch) ==>
      r == Failure("No fields to update") && ctrl.rows == old(ctrl.rows)
    ensures route.CallUpdate? && AnyFieldSet(route.patch) ==>
      r == Success && ctrl.rows == PatchRows(old(ctrl.rows), route.id, Recognised(route.patch))
  {
    match route
    case CallFetchAll =>
      r := ctrl.FetchAll();
    case CallCreate(p) =>
      r := ctrl.Create(p);
    case CallUpdate(id, patch) =>
      r := ctrl.Update(id, patch);
    case Answer(reply) =>
      r := reply;
  }

  /** One request to public/api.php. */
  method Serve(ctrl: TaskController, verb: string, body: Payload) returns (r: Envelope)
    requires ctrl.Valid()
    modifies ctrl
    ensures ctrl.Valid()
    ensures verb != "POST" ==> ctrl.nextId == old(ctrl.nextId)
    ensures verb != "POST" && verb != "PATCH" ==> ctrl.rows == old(ctrl.rows)
    ensures verb == "GET" ==> r == ctrl.FetchAll()
    ensures verb == "POST" && Authenticated(ctrl.session.userId) ==>
      && ctrl.rows == old(ctrl.rows) + [NewRow(old(ctrl.nextId), ctrl.session.userId.value, body)]
      && ctrl.nextId == old(ctrl.nextId) + 1
      && r == Envelope(true, None, Some(InsertedId(old(ctrl.nextId))), None)
    ensures verb == "POST" && !Authenticated(ctrl.session.userId) ==>
      r == Failure("Not authenticated") && ctrl.rows == old(ctrl.rows) && ctrl.nextId == old(ctrl.nextId)
    ensures verb == "PATCH" && !Isset(body, "id") ==>
      r == Failure("Task ID required for update") && ctrl.rows == old(ctrl.rows)
    ensures verb == "PATCH" && Isset(body, "id") && !AnyFieldSet(body) ==>
      r == Failure("No fields to update") && ctrl.rows == old(ctrl.rows)
    ensures verb == "PATCH" && Isset(body, "id") && AnyFieldSet(body) ==>
      r == Success && ctrl.rows == PatchRows(old(ctrl.rows), body["id"], Recognised(body))
    ensures verb != "GET" && verb != "POST" && verb != "PATCH" ==> r == Failure("Unsupported method")
  {
    var route := Dispatch(verb, body);
    if verb == "PATCH" && Isset(body, "id") {
      forall c
        ensures c in Recognised(route.patch) <==> c in Recognised(body)
        ensures Isset(route.patch, Key(c)) <==> Isset(body, Key(c))
      {
        PatchColumns(body, c);
      }
      assert Recognised(route.patch) == Recognised(body);
      assert AnyFieldSet(route.patch) <==> AnyFieldSet(body);
    }
    r := Execute(ctrl, route);
  }
}

/**
 * The front controller server/public/index.php: the same routing as
 * public/api.php for GET and POST, and no PATCH branch at all.
 */
module FrontController {
  import opened Wrappers
  import opened Json
  import opened Records
  import opened Tasks
  import Api

  function Dispatch(verb: string, body: Payload): (r: Api.Route)
    ensures r.CallFetchAll? <==> verb == "GET"
    ensures r.CallCreate? <==> verb == "POST"
    ensures r.CallCreate? ==> r.payload == body
    ensures !r.CallUpdate?
    ensures verb != "GET" && verb != "POST" ==> r == Api.Answer(Failure("Unsupported method"))
  {
    if verb == "GET" then Api.CallFetchAll
    else if verb == "POST" then Api.CallCreate(body)
    else Api.Answer(Failure("Unsupported method"))
  }

  /**
   * The front controller agrees with public/api.php on GET and POST and on
   * every method api.php does not know; on PATCH it refuses where api.php
   * would dispatch or ask for an id.
   */
  lemma AgreesWithApi(verb: string, body: Payload)
    ensures verb != "PATCH" ==> Dispatch(verb, body) == Api.Dispatch(verb, body)
    ensures verb == "PATCH" ==> Dispatch(verb, body) == Api.Answer(Failure("Unsupported method")) != Api.Dispatch(verb, body)
  {
  }

  /** One request to server/public/index.php. */
  method Serve(ctrl: TaskController, verb: string, body: Payload) returns (r: Envelope)
    requires ctrl.Valid()
    modifies ctrl
    ensures ctrl.Valid()
    ensures verb != "POST" ==> ctrl.rows == old(ctrl.rows) && ctrl.nextId == old(ctrl.nextId)
    ensures verb == "GET" ==> r == ctrl.FetchAll()
    ensures verb == "POST" && Authenticated(ctrl.session.userId) ==>
      && ctrl.rows == old(ctrl.rows) + [NewRow(old(ctrl.nextId), ctrl.session.userId.value, body)]
      && ctrl.nextId == old(ctrl.nextId) + 1
      && r == Envelope(true, None, Some(InsertedId(old(ctrl.nextId))), None)
    ensures verb == "POST" && !Authenticated(ctrl.session.userId) ==>
      r == Failure("Not authenticated") && ctrl.rows == old(ctrl.rows) && ctrl.nextId == old(ctrl.nextId)
    ensures verb != "GET" && verb != "POST" ==> r == Failure("Unsupported method")
  {
    r := Api.Execute(ctrl, Dispatch(verb, body));
  }
}
