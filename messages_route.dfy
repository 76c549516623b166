/**
  The `/api/messages` handlers of src/app/api/messages/route.ts over an
  in-memory `messages` table. Each handler reads the request body, asks the
  auth service for the user, and for PUT and DELETE looks the row up and checks
  ownership before it writes. Backend outcomes the table cannot decide (an auth
  error, a failing query, a failing write, an unreadable body) are inputs.
 */
module MessagesRoute {
  import opened Wrappers

  type MessageId = nat

  /** A row of `messages`. */
  datatype Message = Message(chatId: string, profileId: string, content: string, isEdited: bool)

  /** What `auth.getUser()` gave: an error (thrown), no user, or a user. */
  datatype AuthOutcome = AuthError | NoUser | SignedIn(userId: string)

  /** The JSON bodies the handlers read; POST ignores any `profile_id` the client sends. */
  datatype CreateRequest = CreateRequest(chatId: string, content: string, claimedProfileId: Option<string>)
  datatype EditRequest = EditRequest(id: MessageId, content: string)

  datatype Body = ErrorBody(error: string) | Created | Success

  datatype Response = Response(status: int, body: Body)

  /** The two handlers that act on an existing row. */
  datatype Op = Edit | Remove

  // This route's own literal; the search endpoint has a separate one (`UsersSearch.Unauthorized`).
  const Unauthorized := "Unauthorized"
  const NotFound := "Message not found"
  const CreateFailed := "Failed to create message"

  function Forbidden(op: Op): string {
    match op
    case Edit => "Unauthorized to edit this message"
    case Remove => "Unauthorized to delete this message"
  }

  /** The fixed message of the catch-all 500 of each handler. */
  function Failed(op: Op): string {
    match op
    case Edit => "Failed to update message"
    case Remove => "Failed to delete message"
  }

  /** Whether a handler may go on to write, or the response it stops with. */
  datatype Gate = Proceed | Halt(response: Response)

  /** The check ladder of PUT and DELETE: authentication, then existence, then ownership.
      `lookupFails` is a failing `select ... .single()` query, which the handler reports as 404. */
  function Authorize(op: Op, auth: AuthOutcome, rows: map<MessageId, Message>, id: MessageId, lookupFails: bool): (g: Gate)
    ensures g.Proceed? <==> auth.SignedIn? && !lookupFails && id in rows && rows[id].profileId == auth.userId
    // authentication is decided first, whatever the table holds
    ensures auth.AuthError? ==> g == Halt(Response(500, ErrorBody(Failed(op))))
    ensures auth.NoUser? ==> g == Halt(Response(401, ErrorBody(Unauthorized)))
    // then existence
    ensures auth.SignedIn? && (lookupFails || id !in rows) ==> g == Halt(Response(404, ErrorBody(NotFound)))
    // then ownership
    ensures auth.SignedIn? && !lookupFails && id in rows && rows[id].profileId != auth.userId ==>
      g == Halt(Response(403, ErrorBody(Forbidden(op))))
  {
    match auth
    case AuthError => Halt(Response(500, ErrorBody(Failed(op))))
    case NoUser => Halt(Response(401, ErrorBody(Unauthorized)))
    case SignedIn(user) =>
      if lookupFails || id !in rows then Halt(Response(404, ErrorBody(NotFound)))
      else if rows[id].profileId != user then Halt(Response(403, ErrorBody(Forbidden(op))))
      else Proceed
  }

  /** The `messages` table. Ids are assigned by the table, from a counter above every id in use. */
  class MessageTable {
    var rows: map<MessageId, Message>
    var nextId: MessageId

    ghost predicate Valid()
      reads this
    {
      forall id :: id in rows ==> id < nextId
    }

    constructor ()
      ensures Valid() && rows == map[]
    {
      rows := map[];
      nextId := 0;
    }

    /** `GET`: every row, or 400 when the query fails; no authentication check. */
    method List(queryFails: bool) returns (status: int, listed: map<MessageId, Message>)
      ensures status == (if queryFails then 400 else 200)
      ensures !queryFails ==> listed == rows
      ensures queryFails ==> listed == map[]
    {
      if queryFails {
        status, listed := 400, map[];
      } else {
        status, listed := 200, rows;
      }
    }

    /** `POST`: insert a row owned by the signed-in user. */
    method Post(request: Option<CreateRequest>, auth: AuthOutcome, insertFails: bool) returns (resp: Response)
      requires Valid()
      modifies this
      ensures Valid()
      ensures request.None? || auth.AuthError? ==> resp == Response(500, ErrorBody(CreateFailed))
      ensures request.Some? && auth.NoUser? ==> resp == Response(401, ErrorBody(Unauthorized))
      ensures request.Some? && auth.SignedIn? && insertFails ==> resp == Response(500, ErrorBody(CreateFailed))
      ensures resp.status == 201 <==> request.Some? && auth.SignedIn? && !insertFails
      // the new row is a fresh id, owned by the session user whatever the body claims
      ensures resp.status == 201 ==>
        && resp.body == Created
        && old(nextId) !in old(rows)
        && rows == old(rows)[old(nextId) := Message(request.value.chatId, auth.userId, request.value.content, false)]
      ensures resp.status != 201 ==> rows == old(rows)
    {
      if request.None? || auth.AuthError? {
        return Response(500, ErrorBody(CreateFailed));
      }
      if auth.NoUser? {
        return Response(401, ErrorBody(Unauthorized));
      }
      if insertFails {
        return Response(500, ErrorBody(CreateFailed));
      }
      var req := request.value;
      rows := rows[nextId := Message(req.chatId, auth.userId, req.content, false)];
      nextId := nextId + 1;
      resp := Response(201, Created);
    }

    /** `PUT`: the owner replaces the content of a row and marks it edited. */
    method Put(request: Option<EditRequest>, auth: AuthOutcome, lookupFails: bool, updateFails: bool) returns (resp: Response)
      requires Valid()
      modifies this
      ensures Valid() && nextId == old(nextId)
      ensures request.None? ==> resp == Response(500, ErrorBody(Failed(Edit)))
      ensures request.Some? ==>
        match Authorize(Edit, auth, old(rows), request.value.id, lookupFails)
        case Halt(r) => resp == r
        case Proceed => resp == if updateFails then Response(500, ErrorBody(Failed(Edit))) else Response(200, Success)
      // a successful edit touches exactly the one row, and only its content and flag
      ensures resp.status == 200 ==>
        var id := request.value.id;
        && id in old(rows)
        && old(rows)[id].profileId == auth.userId
        && rows == old(rows)[id := old(rows)[id].(content := request.value.content, isEdited := true)]
      ensures resp.status != 200 ==> rows == old(rows)
    {
      if request.None? {
        return Response(500, ErrorBody(Failed(Edit)));
      }
      var req := request.value;
      var gate := Authorize(Edit, auth, rows, req.id, lookupFails);
      if gate.Halt? {
        return gate.response;
      }
      if updateFails {
        return Response(500, ErrorBody(Failed(Edit)));
      }
      rows := rows[req.id := rows[req.id].(content := req.content, isEdited := true)];
      resp := Response(200, Success);
    }

    /** `DELETE`: the owner removes a row. */
    method Delete(id: Option<MessageId>, auth: AuthOutcome, lookupFails: bool, deleteFails: bool) returns (resp: Response)
      requires Valid()
      modifies this
      ensures Valid() && nextId == old(nextId)
      ensures id.None? ==> resp == Response(500, ErrorBody(Failed(Remove)))
      ensures id.Some? ==>
        match Authorize(Remove, auth, old(rows), id.value, lookupFails)
        case Halt(r) => resp == r
        case Proceed => resp == if deleteFails then Response(500, ErrorBody(Failed(Remove))) else Response(200, Success)
      // a successful delete removes exactly that row
      ensures resp.status == 200 ==>
        && id.value in old(rows)
        && old(rows)[id.value].profileId == auth.userId
        && rows == old(rows) - {id.value}
      ensures resp.status != 200 ==> rows == old(rows)
    {
      if id.None? {
        return Response(500, ErrorBody(Failed(Remove)));
      }
      var gate := Authorize(Remove, auth, rows, id.value, lookupFails);
      if gate.Halt? {
        return gate.response;
      }
      if deleteFails {
        return Response(500, ErrorBody(Failed(Remove)));
      }
      rows := rows - {id.value};
      resp := Response(200, Success);
    }
  }

  /** Deleting the same id twice: once the first delete succeeds, the second finds no row (404). */
  method DeleteTwice(table: MessageTable, id: MessageId, user: string) returns (first: Response, second: Response)
    requires table.Valid()
    modifies table
    ensures first.status == 200 ==> second == Response(404, ErrorBody(NotFound))
    ensures first.status != 200 ==> table.rows == old(table.rows)
  {
    first := table.Delete(Some(id), SignedIn(user), false, false);
    second := table.Delete(Some(id), SignedIn(user), false, false);
  }
}
