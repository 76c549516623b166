/**
  The dialog's search request answered by the search endpoint: what
  `handleSearch` shows for each response of `GET /api/users/search`.
 */
module SearchFlow {
  import opened Wrappers
  import opened Text
  import UsersSearch
  import AddChatDialog

  /** How a response reaches `handleSearch`: the JSON check on its content type (a header that
      includes `application/json`; a missing header is ""), `ok` for a 2xx status, and the
      `error` and `user` fields of its body. */
  function Deliver(r: UsersSearch.Response): (reply: AddChatDialog.SearchReply)
    ensures reply.NonJson? <==> !Contains(r.contentType, UsersSearch.JsonContentType)
    ensures reply.JsonReply? ==> (reply.ok <==> 200 <= r.status < 300)
    ensures reply.JsonReply? ==> (reply.error.Some? <==> r.body.ErrorBody?)
    ensures reply.JsonReply? && r.body.ErrorBody? ==> reply.error.value == r.body.error
    ensures reply.JsonReply? ==> (reply.user.Some? <==> r.body.UserBody?)
    ensures reply.JsonReply? && r.body.UserBody? ==>
      reply.user.value == AddChatDialog.SearchResult(r.body.id, r.body.email, r.body.fullName)
    ensures !reply.FetchFailed?
  {
    if !Contains(r.contentType, UsersSearch.JsonContentType) then AddChatDialog.NonJson
    else
      AddChatDialog.JsonReply(
        200 <= r.status < 300,
        if r.body.ErrorBody? then Some(r.body.error) else None,
        if r.body.UserBody? then Some(AddChatDialog.SearchResult(r.body.id, r.body.email, r.body.fullName)) else None)
  }

  /** For a non-blank email, the dialog ends with either the found user and no error, or
      exactly the endpoint's error text; it never reports an invalid (non-JSON) response and
      never the missing-parameter error. */
  lemma DialogShowsEndpointVerdict(
    searchEmail: string, session: UsersSearch.SessionOutcome, lookup: UsersSearch.Lookup)
    requires !IsBlank(searchEmail)
    ensures
      var r := UsersSearch.Search(Some(searchEmail), session, lookup);
      var outcome := AddChatDialog.SearchOutcome(Deliver(r));
      && outcome.0 != AddChatDialog.InvalidResponse
      && outcome.0 != UsersSearch.EmailRequired
      && (outcome.1.Some? <==> r.status == 200)
      && (r.status == 200 ==>
            outcome.0 == "" &&
            outcome.1 == Some(AddChatDialog.SearchResult(lookup.profile.id, lookup.profile.email, r.body.fullName)))
      && (r.status != 200 ==> outcome.0 == r.body.error)
  {
    assert IsBlank("");
    assert Contains(UsersSearch.JsonContentType, UsersSearch.JsonContentType);
  }

  /** A JSON content type with parameters is accepted as JSON: the user is shown. */
  lemma CharsetIsJson()
    ensures
      var r := UsersSearch.Response(200, "application/json; charset=utf-8", UsersSearch.UserBody("u1", "b@x.io", "Bob"));
      Deliver(r) == AddChatDialog.JsonReply(true, None, Some(AddChatDialog.SearchResult("u1", "b@x.io", "Bob")))
  {
    var header := "application/json; charset=utf-8";
    assert header[0..][..|UsersSearch.JsonContentType|] == UsersSearch.JsonContentType;
    assert StartsWith(header[0..], UsersSearch.JsonContentType);
  }
}
