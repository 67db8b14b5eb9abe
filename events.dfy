/** Model of routes/events.js: the request-parameter parsing shared by the
    event routes (parseEventQueryParams), the location-read access check
    (validateEventAccess) and the permission branching of GET /api/events.

    The permission lookup on the caller's role and the event-membership query
    are inputs: a set of permissions and a boolean. */
module EventRoutes {
  import opened Wrappers

  /** The permissions these routes consult. */
  datatype Permission = ReadLocationAll | ReadLocationEvent | ReadEventAll | ReadEventUser

  /** A field of the event form sent in the request body; its choices are
      cleared in place. */
  class FormField {
    const name: string
    var choices: seq<string>

    constructor (name: string, choices: seq<string>)
      ensures this.name == name && this.choices == choices
    {
      this.name := name;
      this.choices := choices;
    }
  }

  /** `req.body.form`, whose arrays may be missing. */
  datatype Form = Form(fields: Option<seq<FormField>>, userFields: Option<seq<string>>)

  /** What the routes read from a request: `req.param('state')`,
      `req.param('userId')`, `req.query.populate` and `req.body.form`. */
  datatype EventRequest = EventRequest(state: Option<string>, userId: Option<string>, populate: Option<string>, form: Option<Form>)

  /** `req.parameters`; `complete` may be left unset. */
  datatype Parameters = Parameters(complete: Option<bool>, userId: Option<string>, populate: bool)

  /** `form.fields || []` of `req.body.form || {}`. */
  function FieldsOf(req: EventRequest): seq<FormField> {
    if req.form.Some? then req.form.value.fields.GetOr([]) else []
  }

  /** `form.userFields || []` of `req.body.form || {}`. */
  function UserFieldsOf(req: EventRequest): seq<string> {
    if req.form.Some? then req.form.value.userFields.GetOr([]) else []
  }

  /** A string parameter is truthy when present and not empty. */
  predicate Truthy(s: Option<string>) {
    s.Some? && s.value != ""
  }

  /** Builds the parameters of an event request and empties the choices of
      every form field that is filled in per user. */
  method ParseEventQueryParams(req: EventRequest) returns (parameters: Parameters)
    modifies FieldsOf(req)
    // a missing, empty or 'active' state asks for events not yet complete
    ensures parameters.complete == Some(false) <==> !Truthy(req.state) || req.state == Some("active")
    ensures parameters.complete == Some(true) <==> req.state == Some("complete")
    ensures parameters.userId == req.userId
    ensures !parameters.populate <==> req.populate == Some("false")
    // user fields lose their choices; other fields are untouched
    ensures forall f :: f in FieldsOf(req) ==>
      f.choices == if f.name in UserFieldsOf(req) then [] else old(f.choices)
  {
    var complete: Option<bool> := None;
    var state := req.state;
    if !Truthy(state) || state.value == "active" {
      complete := Some(false);
    } else if state.value == "complete" {
      complete := Some(true);
    }

    var userId := req.userId;

    var populate := true;
    if req.populate == Some("false") {
      populate := false;
    }

    var fields := FieldsOf(req);
    var userFields := UserFieldsOf(req);
    for i := 0 to |fields|
      invariant forall f :: f in fields ==>
        f.choices == if f.name in userFields && f in fields[..i] then [] else old(f.choices)
    {
      if fields[i].name in userFields {
        fields[i].choices := [];
      }
    }

    parameters := Parameters(complete, userId, populate);
  }

  /** What a route does next: hand on to the next handler, or answer with an
      HTTP status. */
  datatype Outcome = Next | Status(code: int)

  /** validateEventAccess: `userInEvent` is the answer of the event
      membership query for the caller (false when the query fails). */
  function ValidateEventAccess(permissions: set<Permission>, userInEvent: bool): (o: Outcome)
    ensures o == Next <==> ReadLocationAll in permissions || (ReadLocationEvent in permissions && userInEvent)
    ensures o != Next ==> o == Status(403)
  {
    if ReadLocationAll in permissions then Next
    else if ReadLocationEvent in permissions then
      if userInEvent then Next else Status(403)
    else Status(403)
  }

  /** The filter of an event listing. */
  datatype EventFilter = EventFilter(complete: Option<bool>, userId: Option<string>)

  /** The options passed to the event store; `access` limits the listing to
      the events the given user belongs to. */
  datatype EventOptions = EventOptions(filter: EventFilter, populate: bool, access: Option<string>)

  /** The call GET /api/events makes on the event store, or the status it
      answers with. */
  datatype Listing = GetEvents(options: EventOptions) | GetEvent(options: EventOptions) | Refused(code: int)

  /** GET /api/events, after ParseEventQueryParams, for the caller `callerId`. */
  function ListEvents(permissions: set<Permission>, callerId: string, p: Parameters): (l: Listing)
    // READ_EVENT_ALL lists without an access restriction
    ensures ReadEventAll in permissions ==> l.GetEvents? && l.options.access.None?
    // otherwise READ_EVENT_USER lists the caller's events only
    ensures ReadEventAll !in permissions && ReadEventUser in permissions ==>
      l.GetEvent? && l.options.access == Some(callerId)
    // with neither, 403
    ensures ReadEventAll !in permissions && ReadEventUser !in permissions ==> l == Refused(403)
    // the filter carries `complete` and `populate` as parsed, and `userId`
    // only when it was given
    ensures !l.Refused? ==>
      && l.options.filter.complete == p.complete
      && l.options.populate == p.populate
      && (l.options.filter.userId.Some? <==> Truthy(p.userId))
      && (l.options.filter.userId.Some? ==> l.options.filter.userId == p.userId)
  {
    var filter := EventFilter(p.complete, if Truthy(p.userId) then p.userId else None);
    var options := EventOptions(filter, p.populate, None);
    if ReadEventAll in permissions then GetEvents(options)
    else if ReadEventUser in permissions then GetEvent(options.(access := Some(callerId)))
    else Refused(403)
  }

  /** More permissions never take location access away. */
  lemma EventAccessMonotone(fewer: set<Permission>, more: set<Permission>, userInEvent: bool)
    requires fewer <= more
    ensures ValidateEventAccess(fewer, userInEvent) == Next ==> ValidateEventAccess(more, userInEvent) == Next
  {
  }

  /** More permissions never turn a listing into a refusal, nor an
      unrestricted listing into a restricted one. */
  lemma ListingMonotone(fewer: set<Permission>, more: set<Permission>, callerId: string, p: Parameters)
    requires fewer <= more
    ensures !ListEvents(fewer, callerId, p).Refused? ==> !ListEvents(more, callerId, p).Refused?
    ensures ListEvents(fewer, callerId, p).GetEvents? ==> ListEvents(more, callerId, p).GetEvents?
  {
  }
}
