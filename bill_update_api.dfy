/**
 * The serverless handler for one bill (`PATCH` and `DELETE` on
 * `/api/bills/<id>`): the id taken from the query or the path, the partial
 * update built field by field and applied with `$set`, and the deletion
 * guarded by the owner.
 */
module BillUpdateApi {
  import opened Wrappers
  import opened Calendar
  import opened Text
  import opened Sequences
  import opened Bills
  import opened BillUpdates

  // ---------------------------------------------------------------------------
  // The bill id

  predicate NonEmpty(s: string) {
    s != ""
  }

  /** `url.split('?')[0].split('/').filter(Boolean)`. */
  function PathSegments(url: string): (r: seq<string>)
    ensures forall k :: 0 <= k < |r| ==> r[k] != "" && '/' !in r[k]
  {
    var parts := Split(BeforeFirst(url, '?'), '/');
    var r := Filter(parts, NonEmpty);
    assert forall k :: 0 <= k < |r| ==> r[k] in parts;
    r
  }

  /** `parts.indexOf(x)`: the first position holding `x`, or -1. */
  function IndexOf(parts: seq<string>, x: string): (r: int)
    ensures -1 <= r < |parts|
    ensures r == -1 <==> x !in parts
    ensures r >= 0 ==> parts[r] == x && x !in parts[..r]
  {
    if parts == [] then -1
    else if parts[0] == x then 0
    else
      var r := IndexOf(parts[1..], x);
      if r == -1 then -1
      else
        assert parts[..r + 1] == [parts[0]] + parts[1..][..r];
        r + 1
  }

  /** The path segment right after the first `bills` segment, when there is one. */
  function PathId(url: string): (r: Option<string>)
    ensures r.Some? ==> r.value != "" && '/' !in r.value
  {
    var segments := PathSegments(url);
    var i := IndexOf(segments, "bills");
    if i != -1 && |segments| > i + 1 then Some(segments[i + 1]) else None
  }

  /** `req.query.id`, or else the id in the path; `None` when neither gives a non-empty one. */
  function RequestId(queryId: Option<string>, url: Option<string>): (r: Option<string>)
    ensures r.Some? ==> r.value != ""
    ensures Truthy(queryId) ==> r == queryId
    ensures !Truthy(queryId) ==> r == (if Truthy(url) then PathId(url.value) else None)
  {
    if Truthy(queryId) then queryId
    else if Truthy(url) then PathId(url.value)
    else None
  }

  /** On the route's own URL, with or without a query string, the id is the last segment. */
  lemma PathIdOfBillsRoute(id: string, tail: string)
    requires id != "" && '/' !in id && '?' !in id
    requires tail == [] || tail[0] == '?'
    ensures PathId("/api/bills/" + id + tail) == Some(id)
  {
    RouteSegments(id, tail);
    var segments := ["api", "bills", id];
    assert IndexOf(segments, "bills") == 1 by {
      assert segments[0] != "bills" && segments[1..][0] == "bills";
    }
  }

  lemma RouteSegments(id: string, tail: string)
    requires id != "" && '/' !in id && '?' !in id
    requires tail == [] || tail[0] == '?'
    ensures PathSegments("/api/bills/" + id + tail) == ["api", "bills", id]
  {
    var path := "/api/bills/" + id;
    RouteHasNoQuery(id);
    BeforeFirstOfPrefix(path, tail, '?');
    RouteParts(id);
    DropEmpty(id);
  }

  /** Only the leading empty segment is dropped. */
  lemma DropEmpty(id: string)
    requires id != ""
    ensures Filter(["", "api", "bills", id], NonEmpty) == ["api", "bills", id]
  {
    assert [id][1..] == [] && NonEmpty(id);
    assert Filter([id], NonEmpty) == [id];
    assert ["bills", id][1..] == [id] && NonEmpty("bills");
    assert Filter(["bills", id], NonEmpty) == ["bills", id];
    assert ["api", "bills", id][1..] == ["bills", id] && NonEmpty("api");
    assert Filter(["api", "bills", id], NonEmpty) == ["api", "bills", id];
    assert ["", "api", "bills", id][1..] == ["api", "bills", id] && !NonEmpty("");
  }

  lemma RouteHasNoQuery(id: string)
    requires '?' !in id
    ensures '?' !in "/api/bills/" + id
  {
    var path := "/api/bills/" + id;
    assert forall i :: 11 <= i < |path| ==> path[i] == id[i - 11];
  }

  lemma RouteParts(id: string)
    requires '/' !in id
    ensures Split("/api/bills/" + id, '/') == ["", "api", "bills", id]
  {
    var rest := "api" + "/" + "bills" + "/" + id;
    assert "/api/bills/" + id == "" + "/" + rest;
    SplitAfter("", '/', rest);
    SplitThree("api", "bills", id, '/');
  }

  // ---------------------------------------------------------------------------
  // PATCH: the partial update

  /**
   * The JSON body. A field left out is `None`; `Some(None)` is an explicit
   * `null` for the fields that may carry one.
   */
  datatype Body = Body(name: Option<string>, category: Option<Option<string>>, amount: Option<int>,
                       dueDate: Option<Option<string>>, pixInfo: Option<Option<string>>)

  /** `updateData`: the fields to `$set`; a field it does not name keeps its stored value. */
  datatype Patch = Patch(name: Option<string>, category: Option<Option<string>>, amount: Option<int>,
                         due: Option<Date>, pixInfo: Option<Option<string>>, updatedAt: int)

  /**
   * The `$set` document the handler builds, or `None` when the update fails:
   * a `null` due date has no `split` and throws; a due date with fewer than
   * three pieces, or a piece that reads as `NaN`, gives an invalid `Date`,
   * which the model answers with 500 as well.
   */
  function PatchOf(body: Body, now: int): (p: Option<Patch>)
    ensures p.None? <==> body.dueDate.Some? && (body.dueDate.value.None? || ParseDueDate(body.dueDate.value.value).None?)
  {
    if body.dueDate.Some? && (body.dueDate.value.None? || ParseDueDate(body.dueDate.value.value).None?) then None
    else
      Some(Patch(body.name,
                 if body.category.Some? then Some(NullIfFalsy(body.category.value)) else None,
                 body.amount,
                 if body.dueDate.Some? then ParseDueDate(body.dueDate.value.value) else None,
                 if body.pixInfo.Some? then Some(NullIfFalsy(body.pixInfo.value)) else None,
                 now))
  }

  /** A due date with a trailing space is stored as the date it names. */
  lemma PaddedDueDateStored(now: int)
    ensures PatchOf(Body(None, None, None, Some(Some("2024-06-10 ")), None), now)
            == Some(Patch(None, None, None, Some(Date(2024, 6, 10)), None, now))
  {
    PaddedDateParses();
  }

  /** `updateData` built field by field: only the fields present in the body, then `updatedAt`. */
  method BuildPatch(body: Body, now: int) returns (patch: Option<Patch>)
    ensures patch == PatchOf(body, now)
  {
    var update := Patch(None, None, None, None, None, 0);
    if body.name.Some? {
      update := update.(name := body.name);
    }
    if body.category.Some? {
      update := update.(category := Some(NullIfFalsy(body.category.value)));
    }
    if body.amount.Some? {
      update := update.(amount := body.amount);
    }
    if body.dueDate.Some? {
      if body.dueDate.value.None? {
        return None;
      }
      var due := ParseDueDate(body.dueDate.value.value);
      if due.None? {
        return None;
      }
      update := update.(due := due);
    }
    if body.pixInfo.Some? {
      update := update.(pixInfo := Some(NullIfFalsy(body.pixInfo.value)));
    }
    update := update.(updatedAt := now);
    return Some(update);
  }

  /** `updateOne(…, { $set: patch })` on one stored bill. */
  function ApplyPatch(b: Bill, p: Patch): Bill {
    b.(name := p.name.GetOr(b.name),
       category := p.category.GetOr(b.category),
       amount := p.amount.GetOr(b.amount),
       due := p.due.GetOr(b.due),
       pixInfo := p.pixInfo.GetOr(b.pixInfo),
       updatedAt := p.updatedAt)
  }

  /**
   * The update writes the fields present in the body and no other: absent
   * fields keep their values, a falsy category or PIX text is stored as
   * `null`, and `updatedAt` is always the current time. No schema rule is
   * checked, so the status and the payment time are untouched.
   */
  lemma PatchWritesOnlyGivenFields(b: Bill, body: Body, now: int)
    requires PatchOf(body, now).Some?
    ensures var u := ApplyPatch(b, PatchOf(body, now).value);
            && u.updatedAt == now
            && u.id == b.id && u.owner == b.owner && u.status == b.status && u.paidAt == b.paidAt
            && u.boletoFile == b.boletoFile && u.comprovanteFile == b.comprovanteFile
            && u.name == (if body.name.Some? then body.name.value else b.name)
            && u.amount == (if body.amount.Some? then body.amount.value else b.amount)
            && (body.category.None? ==> u.category == b.category)
            && (body.category.Some? ==> (u.category.Some? <==> Truthy(body.category.value)))
            && (body.pixInfo.None? ==> u.pixInfo == b.pixInfo)
            && (body.pixInfo.Some? ==> (u.pixInfo.Some? <==> Truthy(body.pixInfo.value)))
            && (body.dueDate.None? ==> u.due == b.due)
  {
  }

  /** Sending the same update twice stores the same bill as sending it once. */
  lemma PatchIsIdempotent(b: Bill, p: Patch)
    ensures ApplyPatch(ApplyPatch(b, p), p) == ApplyPatch(b, p)
  {
  }

  // ---------------------------------------------------------------------------
  // The handler

  /** `req.method`. */
  datatype Verb = OPTIONS | PATCH | DELETE | OtherVerb(name: string)

  /**
   * `req.body` as the handler receives it: an object, or a string that
   * `JSON.parse` turns into one, is `Parsed` (an absent body is the empty
   * object); a string that `JSON.parse` rejects is `Malformed`.
   */
  datatype Payload = Parsed(fields: Body) | Malformed

  /** A request: `user` is the decoded token's id, `None` without a valid token. */
  datatype Request = Request(verb: Verb, user: Option<Id>, queryId: Option<string>, url: Option<string>, body: Payload)

  /** A PATCH or DELETE with a token, an id and a readable body, the requests that reach the store. */
  predicate Targets(req: Request) {
    req.verb in {PATCH, DELETE} && req.user.Some? && RequestId(req.queryId, req.url).Some? && req.body.Parsed?
  }

  function TargetId(req: Request): Id
    requires Targets(req)
  {
    RequestId(req.queryId, req.url).value
  }

  /** The bill `id` exists and belongs to `user`. */
  predicate Owns(store: Store, id: Id, user: Id) {
    id in store && store[id].owner == user
  }

  /**
   * The handler. OPTIONS answers 200 and any method other than PATCH or
   * DELETE 405, before the token is looked at; without an id the answer is
   * 400 before the store is read; a body string that is not JSON makes
   * `JSON.parse` throw (500) before the id is parsed; an id that is not an ObjectId makes
   * `new ObjectId(id)` throw (500). A bill the caller does not own is 404.
   * DELETE of a bill that has a stored boleto or receipt reaches the
   * unimported `path` module and fails with 500, deleting nothing.
   */
  function Handle(req: Request, store: Store, now: int): (res: (Reply, Store))
    ensures req.verb == OPTIONS ==> res == (Preflight, store)
    ensures req.verb.OtherVerb? ==> res == (MethodNotAllowed, store)
    ensures req.verb in {PATCH, DELETE} && req.user.None? ==> res == (Unauthorized, store)
    ensures req.verb in {PATCH, DELETE} && req.user.Some? && RequestId(req.queryId, req.url).None? ==>
              res == (BadRequest, store)
    ensures req.verb in {PATCH, DELETE} && req.user.Some? && RequestId(req.queryId, req.url).Some? && req.body.Malformed? ==>
              res == (ServerError, store)
    ensures res.1 != store ==>
              && req.user.Some? && RequestId(req.queryId, req.url).Some? && req.body.Parsed?
              && var id := RequestId(req.queryId, req.url).value;
              && id in store && store[id].owner == req.user.value
              && (res.1 == store - {id} || (id in res.1 && res.1 == store[id := res.1[id]]))
    ensures res.0 == DeletedOk ==>
              req.verb == DELETE && RequestId(req.queryId, req.url).Some? &&
              var id := RequestId(req.queryId, req.url).value;
              id in store && res.1 == store - {id} && !Truthy(store[id].boletoFile) && !Truthy(store[id].comprovanteFile)
    ensures res.0.Updated? ==>
              req.verb == PATCH && req.body.Parsed? && PatchOf(req.body.fields, now).Some? && RequestId(req.queryId, req.url).Some? &&
              var id := RequestId(req.queryId, req.url).value;
              id in store && res.0.bill == ApplyPatch(store[id], PatchOf(req.body.fields, now).value) && res.1 == store[id := res.0.bill]
    ensures Targets(req) && !IsObjectId(TargetId(req)) ==> res == (ServerError, store)
    ensures Targets(req) && IsObjectId(TargetId(req)) && !Owns(store, TargetId(req), req.user.value) ==> res == (NotFound, store)
    ensures Targets(req) && req.verb == DELETE && IsObjectId(TargetId(req)) && Owns(store, TargetId(req), req.user.value) ==>
              var b := store[TargetId(req)];
              res == if Truthy(b.boletoFile) || Truthy(b.comprovanteFile) then (ServerError, store)
                     else (DeletedOk, store - {TargetId(req)})
    ensures Targets(req) && req.verb == PATCH && IsObjectId(TargetId(req)) && Owns(store, TargetId(req), req.user.value) ==>
              var id := TargetId(req);
              res == match PatchOf(req.body.fields, now)
                     case None => (ServerError, store)
                     case Some(p) => (Updated(ApplyPatch(store[id], p)), store[id := ApplyPatch(store[id], p)])
  {
    if req.verb == OPTIONS then (Preflight, store)
    else if req.verb.OtherVerb? then (MethodNotAllowed, store)
    else
      if req.user.None? then (Unauthorized, store)
      else
        var id := RequestId(req.queryId, req.url);
        if id.None? then (BadRequest, store)
        else if req.body.Malformed? then (ServerError, store)
        else if !IsObjectId(id.value) then (ServerError, store)
        else
          match FindOwned(store, id.value, req.user.value)
          case None => (NotFound, store)
          case Some(b) =>
            if req.verb == DELETE then
              if Truthy(b.boletoFile) || Truthy(b.comprovanteFile) then (ServerError, store)
              else (DeletedOk, store - {id.value})
            else
              match PatchOf(req.body.fields, now)
              case None => (ServerError, store)
              case Some(p) =>
                var u := ApplyPatch(b, p);
                (Updated(u), store[id.value := u])
  }
}
