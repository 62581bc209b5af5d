/** `POST /api/assessment/track-lead`: append one click on a partner resource to the
    `partner_leads` log. There is no deduplication. */
module TrackLead {
  import opened Wrappers
  import opened Text
  import opened Schema
  import opened Store
  import opened Auth

  /** The request body `{ assessmentId, partnerCode, resourceClicked }`. */
  datatype LeadBody = LeadBody(
    assessmentId: Option<int>, partnerCode: Option<string>, resourceClicked: Option<string>)

  const MissingTrackingData := "Missing required tracking data"

  /** `assessmentId || null`: 0 is falsy. */
  function IdOrNull(o: Option<int>): Option<int>
  {
    if o.Some? && o.value != 0 then o else None
  }

  /** The whole handler on a snapshot of the store. */
  function TrackLeadStep(t: Tables, req: Request<LeadBody>, c: Crypto, now: int): (out: Outcome)
    ensures out.response.status in {200, 201, 400, 401, 405}
  {
    match Preflight(req.verb, "POST")
    case Some(r) => Outcome(t, r)
    case None =>
      match Authenticate(c, req.authorization)
      case Rejected(r) => Outcome(t, r)
      case Authorized(p) =>
        var b := req.body;
        if !Truthy(b.partnerCode) || !Truthy(b.resourceClicked) then
          Outcome(t, Response(400, Error(MissingTrackingData)))
        else
          var row := NewLeadRow(t, p.userId, IdOrNull(b.assessmentId), b.partnerCode.value,
                                b.resourceClicked.value, now);
          Outcome(WithLead(t, row), Response(201, Success))
  }

  /** The verb is checked first (200 for `OPTIONS`, 405 for anything but `POST`), then
      authentication, then the body; a falsy partner code or resource is a 400; no answer
      other than 201 touches the store. */
  lemma TrackLeadRejections(t: Tables, req: Request<LeadBody>, c: Crypto, now: int)
    ensures req.verb == "OPTIONS" ==> TrackLeadStep(t, req, c, now) == Outcome(t, Response(200, Empty))
    ensures req.verb != "OPTIONS" && req.verb != "POST" ==>
      TrackLeadStep(t, req, c, now) == Outcome(t, Response(405, Error(MethodNotAllowed)))
    ensures req.verb == "POST" && Authenticate(c, req.authorization).Rejected? ==>
      TrackLeadStep(t, req, c, now) == Outcome(t, Authenticate(c, req.authorization).response)
    ensures req.verb == "POST" && Authenticate(c, req.authorization).Authorized? ==>
      ((TrackLeadStep(t, req, c, now).response == Response(400, Error(MissingTrackingData))) <==>
       (!Truthy(req.body.partnerCode) || !Truthy(req.body.resourceClicked)))
    ensures TrackLeadStep(t, req, c, now).response.status != 201 ==> TrackLeadStep(t, req, c, now).tables == t
  {
  }

  /** A successful call answers 201 `{success: true}` and appends exactly one row carrying
      the token's user id, the assessment id or null, the partner code and the resource;
      nothing else changes and the store stays valid. */
  lemma TrackLeadAppends(t: Tables, req: Request<LeadBody>, c: Crypto, now: int)
    requires Valid(t)
    requires TrackLeadStep(t, req, c, now).response.status == 201
    ensures req.verb == "POST" && Authenticate(c, req.authorization).Authorized?
    ensures Truthy(req.body.partnerCode) && Truthy(req.body.resourceClicked)
    ensures var out := TrackLeadStep(t, req, c, now);
      && out.response == Response(201, Success)
      && out.tables.users == t.users && out.tables.results == t.results
      && |out.tables.leads| == |t.leads| + 1
      && out.tables.leads[..|t.leads|] == t.leads
      && out.tables.leads[|t.leads|] == PartnerLead(
           t.nextLeadId, Authenticate(c, req.authorization).payload.userId,
           if req.body.assessmentId.Some? && req.body.assessmentId.value != 0
           then req.body.assessmentId else None,
           req.body.partnerCode.value, req.body.resourceClicked.value, now)
      && Valid(out.tables)
  {
    var out := TrackLeadStep(t, req, c, now);
    assert out.tables.leads[..|t.leads|] == t.leads;
  }

  /** No deduplication: the same successful call made twice, at `now` and then at `later`,
      appends two rows with different ids that differ in nothing else but their click
      times. */
  lemma TrackLeadTwice(t: Tables, req: Request<LeadBody>, c: Crypto, now: int, later: int)
    requires Valid(t)
    requires TrackLeadStep(t, req, c, now).response.status == 201
    ensures var t1 := TrackLeadStep(t, req, c, now).tables;
      var out := TrackLeadStep(t1, req, c, later);
      && out.response.status == 201
      && |out.tables.leads| == |t.leads| + 2
      && var a, b := out.tables.leads[|t.leads|], out.tables.leads[|t.leads| + 1];
         && a.id != b.id && a.clickedAt == now && b.clickedAt == later
         && a == b.(id := a.id, clickedAt := now)
  {
    TrackLeadAppends(t, req, c, now);
    var t1 := TrackLeadStep(t, req, c, now).tables;
    TrackLeadAppends(t1, req, c, later);
  }

  /** The handler, run against the store in place. */
  method Handle(db: Database, req: Request<LeadBody>, res: Res, c: Crypto, now: int)
    requires db.Valid()
    modifies db, res
    ensures db.Valid()
    ensures res.sent == Some(TrackLeadStep(old(db.Snapshot()), req, c, now).response)
    ensures db.Snapshot() == TrackLeadStep(old(db.Snapshot()), req, c, now).tables
  {
    if req.verb == "OPTIONS" {
      res.Send(200, Empty);
      return;
    }
    if req.verb != "POST" {
      res.Send(405, Error(MethodNotAllowed));
      return;
    }
    var decoded := RequireAuth(c, req, res);
    if decoded.None? {
      return;
    }
    var b := req.body;
    if !Truthy(b.partnerCode) || !Truthy(b.resourceClicked) {
      res.Send(400, Error(MissingTrackingData));
      return;
    }
    ghost var t0 := db.Snapshot();
    var row := db.InsertLead(decoded.value.userId, IdOrNull(b.assessmentId), b.partnerCode.value,
                             b.resourceClicked.value, now);
    TrackLeadAppends(t0, req, c, now);
    res.Send(201, Success);
  }
}
