/** `POST /api/assessment/save`: score the submitted sub-scores, store one result row for the
    authenticated user, and backfill the user's profile. */
module Save {
  import opened Wrappers
  import opened Text
  import opened Schema
  import opened Store
  import opened Auth
  import opened Scoring

  datatype Profile = Profile(
    name: Option<string>, title: Option<string>, organization: Option<string>,
    experience: Option<string>, certifications: Option<seq<string>>)

  datatype Objectives = Objectives(
    goal: Option<string>, timeline: Option<string>, learningStyle: Option<string>)

  /** The request body `{ profile, objectives, scores }`; a missing object is `None`. */
  datatype SaveBody = SaveBody(
    profile: Option<Profile>, objectives: Option<Objectives>, scores: Option<seq<Entry>>)

  const MissingData := "Missing required assessment data"
  const SaveFailed := "Failed to save assessment"

  /** `scores[key] || 0`: a missing sub-score is stored as 0. */
  function NamedScore(obj: seq<Entry>, key: string): (r: int)
    ensures r == 0 <==> Lookup(obj, key) == None || Lookup(obj, key) == Some(0)
    ensures r != 0 ==> Lookup(obj, key) == Some(r)
  {
    match Lookup(obj, key)
    case None => 0
    case Some(v) => v   // `0 || 0` is 0, and any other number is truthy
  }

  /** The thirteen `score_*` values of the INSERT. */
  function StoredScores(obj: seq<Entry>): (c: ScoreColumns)
    ensures forall i :: 0 <= i < |ScoreKeys| ==> Column(c, i) == NamedScore(obj, ScoreKeys[i])
  {
    var v := seq(|ScoreKeys|, i requires 0 <= i < |ScoreKeys| => NamedScore(obj, ScoreKeys[i]));
    ScoreColumns(v[0], v[1], v[2], v[3], v[4], v[5], v[6], v[7], v[8], v[9], v[10], v[11], v[12])
  }

  /** The derived metrics of one submission. */
  datatype Summary = Summary(overallScore: int, target: int, gapCount: nat, strengthCount: nat)

  /** The scoring of `api/assessment/save.js` lines 25-31, over every submitted value, named
      or not. */
  function Summarize(scores: seq<Entry>, goal: Option<string>): (s: Summary)
    requires |scores| > 0
    ensures s.gapCount + s.strengthCount == |scores|
    ensures 2 * |scores| * s.overallScore - |scores| <= 40 * Sum(Values(scores)) < 2 * |scores| * s.overallScore + |scores|
    ensures InRange(Values(scores)) ==> 0 <= s.overallScore <= 100
    ensures 3 <= s.target <= 5
  {
    var vals := Values(scores);
    var target := Target(goal);
    GapsPlusStrengths(vals, target);
    if InRange(vals) then
      OverallScoreInRange(vals);
      Summary(OverallScore(vals), target, Gaps(vals, target), Strengths(vals, target))
    else
      Summary(OverallScore(vals), target, Gaps(vals, target), Strengths(vals, target))
  }

  /** The columns the INSERT supplies; id, `completed_at` and `pdf_downloaded` are left to
      the database. */
  function Draft(uid: nat, p: Profile, o: Objectives, scores: seq<Entry>, s: Summary): AssessmentRow
  {
    AssessmentRow(
      0, uid,
      p.name, p.title, OrNull(p.organization), p.experience,
      if p.certifications.Some? then p.certifications.value else [],
      o.goal, o.timeline, o.learningStyle,
      StoredScores(scores),
      s.overallScore, s.gapCount, s.strengthCount,
      false, 0)
  }

  /** `profile.title || profile.organization || profile.experience`. */
  predicate UpdatesProfile(p: Profile)
  {
    Truthy(p.title) || Truthy(p.organization) || Truthy(p.experience)
  }

  /** The whole handler on a snapshot of the store. An empty `scores` object makes the mean
      NaN, which the integer column refuses, so the insert fails and the answer is 500. */
  function SaveStep(t: Tables, req: Request<SaveBody>, c: Crypto, now: int): (out: Outcome)
    ensures out.response.status in {200, 201, 400, 401, 405, 500}
  {
    match Preflight(req.verb, "POST")
    case Some(r) => Outcome(t, r)
    case None =>
      match Authenticate(c, req.authorization)
      case Rejected(r) => Outcome(t, r)
      case Authorized(p) =>
        var b := req.body;
        if b.profile.None? || b.objectives.None? || b.scores.None? then
          Outcome(t, Response(400, Error(MissingData)))
        else if |b.scores.value| == 0 then
          Outcome(t, Response(500, Error(SaveFailed)))
        else
          var profile := b.profile.value;
          var s := Summarize(b.scores.value, b.objectives.value.goal);
          var row := NewResultRow(t, Draft(p.userId, profile, b.objectives.value, b.scores.value, s), now);
          var t1 := WithResult(t, row);
          var t2 := if UpdatesProfile(profile) then
                      t1.(users := BackfillUser(t1.users, p.userId, profile.title,
                                                profile.organization, profile.experience, now))
                    else t1;
          Outcome(t2, Response(201, Saved(row.id, s.overallScore, s.gapCount, s.strengthCount, row.completedAt)))
  }

  /** The order of the early answers: the verb, then authentication, then the body; none of
      them touches the store, and neither does any answer other than 201. */
  lemma SaveRejections(t: Tables, req: Request<SaveBody>, c: Crypto, now: int)
    ensures req.verb != "POST" ==> SaveStep(t, req, c, now) == Outcome(t, Preflight(req.verb, "POST").value)
    ensures req.verb == "POST" && Authenticate(c, req.authorization).Rejected? ==>
      SaveStep(t, req, c, now) == Outcome(t, Authenticate(c, req.authorization).response)
    ensures req.verb == "POST" && Authenticate(c, req.authorization).Authorized? ==>
      ((SaveStep(t, req, c, now) == Outcome(t, Response(400, Error(MissingData)))) <==>
       (req.body.profile.None? || req.body.objectives.None? || req.body.scores.None?))
    ensures SaveStep(t, req, c, now).response.status != 201 ==> SaveStep(t, req, c, now).tables == t
  {
  }

  /** A successful save appends exactly one row, owned by the token's user, carrying the
      submitted profile and objectives (a blank organization as null, missing certifications
      as the empty list), `pdf_downloaded` false, the scoring of every submitted value and
      the thirteen named scores (0 when missing); no
      lead changes, and users change only by the profile backfill, which runs only when a
      title, organization or experience is given. The store stays valid. */
  lemma SaveSuccess(t: Tables, req: Request<SaveBody>, c: Crypto, now: int)
    requires Valid(t)
    requires req.verb == "POST" && Authenticate(c, req.authorization).Authorized?
    requires req.body.profile.Some? && req.body.objectives.Some? && req.body.scores.Some?
    requires |req.body.scores.value| > 0
    ensures var out, uid, vals := SaveStep(t, req, c, now), Authenticate(c, req.authorization).payload.userId,
                                  Values(req.body.scores.value);
      var goal, profile := req.body.objectives.value.goal, req.body.profile.value;
      && out.response.status == 201
      && |out.tables.results| == |t.results| + 1
      && out.tables.results[..|t.results|] == t.results
      && out.tables.leads == t.leads
      && (var row := out.tables.results[|t.results|];
         && row.id == t.nextResultId && row.userId == uid && row.completedAt == now
         && row.profileName == profile.name && row.profileTitle == profile.title
         && row.profileOrganization == OrNull(profile.organization)
         && row.profileExperience == profile.experience
         && row.certifications == (if profile.certifications.Some? then profile.certifications.value else [])
         && row.goal == goal && row.timeline == req.body.objectives.value.timeline
         && row.learningStyle == req.body.objectives.value.learningStyle
         && !row.pdfDownloaded
         && row.overallScore == OverallScore(vals)
         && row.gapCount == Gaps(vals, Target(goal))
         && row.strengthCount == Strengths(vals, Target(goal))
         && row.gapCount + row.strengthCount == |vals|
         && (forall i :: 0 <= i < |ScoreKeys| ==>
               Column(row.scores, i) == NamedScore(req.body.scores.value, ScoreKeys[i]))
         && out.response.body == Saved(row.id, row.overallScore, row.gapCount, row.strengthCount, now))
      && out.tables.users == (if UpdatesProfile(profile)
                              then BackfillUser(t.users, uid, profile.title, profile.organization, profile.experience, now)
                              else t.users)
      && Valid(out.tables)
  {
    var p := req.body.profile.value;
    var uid := Authenticate(c, req.authorization).payload.userId;
    var s := Summarize(req.body.scores.value, req.body.objectives.value.goal);
    var draft := Draft(uid, p, req.body.objectives.value, req.body.scores.value, s);
    InsertRowsValid(t, draft, PartnerLead(t.nextLeadId, 0, None, "", "", 0), now);
    var t1 := WithResult(t, NewResultRow(t, draft, now));
    BackfillUserExact(t1, uid, p.title, p.organization, p.experience, now);
  }

  /** With sub-scores in `0..5` the stored overall score lies in `0..100`. */
  lemma SavedScoreInRange(t: Tables, req: Request<SaveBody>, c: Crypto, now: int)
    requires SaveStep(t, req, c, now).response.status == 201
    requires req.body.scores.Some? && InRange(Values(req.body.scores.value))
    ensures var out := SaveStep(t, req, c, now);
      |out.tables.results| == |t.results| + 1 &&
      0 <= out.tables.results[|t.results|].overallScore <= 100
  {
  }

  /** The handler, run against the store in place: it writes the response `SaveStep`
      describes and leaves the store as `SaveStep` says. */
  method Handle(db: Database, req: Request<SaveBody>, res: Res, c: Crypto, now: int)
    requires db.Valid()
    modifies db, res
    ensures db.Valid()
    ensures res.sent == Some(SaveStep(old(db.Snapshot()), req, c, now).response)
    ensures db.Snapshot() == SaveStep(old(db.Snapshot()), req, c, now).tables
  {
    if req.verb == "OPTIONS" {
      res.Send(200, Empty);
      return;
    }
    if req.verb != "POST" {
      res.Send(405, Error(MethodNotAllowed));
      return;
    }
    var decoded := RequireAuth(c, req, res);
    if decoded.None? {
      return;
    }
    var b := req.body;
    if b.profile.None? || b.objectives.None? || b.scores.None? {
      res.Send(400, Error(MissingData));
      return;
    }
    if |b.scores.value| == 0 {
      res.Send(500, Error(SaveFailed));
      return;
    }
    var profile := b.profile.value;
    var summary := Summarize(b.scores.value, b.objectives.value.goal);
    ghost var t0 := db.Snapshot();
    var row := db.InsertResult(Draft(decoded.value.userId, profile, b.objectives.value, b.scores.value, summary), now);
    SaveSuccess(t0, req, c, now);
    if UpdatesProfile(profile) {
      db.BackfillProfile(decoded.value.userId, profile.title, profile.organization, profile.experience, now);
    }
    res.Send(201, Saved(row.id, summary.overallScore, summary.gapCount, summary.strengthCount, row.completedAt));
  }
}
