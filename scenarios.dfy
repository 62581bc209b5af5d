/** Properties that span several handlers: what one request writes, a later one reads. */
module Scenarios {
  import opened Wrappers
  import opened Text
  import opened Schema
  import opened Store
  import opened Auth
  import opened Scoring
  import Save
  import History
  import Register
  import Login

  /** Whoever registers can log in at once with the same password and the email in any
      letter case, provided a password matches its own hash; the login answers with the
      very user the registration answered with, and both tokens are signed over that user's
      claims, each at the time of its own request. */
  lemma RegisterThenLogin(t: Tables, reg: Request<Register.RegisterBody>,
                          login: Request<Login.LoginBody>, c: Crypto, now: int, later: int)
    requires Valid(t) && HashSound(c)
    requires Register.RegisterStep(t, reg, c, now).response.status == 201
    requires login.verb == "POST" && login.body.password == reg.body.password
    requires login.body.email.Some? && reg.body.email.Some?
    requires ToLower(login.body.email.value) == ToLower(reg.body.email.value)
    ensures var first := Register.RegisterStep(t, reg, c, now);
      var second := Login.LoginStep(first.tables, login, c, later);
      && second.response.status == 200
      && first.response.body.Authenticated? && second.response.body.Authenticated?
      && second.response.body.user == first.response.body.user
      && var u := first.response.body.user;
         && first.response.body.token == CreateToken(c, Payload(u.id, u.email, u.name), now)
         && second.response.body.token == CreateToken(c, Payload(u.id, u.email, u.name), later)
  {
    assert Register.Validate(reg.body).None?;
    var key := ToLower(reg.body.email.value);
    var u := Register.NewUser(t, reg.body, c, now);
    assert Register.RegisterStep(t, reg, c, now).tables == WithUser(t, u);
    assert |login.body.email.value| == |key| == |reg.body.email.value|;
    assert c.compare(login.body.password.value, u.passwordHash);
  }

  /** A second registration of the same email, in any letter case, is refused with 409 and
      changes nothing, whatever its password and name. */
  lemma RegisterTwice(t: Tables, first: Request<Register.RegisterBody>,
                      second: Request<Register.RegisterBody>, c: Crypto, now: int, later: int)
    requires Valid(t)
    requires Register.RegisterStep(t, first, c, now).response.status == 201
    requires second.verb == "POST" && Register.Validate(second.body).None?
    requires ToLower(second.body.email.value) == ToLower(first.body.email.value)
    ensures var t1 := Register.RegisterStep(t, first, c, now).tables;
      Register.RegisterStep(t1, second, c, later) ==
        Outcome(t1, Response(409, Error(Register.AlreadyRegistered)))
  {
    Register.RegisterSuccess(t, first, c, now);
  }

  /** The row a successful save appends, as far as the history query sees it. */
  lemma SavedRow(t: Tables, save: Request<Save.SaveBody>, c: Crypto, now: int, p: Payload)
    requires Valid(t)
    requires save.verb == "POST" && Authenticate(c, save.authorization) == Authorized(p)
    requires save.body.profile.Some? && save.body.objectives.Some? && save.body.scores.Some?
    requires |save.body.scores.value| > 0
    ensures var t1 := Save.SaveStep(t, save, c, now).tables;
      && |t1.results| == |t.results| + 1
      && t1.results == t.results + [t1.results[|t.results|]]
      && var row := t1.results[|t.results|];
         && row.id == t.nextResultId && row.userId == p.userId && row.completedAt == now
         && forall k :: 0 <= k < |ScoreKeys| ==>
              Column(row.scores, k) == Save.NamedScore(save.body.scores.value, ScoreKeys[k])
  {
    Save.SaveSuccess(t, save, c, now);
    var t1 := Save.SaveStep(t, save, c, now).tables;
    assert t1.results == t1.results[..|t.results|] + [t1.results[|t.results|]];
  }

  /** While a user has at most twenty rows, the history selection returns each of them. */
  lemma SelectedWhenFew(rows: seq<AssessmentRow>, row: AssessmentRow)
    requires |History.OwnedBy(rows + [row], row.userId)| <= History.HistoryLimit
    ensures row in History.SelectHistory(rows + [row], row.userId)
  {
    var all := History.SortNewestFirst(History.OwnedBy(rows + [row], row.userId));
    assert History.SelectHistory(rows + [row], row.userId) == all;
    assert multiset(rows + [row])[row] > 0;
    assert multiset(all)[row] > 0;
    assert row in all;
  }

  /** Appending a row of some user adds exactly that row, last, to that user's rows. */
  lemma OwnedByAppend(rows: seq<AssessmentRow>, row: AssessmentRow)
    ensures History.OwnedBy(rows + [row], row.userId) == History.OwnedBy(rows, row.userId) + [row]
  {
    assert (rows + [row])[..|rows|] == rows;
  }

  /** A user with fewer than twenty stored results who saves an assessment finds it in the
      history the next GET returns, with every sub-score read back under its key as the
      save stored it (a key the save did not send reads back as 0). */
  lemma SaveThenHistory(t: Tables, save: Request<Save.SaveBody>, hist: Request<()>,
                        c: Crypto, now: int, p: Payload)
    requires Valid(t)
    requires save.verb == "POST" && Authenticate(c, save.authorization) == Authorized(p)
    requires save.body.profile.Some? && save.body.objectives.Some? && save.body.scores.Some?
    requires |save.body.scores.value| > 0
    requires |History.OwnedBy(t.results, p.userId)| < History.HistoryLimit
    requires hist.verb == "GET" && Authenticate(c, hist.authorization) == Authorized(p)
    ensures var t1 := Save.SaveStep(t, save, c, now).tables;
      var resp := History.HistoryStep(t1, hist, c).response;
      && resp.status == 200 && resp.body.History?
      && exists i :: 0 <= i < |resp.body.assessments| &&
           var v := resp.body.assessments[i];
           && v.id == t.nextResultId && v.completedAt == now
           && forall k :: 0 <= k < |ScoreKeys| ==>
                Lookup(v.scores, ScoreKeys[k]) == Some(Save.NamedScore(save.body.scores.value, ScoreKeys[k]))
  {
    SavedRow(t, save, c, now, p);
    var t1 := Save.SaveStep(t, save, c, now).tables;
    var row := t1.results[|t.results|];
    OwnedByAppend(t.results, row);
    SelectedWhenFew(t.results, row);
    var sel := History.SelectHistory(t1.results, p.userId);
    var i :| 0 <= i < |sel| && sel[i] == row;
    History.HistoryAnswer(t1, hist, c, p);
    History.ToViewsSpec(sel);
    assert History.ToViews(sel)[i].id == t.nextResultId;
  }

  /** A row later than every stored row of its user heads that user's history selection. */
  lemma LatestOnTop(rows: seq<AssessmentRow>, row: AssessmentRow)
    requires forall x :: x in rows && x.userId == row.userId ==> x.completedAt < row.completedAt
    ensures var sel := History.SelectHistory(rows + [row], row.userId);
      |sel| > 0 && sel[0] == row
  {
    var own := History.OwnedBy(rows + [row], row.userId);
    var all := History.SortNewestFirst(own);
    OwnedByAppend(rows, row);
    assert own[|own| - 1] == row;
    assert multiset(own)[row] > 0;
    assert multiset(all)[row] > 0;
    var j :| 0 <= j < |all| && all[j] == row;
    var head := all[0];
    assert head.completedAt >= row.completedAt;
    assert multiset(own)[head] > 0;
    assert head == row || head in History.OwnedBy(rows, row.userId);
    assert head == row || multiset(rows)[head] > 0;
  }

  /** A user whose stored results are all older than the moment of a save finds the saved
      assessment first in the history the next GET returns, however many results they have,
      with every sub-score read back under its key as the save stored it. */
  lemma SaveThenHistoryFirst(t: Tables, save: Request<Save.SaveBody>, hist: Request<()>,
                             c: Crypto, now: int, p: Payload)
    requires Valid(t)
    requires save.verb == "POST" && Authenticate(c, save.authorization) == Authorized(p)
    requires save.body.profile.Some? && save.body.objectives.Some? && save.body.scores.Some?
    requires |save.body.scores.value| > 0
    requires forall x :: x in t.results && x.userId == p.userId ==> x.completedAt < now
    requires hist.verb == "GET" && Authenticate(c, hist.authorization) == Authorized(p)
    ensures var t1 := Save.SaveStep(t, save, c, now).tables;
      var resp := History.HistoryStep(t1, hist, c).response;
      && resp.status == 200 && resp.body.History? && |resp.body.assessments| > 0
      && var v := resp.body.assessments[0];
         && v.id == t.nextResultId && v.completedAt == now
         && forall k :: 0 <= k < |ScoreKeys| ==>
              Lookup(v.scores, ScoreKeys[k]) == Some(Save.NamedScore(save.body.scores.value, ScoreKeys[k]))
  {
    SavedRow(t, save, c, now, p);
    var t1 := Save.SaveStep(t, save, c, now).tables;
    var row := t1.results[|t.results|];
    LatestOnTop(t.results, row);
    var sel := History.SelectHistory(t1.results, p.userId);
    History.HistoryAnswer(t1, hist, c, p);
    History.ToViewsSpec(sel);
  }

  /** Thirteen named sub-scores, all equal to 3. */
  const AllThrees: seq<Entry> := [
    Entry("basics", 3), Entry("agile", 3), Entry("product", 3), Entry("initiation", 3),
    Entry("scope", 3), Entry("time", 3), Entry("cost", 3), Entry("quality", 3),
    Entry("resources", 3), Entry("communication", 3), Entry("risk", 3),
    Entry("procurement", 3), Entry("softskills", 3)]

  const ExampleRegistration: Request<Register.RegisterBody> :=
    Request("POST", None, Register.RegisterBody(Some("a@b.com"), Some("password123"), None, None, None))

  function ExampleSave(token: string): Request<Save.SaveBody>
  {
    Request("POST", Some(BearerPrefix + token),
            Save.SaveBody(Some(Save.Profile(None, None, None, None, None)),
                          Some(Save.Objectives(Some("job"), None, None)),
                          Some(AllThrees)))
  }

  /** `a@b.com` with `password123` passes every check of a store that lacks that email. */
  lemma RegisterExample(t: Tables, c: Crypto, now: int)
    requires Valid(t) && "a@b.com" !in t.users
    ensures var first := Register.RegisterStep(t, ExampleRegistration, c, now);
      && first.response.status == 201
      && Valid(first.tables)
      && first.response.body.Authenticated?
      && exists p: Payload :: first.response.body.token == CreateToken(c, p, now)
  {
    var reg := ExampleRegistration;
    ValidExample();
    LowerExample();
    var u := Register.NewUser(t, reg.body, c, now);
    InsertUserValid(t, u);
    assert Register.RegisterStep(t, reg, c, now).response.body.token == CreateToken(c, Claims(u), now);
  }

  lemma ValidExample()
    ensures Register.Validate(ExampleRegistration.body).None?
  {
    Register.PartsFormat("a", "b", "com");
    assert "a" + "@" + "b" + "." + "com" == "a@b.com";
  }

  lemma LowerExample()
    ensures ToLower("a@b.com") == "a@b.com"
  {
    var s := "a@b.com";
    assert forall i :: 0 <= i < |s| ==> !('A' <= s[i] <= 'Z');
  }

  /** Saving all thirteen sub-scores at 3 with goal `job` under a token issued at any time
      answers 201 with overall score 60, 13 gaps and no strength. */
  lemma SaveExample(t: Tables, c: Crypto, issued: int, now: int, p: Payload)
    requires Valid(t) && TokensRoundTrip(c)
    ensures var out := Save.SaveStep(t, ExampleSave(CreateToken(c, p, issued)), c, now);
      && out.response.status == 201
      && out.response.body.Saved?
      && out.response.body.overallScore == 60
      && out.response.body.gapCount == 13
      && out.response.body.strengthCount == 0
  {
    AuthenticateIssued(c, p, issued);
    assert Values(AllThrees) == seq(13, _ => 3);
    WorkedExample();
    Save.SaveSuccess(t, ExampleSave(CreateToken(c, p, issued)), c, now);
  }

  /** The documented walk-through: `a@b.com` registers with `password123`, and saving all
      thirteen sub-scores at 3 with goal `job` under the token it received answers 201 with
      overall score 60, 13 gaps and no strength. */
  lemma RegisterThenSave(t: Tables, c: Crypto, now: int, later: int)
    requires Valid(t) && TokensRoundTrip(c) && "a@b.com" !in t.users
    ensures var first := Register.RegisterStep(t, ExampleRegistration, c, now);
      && first.response.status == 201
      && first.response.body.Authenticated?
      && var second := Save.SaveStep(first.tables, ExampleSave(first.response.body.token), c, later);
         && second.response.status == 201
         && second.response.body.Saved?
         && second.response.body.overallScore == 60
         && second.response.body.gapCount == 13
         && second.response.body.strengthCount == 0
  {
    RegisterExample(t, c, now);
    var first := Register.RegisterStep(t, ExampleRegistration, c, now);
    var p: Payload :| first.response.body.token == CreateToken(c, p, now);
    SaveExample(first.tables, c, now, later, p);
  }
}
