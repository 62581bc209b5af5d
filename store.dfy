/** The relational store as the handlers see it: one pure function per SQL statement they
    issue, the class `Database` whose methods run those statements in place, and the class
    `Res` standing for the HTTP response object. */
module Store {
  import opened Wrappers
  import opened Text
  import opened Schema

  // ---------------------------------------------------------------------------------------
  // users

  /** `SELECT ... FROM users WHERE email = key`. */
  function UserByEmail(users: map<string, User>, key: string): Option<User>
  {
    if key in users then Some(users[key]) else None
  }

  /** `SELECT is_admin FROM users WHERE id = uid`, then "a row exists and its flag is set".
      The source reads the flag of the first row returned; `id` is the primary key, so there
      is at most one (`IsAdminOfRow`). */
  predicate IsAdmin(users: map<string, User>, uid: nat)
  {
    exists k | k in users :: users[k].id == uid && users[k].isAdmin
  }

  /** In a valid store the query returns the one row with that id, and the guard reads its
      flag: a user is an admin exactly when their own row has `is_admin` set. */
  lemma IsAdminOfRow(t: Tables, k: string)
    requires Valid(t) && k in t.users
    ensures IsAdmin(t.users, t.users[k].id) <==> t.users[k].isAdmin
  {
  }

  /** The row `INSERT INTO users (email, name, password_hash, organization, job_title,
      email_verified) ... RETURNING *` creates: the id comes from the sequence, the timestamps
      from the clock, `experience_level` is null and `is_admin` false by default. */
  function NewUserRow(t: Tables, email: string, name: string, passwordHash: string,
                      organization: Option<string>, jobTitle: Option<string>,
                      emailVerified: bool, now: int): User
  {
    User(t.nextUserId, email, name, passwordHash, organization, jobTitle, None,
         false, emailVerified, now, now)
  }

  /** The store after inserting the user row `u`. */
  function WithUser(t: Tables, u: User): Tables
  {
    t.(users := t.users[u.email := u], nextUserId := t.nextUserId + 1)
  }

  /** `UPDATE users SET updated_at = now WHERE id = uid`. */
  function TouchUser(users: map<string, User>, uid: nat, now: int): map<string, User>
  {
    map k | k in users :: if users[k].id == uid then users[k].(updatedAt := now) else users[k]
  }

  /** `UPDATE users SET job_title = COALESCE(title, job_title), organization =
      COALESCE(org, organization), experience_level = COALESCE(exp, experience_level),
      updated_at = now WHERE id = uid`. */
  function BackfillUser(users: map<string, User>, uid: nat, title: Option<string>,
                        org: Option<string>, exp: Option<string>, now: int): map<string, User>
  {
    map k | k in users ::
      if users[k].id == uid then
        users[k].(jobTitle := Coalesce(title, users[k].jobTitle),
                  organization := Coalesce(org, users[k].organization),
                  experienceLevel := Coalesce(exp, users[k].experienceLevel),
                  updatedAt := now)
      else users[k]
  }

  /** Inserting a user under a fresh lowercase email with the next id keeps the store valid
      and adds exactly that one user. */
  lemma InsertUserValid(t: Tables, u: User)
    requires Valid(t)
    requires u.email !in t.users && ToLower(u.email) == u.email && u.id == t.nextUserId
    ensures Valid(WithUser(t, u))
    ensures WithUser(t, u).users.Keys == t.users.Keys + {u.email}
    ensures |WithUser(t, u).users| == |t.users| + 1
  {
    var t' := WithUser(t, u);
    forall k1, k2 | k1 in t'.users && k2 in t'.users && t'.users[k1].id == t'.users[k2].id
      ensures k1 == k2
    {
      if k1 != u.email && k2 != u.email {
        assert t.users[k1].id == t.users[k2].id;
      }
    }
  }

  /** Touching `updated_at` of the row with id `uid` keeps the store valid, keeps every key,
      changes nothing but `updated_at` of the user filed under `key`, and leaves every other
      user alone. */
  lemma TouchUserExact(t: Tables, key: string, now: int)
    requires Valid(t) && key in t.users
    ensures Valid(t.(users := TouchUser(t.users, t.users[key].id, now)))
    ensures TouchUser(t.users, t.users[key].id, now).Keys == t.users.Keys
    ensures forall k :: k in t.users ==>
      TouchUser(t.users, t.users[key].id, now)[k] ==
        if k == key then t.users[k].(updatedAt := now) else t.users[k]
  {
    var users' := TouchUser(t.users, t.users[key].id, now);
    forall k | k in t.users
      ensures users'[k] == if k == key then t.users[k].(updatedAt := now) else t.users[k]
    {
      if t.users[k].id == t.users[key].id { assert k == key; }
    }
  }

  /** The profile backfill rewrites only the user with id `uid`: its three profile fields take
      the submitted value when it is non-null and keep the old one otherwise, and its
      `updated_at` becomes `now`; the store stays valid. */
  lemma BackfillUserExact(t: Tables, uid: nat, title: Option<string>, org: Option<string>,
                          exp: Option<string>, now: int)
    requires Valid(t)
    ensures Valid(t.(users := BackfillUser(t.users, uid, title, org, exp, now)))
    ensures BackfillUser(t.users, uid, title, org, exp, now).Keys == t.users.Keys
    ensures forall k :: k in t.users && t.users[k].id != uid ==>
      BackfillUser(t.users, uid, title, org, exp, now)[k] == t.users[k]
    ensures forall k :: k in t.users && t.users[k].id == uid ==>
      var u, u' := t.users[k], BackfillUser(t.users, uid, title, org, exp, now)[k];
      && u'.jobTitle == (if title.Some? then title else u.jobTitle)
      && u'.organization == (if org.Some? then org else u.organization)
      && u'.experienceLevel == (if exp.Some? then exp else u.experienceLevel)
      && u'.updatedAt == now
      && u' == u.(jobTitle := u'.jobTitle, organization := u'.organization,
                  experienceLevel := u'.experienceLevel, updatedAt := now)
  {
  }

  // ---------------------------------------------------------------------------------------
  // assessment_results and partner_leads

  /** The row `INSERT INTO assessment_results ... RETURNING *` creates from the submitted
      columns `draft`: the id from the sequence, `completed_at` from the clock and
      `pdf_downloaded` false by default. */
  function NewResultRow(t: Tables, draft: AssessmentRow, now: int): AssessmentRow
  {
    draft.(id := t.nextResultId, pdfDownloaded := false, completedAt := now)
  }

  function WithResult(t: Tables, row: AssessmentRow): Tables
  {
    t.(results := t.results + [row], nextResultId := t.nextResultId + 1)
  }

  /** The row `INSERT INTO partner_leads (user_id, assessment_id, partner_code,
      resource_clicked)` creates; id and click time come from the database. */
  function NewLeadRow(t: Tables, uid: nat, assessmentId: Option<int>, partnerCode: string,
                      resourceClicked: string, now: int): PartnerLead
  {
    PartnerLead(t.nextLeadId, uid, assessmentId, partnerCode, resourceClicked, now)
  }

  function WithLead(t: Tables, row: PartnerLead): Tables
  {
    t.(leads := t.leads + [row], nextLeadId := t.nextLeadId + 1)
  }

  /** Appending a freshly numbered result or lead keeps the store valid. */
  lemma InsertRowsValid(t: Tables, draft: AssessmentRow, lead: PartnerLead, now: int)
    requires Valid(t)
    ensures Valid(WithResult(t, NewResultRow(t, draft, now)))
    ensures lead.id == t.nextLeadId ==> Valid(WithLead(t, lead))
  {
  }

  // ---------------------------------------------------------------------------------------
  // The store and the response object, updated in place

  class Database {
    var users: map<string, User>
    var results: seq<AssessmentRow>
    var leads: seq<PartnerLead>
    var nextUserId: nat
    var nextResultId: nat
    var nextLeadId: nat

    function Snapshot(): Tables
      reads this
    {
      Tables(users, results, leads, nextUserId, nextResultId, nextLeadId)
    }

    ghost predicate Valid()
      reads this
    {
      Schema.Valid(Snapshot())
    }

    constructor ()
      ensures Valid()
      ensures Snapshot() == Tables(map[], [], [], 0, 0, 0)
    {
      users, results, leads := map[], [], [];
      nextUserId, nextResultId, nextLeadId := 0, 0, 0;
    }

    method InsertUser(email: string, name: string, passwordHash: string,
                      organization: Option<string>, jobTitle: Option<string>,
                      emailVerified: bool, now: int) returns (u: User)
      modifies this
      ensures u == NewUserRow(old(Snapshot()), email, name, passwordHash, organization,
                              jobTitle, emailVerified, now)
      ensures Snapshot() == WithUser(old(Snapshot()), u)
    {
      u := User(nextUserId, email, name, passwordHash, organization, jobTitle, None,
                false, emailVerified, now, now);
      users := users[email := u];
      nextUserId := nextUserId + 1;
    }

    method TouchUpdatedAt(uid: nat, now: int)
      modifies this
      ensures Snapshot() == old(Snapshot()).(users := TouchUser(old(users), uid, now))
    {
      users := TouchUser(users, uid, now);
    }

    method BackfillProfile(uid: nat, title: Option<string>, org: Option<string>,
                           exp: Option<string>, now: int)
      modifies this
      ensures Snapshot() == old(Snapshot()).(users := BackfillUser(old(users), uid, title, org, exp, now))
    {
      users := BackfillUser(users, uid, title, org, exp, now);
    }

    method InsertResult(draft: AssessmentRow, now: int) returns (row: AssessmentRow)
      modifies this
      ensures row == NewResultRow(old(Snapshot()), draft, now)
      ensures Snapshot() == WithResult(old(Snapshot()), row)
    {
      row := draft.(id := nextResultId, pdfDownloaded := false, completedAt := now);
      results := results + [row];
      nextResultId := nextResultId + 1;
    }

    method InsertLead(uid: nat, assessmentId: Option<int>, partnerCode: string,
                      resourceClicked: string, now: int) returns (row: PartnerLead)
      modifies this
      ensures row == NewLeadRow(old(Snapshot()), uid, assessmentId, partnerCode, resourceClicked, now)
      ensures Snapshot() == WithLead(old(Snapshot()), row)
    {
      row := PartnerLead(nextLeadId, uid, assessmentId, partnerCode, resourceClicked, now);
      leads := leads + [row];
      nextLeadId := nextLeadId + 1;
    }
  }

  /** The HTTP response object: `res.status(s).json(b)` records `Response(s, b)`. */
  class Res {
    var sent: Option<Response>

    constructor ()
      ensures sent == None
    {
      sent := None;
    }

    method Send(status: int, body: Body)
      modifies this
      ensures sent == Some(Response(status, body))
    {
      sent := Some(Response(status, body));
    }
  }
}
