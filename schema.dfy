/** The rows of the three tables the handlers use, the JSON bodies they send back, and the
    request/response shapes shared by every handler. */
module Schema {
  import opened Wrappers
  import opened Text

  /** A row of `users`. Timestamps are opaque integers supplied by the database clock. */
  datatype User = User(
    id: nat,
    email: string,
    name: string,
    passwordHash: string,
    organization: Option<string>,
    jobTitle: Option<string>,
    experienceLevel: Option<string>,
    isAdmin: bool,
    emailVerified: bool,
    createdAt: int,
    updatedAt: int)

  /** One property of a JSON object whose values are numbers, in insertion order. */
  datatype Entry = Entry(key: string, value: int)

  /** `obj[key]`: the value of the first property named `key`, or `undefined`. */
  function Lookup(obj: seq<Entry>, key: string): (r: Option<int>)
    ensures r.None? <==> forall i :: 0 <= i < |obj| ==> obj[i].key != key
    ensures r.Some? ==> exists i :: 0 <= i < |obj| && obj[i] == Entry(key, r.value) &&
                                    forall j :: 0 <= j < i ==> obj[j].key != key
  {
    if obj == [] then None
    else if obj[0].key == key then Some(obj[0].value)
    else
      var r := Lookup(obj[1..], key);
      assert forall i :: 1 <= i < |obj| ==> obj[1..][i - 1] == obj[i];
      r
  }

  /** The thirteen `score_*` columns of `assessment_results`. */
  datatype ScoreColumns = ScoreColumns(
    basics: int, agile: int, product: int, initiation: int, scope: int,
    time: int, cost: int, quality: int, resources: int, communication: int,
    risk: int, procurement: int, softskills: int)

  /** The names of the thirteen sub-scores, in column order. */
  const ScoreKeys: seq<string> := [
    "basics", "agile", "product", "initiation", "scope",
    "time", "cost", "quality", "resources", "communication",
    "risk", "procurement", "softskills"]

  /** The `i`-th score column, in the order of `ScoreKeys`. */
  function Column(c: ScoreColumns, i: nat): int
    requires i < |ScoreKeys|
  {
    match i
    case 0 => c.basics
    case 1 => c.agile
    case 2 => c.product
    case 3 => c.initiation
    case 4 => c.scope
    case 5 => c.time
    case 6 => c.cost
    case 7 => c.quality
    case 8 => c.resources
    case 9 => c.communication
    case 10 => c.risk
    case 11 => c.procurement
    case _ => c.softskills
  }

  /** A row of `assessment_results`. */
  datatype AssessmentRow = AssessmentRow(
    id: nat,
    userId: nat,
    profileName: Option<string>,
    profileTitle: Option<string>,
    profileOrganization: Option<string>,
    profileExperience: Option<string>,
    certifications: seq<string>,
    goal: Option<string>,
    timeline: Option<string>,
    learningStyle: Option<string>,
    scores: ScoreColumns,
    overallScore: int,
    gapCount: nat,
    strengthCount: nat,
    pdfDownloaded: bool,
    completedAt: int)

  /** A row of `partner_leads`. */
  datatype PartnerLead = PartnerLead(
    id: nat,
    userId: nat,
    assessmentId: Option<int>,
    partnerCode: string,
    resourceClicked: string,
    clickedAt: int)

  /** The whole store: `users` keyed by lowercased email, the two append-only logs, and the
      next value of each table's id sequence. */
  datatype Tables = Tables(
    users: map<string, User>,
    results: seq<AssessmentRow>,
    leads: seq<PartnerLead>,
    nextUserId: nat,
    nextResultId: nat,
    nextLeadId: nat)

  /** The store's integrity constraints: each user is filed under its own email, which is
      lowercase; user ids are unique; every id was drawn from its sequence. */
  ghost predicate Valid(t: Tables)
  {
    && (forall k :: k in t.users ==> t.users[k].email == k && ToLower(k) == k)
    && (forall k :: k in t.users ==> t.users[k].id < t.nextUserId)
    && (forall k1, k2 :: k1 in t.users && k2 in t.users && t.users[k1].id == t.users[k2].id ==> k1 == k2)
    && (forall i :: 0 <= i < |t.results| ==> t.results[i].id < t.nextResultId)
    && (forall i :: 0 <= i < |t.leads| ==> t.leads[i].id < t.nextLeadId)
  }

  /** The claims a token is signed over: `{userId, email, name}`. */
  datatype Payload = Payload(userId: nat, email: string, name: string)

  /** The user projection sent to clients; it has no field for the password hash. */
  datatype PublicUser = PublicUser(
    id: nat, email: string, name: string,
    organization: Option<string>, jobTitle: Option<string>, isAdmin: bool)

  datatype ProfileView = ProfileView(
    name: Option<string>, title: Option<string>, organization: Option<string>, experience: Option<string>)

  datatype ObjectivesView = ObjectivesView(
    goal: Option<string>, timeline: Option<string>, learningStyle: Option<string>)

  /** One element of the history response: a result row reshaped into nested objects. */
  datatype AssessmentView = AssessmentView(
    id: nat,
    profile: ProfileView,
    objectives: ObjectivesView,
    scores: seq<Entry>,
    overallScore: int,
    gapCount: nat,
    strengthCount: nat,
    pdfDownloaded: bool,
    completedAt: int)

  /** The JSON bodies the handlers send. */
  datatype Body =
    | Empty                                               // `res.end()`
    | Error(message: string)                              // `{ error }`
    | Success                                             // `{ success: true }`
    | Saved(assessmentId: nat, overallScore: int, gapCount: nat, strengthCount: nat, completedAt: int)
    | Authenticated(user: PublicUser, token: string)      // `{ user, token }`
    | History(assessments: seq<AssessmentView>)           // `{ assessments }`

  datatype Response = Response(status: int, body: Body)

  /** The parts of an HTTP request the handlers read; `B` is the shape of the JSON body. */
  datatype Request<B> = Request(verb: string, authorization: Option<string>, body: B)

  /** What a handler leaves behind: the store afterwards and the response it wrote. */
  datatype Outcome = Outcome(tables: Tables, response: Response)

  const MethodNotAllowed := "Method not allowed"

  /** The opening of every handler: 200 with an empty body for `OPTIONS`, 405 for any verb
      other than the one the endpoint serves, and nothing (carry on) for that verb. */
  function Preflight(verb: string, allowed: string): (r: Option<Response>)
    requires allowed != "OPTIONS"
    ensures r == None <==> verb == allowed
    ensures verb == "OPTIONS" ==> r == Some(Response(200, Empty))
    ensures verb != "OPTIONS" && verb != allowed ==> r == Some(Response(405, Error(MethodNotAllowed)))
  {
    if verb == "OPTIONS" then Some(Response(200, Empty))
    else if verb != allowed then Some(Response(405, Error(MethodNotAllowed)))
    else None
  }

  /** The projection of a user row that login and registration return. */
  function Project(u: User): PublicUser
  {
    PublicUser(u.id, u.email, u.name, u.organization, u.jobTitle, u.isAdmin)
  }

  /** The token claims built from a user row. */
  function Claims(u: User): Payload
  {
    Payload(u.id, u.email, u.name)
  }
}
