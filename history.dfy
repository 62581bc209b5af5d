/** `GET /api/assessment/history`: the authenticated user's twenty most recent results,
    newest first, each reshaped into nested objects. The store is only read. */
module History {
  import opened Wrappers
  import opened Schema
  import opened Store
  import opened Auth

  const HistoryLimit := 20

  /** `WHERE user_id = uid`, keeping the table's order. */
  function OwnedBy(rows: seq<AssessmentRow>, uid: nat): (r: seq<AssessmentRow>)
    ensures forall i :: 0 <= i < |r| ==> r[i].userId == uid
    ensures forall x :: multiset(r)[x] == if x.userId == uid then multiset(rows)[x] else 0
  {
    if rows == [] then []
    else
      var init, last := rows[..|rows| - 1], rows[|rows| - 1];
      assert rows == init + [last];
      if last.userId == uid then OwnedBy(init, uid) + [last] else OwnedBy(init, uid)
  }

  /** Newest first: `completed_at` never increases along the sequence. */
  ghost predicate NewestFirst(s: seq<AssessmentRow>)
  {
    forall i, j :: 0 <= i < j < |s| ==> s[i].completedAt >= s[j].completedAt
  }

  lemma ConsNewest(h: AssessmentRow, rest: seq<AssessmentRow>)
    requires NewestFirst(rest) && (|rest| > 0 ==> h.completedAt >= rest[0].completedAt)
    ensures NewestFirst([h] + rest)
  {
    var s := [h] + rest;
    forall i, j | 0 <= i < j < |s| ensures s[i].completedAt >= s[j].completedAt {
      if i == 0 {
        assert s[j] == rest[j - 1];
        assert rest[0].completedAt >= rest[j - 1].completedAt || j == 1;
      } else {
        assert s[i] == rest[i - 1] && s[j] == rest[j - 1];
      }
    }
  }

  /** Inserts `x` into a newest-first sequence, ahead of the rows no later than it. */
  function InsertByTime(x: AssessmentRow, s: seq<AssessmentRow>): (r: seq<AssessmentRow>)
    requires NewestFirst(s)
    ensures NewestFirst(r)
    ensures multiset(r) == multiset(s) + multiset{x}
    ensures |r| == |s| + 1
    ensures r[0] == x || (|s| > 0 && r[0] == s[0])
  {
    if s == [] || x.completedAt >= s[0].completedAt then
      ConsNewest(x, s);
      [x] + s
    else
      var rest := InsertByTime(x, s[1..]);
      assert s == [s[0]] + s[1..];
      ConsNewest(s[0], rest);
      [s[0]] + rest
  }

  /** `ORDER BY completed_at DESC`; rows with equal times keep the table's order. */
  function SortNewestFirst(rows: seq<AssessmentRow>): (r: seq<AssessmentRow>)
    ensures NewestFirst(r)
    ensures multiset(r) == multiset(rows)
    ensures |r| == |rows|
  {
    if rows == [] then []
    else
      assert rows == [rows[0]] + rows[1..];
      InsertByTime(rows[0], SortNewestFirst(rows[1..]))
  }

  /** `LIMIT 20`: the first twenty rows, or all of them when there are fewer. */
  function Limit(s: seq<AssessmentRow>): (r: seq<AssessmentRow>)
    ensures |r| == if |s| <= HistoryLimit then |s| else HistoryLimit
    ensures r == s[..|r|]
    ensures NewestFirst(s) ==> NewestFirst(r)
  {
    if |s| <= HistoryLimit then s else s[..HistoryLimit]
  }

  /** The rows the query returns. */
  function SelectHistory(rows: seq<AssessmentRow>, uid: nat): seq<AssessmentRow>
  {
    Limit(SortNewestFirst(OwnedBy(rows, uid)))
  }

  /** Every row of the ordering is a stored row of the user. */
  lemma SortedOwned(rows: seq<AssessmentRow>, uid: nat)
    ensures var all := SortNewestFirst(OwnedBy(rows, uid));
      forall i :: 0 <= i < |all| ==> all[i].userId == uid && all[i] in rows
  {
    var own := OwnedBy(rows, uid);
    var all := SortNewestFirst(own);
    forall i | 0 <= i < |all| ensures all[i].userId == uid && all[i] in rows {
      assert multiset(all)[all[i]] > 0;
      assert multiset(own)[all[i]] > 0;
      assert multiset(rows)[all[i]] > 0;
    }
  }

  /** The selection holds at most twenty rows, all the user's own, newest first. */
  lemma SelectHistoryShape(rows: seq<AssessmentRow>, uid: nat)
    ensures var r, own := SelectHistory(rows, uid), OwnedBy(rows, uid);
      && |r| == (if |own| <= HistoryLimit then |own| else HistoryLimit)
      && (forall i :: 0 <= i < |r| ==> r[i].userId == uid)
      && NewestFirst(r)
  {
    var all := SortNewestFirst(OwnedBy(rows, uid));
    var r := Limit(all);
    SortedOwned(rows, uid);
    assert forall i :: 0 <= i < |r| ==> r[i] == all[i];
  }

  lemma NewestPart(all: seq<AssessmentRow>, r: seq<AssessmentRow>)
    requires NewestFirst(all) && |r| <= |all| && r == all[..|r|]
    ensures forall i, j :: 0 <= i < |r| <= j < |all| ==> all[j].completedAt <= r[i].completedAt
  {
    forall i, j | 0 <= i < |r| <= j < |all| ensures all[j].completedAt <= r[i].completedAt {
      assert r[i] == all[i];
    }
  }

  /** The selection is the newest part of an ordering of all the user's rows: every row of
      the user left out is no later than any row returned. */
  lemma SelectHistoryNewest(rows: seq<AssessmentRow>, uid: nat)
    ensures var r, all := SelectHistory(rows, uid), SortNewestFirst(OwnedBy(rows, uid));
      && r == all[..|r|]
      && (forall i, j :: 0 <= i < |r| <= j < |all| ==> all[j].completedAt <= r[i].completedAt)
  {
    var all := SortNewestFirst(OwnedBy(rows, uid));
    NewestPart(all, Limit(all));
  }

  /** The ordering holds each of the user's rows as often as the table does, and the
      selection returns no row more often than it is stored. */
  lemma SelectHistorySubset(rows: seq<AssessmentRow>, uid: nat)
    ensures var r, all := SelectHistory(rows, uid), SortNewestFirst(OwnedBy(rows, uid));
      && (forall x :: multiset(all)[x] == if x.userId == uid then multiset(rows)[x] else 0)
      && multiset(r) <= multiset(rows)
  {
    var own := OwnedBy(rows, uid);
    var all := SortNewestFirst(own);
    var r := Limit(all);
    assert all == r + all[|r|..];
    assert multiset(all) == multiset(r) + multiset(all[|r|..]);
    assert multiset(own) <= multiset(rows);
  }

  /** `scores: { basics: row.score_basics, ..., softskills: row.score_softskills }`. */
  function ScoreEntries(c: ScoreColumns): (r: seq<Entry>)
    ensures |r| == |ScoreKeys|
    ensures forall i :: 0 <= i < |ScoreKeys| ==> r[i] == Entry(ScoreKeys[i], Column(c, i))
  {
    [ Entry("basics", c.basics), Entry("agile", c.agile), Entry("product", c.product),
      Entry("initiation", c.initiation), Entry("scope", c.scope), Entry("time", c.time),
      Entry("cost", c.cost), Entry("quality", c.quality), Entry("resources", c.resources),
      Entry("communication", c.communication), Entry("risk", c.risk),
      Entry("procurement", c.procurement), Entry("softskills", c.softskills) ]
  }

  /** The first property with a given key, in an object whose keys are distinct. */
  lemma {:induction false} LookupDistinct(obj: seq<Entry>, i: nat)
    requires i < |obj|
    requires forall a, b :: 0 <= a < b < |obj| ==> obj[a].key != obj[b].key
    ensures Lookup(obj, obj[i].key) == Some(obj[i].value)
  {
    if i > 0 {
      LookupDistinct(obj[1..], i - 1);
    }
  }

  /** Reading a score back from the reshaped object by its key gives that column. */
  lemma ScoreEntriesLookup(c: ScoreColumns, i: nat)
    requires i < |ScoreKeys|
    ensures Lookup(ScoreEntries(c), ScoreKeys[i]) == Some(Column(c, i))
  {
    LookupDistinct(ScoreEntries(c), i);
  }

  /** `rows.map(row => ({ id, profile: {...}, objectives: {...}, scores: {...}, ... }))` for
      one row; the certifications column is not selected. */
  function ToView(row: AssessmentRow): (v: AssessmentView)
  {
    AssessmentView(
      row.id,
      ProfileView(row.profileName, row.profileTitle, row.profileOrganization, row.profileExperience),
      ObjectivesView(row.goal, row.timeline, row.learningStyle),
      ScoreEntries(row.scores),
      row.overallScore, row.gapCount, row.strengthCount, row.pdfDownloaded, row.completedAt)
  }

  function ToViews(rows: seq<AssessmentRow>): (vs: seq<AssessmentView>)
  {
    seq(|rows|, i requires 0 <= i < |rows| => ToView(rows[i]))
  }

  /** The reshape keeps one view per row, in order, and moves every selected column to its
      nested field; the scores object has exactly the thirteen keys, each giving its column. */
  lemma ToViewsSpec(rows: seq<AssessmentRow>)
    ensures |ToViews(rows)| == |rows|
    ensures forall i :: 0 <= i < |rows| ==>
      var v, row := ToViews(rows)[i], rows[i];
      && v.id == row.id && v.completedAt == row.completedAt && v.pdfDownloaded == row.pdfDownloaded
      && v.overallScore == row.overallScore && v.gapCount == row.gapCount
      && v.strengthCount == row.strengthCount
      && v.profile == ProfileView(row.profileName, row.profileTitle, row.profileOrganization, row.profileExperience)
      && v.objectives == ObjectivesView(row.goal, row.timeline, row.learningStyle)
      && |v.scores| == |ScoreKeys|
      && (forall k :: 0 <= k < |ScoreKeys| ==> v.scores[k].key == ScoreKeys[k])
      && (forall k :: 0 <= k < |ScoreKeys| ==> Lookup(v.scores, ScoreKeys[k]) == Some(Column(row.scores, k)))
  {
    forall i, k | 0 <= i < |rows| && 0 <= k < |ScoreKeys|
      ensures Lookup(ToViews(rows)[i].scores, ScoreKeys[k]) == Some(Column(rows[i].scores, k))
    {
      ScoreEntriesLookup(rows[i].scores, k);
    }
  }

  /** The whole handler on a snapshot of the store: the verb is answered first, then
      authentication, before any query; the store is never changed. */
  function HistoryStep(t: Tables, req: Request<()>, c: Crypto): (out: Outcome)
    ensures out.tables == t
    ensures req.verb == "OPTIONS" ==> out.response == Response(200, Empty)
    ensures req.verb != "OPTIONS" && req.verb != "GET" ==> out.response == Response(405, Error(MethodNotAllowed))
    ensures req.verb == "GET" && Authenticate(c, req.authorization).Rejected? ==>
      out.response == Authenticate(c, req.authorization).response
  {
    match Preflight(req.verb, "GET")
    case Some(r) => Outcome(t, r)
    case None =>
      match Authenticate(c, req.authorization)
      case Rejected(r) => Outcome(t, r)
      case Authorized(p) =>
        Outcome(t, Response(200, History(ToViews(SelectHistory(t.results, p.userId)))))
  }

  /** An authenticated GET answers 200 with the reshaped selection of the user's rows. */
  lemma HistoryAnswer(t: Tables, req: Request<()>, c: Crypto, p: Payload)
    requires req.verb == "GET" && Authenticate(c, req.authorization) == Authorized(p)
    ensures HistoryStep(t, req, c).response ==
      Response(200, History(ToViews(SelectHistory(t.results, p.userId))))
  {
  }

  lemma ViewsKeepOrder(r: seq<AssessmentRow>)
    requires NewestFirst(r)
    ensures var vs := ToViews(r);
      forall i, j :: 0 <= i < j < |vs| ==> vs[i].completedAt >= vs[j].completedAt
  {
    var vs := ToViews(r);
    forall i, j | 0 <= i < j < |vs| ensures vs[i].completedAt >= vs[j].completedAt {
      assert vs[i].completedAt == r[i].completedAt && vs[j].completedAt == r[j].completedAt;
    }
  }

  /** What the client receives: at most twenty views, newest first. */
  lemma HistoryViewsOrdered(rows: seq<AssessmentRow>, uid: nat)
    ensures var vs := ToViews(SelectHistory(rows, uid));
      && |vs| <= HistoryLimit
      && (forall i, j :: 0 <= i < j < |vs| ==> vs[i].completedAt >= vs[j].completedAt)
  {
    SelectHistoryShape(rows, uid);
    ViewsKeepOrder(SelectHistory(rows, uid));
  }

  /** Each row selected is a row of the table. */
  lemma SelectedIsStored(rows: seq<AssessmentRow>, uid: nat, i: nat)
    requires i < |SelectHistory(rows, uid)|
    ensures SelectHistory(rows, uid)[i] in rows
  {
    var all := SortNewestFirst(OwnedBy(rows, uid));
    SortedOwned(rows, uid);
    assert SelectHistory(rows, uid)[i] == all[i];
  }

  /** Each view returned is the view of a row the user owns. */
  lemma HistoryViewsOwned(rows: seq<AssessmentRow>, uid: nat)
    ensures var vs := ToViews(SelectHistory(rows, uid));
      forall i :: 0 <= i < |vs| ==>
        exists row :: row in rows && row.userId == uid && ToView(row) == vs[i]
  {
    var r := SelectHistory(rows, uid);
    SelectHistoryShape(rows, uid);
    forall i | 0 <= i < |r|
      ensures exists row :: row in rows && row.userId == uid && ToView(row) == ToViews(r)[i]
    {
      SelectedIsStored(rows, uid, i);
    }
  }

  /** The handler: it only reads the store and writes the response `HistoryStep` gives. */
  method Handle(db: Database, req: Request<()>, res: Res, c: Crypto)
    modifies res
    ensures res.sent == Some(HistoryStep(db.Snapshot(), req, c).response)
  {
    if req.verb == "OPTIONS" {
      res.Send(200, Empty);
      return;
    }
    if req.verb != "GET" {
      res.Send(405, Error(MethodNotAllowed));
      return;
    }
    var decoded := RequireAuth(c, req, res);
    if decoded.None? {
      return;
    }
    var rows := SelectHistory(db.results, decoded.value.userId);
    res.Send(200, History(ToViews(rows)));
  }
}
