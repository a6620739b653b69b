/** The latest-row-per-organisation queries and the staleness gauges of app/observability.py. */
module LatestAssessments {
  import opened Common

  datatype Readiness = Passed | Warning | Blocked

  /** Ids are ordered like their fixed-length text. */
  datatype Assessment = Assessment(
    id: nat, organizationId: string, createdAt: int, status: Readiness, expiresAt: Option<int>, policySha: string)

  // ----- the two-stage grouping

  /** `MAX(created_at) ... GROUP BY organization_id`. */
  function LatestCreated(rows: seq<Assessment>): map<string, int>
  {
    if rows == [] then map[] else
      var last := rows[|rows| - 1];
      var before := LatestCreated(rows[..|rows| - 1]);
      if last.organizationId in before && before[last.organizationId] >= last.createdAt then before
      else before[last.organizationId := last.createdAt]
  }

  /** `MAX(id) ... JOIN latest ON created_at = latest_created_at GROUP BY organization_id`. */
  function LatestIds(rows: seq<Assessment>, created: map<string, int>): map<string, nat>
  {
    if rows == [] then map[] else
      var last := rows[|rows| - 1];
      var before := LatestIds(rows[..|rows| - 1], created);
      if last.organizationId !in created || created[last.organizationId] != last.createdAt then before
      else if last.organizationId in before && before[last.organizationId] >= last.id then before
      else before[last.organizationId := last.id]
  }

  /** The rows whose id is some organisation's latest id. */
  function JoinById(rows: seq<Assessment>, ids: map<string, nat>): seq<Assessment>
  {
    if rows == [] then [] else
      (if rows[0].id in ids.Values then [rows[0]] else []) + JoinById(rows[1..], ids)
  }

  function Latest(rows: seq<Assessment>): seq<Assessment>
  {
    JoinById(rows, LatestIds(rows, LatestCreated(rows)))
  }

  predicate NotAfter(a: Assessment, b: Assessment)
  {
    a.createdAt < b.createdAt || (a.createdAt == b.createdAt && a.id <= b.id)
  }

  ghost predicate UniqueIds(rows: seq<Assessment>)
  {
    forall i, j :: 0 <= i < j < |rows| ==> rows[i].id != rows[j].id
  }

  /** The row is its organisation's last, by creation time and then by id. */
  ghost predicate IsLast(rows: seq<Assessment>, r: Assessment)
  {
    r in rows && forall o :: o in rows && o.organizationId == r.organizationId ==> NotAfter(o, r)
  }

  lemma {:induction false} LatestCreatedFacts(rows: seq<Assessment>)
    ensures var created := LatestCreated(rows);
            && (forall r :: r in rows ==> r.organizationId in created && r.createdAt <= created[r.organizationId])
            && (forall org :: org in created ==>
                 exists r :: r in rows && r.organizationId == org && r.createdAt == created[org])
  {
    if rows != [] {
      var init, last := rows[..|rows| - 1], rows[|rows| - 1];
      LatestCreatedFacts(init);
      assert rows == init + [last];
      var created := LatestCreated(rows);
      forall org | org in created
        ensures exists r :: r in rows && r.organizationId == org && r.createdAt == created[org]
      {
        if org == last.organizationId && created[org] == last.createdAt {
          assert last in rows;
        } else {
          assert org in LatestCreated(init) && LatestCreated(init)[org] == created[org];
          var r :| r in init && r.organizationId == org && r.createdAt == created[org];
          assert r in rows;
        }
      }
    }
  }

  lemma {:induction false} LatestIdsFacts(rows: seq<Assessment>, created: map<string, int>)
    ensures var ids := LatestIds(rows, created);
            && (forall r :: r in rows && r.organizationId in created && created[r.organizationId] == r.createdAt ==>
                  r.organizationId in ids && r.id <= ids[r.organizationId])
            && (forall org | org in ids ::
                  org in created
                  && exists r :: r in rows && r.organizationId == org && r.createdAt == created[org]
                       && r.id == ids[org])
  {
    if rows != [] {
      var init, last := rows[..|rows| - 1], rows[|rows| - 1];
      LatestIdsFacts(init, created);
      assert rows == init + [last];
      var ids := LatestIds(rows, created);
      forall org | org in ids
        ensures org in created
        ensures exists r :: r in rows && r.organizationId == org && r.createdAt == created[org] && r.id == ids[org]
      {
        if org == last.organizationId && ids[org] == last.id && last.organizationId in created
            && created[org] == last.createdAt {
          assert last in rows;
        } else {
          assert org in LatestIds(init, created) && LatestIds(init, created)[org] == ids[org];
          var r :| r in init && r.organizationId == org && r.createdAt == created[org] && r.id == ids[org];
          assert r in rows;
        }
      }
    }
  }

  lemma {:induction false} JoinByIdFacts(rows: seq<Assessment>, ids: map<string, nat>)
    ensures forall r :: r in JoinById(rows, ids) <==> r in rows && r.id in ids.Values
    ensures UniqueIds(rows) ==> UniqueIds(JoinById(rows, ids))
  {
    if rows != [] {
      JoinByIdFacts(rows[1..], ids);
      assert rows == [rows[0]] + rows[1..];
      var rest := JoinById(rows[1..], ids);
      if UniqueIds(rows) {
        forall k | 0 <= k < |rest| ensures rest[k].id != rows[0].id {
          assert rest[k] in rows[1..];
          var i :| 0 <= i < |rows[1..]| && rows[1..][i] == rest[k];
          assert rows[i + 1] == rest[k];
        }
      }
    }
  }

  lemma LastsAgree(rows: seq<Assessment>, a: Assessment, b: Assessment)
    requires IsLast(rows, a) && IsLast(rows, b) && a.organizationId == b.organizationId
    ensures a.id == b.id
  {
    assert NotAfter(a, b) && NotAfter(b, a);
  }

  lemma AssessedHasId(rows: seq<Assessment>, r: Assessment)
    requires r in rows
    ensures r.organizationId in LatestIds(rows, LatestCreated(rows))
  {
    var created := LatestCreated(rows);
    LatestCreatedFacts(rows);
    LatestIdsFacts(rows, created);
    var m :| m in rows && m.organizationId == r.organizationId && m.createdAt == created[r.organizationId];
  }

  lemma LatestIdRow(rows: seq<Assessment>, org: string) returns (m: Assessment)
    requires org in LatestIds(rows, LatestCreated(rows))
    ensures IsLast(rows, m) && m.organizationId == org && m.id == LatestIds(rows, LatestCreated(rows))[org]
  {
    var created := LatestCreated(rows);
    var ids := LatestIds(rows, created);
    LatestCreatedFacts(rows);
    LatestIdsFacts(rows, created);
    m :| m in rows && m.organizationId == org && m.createdAt == created[org] && m.id == ids[org];
    forall o | o in rows && o.organizationId == org ensures NotAfter(o, m) {
      assert o.createdAt <= created[org];
    }
  }

  lemma ListedIsLast(rows: seq<Assessment>, r: Assessment)
    requires UniqueIds(rows) && r in Latest(rows)
    ensures IsLast(rows, r)
  {
    var ids := LatestIds(rows, LatestCreated(rows));
    JoinByIdFacts(rows, ids);
    var org :| org in ids && ids[org] == r.id;
    var m := LatestIdRow(rows, org);
  }

  lemma LastIsListed(rows: seq<Assessment>, r: Assessment)
    requires IsLast(rows, r)
    ensures r in Latest(rows)
  {
    var ids := LatestIds(rows, LatestCreated(rows));
    JoinByIdFacts(rows, ids);
    AssessedHasId(rows, r);
    var m := LatestIdRow(rows, r.organizationId);
    LastsAgree(rows, m, r);
    assert ids[r.organizationId] in ids.Values;
  }

  /** The two-stage grouping lists exactly the rows that are their organisation's last. */
  lemma LatestIffLast(rows: seq<Assessment>, r: Assessment)
    requires UniqueIds(rows)
    ensures r in Latest(rows) <==> IsLast(rows, r)
  {
    if r in Latest(rows) { ListedIsLast(rows, r); }
    if IsLast(rows, r) { LastIsListed(rows, r); }
  }

  ghost predicate OnePerOrganization(rows: seq<Assessment>)
  {
    forall i, j :: 0 <= i < j < |rows| ==> rows[i].organizationId != rows[j].organizationId
  }

  /** Every assessed organisation is listed exactly once. */
  lemma LatestIsOnePerOrganization(rows: seq<Assessment>)
    requires UniqueIds(rows)
    ensures OnePerOrganization(Latest(rows))
    ensures forall o :: o in rows ==> exists r :: r in Latest(rows) && r.organizationId == o.organizationId
  {
    var latest := Latest(rows);
    JoinByIdFacts(rows, LatestIds(rows, LatestCreated(rows)));
    forall i, j | 0 <= i < j < |latest| ensures latest[i].organizationId != latest[j].organizationId {
      assert latest[i] in latest && latest[j] in latest;
      LatestIffLast(rows, latest[i]);
      LatestIffLast(rows, latest[j]);
      if latest[i].organizationId == latest[j].organizationId {
        LastsAgree(rows, latest[i], latest[j]);
      }
    }
    forall o | o in rows ensures exists r :: r in latest && r.organizationId == o.organizationId {
      AssessedHasId(rows, o);
      var m := LatestIdRow(rows, o.organizationId);
      LastIsListed(rows, m);
    }
  }

  // ----- the gauges

  predicate Stale(item: Assessment, policies: map<string, string>, now: int)
  {
    item.organizationId !in policies || item.expiresAt.None? || item.expiresAt.value <= now
    || item.policySha != policies[item.organizationId]
  }

  /** The organisation has a policy, and the assessment was made under it and has not expired. */
  ghost predicate Counts(item: Assessment, policies: map<string, string>, now: int)
  {
    && item.organizationId in policies && item.policySha == policies[item.organizationId]
    && item.expiresAt.Some? && now < item.expiresAt.value
  }

  function Organizations(rows: seq<Assessment>): set<string> { set r | r in rows :: r.organizationId }

  /** Organisations with a policy or an assessment whose last assessment is missing or does not count. */
  ghost function StaleOrganizations(rows: seq<Assessment>, policies: map<string, string>, now: int): set<string>
  {
    set org | org in Organizations(rows) + policies.Keys &&
              forall r :: IsLast(rows, r) && r.organizationId == org ==> !Counts(r, policies, now)
  }

  /** Organisations whose last assessment counts and says blocked. */
  ghost function BlockedOrganizations(rows: seq<Assessment>, policies: map<string, string>, now: int): set<string>
  {
    set org | org in Organizations(rows) &&
              exists r :: IsLast(rows, r) && r.organizationId == org && Counts(r, policies, now) && r.status == Blocked
  }

  /** The organisations of the rows a condition selects. */
  ghost function Selected(rows: seq<Assessment>, p: Assessment -> bool): set<string>
  {
    if rows == [] then {} else
      Selected(rows[..|rows| - 1], p) + (if p(rows[|rows| - 1]) then {rows[|rows| - 1].organizationId} else {})
  }

  lemma {:induction false} SelectedMembers(rows: seq<Assessment>, p: Assessment -> bool)
    ensures forall org :: org in Selected(rows, p) <==> exists r :: r in rows && p(r) && r.organizationId == org
  {
    if rows != [] {
      var init, last := rows[..|rows| - 1], rows[|rows| - 1];
      SelectedMembers(init, p);
      assert rows == init + [last];
    }
  }

  lemma SelectOneMore(rows: seq<Assessment>, p: Assessment -> bool, i: nat)
    requires OnePerOrganization(rows) && i < |rows|
    ensures |Selected(rows[..i + 1], p)| == |Selected(rows[..i], p)| + if p(rows[i]) then 1 else 0
  {
    SelectedMembers(rows[..i], p);
    assert rows[..i + 1][..i] == rows[..i];
    forall r | r in rows[..i] ensures r.organizationId != rows[i].organizationId {
      var k :| 0 <= k < i && rows[..i][k] == r;
      assert rows[k] == r;
    }
  }

  function StaleTest(policies: map<string, string>, now: int): Assessment -> bool
  {
    (r: Assessment) => Stale(r, policies, now)
  }

  function BlockedTest(policies: map<string, string>, now: int): Assessment -> bool
  {
    (r: Assessment) => !Stale(r, policies, now) && r.status == Blocked
  }

  /** Counts the stale and the blocked organisations; `policies` maps an organisation to the digest of its policy
      now. */
  method Gauges(rows: seq<Assessment>, policies: map<string, string>, now: int) returns (stale: nat, blocked: nat)
    requires UniqueIds(rows)
    ensures stale == |StaleOrganizations(rows, policies, now)|
    ensures blocked == |BlockedOrganizations(rows, policies, now)|
  {
    var latest := Latest(rows);
    LatestIsOnePerOrganization(rows);
    stale, blocked := CountLatest(latest, policies, now);
    stale := stale + |policies.Keys - Organizations(latest)|;
    StaleSplits(rows, policies, now);
    BlockedIsSelected(rows, policies, now);
  }

  method CountLatest(latest: seq<Assessment>, policies: map<string, string>, now: int)
    returns (stale: nat, blocked: nat)
    requires OnePerOrganization(latest)
    ensures stale == |Selected(latest, StaleTest(policies, now))|
    ensures blocked == |Selected(latest, BlockedTest(policies, now))|
  {
    stale, blocked := 0, 0;
    for i := 0 to |latest|
      invariant stale == |Selected(latest[..i], StaleTest(policies, now))|
      invariant blocked == |Selected(latest[..i], BlockedTest(policies, now))|
    {
      SelectOneMore(latest, StaleTest(policies, now), i);
      SelectOneMore(latest, BlockedTest(policies, now), i);
      if Stale(latest[i], policies, now) {
        stale := stale + 1;
      } else if latest[i].status == Blocked {
        blocked := blocked + 1;
      }
    }
    assert latest[..|latest|] == latest;
  }

  lemma LatestOrganizations(rows: seq<Assessment>)
    requires UniqueIds(rows)
    ensures Organizations(Latest(rows)) == Organizations(rows)
  {
    LatestIsOnePerOrganization(rows);
    forall org ensures org in Organizations(Latest(rows)) <==> org in Organizations(rows) {
      if org in Organizations(Latest(rows)) {
        var r :| r in Latest(rows) && r.organizationId == org;
        LatestIffLast(rows, r);
      }
      if org in Organizations(rows) {
        var o :| o in rows && o.organizationId == org;
      }
    }
  }

  lemma LastOf(rows: seq<Assessment>, org: string) returns (r: Assessment)
    requires UniqueIds(rows) && org in Organizations(rows)
    ensures r in Latest(rows) && IsLast(rows, r) && r.organizationId == org
    ensures forall o :: IsLast(rows, o) && o.organizationId == org ==> o == r
  {
    LatestOrganizations(rows);
    r :| r in Latest(rows) && r.organizationId == org;
    LatestIffLast(rows, r);
    forall o | IsLast(rows, o) && o.organizationId == org ensures o == r {
      LastsAgree(rows, o, r);
    }
  }

  lemma StaleSplits(rows: seq<Assessment>, policies: map<string, string>, now: int)
    requires UniqueIds(rows)
    ensures |StaleOrganizations(rows, policies, now)| ==
            |Selected(Latest(rows), StaleTest(policies, now))| + |policies.Keys - Organizations(Latest(rows))|
  {
    var picked, missing := Selected(Latest(rows), StaleTest(policies, now)),
        policies.Keys - Organizations(Latest(rows));
    forall org
      ensures org in StaleOrganizations(rows, policies, now) <==> org in picked || org in missing
      ensures !(org in picked && org in missing)
    {
      StaleOrMissing(rows, policies, now, org);
    }
    assert StaleOrganizations(rows, policies, now) == picked + missing;
    assert picked !! missing;
  }

  lemma PickedIff(rows: seq<Assessment>, p: Assessment -> bool, org: string)
    requires UniqueIds(rows)
    ensures org in Selected(Latest(rows), p) <==> exists r :: IsLast(rows, r) && r.organizationId == org && p(r)
  {
    SelectedMembers(Latest(rows), p);
    forall r ensures r in Latest(rows) <==> IsLast(rows, r) { LatestIffLast(rows, r); }
  }

  lemma StaleOrMissing(rows: seq<Assessment>, policies: map<string, string>, now: int, org: string)
    requires UniqueIds(rows)
    ensures var picked, missing := Selected(Latest(rows), StaleTest(policies, now)),
              policies.Keys - Organizations(Latest(rows));
            && (org in StaleOrganizations(rows, policies, now) <==> org in picked || org in missing)
            && !(org in picked && org in missing)
  {
    PickedIff(rows, StaleTest(policies, now), org);
    LatestOrganizations(rows);
    if org in Organizations(rows) {
      var r := LastOf(rows, org);
      assert StaleTest(policies, now)(r) <==> Stale(r, policies, now);
    } else {
      forall r | IsLast(rows, r) ensures r.organizationId != org { assert r in rows; }
    }
  }

  lemma BlockedIsSelected(rows: seq<Assessment>, policies: map<string, string>, now: int)
    requires UniqueIds(rows)
    ensures BlockedOrganizations(rows, policies, now) == Selected(Latest(rows), BlockedTest(policies, now))
  {
    var test := BlockedTest(policies, now);
    assert forall r: Assessment :: test(r) <==> Counts(r, policies, now) && r.status == Blocked;
    forall org ensures org in BlockedOrganizations(rows, policies, now) <==> org in Selected(Latest(rows), test) {
      PickedIff(rows, test, org);
      if r :| IsLast(rows, r) && r.organizationId == org && test(r) { assert r in rows; }
    }
  }
}
