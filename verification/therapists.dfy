/**
 * Therapists (therapistController.js, Therapist.js): the performance report
 * — Completed sales per therapist, most first, the top ten, joined with the
 * therapist records — and the create and update handlers with the name
 * rules the schema imposes (trimmed, required, unique).
 *
 * `therapistId` is not declared on the sale schema, so the report is
 * modelled over sale documents as the aggregation reads them.
 */
module Therapists {
  import opened Wrappers
  import opened Records
  import opened Aggregate

  type TherapistId = nat

  /** A therapist document: feePercentage defaults to 0 and isActive to true. */
  datatype Therapist = Therapist(name: string, feePercentage: int, isActive: bool)

  /** The fields of a sale document the report pipeline reads. */
  datatype SaleDoc = SaleDoc(therapistId: Option<TherapistId>, status: SaleStatus, createdAt: int)

  /** `startDate`/`endDate` query parameters as day numbers. */
  datatype ReportQuery = ReportQuery(startDay: Option<int>, endDay: Option<int>)

  /** `$match`: a therapist is set, the sale is Completed, and — only when both dates are given — it lies in the range. */
  predicate Matches(doc: SaleDoc, q: ReportQuery) {
    doc.therapistId.Some? && doc.status == Completed &&
    (q.startDay.Some? && q.endDay.Some? ==>
       q.startDay.value * MsPerDay <= doc.createdAt <= q.endDay.value * MsPerDay + MsPerDay - 1)
  }

  /** One `(therapistId, 1)` per matched sale, in collection order. */
  function Tallies(docs: seq<SaleDoc>, q: ReportQuery): seq<(TherapistId, int)> {
    if docs == [] then []
    else
      var last := docs[|docs| - 1];
      Tallies(docs[..|docs| - 1], q) + (if Matches(last, q) then [(last.therapistId.value, 1)] else [])
  }

  /** `$group` with `count: { $sum: 1 }`. */
  function Groups(docs: seq<SaleDoc>, q: ReportQuery): seq<(TherapistId, int)> {
    GroupSum(Tallies(docs, q))
  }

  function ByCountDescending(g: (TherapistId, int)): int {
    -g.1
  }

  /** `$sort: { count: -1 }` then `$limit: 10`. */
  function TopGroups(docs: seq<SaleDoc>, q: ReportQuery): seq<(TherapistId, int)> {
    Take(SortBy(Groups(docs, q), ByCountDescending), 10)
  }

  datatype ReportRow = ReportRow(therapistId: TherapistId, name: string, transactionCount: int)

  /** `$lookup` + `$unwind` + `$project`: groups whose therapist no longer exists are dropped. */
  function Joined(groups: seq<(TherapistId, int)>, therapists: map<TherapistId, Therapist>): (r: seq<ReportRow>)
    ensures |r| <= |groups|
    ensures forall k :: 0 <= k < |r| ==>
      r[k].therapistId in therapists && r[k].name == therapists[r[k].therapistId].name &&
      (r[k].therapistId, r[k].transactionCount) in groups
  {
    if groups == [] then []
    else
      var g := groups[0];
      var rest := Joined(groups[1..], therapists);
      assert forall x :: x in groups[1..] ==> x in groups;
      (if g.0 in therapists then [ReportRow(g.0, therapists[g.0].name, g.1)] else []) + rest
  }

  /** getTherapistReport. */
  function TherapistReport(docs: seq<SaleDoc>, q: ReportQuery, therapists: map<TherapistId, Therapist>): seq<ReportRow> {
    Joined(TopGroups(docs, q), therapists)
  }

  /** The number of matched sales credited to therapist `id`. */
  function TransactionCount(docs: seq<SaleDoc>, q: ReportQuery, id: TherapistId): nat {
    if docs == [] then 0
    else
      var last := docs[|docs| - 1];
      TransactionCount(docs[..|docs| - 1], q, id) + (if Matches(last, q) && last.therapistId == Some(id) then 1 else 0)
  }

  // ---------------------------------------------------------------------------
  // Report laws
  // ---------------------------------------------------------------------------

  lemma {:induction false} TalliesCount(docs: seq<SaleDoc>, q: ReportQuery, id: TherapistId)
    ensures SumFor(Tallies(docs, q), id) == TransactionCount(docs, q, id)
    ensures id in KeysOf(Tallies(docs, q)) <==> TransactionCount(docs, q, id) > 0
  {
    if docs != [] {
      var init := docs[..|docs| - 1];
      var last := docs[|docs| - 1];
      var step: seq<(TherapistId, int)> := if Matches(last, q) then [(last.therapistId.value, 1)] else [];
      TalliesCount(init, q, id);
      SumForAppend(Tallies(init, q), step, id);
      assert SumFor(step, id) == (if Matches(last, q) && last.therapistId == Some(id) then 1 else 0) by {
        if Matches(last, q) { assert step[..0] == []; }
      }
      KeysOfAppend(Tallies(init, q), step, id);
      assert id in KeysOf(step) <==> Matches(last, q) && last.therapistId == Some(id);
    }
  }

  /** Each group carries the number of matched sales of its therapist, and every such therapist has a group. */
  lemma {:induction false} GroupsCount(docs: seq<SaleDoc>, q: ReportQuery)
    ensures var gs := Groups(docs, q);
      Distinct(KeysOf(gs)) &&
      (forall j :: 0 <= j < |gs| ==> gs[j].1 == TransactionCount(docs, q, gs[j].0) && gs[j].1 > 0) &&
      (forall id :: id in KeysOf(gs) <==> TransactionCount(docs, q, id) > 0)
  {
    var gs := Groups(docs, q);
    forall j | 0 <= j < |gs| ensures gs[j].1 == TransactionCount(docs, q, gs[j].0) && gs[j].1 > 0 {
      TalliesCount(docs, q, gs[j].0);
      assert gs[j].0 in KeysOf(gs);
    }
    forall id ensures id in KeysOf(gs) <==> TransactionCount(docs, q, id) > 0 {
      TalliesCount(docs, q, id);
    }
  }

  /** The ten groups kept: largest counts first, no therapist twice, each with its true count. */
  lemma {:induction false} TopGroupsShape(docs: seq<SaleDoc>, q: ReportQuery)
    ensures var top := TopGroups(docs, q);
      var sorted := SortBy(Groups(docs, q), ByCountDescending);
      |top| <= 10 && top == sorted[..|top|] &&
      (|sorted| <= 10 ==> top == sorted) &&
      multiset(sorted) == multiset(Groups(docs, q)) &&
      Distinct(KeysOf(top)) &&
      (forall i, j :: 0 <= i < j < |top| ==> top[i].1 >= top[j].1) &&
      (forall j :: 0 <= j < |top| ==> top[j].1 == TransactionCount(docs, q, top[j].0) && top[j].1 > 0)
  {
    TopGroupsDistinct(docs, q);
    TopGroupsCounts(docs, q);
    TopGroupsOrdered(docs, q);
  }

  lemma TopGroupsOrdered(docs: seq<SaleDoc>, q: ReportQuery)
    ensures var top := TopGroups(docs, q);
      forall i, j :: 0 <= i < j < |top| ==> top[i].1 >= top[j].1
  {
    var sorted := SortBy(Groups(docs, q), ByCountDescending);
    var top := TopGroups(docs, q);
    forall i, j | 0 <= i < j < |top| ensures top[i].1 >= top[j].1 {
      assert ByCountDescending(sorted[i]) <= ByCountDescending(sorted[j]);
    }
  }

  lemma TopGroupsDistinct(docs: seq<SaleDoc>, q: ReportQuery)
    ensures Distinct(KeysOf(TopGroups(docs, q)))
  {
    var gs := Groups(docs, q);
    var sorted := SortBy(gs, ByCountDescending);
    var top := TopGroups(docs, q);
    PermutedKeysDistinct(gs, sorted);
    forall i, j | 0 <= i < j < |top| ensures KeysOf(top)[i] != KeysOf(top)[j] {
      assert top[i] == sorted[i] && top[j] == sorted[j];
      assert KeysOf(sorted)[i] != KeysOf(sorted)[j];
    }
  }

  lemma TopGroupsCounts(docs: seq<SaleDoc>, q: ReportQuery)
    ensures var top := TopGroups(docs, q);
      forall j :: 0 <= j < |top| ==> top[j].1 == TransactionCount(docs, q, top[j].0) && top[j].1 > 0
  {
    var gs := Groups(docs, q);
    var sorted := SortBy(gs, ByCountDescending);
    var top := TopGroups(docs, q);
    GroupsCount(docs, q);
    forall j | 0 <= j < |top| ensures top[j].1 == TransactionCount(docs, q, top[j].0) && top[j].1 > 0 {
      assert top[j] == sorted[j];
      assert sorted[j] in multiset(gs);
      var a :| 0 <= a < |gs| && gs[a] == sorted[j];
    }
  }

  /** Largest count first, no therapist twice. */
  predicate Ranked(rows: seq<ReportRow>) {
    (forall i, j :: 0 <= i < j < |rows| ==> rows[i].transactionCount >= rows[j].transactionCount) &&
    (forall i, j :: 0 <= i < j < |rows| ==> rows[i].therapistId != rows[j].therapistId)
  }

  /** The join keeps the groups' order, so ordered, repeat-free groups give ordered, repeat-free rows. */
  lemma {:induction false} JoinedOrder(groups: seq<(TherapistId, int)>, therapists: map<TherapistId, Therapist>)
    requires Distinct(KeysOf(groups))
    requires forall i, j :: 0 <= i < j < |groups| ==> groups[i].1 >= groups[j].1
    ensures Ranked(Joined(groups, therapists))
  {
    if groups != [] {
      var rest := groups[1..];
      assert Distinct(KeysOf(rest)) by {
        forall i, j | 0 <= i < j < |rest| ensures KeysOf(rest)[i] != KeysOf(rest)[j] {
          assert KeysOf(rest)[i] == KeysOf(groups)[i + 1] && KeysOf(rest)[j] == KeysOf(groups)[j + 1];
        }
      }
      JoinedOrder(rest, therapists);
      var jr := Joined(rest, therapists);
      forall k | 0 <= k < |jr|
        ensures jr[k].transactionCount <= groups[0].1 && jr[k].therapistId != groups[0].0
      {
        var x := (jr[k].therapistId, jr[k].transactionCount);
        var j :| 0 <= j < |rest| && rest[j] == x;
        assert rest[j] == groups[j + 1];
        assert KeysOf(groups)[0] != KeysOf(groups)[j + 1];
      }
      var g := groups[0];
      if g.0 in therapists {
        RankedCons(ReportRow(g.0, therapists[g.0].name, g.1), jr);
      }
    }
  }

  lemma RankedCons(row: ReportRow, rows: seq<ReportRow>)
    requires Ranked(rows)
    requires forall k :: 0 <= k < |rows| ==> rows[k].transactionCount <= row.transactionCount && rows[k].therapistId != row.therapistId
    ensures Ranked([row] + rows)
  {
    var r := [row] + rows;
    forall i, j | 0 <= i < j < |r|
      ensures r[i].transactionCount >= r[j].transactionCount && r[i].therapistId != r[j].therapistId
    {
      assert r[j] == rows[j - 1];
      if i > 0 {
        assert r[i] == rows[i - 1];
      }
    }
  }

  /**
   * The report: at most ten rows, each an existing therapist with their
   * name and their number of matched sales, no therapist twice, largest
   * count first.
   */
  lemma {:induction false} TherapistReportRows(docs: seq<SaleDoc>, q: ReportQuery, therapists: map<TherapistId, Therapist>)
    ensures var rows := TherapistReport(docs, q, therapists);
      |rows| <= 10 &&
      (forall k :: 0 <= k < |rows| ==>
         rows[k].therapistId in therapists &&
         rows[k].name == therapists[rows[k].therapistId].name &&
         rows[k].transactionCount == TransactionCount(docs, q, rows[k].therapistId) &&
         rows[k].transactionCount > 0) &&
      Ranked(rows)
  {
    var top := TopGroups(docs, q);
    var rows := TherapistReport(docs, q, therapists);
    TopGroupsShape(docs, q);
    JoinedOrder(top, therapists);
    forall k | 0 <= k < |rows|
      ensures rows[k].transactionCount == TransactionCount(docs, q, rows[k].therapistId) && rows[k].transactionCount > 0
    {
      var x := (rows[k].therapistId, rows[k].transactionCount);
      var j :| 0 <= j < |top| && top[j] == x;
    }
  }

  /**
   * When at most ten therapists have matched sales, every one of them that
   * still exists has a row.
   */
  lemma {:induction false} TherapistReportComplete(docs: seq<SaleDoc>, q: ReportQuery, therapists: map<TherapistId, Therapist>, id: TherapistId)
    requires |Groups(docs, q)| <= 10
    requires id in therapists && TransactionCount(docs, q, id) > 0
    ensures exists k ::
      0 <= k < |TherapistReport(docs, q, therapists)| && TherapistReport(docs, q, therapists)[k].therapistId == id
  {
    TalliesCount(docs, q, id);
    var gs := Groups(docs, q);
    var sorted := SortBy(gs, ByCountDescending);
    var top := TopGroups(docs, q);
    assert top == sorted;
    assert id in KeysOf(gs);
    var a :| 0 <= a < |gs| && KeysOf(gs)[a] == id;
    assert gs[a] in multiset(sorted);
    var j :| 0 <= j < |top| && top[j] == gs[a];
    var k := JoinedHas(top, therapists, j);
    assert TherapistReport(docs, q, therapists)[k].therapistId == id;
  }

  /** A group whose therapist exists has its row in the join. */
  lemma {:induction false} JoinedHas(groups: seq<(TherapistId, int)>, therapists: map<TherapistId, Therapist>, j: nat)
    returns (k: nat)
    requires j < |groups| && groups[j].0 in therapists
    ensures k < |Joined(groups, therapists)|
    ensures Joined(groups, therapists)[k] == ReportRow(groups[j].0, therapists[groups[j].0].name, groups[j].1)
  {
    var r := Joined(groups, therapists);
    var head: seq<ReportRow> := if groups[0].0 in therapists then [ReportRow(groups[0].0, therapists[groups[0].0].name, groups[0].1)] else [];
    assert r == head + Joined(groups[1..], therapists);
    if j == 0 {
      k := 0;
    } else {
      var k' := JoinedHas(groups[1..], therapists, j - 1);
      k := |head| + k';
      assert r[k] == Joined(groups[1..], therapists)[k'];
    }
  }

  /** The date range is ignored unless both dates are given. */
  lemma {:induction false} RangeNeedsBothDates(docs: seq<SaleDoc>, q: ReportQuery)
    requires q.startDay.None? || q.endDay.None?
    ensures Tallies(docs, q) == Tallies(docs, ReportQuery(None, None))
  {
    if docs != [] {
      RangeNeedsBothDates(docs[..|docs| - 1], q);
    }
  }

  // ---------------------------------------------------------------------------
  // createTherapist and updateTherapist
  // ---------------------------------------------------------------------------

  datatype TherapistError =
    | NameTaken       // 400 "A therapist with this name already exists"
    | NotFound        // 404
    | SaveRejected    // the document fails validation or the unique index on save: 500

  /** The unique index on `name`. */
  ghost predicate NamesUnique(therapists: map<TherapistId, Therapist>) {
    forall a, b :: a in therapists && b in therapists && a != b ==> therapists[a].name != therapists[b].name
  }

  predicate NameInUse(therapists: map<TherapistId, Therapist>, name: string, except: Option<TherapistId>) {
    exists t :: t in therapists && Some(t) != except && therapists[t].name == name
  }

  /**
   * Saving a therapist document under `id`: the name is trimmed, must be
   * non-empty, and must not belong to another therapist.
   */
  function SaveTherapist(therapists: map<TherapistId, Therapist>, id: TherapistId, t: Therapist)
    : Result<map<TherapistId, Therapist>, TherapistError>
  {
    var stored := t.(name := Trim(t.name));
    if stored.name == [] then Failure(SaveRejected)
    else if NameInUse(therapists, stored.name, Some(id)) then Failure(SaveRejected)
    else Success(therapists[id := stored])
  }

  /**
   * createTherapist: the name is looked up (the schema's trim applies to the
   * query filter as well), and a new document gets the default fee and is
   * active. `id` is the fresh id the database assigns.
   */
  function CreateTherapistSpec(therapists: map<TherapistId, Therapist>, id: TherapistId, name: string)
    : Result<map<TherapistId, Therapist>, TherapistError>
    requires id !in therapists
  {
    if NameInUse(therapists, Trim(name), None) then Failure(NameTaken)
    else SaveTherapist(therapists, id, Therapist(name, 0, true))
  }

  /** `name || old.name` and `isActive !== undefined ? isActive : old.isActive`. */
  function Merge(t: Therapist, name: Option<string>, isActive: Option<bool>): Therapist {
    t.(name := if name.Some? && name.value != [] then name.value else t.name,
       isActive := if isActive.Some? then isActive.value else t.isActive)
  }

  /** updateTherapist: merge the sent fields into the stored document and save it. */
  function UpdateTherapistSpec(
    therapists: map<TherapistId, Therapist>, id: TherapistId, name: Option<string>, isActive: Option<bool>)
    : Result<map<TherapistId, Therapist>, TherapistError>
  {
    if id !in therapists then Failure(NotFound)
    else SaveTherapist(therapists, id, Merge(therapists[id], name, isActive))
  }

  /** The fetched document that updateTherapist changes in place before saving it. */
  class TherapistRecord {
    var name: string
    var feePercentage: int
    var isActive: bool

    function Value(): Therapist
      reads this
    {
      Therapist(name, feePercentage, isActive)
    }

    constructor (t: Therapist)
      ensures Value() == t
    {
      name := t.name;
      feePercentage := t.feePercentage;
      isActive := t.isActive;
    }

    method ApplyUpdate(newName: Option<string>, newIsActive: Option<bool>)
      modifies this
      ensures Value() == Merge(old(Value()), newName, newIsActive)
    {
      if newName.Some? && newName.value != [] {
        name := newName.value;
      }
      if newIsActive.Some? {
        isActive := newIsActive.value;
      }
    }
  }

  /**
   * createTherapist refuses a name some therapist already has, and
   * otherwise stores a new active therapist with fee 0 under the trimmed
   * name, refusing an empty one.
   */
  lemma {:induction false} CreateOutcome(therapists: map<TherapistId, Therapist>, id: TherapistId, name: string)
    requires id !in therapists
    ensures (exists t :: t in therapists && therapists[t].name == Trim(name)) <==>
      CreateTherapistSpec(therapists, id, name) == Failure(NameTaken)
    ensures CreateTherapistSpec(therapists, id, name).Success? <==>
      Trim(name) != [] && forall t :: t in therapists ==> therapists[t].name != Trim(name)
    ensures CreateTherapistSpec(therapists, id, name).Success? ==>
      CreateTherapistSpec(therapists, id, name).value == therapists[id := Therapist(Trim(name), 0, true)]
  {
    TrimIdempotent(name);
  }

  /** Create and update both keep names unique. */
  lemma {:induction false} HandlersKeepNamesUnique(
    therapists: map<TherapistId, Therapist>, id: TherapistId, name: string,
    target: TherapistId, newName: Option<string>, newIsActive: Option<bool>)
    requires NamesUnique(therapists)
    requires id !in therapists
    ensures CreateTherapistSpec(therapists, id, name).Success? ==> NamesUnique(CreateTherapistSpec(therapists, id, name).value)
    ensures UpdateTherapistSpec(therapists, target, newName, newIsActive).Success? ==>
      NamesUnique(UpdateTherapistSpec(therapists, target, newName, newIsActive).value)
  {
    if CreateTherapistSpec(therapists, id, name).Success? {
      SaveKeepsNamesUnique(therapists, id, Therapist(name, 0, true));
    }
    if UpdateTherapistSpec(therapists, target, newName, newIsActive).Success? {
      SaveKeepsNamesUnique(therapists, target, Merge(therapists[target], newName, newIsActive));
    }
  }

  lemma {:induction false} SaveKeepsNamesUnique(therapists: map<TherapistId, Therapist>, id: TherapistId, t: Therapist)
    requires NamesUnique(therapists)
    requires SaveTherapist(therapists, id, t).Success?
    ensures NamesUnique(SaveTherapist(therapists, id, t).value)
  {
    var r := SaveTherapist(therapists, id, t).value;
    forall a, b | a in r && b in r && a != b ensures r[a].name != r[b].name {
      if a == id {
        assert r[b] == therapists[b];
      } else if b == id {
        assert r[a] == therapists[a];
      }
    }
  }

  /**
   * updateTherapist keeps the stored name when none (or an empty one) is
   * sent, keeps isActive when it is not sent, never touches the fee, and
   * sending the same update twice changes nothing more.
   */
  lemma {:induction false} MergeKeepsOmitted(t: Therapist, name: Option<string>, isActive: Option<bool>)
    ensures var m := Merge(t, name, isActive);
      m.feePercentage == t.feePercentage &&
      (name.None? || name == Some([]) ==> m.name == t.name) &&
      (name.Some? && name.value != [] ==> m.name == name.value) &&
      (isActive.None? ==> m.isActive == t.isActive) &&
      (isActive.Some? ==> m.isActive == isActive.value) &&
      Merge(m, name, isActive) == m
  {
  }

  /**
   * An update of a missing therapist is refused; otherwise the merged
   * document is stored with its name trimmed, unless that name is empty or
   * belongs to another therapist, and no other therapist changes.
   */
  lemma {:induction false} UpdateOutcome(therapists: map<TherapistId, Therapist>, id: TherapistId, name: Option<string>, isActive: Option<bool>)
    ensures id !in therapists ==> UpdateTherapistSpec(therapists, id, name, isActive) == Failure(NotFound)
    ensures id in therapists ==>
      var m := Merge(therapists[id], name, isActive);
      var n := Trim(m.name);
      UpdateTherapistSpec(therapists, id, name, isActive) ==
        if n == [] || (exists t :: t in therapists && t != id && therapists[t].name == n) then Failure(SaveRejected)
        else Success(therapists[id := m.(name := n)])
  {
    if id in therapists {
      var m := Merge(therapists[id], name, isActive);
      assert NameInUse(therapists, Trim(m.name), Some(id)) <==>
        exists t :: t in therapists && t != id && therapists[t].name == Trim(m.name);
    }
  }
}
