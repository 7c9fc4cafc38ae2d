/**
 Tiered views of a product passport: the newest verification per predicate, for an authority or,
 restricted to the predicates its registry entry opens, for a party of legitimate interest.
 */
module Views {
  import opened Wrappers

  datatype VerifiedPredicate = VerifiedPredicate(predicateId: string, result: bool, verifiedAt: int)

  datatype PredicateInfo = PredicateInfo(name: string, legitInterest: bool)

  type Registry = map<string, PredicateInfo>

  datatype PredicateResult = PredicateResult(predicateId: string, predicateName: string, result: bool, verifiedAt: int)

  datatype AccessLevel = Public | LegitInterest | Authority

  function NameOf(registry: Registry, id: string): string {
    if id in registry && registry[id].name != "" then registry[id].name else id
  }

  function ResultOf(registry: Registry, row: VerifiedPredicate): PredicateResult {
    PredicateResult(row.predicateId, NameOf(registry, row.predicateId), row.result, row.verifiedAt)
  }

  /** Whether an access level may see a predicate; unknown predicates are closed to all. */
  function CanAccessPredicate(registry: Registry, level: AccessLevel, id: string): bool {
    if id !in registry then false
    else
      match level
      case Public => false
      case Authority => true
      case LegitInterest => registry[id].legitInterest
  }

  // ---------------------------------------------------------------- the newest row per predicate

  /** Where a predicate stands in an insertion-ordered list, or its length. */
  function Find(results: seq<PredicateResult>, id: string): (i: nat)
    ensures i <= |results|
    ensures i < |results| ==> results[i].predicateId == id
    ensures forall j :: 0 <= j < i ==> results[j].predicateId != id
  {
    if results == [] then 0
    else if results[0].predicateId == id then 0
    else 1 + Find(results[1..], id)
  }

  /** Setting a key of an insertion-ordered map: a known key keeps its place. */
  function Set(results: seq<PredicateResult>, r: PredicateResult): seq<PredicateResult> {
    var i := Find(results, r.predicateId);
    if i < |results| then results[i := r] else results + [r]
  }

  predicate Supersedes(results: seq<PredicateResult>, row: VerifiedPredicate) {
    var i := Find(results, row.predicateId);
    i == |results| || row.verifiedAt > results[i].verifiedAt
  }

  function Newest(registry: Registry, rows: seq<VerifiedPredicate>): seq<PredicateResult> {
    if rows == [] then []
    else
      var before, row := Newest(registry, rows[..|rows| - 1]), rows[|rows| - 1];
      if Supersedes(before, row) then Set(before, ResultOf(registry, row)) else before
  }

  method ComposeAuthorityPredicates(registry: Registry, rows: seq<VerifiedPredicate>)
    returns (results: seq<PredicateResult>)
    ensures results == Newest(registry, rows)
  {
    results := [];
    for i := 0 to |rows|
      invariant results == Newest(registry, rows[..i])
    {
      var row := rows[i];
      assert rows[..i + 1][..i] == rows[..i];
      var existing := Find(results, row.predicateId);
      if existing == |results| || row.verifiedAt > results[existing].verifiedAt {
        results := Set(results,
          PredicateResult(row.predicateId, NameOf(registry, row.predicateId), row.result, row.verifiedAt));
      }
    }
    assert rows[..|rows|] == rows;
  }

  // ---------------------------------------------------------------- projection

  predicate Opens(registry: Registry, id: string) {
    id in registry && registry[id].legitInterest
  }

  /** The results open to a party of legitimate interest, in the same order. */
  function Project(registry: Registry, results: seq<PredicateResult>): seq<PredicateResult> {
    if results == [] then []
    else
      var before, last := Project(registry, results[..|results| - 1]), results[|results| - 1];
      if Opens(registry, last.predicateId) then before + [last] else before
  }

  /** The legitimate-interest loop gives exactly the authority's list restricted to open predicates. */
  method ComposeLegitInterestPredicates(registry: Registry, rows: seq<VerifiedPredicate>)
    returns (results: seq<PredicateResult>)
    ensures results == Project(registry, Newest(registry, rows))
  {
    results := [];
    for i := 0 to |rows|
      invariant results == Project(registry, Newest(registry, rows[..i]))
    {
      var row := rows[i];
      assert rows[..i + 1][..i] == rows[..i];
      ghost var all := Newest(registry, rows[..i]);
      NewestIsDistinct(registry, rows[..i]);
      ProjectStep(registry, all, row);
      var existing := Find(results, row.predicateId);
      if existing == |results| || row.verifiedAt > results[existing].verifiedAt {
        if !(row.predicateId in registry && registry[row.predicateId].legitInterest) {
          continue;
        }
        results := Set(results,
          PredicateResult(row.predicateId, NameOf(registry, row.predicateId), row.result, row.verifiedAt));
      }
    }
    assert rows[..|rows|] == rows;
  }

  ghost predicate Distinct(results: seq<PredicateResult>) {
    forall i, j :: 0 <= i < j < |results| ==> results[i].predicateId != results[j].predicateId
  }

  lemma {:induction false} NewestIsDistinct(registry: Registry, rows: seq<VerifiedPredicate>)
    ensures Distinct(Newest(registry, rows))
    decreases |rows|
  {
    if rows != [] {
      NewestIsDistinct(registry, rows[..|rows| - 1]);
    }
  }

  lemma ProjectStep(registry: Registry, all: seq<PredicateResult>, row: VerifiedPredicate)
    requires Distinct(all)
    ensures var (some, r) := (Project(registry, all), ResultOf(registry, row));
      var all' := if Supersedes(all, row) then Set(all, r) else all;
      Project(registry, all') ==
        if Supersedes(some, row) && Opens(registry, row.predicateId) then Set(some, r) else some
  {
    var (r, i) := (ResultOf(registry, row), Find(all, row.predicateId));
    if i == |all| {
      ProjectLacks(registry, all, r.predicateId);
      assert (all + [r])[..|all|] == all;
    } else {
      FindIn(registry, all, i);
      ProjectReplace(registry, all, r, i);
    }
  }

  lemma ProjectAround(registry: Registry, all: seq<PredicateResult>, i: nat, r: PredicateResult)
    requires i < |all|
    ensures Project(registry, all[i := r]) ==
      Project(registry, all[..i]) + (if Opens(registry, r.predicateId) then [r] else [])
        + Project(registry, all[i + 1..])
  {
    ProjectSplits(registry, all[i := r], i);
    assert all[i := r][..i] == all[..i] && all[i := r][i + 1..] == all[i + 1..];
  }

  /** Replacing an entry by one for the same predicate replaces it in the projection, or nothing there. */
  lemma ProjectReplace(registry: Registry, all: seq<PredicateResult>, r: PredicateResult, i: nat)
    requires i < |all| && all[i].predicateId == r.predicateId
    ensures var (some, k) := (Project(registry, all), |Project(registry, all[..i])|);
      if Opens(registry, r.predicateId) then
        k < |some| && some[k] == all[i] && Project(registry, all[i := r]) == some[k := r]
      else Project(registry, all[i := r]) == some
  {
    ProjectAround(registry, all, i, all[i]);
    ProjectAround(registry, all, i, r);
    assert all[i := all[i]] == all;
    if Opens(registry, r.predicateId) {
      var (before, after) := (Project(registry, all[..i]), Project(registry, all[i + 1..]));
      assert (before + [all[i]] + after)[|before| := r] == before + [r] + after;
    }
  }

  lemma {:induction false} ProjectLacks(registry: Registry, all: seq<PredicateResult>, id: string)
    requires forall j :: 0 <= j < |all| ==> all[j].predicateId != id
    ensures var some := Project(registry, all); forall j :: 0 <= j < |some| ==> some[j].predicateId != id
    decreases |all|
  {
    if all != [] {
      var init, last := all[..|all| - 1], all[|all| - 1];
      assert forall j :: 0 <= j < |init| ==> init[j] == all[j];
      ProjectLacks(registry, init, id);
      assert Project(registry, all)
        == Project(registry, init) + (if Opens(registry, last.predicateId) then [last] else []);
    }
  }

  lemma {:induction false} ProjectAppend(registry: Registry, a: seq<PredicateResult>, b: seq<PredicateResult>)
    ensures Project(registry, a + b) == Project(registry, a) + Project(registry, b)
    decreases |b|
  {
    if b == [] {
      assert a + b == a;
    } else {
      assert (a + b)[..|a + b| - 1] == a + b[..|b| - 1];
      ProjectAppend(registry, a, b[..|b| - 1]);
    }
  }

  lemma ProjectSplits(registry: Registry, all: seq<PredicateResult>, i: nat)
    requires i < |all|
    ensures Project(registry, all) ==
      Project(registry, all[..i]) + (if Opens(registry, all[i].predicateId) then [all[i]] else [])
        + Project(registry, all[i + 1..])
  {
    assert all == all[..i] + ([all[i]] + all[i + 1..]);
    ProjectAppend(registry, all[..i], [all[i]] + all[i + 1..]);
    ProjectAppend(registry, [all[i]], all[i + 1..]);
  }

  /** A predicate's place in the projection. */
  lemma FindIn(registry: Registry, all: seq<PredicateResult>, i: nat)
    requires Distinct(all) && i < |all|
    ensures var (some, id) := (Project(registry, all), all[i].predicateId);
      Find(some, id) == if Opens(registry, id) then |Project(registry, all[..i])| else |some|
  {
    var (some, id) := (Project(registry, all), all[i].predicateId);
    ProjectSplits(registry, all, i);
    ProjectLacks(registry, all[..i], id);
    ProjectLacks(registry, all[i + 1..], id);
    var (before, at) := (Project(registry, all[..i]), Find(some, id));
    assert forall j :: 0 <= j < |before| ==> some[j] == before[j];
    if Opens(registry, id) {
      assert some[|before|] == all[i];
    } else {
      assert some == before + Project(registry, all[i + 1..]);
    }
  }

  // ---------------------------------------------------------------- what the lists are

  function Lookup(results: seq<PredicateResult>, id: string): Option<PredicateResult> {
    var i := Find(results, id);
    if i < |results| then Some(results[i]) else None
  }

  lemma LookupSet(results: seq<PredicateResult>, r: PredicateResult, id: string)
    ensures Lookup(Set(results, r), id) == if id == r.predicateId then Some(r) else Lookup(results, id)
  {
    var (i, at) := (Find(results, r.predicateId), Find(results, id));
    var results' := Set(results, r);
    assert forall j :: 0 <= j < |results| && j != i ==> results'[j] == results[j];
    assert results'[i] == r;
  }

  /** The first row with the latest time among a predicate's rows, by definition; `None` if there are none. */
  ghost predicate IsLatest(rows: seq<VerifiedPredicate>, id: string, latest: Option<VerifiedPredicate>) {
    match latest
    case None => forall j :: 0 <= j < |rows| ==> rows[j].predicateId != id
    case Some(row) => exists i :: IsFirstLatest(rows, id, i) && rows[i] == row
  }

  ghost predicate IsFirstLatest(rows: seq<VerifiedPredicate>, id: string, i: int) {
    && 0 <= i < |rows| && rows[i].predicateId == id
    && (forall j :: 0 <= j < |rows| && rows[j].predicateId == id ==>
          rows[j].verifiedAt < rows[i].verifiedAt || (rows[j].verifiedAt == rows[i].verifiedAt && i <= j))
  }

  function Latest(rows: seq<VerifiedPredicate>, id: string): Option<VerifiedPredicate> {
    if rows == [] then None
    else
      var before, last := Latest(rows[..|rows| - 1], id), rows[|rows| - 1];
      if last.predicateId == id && (before.None? || last.verifiedAt > before.value.verifiedAt) then Some(last)
        else before
  }

  lemma {:induction false} LatestIsLatest(rows: seq<VerifiedPredicate>, id: string)
    ensures IsLatest(rows, id, Latest(rows, id))
    decreases |rows|
  {
    if rows != [] {
      var n := |rows| - 1;
      var init := rows[..n];
      LatestIsLatest(init, id);
      assert forall j :: 0 <= j < n ==> init[j] == rows[j];
      var before := Latest(init, id);
      if before.Some? {
        var i :| IsFirstLatest(init, id, i) && init[i] == before.value;
        assert IsFirstLatest(rows, id, if Latest(rows, id) == before then i else n);
      } else if rows[n].predicateId == id {
        assert IsFirstLatest(rows, id, n);
      }
    }
  }

  /** What a view shows of a predicate is its newest row, and nothing only if it has no row. */
  lemma {:induction false} NewestIsLatest(registry: Registry, rows: seq<VerifiedPredicate>, id: string)
    ensures Lookup(Newest(registry, rows), id) ==
      match Latest(rows, id)
      case Some(row) => Some(ResultOf(registry, row))
      case None => None
    decreases |rows|
  {
    if rows != [] {
      var init, row := rows[..|rows| - 1], rows[|rows| - 1];
      NewestIsLatest(registry, init, id);
      LookupSet(Newest(registry, init), ResultOf(registry, row), id);
    }
  }

  function Ids(results: seq<PredicateResult>): (ids: seq<string>)
    ensures |ids| == |results| && forall i :: 0 <= i < |ids| ==> ids[i] == results[i].predicateId
  {
    seq(|results|, i requires 0 <= i < |results| => results[i].predicateId)
  }

  /** The list is in the order in which the predicates first appear among the rows. */
  lemma {:induction false} ViewsKeepOrder(registry: Registry, rows: seq<VerifiedPredicate>, row: VerifiedPredicate)
    ensures var (ids, ids') := (Ids(Newest(registry, rows)), Ids(Newest(registry, rows + [row])));
      ids' == if row.predicateId in ids then ids else ids + [row.predicateId]
  {
    var before := Newest(registry, rows);
    var i := Find(before, row.predicateId);
    assert (rows + [row])[..|rows|] == rows;
    if i < |before| {
      assert Ids(before)[i] == row.predicateId;
      assert Ids(before[i := ResultOf(registry, row)]) == Ids(before);
    } else {
      assert forall j :: 0 <= j < |before| ==> Ids(before)[j] != row.predicateId;
      assert Ids(before + [ResultOf(registry, row)]) == Ids(before) + [row.predicateId];
    }
  }

  /**
   The authority's list: one entry per predicate, each the first row with the latest time for
   its predicate, every predicate with a row present; the legitimate-interest list has the same
   entry for each predicate open to it and nothing else.
   */
  lemma ViewsShowNewest(registry: Registry, rows: seq<VerifiedPredicate>, id: string)
    ensures var all := Newest(registry, rows);
      var latest := Latest(rows, id);
      && Distinct(all) && IsLatest(rows, id, latest)
      && (latest.None? ==> Lookup(all, id) == None)
      && (latest.Some? ==>
            var name := if id in registry && registry[id].name != "" then registry[id].name else id;
            Lookup(all, id) == Some(PredicateResult(id, name, latest.value.result, latest.value.verifiedAt)))
      && Lookup(Project(registry, all), id) ==
         if id in registry && registry[id].legitInterest then Lookup(all, id) else None
  {
    var all := Newest(registry, rows);
    NewestIsDistinct(registry, rows);
    LatestIsLatest(rows, id);
    NewestIsLatest(registry, rows, id);
    var i := Find(all, id);
    if i < |all| {
      FindIn(registry, all, i);
      ProjectSplits(registry, all, i);
    } else {
      ProjectLacks(registry, all, id);
    }
  }

  /**
   A predicate's result reaches the legitimate-interest view exactly if it has one and the level
   may access it; the authority is shown results of unknown predicates too, which the access
   check denies it.
   */
  lemma ViewsRespectAccess(registry: Registry, rows: seq<VerifiedPredicate>, id: string)
    ensures var (all, some) := (Newest(registry, rows), Project(registry, Newest(registry, rows)));
      && (Lookup(some, id).Some? <==> Lookup(all, id).Some? && CanAccessPredicate(registry, LegitInterest, id))
      && (Lookup(all, id).Some? ==> (CanAccessPredicate(registry, Authority, id) <==> id in registry))
      && !CanAccessPredicate(registry, Public, id)
  {
    ViewsShowNewest(registry, rows, id);
  }

  lemma UnknownPredicateIsShown(registry: Registry, row: VerifiedPredicate)
    requires row.predicateId !in registry
    ensures Lookup(Newest(registry, [row]), row.predicateId).Some?
    ensures !CanAccessPredicate(registry, Authority, row.predicateId)
  {
    assert [row][..0] == [];
  }
}
