/**
 Settlement statements and the usage summary of metering-billing.  Prices are whole numbers of
 1/10000 of the currency.  A statement groups usage rows under the text "predicate:brand"; the
 summary groups the same rows by predicate.
 */
module Statements {
  import opened Grouping
  import opened Wrappers

  datatype Usage = Usage(
    supplier: string, predicateId: string, brand: Option<string>, verifiedAt: int, price: int, currency: string)

  datatype Line = Line(
    predicateId: string, name: string, brand: Option<string>, verificationCount: nat, pricePerVerification: int,
    subtotal: int)

  datatype Statement = Statement(totalVerifications: nat, totalAmount: int, currency: string, breakdown: seq<Line>)

  datatype PredicateLine = PredicateLine(predicateId: string, count: nat, amount: int)

  datatype Summary = Summary(totalVerifications: nat, totalAmount: int, currency: string,
    byPredicate: seq<PredicateLine>)

  /** Predicate id to name, for the predicates the registry knows. */
  type Registry = map<string, string>

  // ---------------------------------------------------------------- keys

  /** `brand_id || 'none'`: a missing and an empty brand read the same. */
  function BrandText(brand: Option<string>): string {
    if brand.Some? && brand.value != "" then brand.value else "none"
  }

  function KeyText(predicateId: string, brand: string): string {
    predicateId + ":" + brand
  }

  function LineKey(l: Line): string {
    KeyText(l.predicateId, BrandText(l.brand))
  }

  function Pair(): Usage -> string {
    (u: Usage) => KeyText(u.predicateId, BrandText(u.brand))
  }

  function Predicate(): Usage -> string {
    (u: Usage) => u.predicateId
  }

  function Price(): Usage -> int {
    (u: Usage) => u.price
  }

  function NameOf(registry: Registry, id: string): string {
    if id in registry && registry[id] != "" then registry[id] else id
  }

  function Currency(u: Usage): string {
    if u.currency != "" then u.currency else "EUR"
  }

  /** The first row's. */
  function CurrencyOf(rows: seq<Usage>): string {
    if rows != [] then Currency(rows[0]) else "EUR"
  }

  // ---------------------------------------------------------------- what a statement must be

  function LineOf(registry: Registry, g: Group<Usage>): Line {
    Line(g.first.predicateId, NameOf(registry, g.first.predicateId), g.first.brand, g.count, g.first.price, g.amount)
  }

  /** The line under a key: count and sum of exactly the rows with that key. */
  ghost function LineFor(registry: Registry, rows: seq<Usage>, k: string): (l: Line)
    requires HasKey(rows, Pair(), k)
    ensures LineKey(l) == k && l.verificationCount > 0
  {
    CountIsPositive(rows, Pair(), k);
    LineOf(registry, GroupFor(rows, Pair(), Price(), k))
  }

  ghost function Lines(registry: Registry, rows: seq<Usage>, keys: seq<string>): (lines: seq<Line>)
    requires forall k | k in keys :: HasKey(rows, Pair(), k)
    ensures |lines| == |keys|
    ensures forall i :: 0 <= i < |keys| ==> lines[i] == LineFor(registry, rows, keys[i])
  {
    if keys == [] then [] else Lines(registry, rows, keys[..|keys| - 1]) + [LineFor(registry, rows, keys[|keys| - 1])]
  }

  ghost function LinesFor(registry: Registry, rows: seq<Usage>): seq<Line> {
    KeysKnown(rows);
    Lines(registry, rows, FirstKeys(rows, Pair()))
  }

  lemma KeysKnown(rows: seq<Usage>)
    ensures forall k :: k in FirstKeys(rows, Pair()) <==> HasKey(rows, Pair(), k)
  {
    forall k: string
      ensures k in FirstKeys(rows, Pair()) <==> HasKey(rows, Pair(), k)
    {
      KeyKnown(rows, Pair(), k);
    }
  }

  ghost function StatementFor(registry: Registry, rows: seq<Usage>): Statement {
    Statement(|rows|, SumOver(rows, Price()), CurrencyOf(rows), LinesFor(registry, rows))
  }

  function BreakdownCount(lines: seq<Line>): nat {
    if lines == [] then 0 else BreakdownCount(lines[..|lines| - 1]) + lines[|lines| - 1].verificationCount
  }

  function BreakdownAmount(lines: seq<Line>): int {
    if lines == [] then 0 else BreakdownAmount(lines[..|lines| - 1]) + lines[|lines| - 1].subtotal
  }

  // ---------------------------------------------------------------- generating it

  ghost function LinesOf(registry: Registry, groups: map<string, Group<Usage>>): map<string, Line> {
    map k | k in groups :: LineOf(registry, groups[k])
  }

  function EmptyLine(registry: Registry, u: Usage): Line {
    Line(u.predicateId, NameOf(registry, u.predicateId), u.brand, 0, u.price, 0)
  }

  function OneMore(line: Line, u: Usage): Line {
    line.(verificationCount := line.verificationCount + 1, subtotal := line.subtotal + u.price)
  }

  lemma LinesBump(registry: Registry, groups: map<string, Group<Usage>>, k: string, u: Usage, lines: map<string, Line>)
    requires lines == LinesOf(registry, groups)
    ensures var line := if k in lines then lines[k] else EmptyLine(registry, u);
      LinesOf(registry, groups[k := Bumped(groups, k, u, u.price)]) == lines[k := OneMore(line, u)]
  {
  }

  ghost predicate Built(registry: Registry, rows: seq<Usage>, keys: seq<string>, byKey: map<string, Line>) {
    var pass := PassOver(rows, Pair(), Price());
    keys == pass.keys && byKey == LinesOf(registry, pass.groups)
  }

  lemma BuiltSnoc(registry: Registry, rows: seq<Usage>, keys: seq<string>, byKey: map<string, Line>, u: Usage,
                  key: string)
    requires Built(registry, rows, keys, byKey) && key == Pair()(u)
    ensures var line := if key in byKey then byKey[key] else EmptyLine(registry, u);
      Built(registry, rows + [u], if key in byKey then keys else keys + [key], byKey[key := OneMore(line, u)])
  {
    PassSnoc(rows, Pair(), Price(), u);
    LinesBump(registry, PassOver(rows, Pair(), Price()).groups, key, u, byKey);
  }

  /** One round of the loop: the line under the key is found or opened, and grows by the row. */
  method AddUsage(registry: Registry, keys: seq<string>, byKey: map<string, Line>, usage: Usage)
    returns (keys': seq<string>, byKey': map<string, Line>)
    ensures var key := KeyText(usage.predicateId, BrandText(usage.brand));
      && keys' == (if key in byKey then keys else keys + [key])
      && byKey' == byKey[key := OneMore(if key in byKey then byKey[key] else EmptyLine(registry, usage), usage)]
  {
    var key := KeyText(usage.predicateId, BrandText(usage.brand));
    var line := Line(usage.predicateId, NameOf(registry, usage.predicateId), usage.brand, 0, usage.price, 0);
    keys' := keys;
    if key in byKey {
      line := byKey[key];
    } else {
      keys' := keys + [key];
    }
    byKey' := byKey[key := line.(
      verificationCount := line.verificationCount + 1, subtotal := line.subtotal + usage.price)];
  }

  /** The grouping loop over a map that remembers insertion order. */
  method BuildBreakdown(registry: Registry, usages: seq<Usage>) returns (keys: seq<string>, byKey: map<string, Line>)
    ensures Built(registry, usages, keys, byKey)
  {
    keys, byKey := [], map[];
    for i := 0 to |usages|
      invariant Built(registry, usages[..i], keys, byKey)
    {
      assert usages[..i + 1] == usages[..i] + [usages[i]];
      BuiltSnoc(registry, usages[..i], keys, byKey, usages[i], Pair()(usages[i]));
      keys, byKey := AddUsage(registry, keys, byKey, usages[i]);
    }
    assert usages[..|usages|] == usages;
  }

  lemma BuiltLines(registry: Registry, rows: seq<Usage>, keys: seq<string>, byKey: map<string, Line>)
    requires Built(registry, rows, keys, byKey)
    ensures forall k | k in keys :: k in byKey
    ensures |keys| == |LinesFor(registry, rows)|
    ensures forall i :: 0 <= i < |keys| ==> byKey[keys[i]] == LinesFor(registry, rows)[i]
  {
    PassGroups(rows, Pair(), Price());
    KeysKnown(rows);
  }

  method GenerateStatement(registry: Registry, usages: seq<Usage>) returns (s: Statement)
    ensures s == StatementFor(registry, usages)
  {
    var keys, byKey := BuildBreakdown(registry, usages);
    BuiltLines(registry, usages, keys, byKey);
    var breakdown := seq(|keys|, i requires 0 <= i < |keys| && keys[i] in byKey => byKey[keys[i]]);
    assert breakdown == LinesFor(registry, usages);
    var totalAmount := Reduced(breakdown);
    BreakdownTotals(registry, usages);
    s := Statement(|usages|, totalAmount, CurrencyOf(usages), breakdown);
  }

  method Reduced(breakdown: seq<Line>) returns (sum: int)
    ensures sum == BreakdownAmount(breakdown)
  {
    sum := 0;
    for i := 0 to |breakdown|
      invariant sum == BreakdownAmount(breakdown[..i])
    {
      assert breakdown[..i + 1][..i] == breakdown[..i];
      sum := sum + breakdown[i].subtotal;
    }
    assert breakdown[..|breakdown|] == breakdown;
  }

  lemma BreakdownTotals(registry: Registry, rows: seq<Usage>)
    ensures BreakdownCount(LinesFor(registry, rows)) == |rows|
    ensures BreakdownAmount(LinesFor(registry, rows)) == SumOver(rows, Price())
  {
    KeysKnown(rows);
    LinesAreGroups(registry, rows, FirstKeys(rows, Pair()));
    AllGroupsAddUp(rows, Pair(), One());
    AllGroupsAddUp(rows, Pair(), Price());
    SumOfConstants(rows);
  }

  lemma {:induction false} LinesAreGroups(registry: Registry, rows: seq<Usage>, keys: seq<string>)
    requires forall k | k in keys :: HasKey(rows, Pair(), k)
    ensures BreakdownCount(Lines(registry, rows, keys)) == GroupTotal(keys, rows, Pair(), One())
    ensures BreakdownAmount(Lines(registry, rows, keys)) == GroupTotal(keys, rows, Pair(), Price())
    decreases |keys|
  {
    if keys != [] {
      LinesAreGroups(registry, rows, keys[..|keys| - 1]);
    }
  }

  /** No two lines share a key, every row has its line, no line is empty, and the lines add up to the totals. */
  lemma BreakdownAddsUp(registry: Registry, rows: seq<Usage>)
    ensures var s := StatementFor(registry, rows);
      && BreakdownCount(s.breakdown) == s.totalVerifications
      && BreakdownAmount(s.breakdown) == s.totalAmount
      && (forall i, j :: 0 <= i < j < |s.breakdown| ==> LineKey(s.breakdown[i]) != LineKey(s.breakdown[j]))
      && (forall u | u in rows :: exists l :: l in s.breakdown && LineKey(l) == Pair()(u))
      && (forall l | l in s.breakdown :: l.verificationCount > 0)
  {
    var keys, lines := FirstKeys(rows, Pair()), LinesFor(registry, rows);
    BreakdownTotals(registry, rows);
    forall u | u in rows
      ensures exists l :: l in lines && LineKey(l) == Pair()(u)
    {
      HasKeyOf(rows, Pair(), u);
      KeyKnown(rows, Pair(), Pair()(u));
      var i :| 0 <= i < |keys| && keys[i] == Pair()(u);
      assert lines[i] in lines;
    }
  }

  // ---------------------------------------------------------------- row order

  /** Count and subtotal shown under a key; nothing if there is no such line. */
  function Shown(lines: seq<Line>, k: string): (int, int) {
    if lines == [] then (0, 0)
    else
      var last := lines[|lines| - 1];
      if LineKey(last) == k then (last.verificationCount, last.subtotal) else Shown(lines[..|lines| - 1], k)
  }

  lemma {:induction false} ShownIn(registry: Registry, rows: seq<Usage>, keys: seq<string>, k: string)
    requires forall x | x in keys :: HasKey(rows, Pair(), x)
    ensures Shown(Lines(registry, rows, keys), k) ==
      if k in keys then (SumOver(rows, At(Pair(), k, One())), SumOver(rows, At(Pair(), k, Price()))) else (0, 0)
    decreases |keys|
  {
    if keys != [] {
      ShownIn(registry, rows, keys[..|keys| - 1], k);
    }
  }

  lemma ShownIsSum(registry: Registry, rows: seq<Usage>, k: string)
    ensures Shown(StatementFor(registry, rows).breakdown, k)
         == (SumOver(rows, At(Pair(), k, One())), SumOver(rows, At(Pair(), k, Price())))
  {
    KeysKnown(rows);
    ShownIn(registry, rows, FirstKeys(rows, Pair()), k);
    if !HasKey(rows, Pair(), k) {
      NothingWithoutKey(rows, Pair(), k, One());
      NothingWithoutKey(rows, Pair(), k, Price());
    }
  }

  /** However the database orders the rows, the totals and every key's count and subtotal are the same. */
  lemma RowOrderDoesNotMatter(registry: Registry, rows: seq<Usage>, rows': seq<Usage>)
    requires multiset(rows) == multiset(rows')
    ensures var (s, s') := (StatementFor(registry, rows), StatementFor(registry, rows'));
      && s.totalVerifications == s'.totalVerifications
      && s.totalAmount == s'.totalAmount
      && (forall k :: Shown(s.breakdown, k) == Shown(s'.breakdown, k))
  {
    assert |rows| == |multiset(rows)| == |multiset(rows')| == |rows'|;
    SumPermuted(rows, rows', Price());
    forall k: string
      ensures Shown(StatementFor(registry, rows).breakdown, k) == Shown(StatementFor(registry, rows').breakdown, k)
    {
      ShownIsSum(registry, rows, k);
      ShownIsSum(registry, rows', k);
      SumPermuted(rows, rows', At(Pair(), k, One()));
      SumPermuted(rows, rows', At(Pair(), k, Price()));
    }
  }

  ghost predicate OneCurrency(rows: seq<Usage>) {
    forall u, v | u in rows && v in rows :: Currency(u) == Currency(v)
  }

  lemma FirstCurrency(rows: seq<Usage>)
    ensures (forall rows' | multiset(rows') == multiset(rows) :: CurrencyOf(rows') == CurrencyOf(rows))
      <==> OneCurrency(rows)
  {
    if OneCurrency(rows) {
      forall rows' | multiset(rows') == multiset(rows)
        ensures CurrencyOf(rows') == CurrencyOf(rows)
      {
        SameRowsSameCurrency(rows, rows');
      }
    } else {
      var u, v :| u in rows && v in rows && Currency(u) != Currency(v);
      var x := if Currency(u) == CurrencyOf(rows) then v else u;
      var rest := PutFirst(rows, x);
      assert CurrencyOf([x] + rest) != CurrencyOf(rows);
    }
  }

  lemma SameRowsSameCurrency(rows: seq<Usage>, rows': seq<Usage>)
    requires multiset(rows') == multiset(rows) && OneCurrency(rows)
    ensures CurrencyOf(rows') == CurrencyOf(rows)
  {
    assert |rows'| == |multiset(rows')| == |multiset(rows)| == |rows|;
    if rows != [] {
      assert rows'[0] in multiset(rows');
      assert Currency(rows[0]) == Currency(rows'[0]);
    }
  }

  /** The currency is the first row's, so it is the same for every order exactly if all rows agree on it. */
  lemma CurrencyDependsOnOrder(registry: Registry, rows: seq<Usage>)
    ensures (forall rows' | multiset(rows') == multiset(rows) ::
        StatementFor(registry, rows').currency == StatementFor(registry, rows).currency)
      <==> OneCurrency(rows)
  {
    FirstCurrency(rows);
    forall rows'
      ensures StatementFor(registry, rows').currency == CurrencyOf(rows')
    {
    }
  }

  lemma OneKey(registry: Registry, u: Usage, v: Usage)
    requires Pair()(u) == Pair()(v)
    ensures LinesFor(registry, [u, v])
         == [Line(u.predicateId, NameOf(registry, u.predicateId), u.brand, 2, u.price, u.price + v.price)]
  {
    var k := Pair()(u);
    OneGroup(Pair(), Price(), u, v, k);
    assert LinesFor(registry, [u, v])[0] == LineFor(registry, [u, v], k);
  }

  /** What a line shows of a single row. */
  predicate SameFace(u: Usage, v: Usage) {
    u.predicateId == v.predicateId && u.brand == v.brand && u.price == v.price
  }

  ghost predicate AgreeUnder(rows: seq<Usage>, k: string) {
    forall u, v | u in rows && v in rows && Pair()(u) == k && Pair()(v) == k :: SameFace(u, v)
  }

  ghost function LineUnder(registry: Registry, rows: seq<Usage>, k: string): Option<Line> {
    if HasKey(rows, Pair(), k) then Some(LineFor(registry, rows, k)) else None
  }

  lemma {:induction false} HeadIsFirst(u: Usage, rest: seq<Usage>, k: string)
    requires Pair()(u) == k
    ensures HasKey([u] + rest, Pair(), k) && FirstRow([u] + rest, Pair(), k) == u
    decreases |rest|
  {
    if rest == [] {
      assert [u] + rest == [u];
      SingleGroup(Pair(), Price(), u);
      assert [u][..0] == [];
    } else {
      var init := rest[..|rest| - 1];
      HeadIsFirst(u, init, k);
      assert ([u] + rest)[..|[u] + rest| - 1] == [u] + init;
    }
  }

  /** An order of the rows that puts `u` first. */
  lemma PutFirst(rows: seq<Usage>, u: Usage) returns (rest: seq<Usage>)
    requires u in rows
    ensures multiset([u] + rest) == multiset(rows)
  {
    var n :| 0 <= n < |rows| && rows[n] == u;
    rest := rows[..n] + rows[n + 1..];
    assert rows == rows[..n] + [u] + rows[n + 1..];
  }

  lemma SameRowsSameLine(registry: Registry, rows: seq<Usage>, rows': seq<Usage>, k: string)
    requires multiset(rows') == multiset(rows) && HasKey(rows, Pair(), k) && AgreeUnder(rows, k)
    ensures LineUnder(registry, rows', k) == LineUnder(registry, rows, k)
  {
    SumPermuted(rows, rows', At(Pair(), k, One()));
    SumPermuted(rows, rows', At(Pair(), k, Price()));
    CountIsPositive(rows, Pair(), k);
    CountIsPositive(rows', Pair(), k);
    var (u, v) := (FirstRow(rows, Pair(), k), FirstRow(rows', Pair(), k));
    assert v in multiset(rows');
    assert SameFace(u, v);
  }

  /**
   What a line shows beside its sums (predicate, name, brand and unit price) is its first row's.
   It is the same for every order of the rows exactly if all rows under the key agree on it.
   */
  lemma ShownPriceDependsOnOrder(registry: Registry, rows: seq<Usage>, k: string)
    requires HasKey(rows, Pair(), k)
    ensures (forall rows' | multiset(rows') == multiset(rows) ::
      LineUnder(registry, rows', k) == LineUnder(registry, rows, k))
      <==> AgreeUnder(rows, k)
  {
    if AgreeUnder(rows, k) {
      forall rows' | multiset(rows') == multiset(rows)
        ensures LineUnder(registry, rows', k) == LineUnder(registry, rows, k)
      {
        SameRowsSameLine(registry, rows, rows', k);
      }
    } else {
      var u, v :| u in rows && v in rows && Pair()(u) == k && Pair()(v) == k && !SameFace(u, v);
      var x := if SameFace(u, FirstRow(rows, Pair(), k)) then v else u;
      var rest := PutFirst(rows, x);
      HeadIsFirst(x, rest, k);
      assert LineUnder(registry, [x] + rest, k) != LineUnder(registry, rows, k);
    }
  }

  // ---------------------------------------------------------------- row by row

  lemma NoRows(registry: Registry)
    ensures StatementFor(registry, []) == Statement(0, 0, "EUR", [])
  {
  }

  /** The text a row is grouped under, written out. */
  predicate IsKeyOf(u: Usage, k: string) {
    k == u.predicateId + ":" + if u.brand.Some? && u.brand.value != "" then u.brand.value else "none"
  }

  /** One more row adds itself to the totals and to the line under its own key, and to nothing else. */
  lemma RowAdds(registry: Registry, rows: seq<Usage>, u: Usage, k: string)
    ensures var (s, s') := (StatementFor(registry, rows), StatementFor(registry, rows + [u]));
      && s'.totalVerifications == s.totalVerifications + 1
      && s'.totalAmount == s.totalAmount + u.price
      && Shown(s'.breakdown, k).0 == Shown(s.breakdown, k).0 + (if IsKeyOf(u, k) then 1 else 0)
      && Shown(s'.breakdown, k).1 == Shown(s.breakdown, k).1 + (if IsKeyOf(u, k) then u.price else 0)
  {
    SumSnoc(rows, u, Price());
    SumSnoc(rows, u, At(Pair(), k, One()));
    SumSnoc(rows, u, At(Pair(), k, Price()));
    ShownIsSum(registry, rows, k);
    ShownIsSum(registry, rows + [u], k);
  }

  /** The row comes first under its key: id, brand, price and the registry's name on a line are its own. */
  ghost predicate ShowsFirst(registry: Registry, rows: seq<Usage>, l: Line, i: nat) {
    && i < |rows| && IsKeyOf(rows[i], LineKey(l)) && (forall j :: 0 <= j < i ==> !IsKeyOf(rows[j], LineKey(l)))
    && l.predicateId == rows[i].predicateId && l.brand == rows[i].brand && l.pricePerVerification == rows[i].price
    && l.name == (if l.predicateId in registry && registry[l.predicateId] != "" then registry[l.predicateId]
                  else l.predicateId)
  }

  lemma LinesShowFirstRows(registry: Registry, rows: seq<Usage>, l: Line) returns (i: nat)
    requires l in StatementFor(registry, rows).breakdown
    ensures ShowsFirst(registry, rows, l, i)
  {
    KeysKnown(rows);
    var n :| 0 <= n < |LinesFor(registry, rows)| && LinesFor(registry, rows)[n] == l;
    var k := FirstKeys(rows, Pair())[n];
    assert LineKey(l) == k;
    i := FirstRowIsFirst(rows, Pair(), k);
  }

  /** The currency of a statement is its first row's, or EUR. */
  lemma CurrencyShown(registry: Registry, u: Usage, rest: seq<Usage>)
    ensures StatementFor(registry, [u] + rest).currency == if u.currency != "" then u.currency else "EUR"
  {
  }

  // ---------------------------------------------------------------- periods

  predicate Selected(u: Usage, supplier: string, from: Option<int>, until: Option<int>) {
    && u.supplier == supplier
    && (from.Some? ==> from.value <= u.verifiedAt)
    && (until.Some? ==> u.verifiedAt < until.value)
  }

  /** The rows of one supplier in a half-open period; an absent bound does not restrict. */
  function Select(table: seq<Usage>, supplier: string, from: Option<int>, until: Option<int>): seq<Usage> {
    if table == [] then []
    else
      var before, last := Select(table[..|table| - 1], supplier, from, until), table[|table| - 1];
      if Selected(last, supplier, from, until) then before + [last] else before
  }

  /** Exactly the supplier's rows from the start of the period on and before its end. */
  lemma {:induction false} SelectedRows(table: seq<Usage>, supplier: string, from: int, until: int, u: Usage)
    ensures u in Select(table, supplier, Some(from), Some(until)) <==>
      u in table && u.supplier == supplier && from <= u.verifiedAt < until
    decreases |table|
  {
    if table != [] {
      SelectedRows(table[..|table| - 1], supplier, from, until, u);
    }
  }

  /** Some ordering of exactly the selected rows, as a query returns them. */
  ghost predicate Answers(rows: seq<Usage>, table: seq<Usage>, supplier: string, from: Option<int>, until: Option<int>)
  {
    multiset(rows) == multiset(Select(table, supplier, from, until))
  }

  lemma {:induction false} SelectSplits(table: seq<Usage>, supplier: string, a: int, b: int, c: int, f: Usage -> int)
    requires a <= b <= c
    ensures SumOver(Select(table, supplier, Some(a), Some(c)), f)
         == SumOver(Select(table, supplier, Some(a), Some(b)), f)
           + SumOver(Select(table, supplier, Some(b), Some(c)), f)
    decreases |table|
  {
    if table != [] {
      var init, last := table[..|table| - 1], table[|table| - 1];
      SelectSplits(init, supplier, a, b, c, f);
      SumSnoc(Select(init, supplier, Some(a), Some(c)), last, f);
      SumSnoc(Select(init, supplier, Some(a), Some(b)), last, f);
      SumSnoc(Select(init, supplier, Some(b), Some(c)), last, f);
    }
  }

  lemma SumsOfPeriods(
      table: seq<Usage>, supplier: string, a: int, b: int, c: int,
      early: seq<Usage>, late: seq<Usage>, whole: seq<Usage>, f: Usage -> int)
    requires a <= b <= c
    requires Answers(early, table, supplier, Some(a), Some(b))
    requires Answers(late, table, supplier, Some(b), Some(c))
    requires Answers(whole, table, supplier, Some(a), Some(c))
    ensures SumOver(whole, f) == SumOver(early, f) + SumOver(late, f)
  {
    SelectSplits(table, supplier, a, b, c, f);
    SumPermuted(early, Select(table, supplier, Some(a), Some(b)), f);
    SumPermuted(late, Select(table, supplier, Some(b), Some(c)), f);
    SumPermuted(whole, Select(table, supplier, Some(a), Some(c)), f);
  }

  /** Statements for [a, b) and [b, c) add up, in total and key by key, to the one for [a, c). */
  lemma PeriodsAddUp(
      registry: Registry, table: seq<Usage>, supplier: string, a: int, b: int, c: int,
      early: seq<Usage>, late: seq<Usage>, whole: seq<Usage>)
    requires a <= b <= c
    requires Answers(early, table, supplier, Some(a), Some(b))
    requires Answers(late, table, supplier, Some(b), Some(c))
    requires Answers(whole, table, supplier, Some(a), Some(c))
    ensures var (x, y, z) := (StatementFor(registry, early), StatementFor(registry, late),
      StatementFor(registry, whole));
      && z.totalVerifications == x.totalVerifications + y.totalVerifications
      && z.totalAmount == x.totalAmount + y.totalAmount
      && (forall k :: Shown(z.breakdown, k).0 == Shown(x.breakdown, k).0 + Shown(y.breakdown, k).0)
      && (forall k :: Shown(z.breakdown, k).1 == Shown(x.breakdown, k).1 + Shown(y.breakdown, k).1)
  {
    SumsOfPeriods(table, supplier, a, b, c, early, late, whole, One());
    SumsOfPeriods(table, supplier, a, b, c, early, late, whole, Price());
    SumOfConstants(early);
    SumOfConstants(late);
    SumOfConstants(whole);
    forall k: string
      ensures Shown(StatementFor(registry, whole).breakdown, k).0
        == Shown(StatementFor(registry, early).breakdown, k).0 + Shown(StatementFor(registry, late).breakdown, k).0
      ensures Shown(StatementFor(registry, whole).breakdown, k).1
        == Shown(StatementFor(registry, early).breakdown, k).1 + Shown(StatementFor(registry, late).breakdown, k).1
    {
      ShownIsSum(registry, early, k);
      ShownIsSum(registry, late, k);
      ShownIsSum(registry, whole, k);
      SumsOfPeriods(table, supplier, a, b, c, early, late, whole, At(Pair(), k, One()));
      SumsOfPeriods(table, supplier, a, b, c, early, late, whole, At(Pair(), k, Price()));
    }
  }

  // ---------------------------------------------------------------- the usage summary

  function PredicateLineOf(p: string, g: Group<Usage>): PredicateLine {
    PredicateLine(p, g.count, g.amount)
  }

  ghost function PredicateLinesOf(groups: map<string, Group<Usage>>): map<string, PredicateLine> {
    map p | p in groups :: PredicateLineOf(p, groups[p])
  }

  lemma PredicateLinesBump(groups: map<string, Group<Usage>>, u: Usage, lines: map<string, PredicateLine>)
    requires lines == PredicateLinesOf(groups)
    ensures var p := u.predicateId;
      var line := if p in lines then lines[p] else PredicateLine(p, 0, 0);
      PredicateLinesOf(groups[p := Bumped(groups, p, u, u.price)])
        == lines[p := line.(count := line.count + 1, amount := line.amount + u.price)]
  {
  }

  ghost predicate Tallied(rows: seq<Usage>, keys: seq<string>, byPredicate: map<string, PredicateLine>) {
    var pass := PassOver(rows, Predicate(), Price());
    keys == pass.keys && byPredicate == PredicateLinesOf(pass.groups)
  }

  ghost predicate IsPredicateLine(rows: seq<Usage>, p: string, line: PredicateLine) {
    && HasKey(rows, Predicate(), p)
    && line.predicateId == p
    && line.count == SumOver(rows, At(Predicate(), p, One()))
    && line.amount == SumOver(rows, At(Predicate(), p, Price()))
  }

  lemma TalliedLines(rows: seq<Usage>, keys: seq<string>, byPredicate: map<string, PredicateLine>)
    requires Tallied(rows, keys, byPredicate)
    ensures keys == FirstKeys(rows, Predicate())
    ensures forall k | k in keys :: k in byPredicate && IsPredicateLine(rows, k, byPredicate[k])
  {
    PassGroups(rows, Predicate(), Price());
  }

  lemma TalliedSnoc(rows: seq<Usage>, keys: seq<string>, byPredicate: map<string, PredicateLine>, u: Usage)
    requires Tallied(rows, keys, byPredicate)
    ensures var p := u.predicateId;
      var line := if p in byPredicate then byPredicate[p] else PredicateLine(p, 0, 0);
      Tallied(rows + [u], if p in byPredicate then keys else keys + [p],
              byPredicate[p := line.(count := line.count + 1, amount := line.amount + u.price)])
  {
    PassSnoc(rows, Predicate(), Price(), u);
    PredicateLinesBump(PassOver(rows, Predicate(), Price()).groups, u, byPredicate);
  }

  /** One round of the loop. */
  method AddPredicate(keys: seq<string>, byPredicate: map<string, PredicateLine>, usage: Usage)
    returns (keys': seq<string>, byPredicate': map<string, PredicateLine>)
    ensures var p := usage.predicateId;
      var line := if p in byPredicate then byPredicate[p] else PredicateLine(p, 0, 0);
      && keys' == (if p in byPredicate then keys else keys + [p])
      && byPredicate' == byPredicate[p := line.(count := line.count + 1, amount := line.amount + usage.price)]
  {
    var p := usage.predicateId;
    var pred := PredicateLine(p, 0, 0);
    keys' := keys;
    if p in byPredicate {
      pred := byPredicate[p];
    } else {
      keys' := keys + [p];
    }
    byPredicate' := byPredicate[p := pred.(count := pred.count + 1, amount := pred.amount + usage.price)];
  }

  method SummarizeUsage(usages: seq<Usage>) returns (s: Summary)
    ensures s.totalVerifications == |usages| && s.totalAmount == SumOver(usages, Price())
    ensures s.currency == CurrencyOf(usages)
    ensures var keys := FirstKeys(usages, Predicate());
      && |s.byPredicate| == |keys|
      && forall i :: 0 <= i < |keys| ==> IsPredicateLine(usages, keys[i], s.byPredicate[i])
  {
    var keys: seq<string>, byPredicate: map<string, PredicateLine> := [], map[];
    var totalAmount := 0;
    for i := 0 to |usages|
      invariant Tallied(usages[..i], keys, byPredicate)
      invariant totalAmount == SumOver(usages[..i], Price())
    {
      assert usages[..i + 1] == usages[..i] + [usages[i]];
      SumSnoc(usages[..i], usages[i], Price());
      TalliedSnoc(usages[..i], keys, byPredicate, usages[i]);
      keys, byPredicate := AddPredicate(keys, byPredicate, usages[i]);
      totalAmount := totalAmount + usages[i].price;
    }
    assert usages[..|usages|] == usages;
    TalliedLines(usages, keys, byPredicate);
    var lines := seq(|keys|, i requires 0 <= i < |keys| && keys[i] in byPredicate => byPredicate[keys[i]]);
    s := Summary(|usages|, totalAmount, CurrencyOf(usages), lines);
  }

  /**
   The summary and the statement of one period agree whatever the order of either query: on the
   totals always, on the currency if the rows do, and on every predicate's count and amount when
   no id continues another after a colon.
   */
  lemma SummaryMatchesStatement(
      registry: Registry, table: seq<Usage>, supplier: string, from: int, until: int, forStatement: seq<Usage>,
      forSummary: seq<Usage>)
    requires Answers(forStatement, table, supplier, Some(from), Some(until))
    requires Answers(forSummary, table, supplier, Some(from), Some(until))
    ensures var s := StatementFor(registry, forStatement);
      && s.totalVerifications == |forSummary|
      && s.totalAmount == SumOver(forSummary, Price())
      && (OneCurrency(forStatement) ==> s.currency == CurrencyOf(forSummary))
      && (Separate(forStatement) ==> forall p ::
            && SumOver(s.breakdown, At(BookedUnder(), p, Counted())) == SumOver(forSummary, At(Predicate(), p, One()))
            && SumOver(s.breakdown, At(BookedUnder(), p, Subtotal()))
              == SumOver(forSummary, At(Predicate(), p, Price())))
  {
    assert |forStatement| == |multiset(forStatement)| == |multiset(forSummary)| == |forSummary|;
    SumPermuted(forStatement, forSummary, Price());
    if OneCurrency(forStatement) {
      SameRowsSameCurrency(forStatement, forSummary);
    }
    if Separate(forStatement) {
      forall p: string
        ensures var lines := StatementFor(registry, forStatement).breakdown;
          && SumOver(lines, At(BookedUnder(), p, Counted())) == SumOver(forSummary, At(Predicate(), p, One()))
          && SumOver(lines, At(BookedUnder(), p, Subtotal())) == SumOver(forSummary, At(Predicate(), p, Price()))
      {
        LinesOfPredicate(registry, forStatement, p);
        SumPermuted(forStatement, forSummary, At(Predicate(), p, One()));
        SumPermuted(forStatement, forSummary, At(Predicate(), p, Price()));
      }
    }
  }

  // ---------------------------------------------------------------- when the key separates

  /** Two predicate ids can meet under one key exactly if they are equal or one continues the other after a colon. */
  lemma KeysMeet(p: string, q: string)
    ensures (exists b: string, c: string :: b != "" && c != "" && KeyText(p, b) == KeyText(q, c))
      <==> (p == q || p + ":" <= q || q + ":" <= p)
  {
    if p == q {
      assert KeyText(p, "x") == KeyText(q, "x");
    } else if p + ":" <= q {
      Meeting(p, q);
      assert KeyText(p, q[|p| + 1..] + ":x") == KeyText(q, "x");
    } else if q + ":" <= p {
      Meeting(q, p);
      assert KeyText(p, "x") == KeyText(q, p[|q| + 1..] + ":x");
    }
    forall b: string, c: string | KeyText(p, b) == KeyText(q, c)
      ensures p == q || p + ":" <= q || q + ":" <= p
    {
      MeetingKeys(p, b, q, c);
    }
  }

  lemma Meeting(p: string, q: string)
    requires p + ":" <= q
    ensures KeyText(p, q[|p| + 1..] + ":x") == KeyText(q, "x")
  {
    assert q == p + ":" + q[|p| + 1..];
    assert KeyText(q, "x") == p + ":" + (q[|p| + 1..] + ":x");
  }

  lemma MeetingKeys(p: string, b: string, q: string, c: string)
    requires KeyText(p, b) == KeyText(q, c)
    ensures p == q || p + ":" <= q || q + ":" <= p
    ensures p == q ==> b == c
  {
    var key := KeyText(p, b);
    assert key[..|p| + 1] == p + ":" && key[..|q| + 1] == q + ":";
    assert key[..|p|] == p && key[..|q|] == q;
    assert key[|p| + 1..] == b && key[|q| + 1..] == c;
    if |p| < |q| {
      assert p + ":" == q[..|p| + 1];
    } else if |q| < |p| {
      assert q + ":" == p[..|q| + 1];
    }
  }

  /** No predicate id among the rows continues another after a colon. */
  ghost predicate Separate(rows: seq<Usage>) {
    forall u, v | u in rows && v in rows :: !(u.predicateId + ":" <= v.predicateId)
  }

  /** The three ways a brand can read as none. */
  predicate ReadsAsNone(brand: Option<string>) {
    brand.None? || brand.value == "" || brand.value == "none"
  }

  /** The key of `u` runs into the predicate id of `v`. */
  predicate RunsInto(u: Usage, v: Usage) {
    && u.predicateId + ":" <= v.predicateId
    && BrandText(u.brand) == KeyText(v.predicateId[|u.predicateId| + 1..], BrandText(v.brand))
  }

  /** Exactly when two rows land on one line. */
  lemma RowsShareLine(u: Usage, v: Usage)
    ensures Pair()(u) == Pair()(v) <==>
      || (u.predicateId == v.predicateId && (u.brand == v.brand || (ReadsAsNone(u.brand) && ReadsAsNone(v.brand))))
      || RunsInto(u, v) || RunsInto(v, u)
  {
    var (p, b, q, c) := (u.predicateId, BrandText(u.brand), v.predicateId, BrandText(v.brand));
    if KeyText(p, b) == KeyText(q, c) {
      MeetingKeys(p, b, q, c);
    }
    if p + ":" <= q {
      RunningKeys(p, b, q, c);
    }
    if q + ":" <= p {
      RunningKeys(q, c, p, b);
    }
  }

  lemma RunningKeys(p: string, b: string, q: string, c: string)
    requires p + ":" <= q
    ensures KeyText(p, b) == KeyText(q, c) <==> b == KeyText(q[|p| + 1..], c)
  {
    var rest := q[|p| + 1..];
    assert q == p + ":" + rest;
    assert KeyText(q, c) == p + ":" + KeyText(rest, c);
    assert KeyText(p, b)[|p| + 1..] == b && (p + ":" + KeyText(rest, c))[|p| + 1..] == KeyText(rest, c);
  }

  /**
   With separate ids, two rows share a line exactly if they share the predicate and the brand, up
   to the spelling of none.
   */
  lemma SeparateLines(rows: seq<Usage>, u: Usage, v: Usage)
    requires Separate(rows) && u in rows && v in rows
    ensures Pair()(v) == Pair()(u) <==>
      v.predicateId == u.predicateId && (v.brand == u.brand || (ReadsAsNone(u.brand) && ReadsAsNone(v.brand)))
  {
    RowsShareLine(v, u);
  }

  function PredicateAndBrand(): Usage -> (string, Option<string>) {
    (u: Usage) => (u.predicateId, u.brand)
  }

  /** The line under the key counts and sums exactly the rows of its predicate and its brand. */
  ghost predicate PureLine(registry: Registry, rows: seq<Usage>, k: string)
    requires HasKey(rows, Pair(), k)
  {
    var l := LineFor(registry, rows, k);
    var pb := (l.predicateId, l.brand);
    && l.verificationCount == SumOver(rows, At(PredicateAndBrand(), pb, One()))
    && l.subtotal == SumOver(rows, At(PredicateAndBrand(), pb, Price()))
  }

  lemma PureLineExactly(registry: Registry, rows: seq<Usage>, k: string)
    requires HasKey(rows, Pair(), k)
    ensures PureLine(registry, rows, k)
      <==> forall v | v in rows && Pair()(v) == k ::
        PredicateAndBrand()(v) == PredicateAndBrand()(FirstRow(rows, Pair(), k))
  {
    var pb := PredicateAndBrand()(FirstRow(rows, Pair(), k));
    if v :| v in rows && Pair()(v) == k && PredicateAndBrand()(v) != pb {
      SumIsGreater(rows, At(Pair(), k, One()), At(PredicateAndBrand(), pb, One()), v);
    } else {
      SumPointwise(rows, At(Pair(), k, One()), At(PredicateAndBrand(), pb, One()));
      SumPointwise(rows, At(Pair(), k, Price()), At(PredicateAndBrand(), pb, Price()));
    }
  }

  /** The two rows differ in predicate or brand and land on one line: two spellings of none, or a key that runs on. */
  predicate Mix(u: Usage, v: Usage) {
    || (u.predicateId == v.predicateId && u.brand != v.brand && ReadsAsNone(u.brand) && ReadsAsNone(v.brand))
    || RunsInto(u, v) || RunsInto(v, u)
  }

  lemma MixExactly(u: Usage, v: Usage)
    ensures Mix(u, v) <==> Pair()(u) == Pair()(v) && PredicateAndBrand()(u) != PredicateAndBrand()(v)
  {
    RowsShareLine(u, v);
    if u.predicateId == v.predicateId {
      assert |u.predicateId + ":"| > |v.predicateId|;
    }
  }

  /** Every line counts and sums exactly the rows of its predicate and its brand, exactly if no two rows mix. */
  lemma LinesArePure(registry: Registry, rows: seq<Usage>)
    ensures (forall k | HasKey(rows, Pair(), k) :: PureLine(registry, rows, k))
      <==> forall u, v | u in rows && v in rows :: !Mix(u, v)
  {
    if u, v :| u in rows && v in rows && Mix(u, v) {
      var k := Pair()(u);
      MixExactly(u, v);
      HasKeyOf(rows, Pair(), u);
      PureLineExactly(registry, rows, k);
      assert !PureLine(registry, rows, k);
    } else {
      forall k: string | HasKey(rows, Pair(), k)
        ensures PureLine(registry, rows, k)
      {
        var first := FirstRow(rows, Pair(), k);
        forall v | v in rows && Pair()(v) == k
          ensures PredicateAndBrand()(v) == PredicateAndBrand()(first)
        {
          MixExactly(first, v);
        }
        PureLineExactly(registry, rows, k);
      }
    }
  }

  /** A brand spelled "none" lands on the line of the rows without a brand, even with separate ids. */
  lemma BrandNamedNone(registry: Registry, id: string, price: int, price': int)
    ensures var (u, v) := (Usage("s", id, None, 0, price, "EUR"), Usage("s", id, Some("none"), 0, price', "EUR"));
      var s := StatementFor(registry, [u, v]);
      && u.brand != v.brand && Separate([u, v]) && |s.breakdown| == 1
      && s.breakdown[0].brand == None && s.breakdown[0].verificationCount == 2
      && s.breakdown[0].subtotal == price + price'
  {
    var (u, v) := (Usage("s", id, None, 0, price, "EUR"), Usage("s", id, Some("none"), 0, price', "EUR"));
    OneIdIsSeparate(u, v);
    OneKey(registry, u, v);
  }

  lemma OneIdIsSeparate(u: Usage, v: Usage)
    requires u.predicateId == v.predicateId
    ensures Separate([u, v])
  {
    assert |u.predicateId + ":"| > |v.predicateId|;
  }

  /** Without that, rows of two predicates can land on one line, booked under the first. */
  lemma MixedLine(registry: Registry, p: string, q: string, price: int, price': int)
    requires p + ":" <= q
    ensures var (u, v) := (
        Usage("s", p, Some(q[|p| + 1..] + ":x"), 0, price, "EUR"), Usage("s", q, Some("x"), 0, price', "EUR"));
      var s := StatementFor(registry, [u, v]);
      && u.predicateId != v.predicateId && |s.breakdown| == 1
      && s.breakdown[0].predicateId == p && s.breakdown[0].verificationCount == 2
      && s.breakdown[0].subtotal == price + price'
  {
    var (u, v) :=
      (Usage("s", p, Some(q[|p| + 1..] + ":x"), 0, price, "EUR"), Usage("s", q, Some("x"), 0, price', "EUR"));
    Meeting(p, q);
    OneKey(registry, u, v);
  }

  function BookedUnder(): Line -> string {
    (l: Line) => l.predicateId
  }

  function Counted(): Line -> int {
    (l: Line) => l.verificationCount
  }

  function Subtotal(): Line -> int {
    (l: Line) => l.subtotal
  }

  /** With separate ids, a predicate's lines add up to the rows of that predicate. */
  lemma LinesOfPredicate(registry: Registry, rows: seq<Usage>, p: string)
    requires Separate(rows)
    ensures var lines := StatementFor(registry, rows).breakdown;
      && SumOver(lines, At(BookedUnder(), p, Counted())) == SumOver(rows, At(Predicate(), p, One()))
      && SumOver(lines, At(BookedUnder(), p, Subtotal())) == SumOver(rows, At(Predicate(), p, Price()))
  {
    KeysKnown(rows);
    forall k | k in FirstKeys(rows, Pair())
      ensures Gives(registry, rows, p, k, Counted(), One()) && Gives(registry, rows, p, k, Subtotal(), Price())
    {
      LineIsOfOnePredicate(registry, rows, p, k);
    }
    LinesGiveGroups(registry, rows, p, FirstKeys(rows, Pair()), Counted(), One());
    LinesGiveGroups(registry, rows, p, FirstKeys(rows, Pair()), Subtotal(), Price());
    AllGroupsAddUp(rows, Pair(), At(Predicate(), p, One()));
    AllGroupsAddUp(rows, Pair(), At(Predicate(), p, Price()));
  }

  /** The line under a key gives a predicate what the predicate's rows under that key do. */
  ghost predicate Gives(registry: Registry, rows: seq<Usage>, p: string, k: string, of: Line -> int, f: Usage -> int) {
    && HasKey(rows, Pair(), k)
    && At(BookedUnder(), p, of)(LineFor(registry, rows, k)) == SumOver(rows, At(Pair(), k, At(Predicate(), p, f)))
  }

  lemma {:induction false} LinesGiveGroups(registry: Registry, rows: seq<Usage>, p: string, keys: seq<string>,
                                           of: Line -> int, f: Usage -> int)
    requires forall k | k in keys :: HasKey(rows, Pair(), k)
    requires forall k | k in keys :: Gives(registry, rows, p, k, of, f)
    ensures SumOver(Lines(registry, rows, keys), At(BookedUnder(), p, of))
      == GroupTotal(keys, rows, Pair(), At(Predicate(), p, f))
    decreases |keys|
  {
    if keys != [] {
      var (init, k) := (keys[..|keys| - 1], keys[|keys| - 1]);
      LinesGiveGroups(registry, rows, p, init, of, f);
      assert Gives(registry, rows, p, k, of, f);
      SumSnoc(Lines(registry, rows, init), LineFor(registry, rows, k), At(BookedUnder(), p, of));
    }
  }

  lemma LineIsOfOnePredicate(registry: Registry, rows: seq<Usage>, p: string, k: string)
    requires Separate(rows) && HasKey(rows, Pair(), k)
    ensures Gives(registry, rows, p, k, Counted(), One()) && Gives(registry, rows, p, k, Subtotal(), Price())
  {
    var first := FirstRow(rows, Pair(), k);
    forall v | v in rows && Pair()(v) == k
      ensures v.predicateId == first.predicateId
    {
      SeparateLines(rows, first, v);
    }
    if first.predicateId == p {
      SumPointwise(rows, At(Pair(), k, At(Predicate(), p, One())), At(Pair(), k, One()));
      SumPointwise(rows, At(Pair(), k, At(Predicate(), p, Price())), At(Pair(), k, Price()));
    } else {
      SumPointwise(rows, At(Pair(), k, At(Predicate(), p, One())), Nothing());
      SumPointwise(rows, At(Pair(), k, At(Predicate(), p, Price())), Nothing());
      SumOfConstants(rows);
    }
  }
}
