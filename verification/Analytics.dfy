/** AnalyticsService: the aggregates behind the dashboard, folded over the rows of one consumer and
    network. */
module Analytics {
  import opened Wrappers
  import opened Doubles
  import opened Decimals
  import opened Assets
  import opened Money
  import opened Permutations
  import opened Intents

  /** The network whose rows the dashboard shows. */
  function DashboardNetwork(environment: Option<Environment>): Network {
    if environment == Some(PROD) then PUBLIC else TESTNET
  }

  const DAY_MS: int := 86400000

  /** The UTC day of an instant. For four-digit years `toISOString().slice(0, 10)` names days one to one. */
  function DayOf(ms: int): int { ms / DAY_MS }

  /** A UTC day is the 86400000 milliseconds from its midnight on. */
  lemma DayMeans(ms: int, day: int)
    ensures DayOf(ms) == day <==> 86400000 * day <= ms < 86400000 * (day + 1)
  {
  }

  // ── The plain reading: filter, then sum ────────────────────────────────────

  /** The amounts of the rows a test selects, in row order. */
  function AmountsOf(rows: seq<Intent>, select: Intent -> bool): seq<Option<string>> {
    if rows == [] then []
    else AmountsOf(rows[..|rows| - 1], select) + if select(rows[|rows| - 1]) then [rows[|rows| - 1].amount] else []
  }

  function CountOf(rows: seq<Intent>, select: Intent -> bool): nat {
    if rows == [] then 0
    else CountOf(rows[..|rows| - 1], select) + if select(rows[|rows| - 1]) then 1 else 0
  }

  predicate Labelled(row: Intent, asset: string) { AssetLabel(row.asset.code) == asset }

  function SettledIn(asset: string): Intent -> bool {
    (row: Intent) => row.status == SUCCEEDED && Labelled(row, asset)
  }

  function OpenIn(asset: string): Intent -> bool {
    (row: Intent) => (row.status == PENDING || row.status == SUBMITTED) && Labelled(row, asset)
  }

  function Bearing(asset: string): Intent -> bool { (row: Intent) => Labelled(row, asset) }

  function WithStatus(status: Status): Intent -> bool { (row: Intent) => row.status == status }

  function CreatedOn(day: int): Intent -> bool { (row: Intent) => DayOf(row.createdAt) == day }

  function SettledOn(day: int): Intent -> bool {
    (row: Intent) => row.status == SUCCEEDED && DayOf(row.createdAt) == day
  }

  function CreatedBetween(first: int, last: int): Intent -> bool {
    (row: Intent) => first <= DayOf(row.createdAt) <= last
  }

  /** What one more row does to each fold. */
  lemma Snoc(rows: seq<Intent>, i: nat, select: Intent -> bool)
    requires i < |rows|
    ensures CountOf(rows[..i + 1], select) == CountOf(rows[..i], select) + if select(rows[i]) then 1 else 0
    ensures Sum(AmountsOf(rows[..i + 1], select)) ==
              if select(rows[i]) then Add(Sum(AmountsOf(rows[..i], select)), Num(rows[i].amount))
              else Sum(AmountsOf(rows[..i], select))
    ensures SeriesVolume(AmountsOf(rows[..i + 1], select)) ==
              if select(rows[i]) then AddRounding(SeriesVolume(AmountsOf(rows[..i], select)), rows[i].amount)
              else SeriesVolume(AmountsOf(rows[..i], select))
  {
    hide Num, Add, AddRounding;
    assert rows[..i + 1][..i] == rows[..i];
    var amounts := AmountsOf(rows[..i], select);
    assert amounts + [] == amounts;
    assert (amounts + [rows[i].amount])[..|amounts|] == amounts;
  }

  lemma {:induction false} AmountsCount(rows: seq<Intent>, select: Intent -> bool)
    ensures |AmountsOf(rows, select)| == CountOf(rows, select)
    ensures (forall row | row in rows :: Accepted(row.amount)) ==> AllAccepted(AmountsOf(rows, select))
  {
    if rows != [] {
      AmountsCount(rows[..|rows| - 1], select);
      assert rows[|rows| - 1] in rows;
      assert forall row | row in rows[..|rows| - 1] :: row in rows;
    }
  }

  // ── summary ────────────────────────────────────────────────────────────────

  /** `byStatus[status] ?? 0` */
  function Get(byStatus: map<Status, nat>, status: Status): nat {
    if status in byStatus then byStatus[status] else 0
  }

  /** The counts per status. */
  method CountByStatus(rows: seq<Intent>) returns (byStatus: map<Status, nat>)
    ensures forall status :: Get(byStatus, status) == CountOf(rows, WithStatus(status))
  {
    byStatus := map[];
    for i := 0 to |rows|
      invariant forall status :: Get(byStatus, status) == CountOf(rows[..i], WithStatus(status))
    {
      forall status
        ensures CountOf(rows[..i + 1], WithStatus(status))
             == CountOf(rows[..i], WithStatus(status)) + if rows[i].status == status then 1 else 0
      {
        Snoc(rows, i, WithStatus(status));
      }
      var status := rows[i].status;
      byStatus := byStatus[status := Get(byStatus, status) + 1];
    }
    assert rows[..|rows|] == rows;
  }

  /** The six status totals add up to all rows. */
  lemma {:induction false} StatusTotalsAddUp(rows: seq<Intent>)
    ensures |rows| == CountOf(rows, WithStatus(PENDING)) + CountOf(rows, WithStatus(SUBMITTED))
                    + CountOf(rows, WithStatus(SUCCEEDED)) + CountOf(rows, WithStatus(FAILED))
                    + CountOf(rows, WithStatus(CANCELLED)) + CountOf(rows, WithStatus(EXPIRED))
  {
    if rows != [] {
      StatusTotalsAddUp(rows[..|rows| - 1]);
    }
  }

  datatype Volume = Volume(amount: JsNumber, count: nat)

  const NO_VOLUME := Volume(Finite(0.0), 0)

  ghost predicate VolumesMatch(volume: map<string, Volume>, rows: seq<Intent>) {
    && (forall asset :: asset in volume <==> CountOf(rows, SettledIn(asset)) > 0)
    && forall asset :: VolumeOf(rows, asset) == if asset in volume then volume[asset] else NO_VOLUME
  }

  /** An asset's volume: its settled amounts summed, and counted. */
  function VolumeOf(rows: seq<Intent>, asset: string): Volume {
    Volume(Sum(AmountsOf(rows, SettledIn(asset))), CountOf(rows, SettledIn(asset)))
  }

  /** `volumeMap`: gross settled volume and count per asset label, one double addition per settled row. */
  method SettledVolume(rows: seq<Intent>) returns (volume: map<string, Volume>)
    ensures forall asset :: asset in volume <==> CountOf(rows, SettledIn(asset)) > 0
    ensures forall asset | asset in volume :: volume[asset] == VolumeOf(rows, asset)
  {
    hide Num, Add;
    volume := map[];
    for i := 0 to |rows|
      invariant VolumesMatch(volume, rows[..i])
    {
      ghost var before := volume;
      if rows[i].status == SUCCEEDED {
        var key := AssetLabel(rows[i].asset.code);
        var cur := if key in volume then volume[key] else NO_VOLUME;
        volume := volume[key := Volume(Add(cur.amount, Num(rows[i].amount)), cur.count + 1)];
      }
      VolumesStep(before, volume, rows, i);
    }
    assert rows[..|rows|] == rows;
  }

  lemma VolumesStep(before: map<string, Volume>, after: map<string, Volume>, rows: seq<Intent>, i: nat)
    requires i < |rows| && VolumesMatch(before, rows[..i])
    requires var key := AssetLabel(rows[i].asset.code);
      after == if rows[i].status != SUCCEEDED then before
               else before[key := VolumeNext(if key in before then before[key] else NO_VOLUME, rows[i])]
    ensures VolumesMatch(after, rows[..i + 1])
  {
    hide CountOf, VolumeOf, VolumeNext, AssetLabel;
    forall asset
      ensures asset in after <==> CountOf(rows[..i + 1], SettledIn(asset)) > 0
      ensures VolumeOf(rows[..i + 1], asset) == if asset in after then after[asset] else NO_VOLUME
    {
      VolumeStep(rows, i, asset);
    }
  }

  lemma VolumeStep(rows: seq<Intent>, i: nat, asset: string)
    requires i < |rows|
    ensures var counts := rows[i].status == SUCCEEDED && AssetLabel(rows[i].asset.code) == asset;
      && VolumeOf(rows[..i + 1], asset)
          == (if counts then VolumeNext(VolumeOf(rows[..i], asset), rows[i]) else VolumeOf(rows[..i], asset))
      && CountOf(rows[..i + 1], SettledIn(asset)) == CountOf(rows[..i], SettledIn(asset)) + (if counts then 1 else 0)
  {
    hide Num, Add, Sum, AmountsOf, CountOf, AssetLabel;
    Snoc(rows, i, SettledIn(asset));
  }

  function VolumeNext(v: Volume, row: Intent): Volume {
    Volume(Add(v.amount, Num(row.amount)), v.count + 1)
  }

  datatype Day = Day(date: int, count: nat, volume: JsNumber)

  /** The 30-day series: the buckets end today, each row falls into the bucket of its day, if any. */
  method DailySeries(rows: seq<Intent>, now: int) returns (series: array<Day>)
    ensures series.Length == 30
    ensures SeriesMatches(series[..], DayOf(now) - 29, rows)
  {
    hide AddRounding;
    series := new Day[30](d => Day(DayKey(now, d), 0, Finite(0.0)));
    var indexByDate := IndexByDate(now, 30);
    var first := DayOf(now) - 29;
    DaysAreConsecutive(now);
    assert SeriesMatches(series[..], first, rows[..0]);
    for i := 0 to |rows|
      invariant SeriesMatches(series[..], first, rows[..i])
    {
      ghost var before := series[..];
      var key := DayOf(rows[i].createdAt);
      if key in indexByDate {
        AddToBucket(series, indexByDate[key], rows[i]);
      }
      SeriesStep(before, series[..], first, rows, i);
    }
    assert rows[..|rows|] == rows;
  }

  /** The day key of the d-th bucket. */
  function DayKey(now: int, d: int): int { DayOf(now - 29 * DAY_MS + d * DAY_MS) }

  lemma DayKeyIs(now: int, d: int)
    ensures DayKey(now, d) == DayOf(now) - 29 + d
  {
    assert now - 29 * DAY_MS + d * DAY_MS == now + (d - 29) * 86400000;
  }

  /** The 30 keys are distinct consecutive days ending today. */
  lemma DaysAreConsecutive(now: int)
    ensures forall d | 0 <= d < 30 :: DayKey(now, d) == DayOf(now) - 29 + d
  {
    forall d | 0 <= d < 30 ensures DayKey(now, d) == DayOf(now) - 29 + d {
      DayKeyIs(now, d);
    }
  }

  /** `indexByDate` over the first `days` keys; a key seen again would take the later position. */
  function IndexByDate(now: int, days: nat): (index: map<int, nat>)
    ensures forall day :: day in index <==> 0 <= day - (DayOf(now) - 29) < days
    ensures forall day | day in index :: index[day] == day - (DayOf(now) - 29)
  {
    if days == 0 then map[]
    else
      DayKeyIs(now, days - 1);
      IndexByDate(now, days - 1)[DayKey(now, days - 1) := days - 1]
  }

  /** Counts a row in its day, and adds its amount if it is settled. */
  method AddToBucket(series: array<Day>, idx: nat, row: Intent)
    requires idx < series.Length && series[idx].date == DayOf(row.createdAt)
    modifies series
    ensures series[..] == old(series[..])[idx := BucketNext(old(series[idx]), row)]
  {
    hide AddRounding;
    series[idx] := series[idx].(count := series[idx].count + 1);
    if row.status == SUCCEEDED {
      series[idx] := series[idx].(volume := AddRounding(series[idx].volume, row.amount));
    }
  }

  ghost predicate SeriesMatches(series: seq<Day>, first: int, rows: seq<Intent>) {
    |series| == 30 && forall d | 0 <= d < 30 :: series[d] == Bucket(rows, first + d)
  }

  lemma SeriesStep(before: seq<Day>, after: seq<Day>, first: int, rows: seq<Intent>, i: nat)
    requires i < |rows| && SeriesMatches(before, first, rows[..i])
    requires var idx := DayOf(rows[i].createdAt) - first;
      after == if 0 <= idx < 30 then before[idx := BucketNext(before[idx], rows[i])] else before
    ensures SeriesMatches(after, first, rows[..i + 1])
  {
    hide AddRounding, SeriesVolume, AmountsOf, CountOf, DayOf;
    forall d | 0 <= d < 30 ensures after[d] == Bucket(rows[..i + 1], first + d) {
      BucketStep(rows, i, first + d);
    }
  }

  lemma BucketStep(rows: seq<Intent>, i: nat, day: int)
    requires i < |rows|
    ensures Bucket(rows[..i + 1], day) == BucketNext(Bucket(rows[..i], day), rows[i])
  {
    hide AddRounding, SeriesVolume, AmountsOf, CountOf, DayOf;
    Snoc(rows, i, CreatedOn(day));
    Snoc(rows, i, SettledOn(day));
  }

  /** A day's bucket: the rows created on it, and the settled amounts among them. */
  function Bucket(rows: seq<Intent>, day: int): Day {
    Day(day, CountOf(rows, CreatedOn(day)), SeriesVolume(AmountsOf(rows, SettledOn(day))))
  }

  function BucketNext(b: Day, row: Intent): Day {
    if DayOf(row.createdAt) != b.date then b
    else b.(count := b.count + 1,
            volume := if row.status == SUCCEEDED then AddRounding(b.volume, row.amount) else b.volume)
  }

  function SeriesTotal(rows: seq<Intent>, first: int, days: nat): nat {
    if days == 0 then 0 else SeriesTotal(rows, first, days - 1) + CountOf(rows, CreatedOn(first + days - 1))
  }

  function CountsOf(series: seq<Day>): nat {
    if series == [] then 0 else CountsOf(series[..|series| - 1]) + series[|series| - 1].count
  }

  lemma {:induction false} CountsAreBuckets(series: seq<Day>, first: int, rows: seq<Intent>)
    requires forall d | 0 <= d < |series| :: series[d] == Bucket(rows, first + d)
    ensures CountsOf(series) == SeriesTotal(rows, first, |series|)
  {
    hide SeriesVolume, AmountsOf;
    if series != [] {
      CountsAreBuckets(series[..|series| - 1], first, rows);
    }
  }

  /** The counts of the whole series add up to the rows created in its 30 days. */
  lemma SeriesCountsTheWindow(series: seq<Day>, now: int, rows: seq<Intent>)
    requires SeriesMatches(series, DayOf(now) - 29, rows)
    ensures CountsOf(series) == CountOf(rows, CreatedBetween(DayOf(now) - 29, DayOf(now)))
  {
    hide Bucket;
    CountsAreBuckets(series, DayOf(now) - 29, rows);
    SeriesCountsAddUp(rows, DayOf(now) - 29, 30);
  }

  /** The counts of consecutive days add up to the rows created in that window. */
  lemma {:induction false} SeriesCountsAddUp(rows: seq<Intent>, first: int, days: nat)
    ensures SeriesTotal(rows, first, days) == CountOf(rows, CreatedBetween(first, first + days - 1))
  {
    if days == 0 {
      NoneBetween(rows, first);
    } else {
      SeriesCountsAddUp(rows, first, days - 1);
      OneMoreDay(rows, first, first + days - 1);
    }
  }

  lemma {:induction false} NoneBetween(rows: seq<Intent>, first: int)
    ensures CountOf(rows, CreatedBetween(first, first - 1)) == 0
  {
    if rows != [] {
      NoneBetween(rows[..|rows| - 1], first);
    }
  }

  lemma {:induction false} OneMoreDay(rows: seq<Intent>, first: int, last: int)
    requires first <= last
    ensures CountOf(rows, CreatedBetween(first, last))
        == CountOf(rows, CreatedBetween(first, last - 1)) + CountOf(rows, CreatedOn(last))
  {
    if rows != [] {
      OneMoreDay(rows[..|rows| - 1], first, last);
    }
  }

  datatype Totals = Totals(all: nat, succeeded: nat, pending: nat, submitted: nat, failed: nat, cancelled: nat,
                           expired: nat)

  /** The status totals of the summary: each is the count of its rows, and they add up to `all`. */
  method StatusTotals(rows: seq<Intent>) returns (t: Totals)
    ensures t.all == |rows| == t.succeeded + t.pending + t.submitted + t.failed + t.cancelled + t.expired
    ensures t.succeeded == CountOf(rows, WithStatus(SUCCEEDED)) && t.pending == CountOf(rows, WithStatus(PENDING))
    ensures t.submitted == CountOf(rows, WithStatus(SUBMITTED)) && t.failed == CountOf(rows, WithStatus(FAILED))
    ensures t.cancelled == CountOf(rows, WithStatus(CANCELLED)) && t.expired == CountOf(rows, WithStatus(EXPIRED))
  {
    var byStatus := CountByStatus(rows);
    StatusTotalsAddUp(rows);
    t := Totals(|rows|, Get(byStatus, SUCCEEDED), Get(byStatus, PENDING), Get(byStatus, SUBMITTED),
                Get(byStatus, FAILED), Get(byStatus, CANCELLED), Get(byStatus, EXPIRED));
  }

  // ── balances ───────────────────────────────────────────────────────────────

  datatype Balance = Balance(settled: JsNumber, pending: JsNumber, settledCount: nat)

  method Balances(rows: seq<Intent>) returns (balances: map<string, Balance>)
    ensures forall asset :: asset in balances <==> CountOf(rows, Bearing(asset)) > 0
    ensures forall asset | asset in balances ::
      balances[asset] == BalanceOf(rows, asset)
  {
    hide Num, Add;
    balances := map[];
    for i := 0 to |rows|
      invariant BalancesMatch(balances, rows[..i])
    {
      ghost var before := balances;
      var key := AssetLabel(rows[i].asset.code);
      var cur := if key in balances then balances[key] else NO_BALANCE;
      if rows[i].status == SUCCEEDED {
        cur := cur.(settled := Add(cur.settled, Num(rows[i].amount)), settledCount := cur.settledCount + 1);
      } else if rows[i].status == PENDING || rows[i].status == SUBMITTED {
        cur := cur.(pending := Add(cur.pending, Num(rows[i].amount)));
      }
      balances := balances[key := cur];
      BalancesStep(before, balances, rows, i);
    }
    assert rows[..|rows|] == rows;
  }

  const NO_BALANCE := Balance(Finite(0.0), Finite(0.0), 0)

  ghost predicate BalancesMatch(balances: map<string, Balance>, rows: seq<Intent>) {
    && (forall asset :: asset in balances <==> CountOf(rows, Bearing(asset)) > 0)
    && forall asset :: BalanceOf(rows, asset) == if asset in balances then balances[asset] else NO_BALANCE
  }

  lemma BalancesStep(before: map<string, Balance>, after: map<string, Balance>, rows: seq<Intent>, i: nat)
    requires i < |rows| && BalancesMatch(before, rows[..i])
    requires var key := AssetLabel(rows[i].asset.code);
      after == before[key := BalanceNext(if key in before then before[key] else NO_BALANCE, rows[i], key)]
    ensures BalancesMatch(after, rows[..i + 1])
  {
    hide Num, Add, Sum, AmountsOf, CountOf, AssetLabel;
    forall asset
      ensures asset in after <==> CountOf(rows[..i + 1], Bearing(asset)) > 0
      ensures BalanceOf(rows[..i + 1], asset) == if asset in after then after[asset] else NO_BALANCE
    {
      Snoc(rows, i, Bearing(asset));
      BalanceStep(rows, i, asset);
    }
  }

  function BalanceOf(rows: seq<Intent>, asset: string): Balance {
    Balance(Sum(AmountsOf(rows, SettledIn(asset))), Sum(AmountsOf(rows, OpenIn(asset))),
            CountOf(rows, SettledIn(asset)))
  }

  function BalanceNext(b: Balance, row: Intent, asset: string): Balance {
    if !Labelled(row, asset) then b
    else if row.status == SUCCEEDED then
      b.(settled := Add(b.settled, Num(row.amount)), settledCount := b.settledCount + 1)
    else if row.status == PENDING || row.status == SUBMITTED then b.(pending := Add(b.pending, Num(row.amount)))
    else b
  }

  lemma BalanceStep(rows: seq<Intent>, i: nat, asset: string)
    requires i < |rows|
    ensures BalanceOf(rows[..i + 1], asset) == BalanceNext(BalanceOf(rows[..i], asset), rows[i], asset)
  {
    hide Sum, AmountsOf, CountOf, Num, Add;
    Snoc(rows, i, SettledIn(asset));
    Snoc(rows, i, OpenIn(asset));
  }

  // ── Exactness ──────────────────────────────────────────────────────────────

  ghost predicate Payable(rows: seq<Intent>) { forall row | row in rows :: Accepted(row.amount) }

  /** What is printed for a sum denotes the exact total, whichever shortest decimal is chosen. */
  ghost predicate PrintsTotal(n: JsNumber, amounts: seq<Option<string>>) {
    && n.Finite? && (exists d: Decimal :: Prints(n.value, d))
    && forall d: Decimal :: Prints(n.value, d) ==> DecimalValue(d) == Units(Total(amounts))
  }

  lemma NearestPrintsTotal(amounts: seq<Option<string>>)
    requires Total(amounts) < TWO_28_UNITS
    ensures PrintsTotal(Finite(Nearest(Units(Total(amounts)))), amounts)
  {
    hide Nearest, Total, Prints, DecimalValue;
    var _ := Printable(Total(amounts));
    forall d: Decimal | Prints(Nearest(Units(Total(amounts))), d) ensures DecimalValue(d) == Units(Total(amounts)) {
      PrintsExactly(Total(amounts), d);
    }
  }

  /** What `summary` and `balances` print, for the settled as for the open amounts of an asset, is the decimal
      sum of the selected amounts, as long as (count + 1) * total stays below 2^51 stroops. */
  lemma VolumePrintsExactly(rows: seq<Intent>, select: Intent -> bool)
    requires Payable(rows) && Weight(AmountsOf(rows, select)) < TWO_51
    ensures PrintsTotal(ToMoney(Sum(AmountsOf(rows, select))), AmountsOf(rows, select))
  {
    hide Nearest, Total, Sum, ToMoney, AmountsOf, PrintsTotal, CountOf;
    var amounts := AmountsOf(rows, select);
    AmountsCount(rows, select);
    SumExact(amounts);
    WeightAtLeastTotal(|amounts|, Total(amounts));
    NearestPrintsTotal(amounts);
  }

  /** What the series prints for a day is the decimal sum of its settled amounts, for any number of
      intents, as long as the total stays below 2^28 units. */
  lemma DayPrintsExactly(rows: seq<Intent>, day: int)
    requires Payable(rows) && Total(AmountsOf(rows, SettledOn(day))) < TWO_28_UNITS
    ensures PrintsTotal(SeriesVolume(AmountsOf(rows, SettledOn(day))), AmountsOf(rows, SettledOn(day)))
  {
    hide Nearest, Total, SeriesVolume, AmountsOf, PrintsTotal, CountOf;
    var amounts := AmountsOf(rows, SettledOn(day));
    AmountsCount(rows, SettledOn(day));
    SeriesVolumeExact(amounts);
    NearestPrintsTotal(amounts);
  }

  lemma {:induction false} AmountsOfPermutation(xs: seq<Intent>, ys: seq<Intent>, select: Intent -> bool)
    requires multiset(xs) == multiset(ys)
    ensures multiset(AmountsOf(xs, select)) == multiset(AmountsOf(ys, select))
  {
    if xs == [] {
      assert |ys| == |multiset(ys)| == 0;
    } else {
      var i := Locate(xs, ys);
      AmountsOfPermutation(xs[..|xs| - 1], ys[..i] + ys[i + 1..], select);
      AmountsWithout(ys, i, select);
    }
  }

  function Chosen(row: Intent, select: Intent -> bool): multiset<Option<string>> {
    if select(row) then multiset{row.amount} else multiset{}
  }

  lemma AmountsSnoc(rows: seq<Intent>, select: Intent -> bool)
    requires rows != []
    ensures multiset(AmountsOf(rows, select))
        == multiset(AmountsOf(rows[..|rows| - 1], select)) + Chosen(rows[|rows| - 1], select)
  {
  }

  lemma {:induction false} AmountsWithout(ys: seq<Intent>, i: nat, select: Intent -> bool)
    requires i < |ys|
    ensures multiset(AmountsOf(ys, select))
        == multiset(AmountsOf(ys[..i] + ys[i + 1..], select)) + Chosen(ys[i], select)
  {
    hide AmountsOf, Chosen;
    var rest := ys[..i] + ys[i + 1..];
    AmountsSnoc(ys, select);
    if i == |ys| - 1 {
      assert rest == ys[..i];
    } else {
      var front := ys[..|ys| - 1];
      AmountsWithout(front, i, select);
      AmountsSnoc(rest, select);
      assert rest[..|rest| - 1] == front[..i] + front[i + 1..];
    }
  }

  /** `summary` and `balances` read the same rows in different orders and still print the same volume for
      every asset under the bound. */
  lemma EndpointsAgree(xs: seq<Intent>, ys: seq<Intent>, asset: string)
    requires multiset(xs) == multiset(ys) && Payable(xs)
    requires Weight(AmountsOf(xs, SettledIn(asset))) < TWO_51
    ensures ToMoney(Sum(AmountsOf(xs, SettledIn(asset)))) == ToMoney(Sum(AmountsOf(ys, SettledIn(asset))))
    ensures CountOf(xs, SettledIn(asset)) == CountOf(ys, SettledIn(asset))
  {
    hide Total, Sum, ToMoney, AmountsOf, CountOf;
    AmountsCount(xs, SettledIn(asset));
    AmountsCount(ys, SettledIn(asset));
    AmountsOfPermutation(xs, ys, SettledIn(asset));
    SamePermutation(AmountsOf(xs, SettledIn(asset)), AmountsOf(ys, SettledIn(asset)));
    SumOrderIrrelevant(AmountsOf(xs, SettledIn(asset)), AmountsOf(ys, SettledIn(asset)));
  }
}
