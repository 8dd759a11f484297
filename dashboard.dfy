/**
 * `Dashboard`: the summary metrics and the three chart series it derives from the
 * parsed rows, the choice between the loading, error and main views, and the
 * chat panel's open flag.
 */
module Dashboard {
  import opened Wrappers
  import opened JsText
  import Csv
  import StatusIndicator
  import SheetSource

  type Row = Csv.Row

  const CLIENTS := "Clients"
  const PRODUCTS := "No. of Products"
  const PRICE := "Price"
  const STATUS := "Status"

  // ---------------------------------------------------------------- cells

  /** `item[key]`: `undefined` when the row has no such column. */
  function Get(row: Row, key: string): Option<string> {
    if key in row then Some(row[key]) else None
  }

  /** `x || '0'`: `undefined` and the empty string both become "0". */
  function OrZero(v: Option<string>): (s: string)
    ensures s != ""
    ensures v.Some? && v.value != "" ==> s == v.value
    ensures v.None? || v.value == "" ==> s == "0"
  {
    if v.None? || v.value == "" then "0" else v.value
  }

  /** `.replace('₹', '').replace(',', '')`: only the first rupee sign, then only the first comma, go. */
  function CleanPrice(p: string): string {
    RemoveFirst(RemoveFirst(p, '₹'), ',')
  }

  /** Cleaning takes away one rupee sign and one comma when there are any, and no more. */
  lemma {:induction false} CleanPriceRemovesOne(p: string)
    ensures Occurrences(CleanPrice(p), '₹') == if '₹' in p then Occurrences(p, '₹') - 1 else Occurrences(p, '₹')
    ensures Occurrences(CleanPrice(p), ',') == if ',' in p then Occurrences(p, ',') - 1 else Occurrences(p, ',')
  {
    var q := RemoveFirst(p, '₹');
    RemoveFirstOther(p, '₹', ',');
    RemoveFirstOther(q, ',', '₹');
    assert ',' in q <==> ',' in p;
  }

  /** The price of a row as `parseInt` reads it; `None` is `NaN`. */
  function PriceValue(row: Row): Option<int> {
    ParseInt(OrZero(if PRICE in row then Some(CleanPrice(row[PRICE])) else None))
  }

  /** `parseInt(item['No. of Products'] || '0')`. */
  function ProductValue(row: Row): Option<int> {
    ParseInt(OrZero(Get(row, PRODUCTS)))
  }

  lemma {:induction false} ZeroParses()
    ensures ParseInt("0") == Some(0)
  {
    assert Spell(0) == "0";
    ParseIntSpell("", 0, "");
    assert "" + (Spell(0) + "") == "0";
  }

  /** A missing price, or one that is empty once cleaned, counts as 0. */
  lemma {:induction false} EmptyPriceIsZero(row: Row)
    requires PRICE !in row || CleanPrice(row[PRICE]) == ""
    ensures PriceValue(row) == Some(0)
  {
    ZeroParses();
  }

  /** A missing or empty product count counts as 0. */
  lemma {:induction false} EmptyProductsIsZero(row: Row)
    requires PRODUCTS !in row || row[PRODUCTS] == ""
    ensures ProductValue(row) == Some(0)
  {
    ZeroParses();
  }

  lemma {:induction false} RupeeOff(p: string)
    requires p == "₹1,200"
    ensures RemoveFirst(p, '₹') == "1,200"
  {
    assert IndexOf(p, '₹') == 0;
    assert RemoveFirst(p, '₹') == p[1..];
  }

  lemma {:induction false} CommaOff(q: string)
    requires q == "1,200"
    ensures RemoveFirst(q, ',') == "1200"
  {
    assert IndexOf(q, ',') == 1;
    var r := RemoveFirst(q, ',');
    assert r == q[..1] + q[2..];
  }

  lemma {:induction false} RupeeGoes(p: string)
    requires p == "₹1,200"
    ensures CleanPrice(p) == "1200"
  {
    RupeeOff(p);
    CommaOff("1,200");
  }

  lemma {:induction false} GroupedRupeeGoes(p: string)
    requires p == "₹1,00,000"
    ensures RemoveFirst(p, '₹') == "1,00,000"
  {
    assert IndexOf(p, '₹') == 0;
    assert RemoveFirst(p, '₹') == p[1..];
  }

  lemma {:induction false} DropSecond(q: string)
    requires q == "1,00,000"
    ensures q[..1] + q[2..] == "100,000"
  {
  }

  lemma {:induction false} FirstCommaGoes(q: string)
    requires q == "1,00,000"
    ensures RemoveFirst(q, ',') == "100,000"
  {
    assert IndexOf(q, ',') == 1;
    var r := RemoveFirst(q, ',');
    assert r == q[..1] + q[2..];
    DropSecond(q);
  }

  lemma {:induction false} OnlyFirstCommaGoes(p: string)
    requires p == "₹1,00,000"
    ensures CleanPrice(p) == "100,000"
  {
    GroupedRupeeGoes(p);
    FirstCommaGoes("1,00,000");
  }

  /** The price of a one-column row whose cleaned price is not empty. */
  lemma {:induction false} RowPrice(p: string)
    requires CleanPrice(p) != ""
    ensures PriceValue(map[PRICE := p]) == ParseInt(CleanPrice(p))
  {
    var row := map[PRICE := p];
    assert PRICE in row && row[PRICE] == p;
  }

  lemma {:induction false} Parse1200()
    ensures ParseInt("1200") == Some(1200)
  {
    assert Spell(1200) == "1200" by {
      assert Decimal(1200) == Decimal(120) + ['0'];
      assert Decimal(120) == Decimal(12) + ['0'];
      assert Decimal(12) == Decimal(1) + ['2'];
    }
    ParseIntSpell("", 1200, "");
    assert "" + ("1200" + "") == "1200";
  }

  lemma {:induction false} Spell100()
    ensures Spell(100) == "100"
  {
    assert Decimal(100) == Decimal(10) + ['0'];
    assert Decimal(10) == Decimal(1) + ['0'];
  }

  lemma {:induction false} Parse100Comma(s: string)
    requires s == "100,000"
    ensures ParseInt(s) == Some(100)
  {
    var tail := s[3..];
    assert tail[0] == ',';
    Spell100();
    assert s == "" + (Spell(100) + tail);
    ParseIntSpell("", 100, tail);
  }

  /** `"₹1,200"` is read as 1200. */
  lemma {:induction false} PriceExample()
    ensures PriceValue(map[PRICE := "₹1,200"]) == Some(1200)
  {
    RupeeGoes("₹1,200");
    RowPrice("₹1,200");
    Parse1200();
  }

  /** `"₹1,00,000"` (Indian digit grouping) is read as 100: the second comma stops `parseInt`. */
  lemma {:induction false} GroupedPriceExample()
    ensures PriceValue(map[PRICE := "₹1,00,000"]) == Some(100)
  {
    OnlyFirstCommaGoes("₹1,00,000");
    RowPrice("₹1,00,000");
    Parse100Comma("100,000");
  }

  // ---------------------------------------------------------------- totals

  /** `sum + x`: `NaN` on either side gives `NaN`. */
  function Add(a: Option<int>, b: Option<int>): (r: Option<int>)
    ensures r.None? <==> a.None? || b.None?
    ensures r.Some? ==> r.value == a.value + b.value
  {
    if a.None? || b.None? then None else Some(a.value + b.value)
  }

  /** `reduce((sum, v) => sum + v, 0)` over values already parsed. */
  function Sum(vs: seq<Option<int>>): Option<int> {
    if |vs| == 0 then Some(0) else Add(Sum(vs[..|vs| - 1]), vs[|vs| - 1])
  }

  /** One `NaN` makes the sum `NaN`, and only that does. */
  lemma {:induction false} SumNaN(vs: seq<Option<int>>)
    ensures Sum(vs).None? <==> exists i :: 0 <= i < |vs| && vs[i].None?
  {
    if |vs| > 0 {
      var n := |vs| - 1;
      SumNaN(vs[..n]);
      if exists i :: 0 <= i < n && vs[..n][i].None? {
        var i :| 0 <= i < n && vs[..n][i].None?;
        assert vs[i].None?;
      }
      if exists i :: 0 <= i < |vs| && vs[i].None? {
        var i :| 0 <= i < |vs| && vs[i].None?;
        if i < n { assert vs[..n][i].None?; }
      }
    }
  }

  /** A sum of non-negative numbers without `NaN` is a non-negative number. */
  lemma {:induction false} SumNonNegative(vs: seq<Option<int>>)
    requires forall i :: 0 <= i < |vs| ==> vs[i].Some? && vs[i].value >= 0
    ensures Sum(vs).Some? && Sum(vs).value >= 0
  {
    if |vs| > 0 {
      var n := |vs| - 1;
      assert forall i :: 0 <= i < n ==> vs[..n][i] == vs[i];
      SumNonNegative(vs[..n]);
    }
  }

  /** The parsed price of every row, in order. */
  function Prices(rows: seq<Row>): (vs: seq<Option<int>>)
    ensures |vs| == |rows|
  {
    seq(|rows|, i requires 0 <= i < |rows| => PriceValue(rows[i]))
  }

  function ProductCounts(rows: seq<Row>): (vs: seq<Option<int>>)
    ensures |vs| == |rows|
  {
    seq(|rows|, i requires 0 <= i < |rows| => ProductValue(rows[i]))
  }

  /** `data.reduce((sum, item) => sum + parseInt(item.Price?.replace(...) || '0'), 0)`. */
  function TotalRevenue(rows: seq<Row>): Option<int> {
    Sum(Prices(rows))
  }

  /** `data.reduce((sum, item) => sum + parseInt(item['No. of Products'] || '0'), 0)`. */
  function TotalProducts(rows: seq<Row>): Option<int> {
    Sum(ProductCounts(rows))
  }

  /** The revenue card shows `NaN` exactly when some row's price does not parse. */
  lemma {:induction false} RevenueNaN(rows: seq<Row>)
    ensures TotalRevenue(rows).None? <==> exists i :: 0 <= i < |rows| && PriceValue(rows[i]).None?
  {
    var vs := Prices(rows);
    SumNaN(vs);
    if TotalRevenue(rows).None? {
      var i :| 0 <= i < |vs| && vs[i].None?;
      assert PriceValue(rows[i]).None?;
    }
    if exists i :: 0 <= i < |rows| && PriceValue(rows[i]).None? {
      var i :| 0 <= i < |rows| && PriceValue(rows[i]).None?;
      assert vs[i].None?;
    }
  }

  /** Likewise the products card. */
  lemma {:induction false} ProductsNaN(rows: seq<Row>)
    ensures TotalProducts(rows).None? <==> exists i :: 0 <= i < |rows| && ProductValue(rows[i]).None?
  {
    var vs := ProductCounts(rows);
    SumNaN(vs);
    if TotalProducts(rows).None? {
      var i :| 0 <= i < |vs| && vs[i].None?;
      assert ProductValue(rows[i]).None?;
    }
    if exists i :: 0 <= i < |rows| && ProductValue(rows[i]).None? {
      var i :| 0 <= i < |rows| && ProductValue(rows[i]).None?;
      assert vs[i].None?;
    }
  }

  /** With readable non-negative prices the revenue is a non-negative number. */
  lemma {:induction false} RevenueNonNegative(rows: seq<Row>)
    requires forall i :: 0 <= i < |rows| ==> PriceValue(rows[i]).Some? && PriceValue(rows[i]).value >= 0
    ensures TotalRevenue(rows).Some? && TotalRevenue(rows).value >= 0
  {
    assert forall i :: 0 <= i < |rows| ==> Prices(rows)[i] == PriceValue(rows[i]);
    SumNonNegative(Prices(rows));
  }

  // ---------------------------------------------------------------- counts and metrics

  /** `item.Status?.toLowerCase() === s`. */
  predicate HasStatus(row: Row, s: string) {
    STATUS in row && ToLower(row[STATUS]) == s
  }

  /** `data.filter(item => item.Status?.toLowerCase() === s).length`. */
  function CountStatus(rows: seq<Row>, s: string): (n: nat)
    ensures n <= |rows|
  {
    if |rows| == 0 then 0
    else CountStatus(rows[..|rows| - 1], s) + (if HasStatus(rows[|rows| - 1], s) then 1 else 0)
  }

  /** No row has two statuses, so two different statuses never count more rows than there are. */
  lemma {:induction false} CountsDisjoint(rows: seq<Row>, a: string, b: string)
    requires a != b
    ensures CountStatus(rows, a) + CountStatus(rows, b) <= |rows|
  {
    if |rows| > 0 {
      CountsDisjoint(rows[..|rows| - 1], a, b);
    }
  }

  /** `(delivered / total) * 100`, exact. */
  function ConversionRate(delivered: nat, total: nat): (r: real)
    requires 0 < total && delivered <= total
    ensures 0.0 <= r <= 100.0
    ensures r * (total as real) == 100.0 * (delivered as real)
  {
    var q := delivered as real / total as real;
    assert q * (total as real) == delivered as real;
    assert q <= 1.0;
    q * 100.0
  }

  datatype Metrics = Metrics(
    totalClients: nat,
    totalProducts: Option<int>,
    totalRevenue: Option<int>,
    deliveredCount: nat,
    inProgressCount: nat,
    conversionRate: real)   // kept exact; the display rounds it with toFixed(1)

  /**
   * The `metrics` memo: `null` for no rows; otherwise the row count, the two totals,
   * the delivered and in-progress counts and the delivered share in percent.
   */
  function ComputeMetrics(rows: seq<Row>): (m: Option<Metrics>)
    ensures m.None? <==> |rows| == 0
    ensures m.Some? ==> m.value.totalClients == |rows|
    ensures m.Some? ==> m.value.totalProducts == TotalProducts(rows) && m.value.totalRevenue == TotalRevenue(rows)
    ensures m.Some? ==> m.value.deliveredCount == CountStatus(rows, "delivered")
    ensures m.Some? ==> m.value.inProgressCount == CountStatus(rows, "in progress")
    ensures m.Some? ==> m.value.deliveredCount + m.value.inProgressCount <= m.value.totalClients
    ensures m.Some? ==> 0.0 <= m.value.conversionRate <= 100.0
    ensures m.Some? ==> m.value.conversionRate == ConversionRate(m.value.deliveredCount, |rows|)
  {
    if |rows| == 0 then None
    else
      var delivered := CountStatus(rows, "delivered");
      var inProgress := CountStatus(rows, "in progress");
      CountsDisjoint(rows, "delivered", "in progress");
      Some(Metrics(|rows|, TotalProducts(rows), TotalRevenue(rows), delivered, inProgress,
                   ConversionRate(delivered, |rows|)))
  }

  // ---------------------------------------------------------------- revenue and product series

  datatype Point = Point(name: string, value: Option<int>)

  /** `item.Clients?.split(' ')[0] || 'Client'`: the client's first word. */
  function ShortName(row: Row): (name: string)
    ensures name != "" && ' ' !in name
    ensures CLIENTS !in row ==> name == "Client"
    ensures CLIENTS in row ==>
      var c := row[CLIENTS];
      var word := if ' ' in c then c[..IndexOf(c, ' ')] else c;
      name == if word == "" then "Client" else word
  {
    if CLIENTS in row then
      SplitFirst(row[CLIENTS], ' ');
      var word := Split(row[CLIENTS], ' ')[0];
      if word == "" then "Client" else word
    else "Client"
  }

  function Values(ps: seq<Point>): (vs: seq<Option<int>>)
    ensures |vs| == |ps|
  {
    seq(|ps|, i requires 0 <= i < |ps| => ps[i].value)
  }

  /** `data.map(item => ({ name, value: parseInt(price) }))`. */
  function RevenueSeries(rows: seq<Row>): seq<Point> {
    seq(|rows|, i requires 0 <= i < |rows| => Point(ShortName(rows[i]), PriceValue(rows[i])))
  }

  /** `data.map(item => ({ name, value: parseInt(products) }))`. */
  function ProductSeries(rows: seq<Row>): seq<Point> {
    seq(|rows|, i requires 0 <= i < |rows| => Point(ShortName(rows[i]), ProductValue(rows[i])))
  }

  /** One bar per row, in row order, and the bars add up to the cards, `NaN` included. */
  lemma {:induction false} SeriesMatchCards(rows: seq<Row>)
    ensures |RevenueSeries(rows)| == |ProductSeries(rows)| == |rows|
    ensures forall i :: 0 <= i < |rows| ==> RevenueSeries(rows)[i].name == ProductSeries(rows)[i].name == ShortName(rows[i])
    ensures Sum(Values(RevenueSeries(rows))) == TotalRevenue(rows)
    ensures Sum(Values(ProductSeries(rows))) == TotalProducts(rows)
  {
    assert Values(RevenueSeries(rows)) == Prices(rows);
    assert Values(ProductSeries(rows)) == ProductCounts(rows);
  }

  /** The revenue and products cards show exactly what the two bar series add up to. */
  lemma {:induction false} CardsMatchCharts(rows: seq<Row>)
    requires |rows| > 0
    ensures ComputeMetrics(rows).value.totalRevenue == Sum(Values(RevenueSeries(rows)))
    ensures ComputeMetrics(rows).value.totalProducts == Sum(Values(ProductSeries(rows)))
  {
    SeriesMatchCards(rows);
  }

  // ---------------------------------------------------------------- status histogram

  /** `item.Status?.toLowerCase() || 'unknown'`. */
  function StatusKey(row: Row): (k: string)
    ensures k != "" && !HasUpper(k)
    ensures STATUS in row && row[STATUS] != "" ==> k == ToLower(row[STATUS])
    ensures STATUS !in row || row[STATUS] == "" ==> k == "unknown"
    ensures k == "delivered" <==> HasStatus(row, "delivered")
  {
    var s := if STATUS in row then ToLower(row[STATUS]) else "";
    if s == "" then
      assert forall i :: 0 <= i < |"unknown"| ==> !('A' <= "unknown"[i] <= 'Z');
      "unknown"
    else s
  }

  function StatusKeys(rows: seq<Row>): (keys: seq<string>)
    ensures |keys| == |rows|
  {
    seq(|rows|, i requires 0 <= i < |rows| => StatusKey(rows[i]))
  }

  /** The dictionary `acc` after `acc[k] = (acc[k] || 0) + 1` for every key in turn. */
  function Tally(keys: seq<string>): map<string, nat> {
    if |keys| == 0 then map[]
    else
      var acc := Tally(keys[..|keys| - 1]);
      var k := keys[|keys| - 1];
      acc[k := (if k in acc then acc[k] else 0) + 1]
  }

  /** The order in which keys first enter `acc`, which is the order `Object.entries` reports. */
  function FirstSeen(keys: seq<string>): seq<string> {
    if |keys| == 0 then []
    else
      var order := FirstSeen(keys[..|keys| - 1]);
      var k := keys[|keys| - 1];
      if k in order then order else order + [k]
  }

  predicate Distinct(s: seq<string>) {
    forall i, j :: 0 <= i < j < |s| ==> s[i] != s[j]
  }

  /** The tally holds every key once, with the number of times it occurs. */
  lemma {:induction false} TallyCounts(keys: seq<string>)
    ensures forall k :: k in Tally(keys) <==> k in keys
    ensures forall k :: k in Tally(keys) ==> Tally(keys)[k] == multiset(keys)[k]
  {
    if |keys| > 0 {
      var n := |keys| - 1;
      TallyCounts(keys[..n]);
      assert keys == keys[..n] + [keys[n]];
      assert multiset(keys) == multiset(keys[..n]) + multiset{keys[n]};
    }
  }

  /** The entry order lists every distinct key exactly once. */
  lemma {:induction false} FirstSeenKeys(keys: seq<string>)
    ensures Distinct(FirstSeen(keys))
    ensures forall k :: k in FirstSeen(keys) <==> k in keys
  {
    if |keys| > 0 {
      var n := |keys| - 1;
      FirstSeenKeys(keys[..n]);
      assert keys == keys[..n] + [keys[n]];
    }
  }

  /** The sum of the tallied counts over the entry order. */
  function SumCounts(order: seq<string>, acc: map<string, nat>): nat
    requires forall k :: k in order ==> k in acc
  {
    if |order| == 0 then 0 else SumCounts(order[..|order| - 1], acc) + acc[order[|order| - 1]]
  }

  lemma {:induction false} SumCountsSame(order: seq<string>, acc: map<string, nat>, k: string, v: nat)
    requires forall x :: x in order ==> x in acc
    requires k !in order
    ensures SumCounts(order, acc[k := v]) == SumCounts(order, acc)
  {
    if |order| > 0 {
      var n := |order| - 1;
      SumCountsSame(order[..n], acc, k, v);
    }
  }

  lemma {:induction false} SumCountsBump(order: seq<string>, acc: map<string, nat>, k: string)
    requires forall x :: x in order ==> x in acc
    requires Distinct(order) && k in order
    ensures SumCounts(order, acc[k := acc[k] + 1]) == SumCounts(order, acc) + 1
  {
    var n := |order| - 1;
    var prefix := order[..n];
    if order[n] == k {
      assert k !in prefix by {
        forall j | 0 <= j < n ensures prefix[j] != k { assert prefix[j] == order[j]; }
      }
      SumCountsSame(prefix, acc, k, acc[k] + 1);
    } else {
      assert k in prefix by {
        var j :| 0 <= j < |order| && order[j] == k;
        assert j < n && prefix[j] == k;
      }
      assert Distinct(prefix) by {
        forall i, j | 0 <= i < j < |prefix| ensures prefix[i] != prefix[j] { assert prefix[i] == order[i] && prefix[j] == order[j]; }
      }
      SumCountsBump(prefix, acc, k);
    }
  }

  /** Every key is counted once: the tallied counts add up to the number of keys. */
  lemma {:induction false} TallyTotal(keys: seq<string>)
    ensures forall k :: k in FirstSeen(keys) ==> k in Tally(keys)
    ensures SumCounts(FirstSeen(keys), Tally(keys)) == |keys|
  {
    TallyCounts(keys);
    FirstSeenKeys(keys);
    if |keys| > 0 {
      var n := |keys| - 1;
      var k := keys[n];
      var prefix := keys[..n];
      TallyTotal(prefix);
      TallyCounts(prefix);
      FirstSeenKeys(prefix);
      var order := FirstSeen(prefix);
      var acc := Tally(prefix);
      if k in order {
        SumCountsBump(order, acc, k);
      } else {
        SumCountsSame(order, acc, k, 1);
        assert (order + [k])[..|order|] == order;
      }
    }
  }

  /** A histogram slice: `{ name: status.charAt(0).toUpperCase() + status.slice(1), value: count }`. */
  datatype Slice = Slice(name: string, value: nat)

  function Capitalize(s: string): string {
    if |s| == 0 then "" else [UpperChar(s[0])] + s[1..]
  }

  /** Capitalising loses nothing on strings without upper-case letters. */
  lemma {:induction false} CapitalizeInjective(a: string, b: string)
    requires !HasUpper(a) && !HasUpper(b)
    requires Capitalize(a) == Capitalize(b)
    ensures a == b
  {
    if |a| > 0 {
      assert |b| > 0;
      assert Capitalize(a)[0] == UpperChar(a[0]) && Capitalize(b)[0] == UpperChar(b[0]);
      assert !('A' <= a[0] <= 'Z') && !('A' <= b[0] <= 'Z');
      assert a[1..] == Capitalize(a)[1..] == Capitalize(b)[1..] == b[1..];
      assert a == [a[0]] + a[1..] && b == [b[0]] + b[1..];
    }
  }

  /** `Object.entries(acc).map(...)` for the keys in the order given. */
  function SeriesOf(keys: seq<string>): (slices: seq<Slice>)
    ensures |slices| == |FirstSeen(keys)|
  {
    var order := FirstSeen(keys);
    TallyTotal(keys);
    seq(|order|, i requires 0 <= i < |order| => Slice(Capitalize(order[i]), Tally(keys)[order[i]]))
  }

  /** Each slice counts the occurrences of the key it names, and names a key that occurs. */
  lemma {:induction false} SeriesCounts(keys: seq<string>)
    ensures forall i :: 0 <= i < |SeriesOf(keys)| ==>
      FirstSeen(keys)[i] in keys &&
      SeriesOf(keys)[i] == Slice(Capitalize(FirstSeen(keys)[i]), multiset(keys)[FirstSeen(keys)[i]]) &&
      SeriesOf(keys)[i].value >= 1
  {
    TallyCounts(keys);
    FirstSeenKeys(keys);
  }

  /** Every key that occurs has its slice. */
  lemma {:induction false} SeriesCovers(keys: seq<string>, r: nat)
    requires r < |keys|
    ensures exists i :: 0 <= i < |SeriesOf(keys)| && SeriesOf(keys)[i] == Slice(Capitalize(keys[r]), multiset(keys)[keys[r]])
  {
    FirstSeenKeys(keys);
    SeriesCounts(keys);
    assert keys[r] in FirstSeen(keys);
    var i :| 0 <= i < |FirstSeen(keys)| && FirstSeen(keys)[i] == keys[r];
    assert SeriesOf(keys)[i] == Slice(Capitalize(keys[r]), multiset(keys)[keys[r]]);
  }

  /** Keys without capitals give slices with pairwise different names. */
  lemma {:induction false} SeriesNamesDistinct(keys: seq<string>)
    requires forall r :: 0 <= r < |keys| ==> !HasUpper(keys[r])
    ensures forall i, j :: 0 <= i < j < |SeriesOf(keys)| ==> SeriesOf(keys)[i].name != SeriesOf(keys)[j].name
  {
    FirstSeenKeys(keys);
    var order := FirstSeen(keys);
    forall i, j | 0 <= i < j < |order| ensures SeriesOf(keys)[i].name != SeriesOf(keys)[j].name {
      assert order[i] in keys && order[j] in keys;
      if Capitalize(order[i]) == Capitalize(order[j]) {
        CapitalizeInjective(order[i], order[j]);
      }
    }
  }

  function SumSlices(slices: seq<Slice>): nat {
    if |slices| == 0 then 0 else SumSlices(slices[..|slices| - 1]) + slices[|slices| - 1].value
  }

  lemma {:induction false} SumSlicesCounts(slices: seq<Slice>, order: seq<string>, acc: map<string, nat>)
    requires forall k :: k in order ==> k in acc
    requires |slices| == |order|
    requires forall i :: 0 <= i < |order| ==> slices[i].value == acc[order[i]]
    ensures SumSlices(slices) == SumCounts(order, acc)
  {
    if |order| > 0 {
      var n := |order| - 1;
      SumSlicesCounts(slices[..n], order[..n], acc);
    }
  }

  /** The slices add up to the number of keys. */
  lemma {:induction false} SeriesTotal(keys: seq<string>)
    ensures SumSlices(SeriesOf(keys)) == |keys|
  {
    TallyTotal(keys);
    SumSlicesCounts(SeriesOf(keys), FirstSeen(keys), Tally(keys));
  }

  /** The `status` series of the dashboard. */
  function StatusSeries(rows: seq<Row>): seq<Slice> {
    SeriesOf(StatusKeys(rows))
  }

  /** The histogram of the rows: one slice per distinct status, under distinct names, adding up to the row count. */
  lemma {:induction false} StatusSeriesShape(rows: seq<Row>)
    ensures forall i, j :: 0 <= i < j < |StatusSeries(rows)| ==> StatusSeries(rows)[i].name != StatusSeries(rows)[j].name
    ensures SumSlices(StatusSeries(rows)) == |rows|
  {
    SeriesNamesDistinct(StatusKeys(rows));
    SeriesTotal(StatusKeys(rows));
  }

  /** One more key: the tally counts it once more, and the order gains it when it is new. */
  lemma {:induction false} TallyStep(keys: seq<string>, i: nat)
    requires i < |keys|
    ensures Tally(keys[..i + 1]) == Tally(keys[..i])[keys[i] := (if keys[i] in Tally(keys[..i]) then Tally(keys[..i])[keys[i]] else 0) + 1]
    ensures FirstSeen(keys[..i + 1]) == if keys[i] in FirstSeen(keys[..i]) then FirstSeen(keys[..i]) else FirstSeen(keys[..i]) + [keys[i]]
  {
    assert keys[..i + 1][..i] == keys[..i];
  }

  /**
   * Lines 69-78: the reduce that fills the dictionary `acc` in place, then
   * `Object.entries(acc).map(...)`; `order` is the insertion order of `acc`'s keys.
   */
  method StatusDistribution(rows: seq<Row>) returns (slices: seq<Slice>)
    ensures slices == StatusSeries(rows)
  {
    ghost var keys := StatusKeys(rows);
    var acc: map<string, nat> := map[];
    var order: seq<string> := [];
    for i := 0 to |rows|
      invariant acc == Tally(keys[..i]) && order == FirstSeen(keys[..i])
      invariant forall k :: k in order <==> k in acc
    {
      TallyStep(keys, i);
      var status := StatusKey(rows[i]);
      if status !in acc {
        order := order + [status];
      }
      acc := acc[status := (if status in acc then acc[status] else 0) + 1];
    }
    assert keys[..|rows|] == keys;
    slices := seq(|order|, j requires 0 <= j < |order| => Slice(Capitalize(order[j]), acc[order[j]]));
  }

  /** Over keys without capitals, the slice that carries a key's capitalised name shows that key's count. */
  lemma {:induction false} SliceNamed(keys: seq<string>, k: string, i: nat)
    requires forall r :: 0 <= r < |keys| ==> !HasUpper(keys[r])
    requires !HasUpper(k)
    requires i < |SeriesOf(keys)| && SeriesOf(keys)[i].name == Capitalize(k)
    ensures SeriesOf(keys)[i].value == multiset(keys)[k]
  {
    SeriesCounts(keys);
    var key := FirstSeen(keys)[i];
    var r :| 0 <= r < |keys| && keys[r] == key;
    CapitalizeInjective(key, k);
  }

  lemma {:induction false} DeliveredLower()
    ensures Capitalize("delivered") == "Delivered" && !HasUpper("delivered")
  {
    assert forall i :: 0 <= i < |"delivered"| ==> !('A' <= "delivered"[i] <= 'Z');
  }

  /** In the histogram, a "Delivered" slice shows exactly the delivered count. */
  lemma {:induction false} DeliveredSliceValue(rows: seq<Row>, i: nat)
    requires i < |StatusSeries(rows)| && StatusSeries(rows)[i].name == "Delivered"
    ensures StatusSeries(rows)[i].value == CountStatus(rows, "delivered")
  {
    DeliveredLower();
    DeliveredKeyCount(rows);
    SliceNamed(StatusKeys(rows), "delivered", i);
  }

  /** The histogram has a "Delivered" slice whenever some row is delivered. */
  lemma {:induction false} DeliveredSlicePresent(rows: seq<Row>)
    requires CountStatus(rows, "delivered") > 0
    ensures exists i :: 0 <= i < |StatusSeries(rows)| && StatusSeries(rows)[i] == Slice("Delivered", CountStatus(rows, "delivered"))
  {
    DeliveredLower();
    DeliveredKeyCount(rows);
    var keys := StatusKeys(rows);
    SeriesHasKey(keys, "delivered");
    var i :| 0 <= i < |SeriesOf(keys)| && SeriesOf(keys)[i] == Slice(Capitalize("delivered"), multiset(keys)["delivered"]);
    assert StatusSeries(rows)[i] == Slice("Delivered", CountStatus(rows, "delivered"));
  }

  lemma {:induction false} SeriesHasKey(keys: seq<string>, k: string)
    requires multiset(keys)[k] > 0
    ensures exists i :: 0 <= i < |SeriesOf(keys)| && SeriesOf(keys)[i] == Slice(Capitalize(k), multiset(keys)[k])
  {
    assert k in multiset(keys);
    var r :| 0 <= r < |keys| && keys[r] == k;
    SeriesCovers(keys, r);
  }

  /** The number of keys equal to "delivered" is the delivered count. */
  lemma {:induction false} DeliveredKeyCount(rows: seq<Row>)
    ensures multiset(StatusKeys(rows))["delivered"] == CountStatus(rows, "delivered")
  {
    if |rows| > 0 {
      var n := |rows| - 1;
      DeliveredKeyCount(rows[..n]);
      KeysStep(rows);
      CountAppended(StatusKeys(rows[..n]), StatusKey(rows[n]), "delivered");
    }
  }

  lemma {:induction false} KeysStep(rows: seq<Row>)
    requires |rows| > 0
    ensures StatusKeys(rows) == StatusKeys(rows[..|rows| - 1]) + [StatusKey(rows[|rows| - 1])]
  {
    var n := |rows| - 1;
    assert forall i :: 0 <= i < n ==> rows[..n][i] == rows[i];
  }

  lemma {:induction false} CountAppended(keys: seq<string>, last: string, k: string)
    ensures multiset(keys + [last])[k] == multiset(keys)[k] + (if last == k then 1 else 0)
  {
    assert multiset(keys + [last]) == multiset(keys) + multiset{last};
  }

  /** A row is drawn with the green indicator exactly when it counts as delivered. */
  lemma {:induction false} DeliveredShowsGreen(row: Row)
    requires STATUS in row
    ensures HasStatus(row, "delivered") <==> StatusIndicator.GetStatusConfig(row[STATUS]) == StatusIndicator.DELIVERED
  {
  }

  // ---------------------------------------------------------------- client table

  /**
   * `<StatusIndicator status={item.Status} />`: the badge of one table row. Without a
   * "Status" column the component calls `toLowerCase` on `undefined`, which throws;
   * `None` stands for that failure.
   */
  function StatusCell(row: Row): (c: Option<StatusIndicator.Indicator>)
    ensures c.None? <==> STATUS !in row
    ensures c.Some? ==> c.value == StatusIndicator.Render(row[STATUS])
  {
    if STATUS in row then Some(StatusIndicator.Render(row[STATUS])) else None
  }

  /** The `item.Status` of every record, or `None` as soon as one record has none. */
  function StatusTexts(rows: seq<Row>): Option<seq<string>> {
    if |rows| == 0 then Some([])
    else
      var front, last := StatusTexts(rows[..|rows| - 1]), rows[|rows| - 1];
      if front.None? || STATUS !in last then None else Some(front.value + [last[STATUS]])
  }

  lemma {:induction false} StatusTextsSpec(rows: seq<Row>)
    ensures StatusTexts(rows).None? <==> exists i :: 0 <= i < |rows| && STATUS !in rows[i]
    ensures StatusTexts(rows).Some? ==> |StatusTexts(rows).value| == |rows|
    ensures StatusTexts(rows).Some? ==> forall i :: 0 <= i < |rows| ==> STATUS in rows[i] && StatusTexts(rows).value[i] == rows[i][STATUS]
  {
    if |rows| > 0 {
      var n := |rows| - 1;
      var prefix := rows[..n];
      StatusTextsSpec(prefix);
      assert forall i :: 0 <= i < n ==> prefix[i] == rows[i];
      var front := StatusTexts(prefix);
      if front.None? {
        var j :| 0 <= j < n && STATUS !in prefix[j];
        assert STATUS !in rows[j];
      } else if STATUS in rows[n] {
        var t := front.value + [rows[n][STATUS]];
        assert StatusTexts(rows) == Some(t);
        assert forall i :: 0 <= i < n ==> t[i] == front.value[i];
      }
    }
  }

  /** `data.map(...)` over the table rows: one failing badge makes the whole render fail. */
  function StatusColumn(rows: seq<Row>): Option<seq<StatusIndicator.Indicator>> {
    var texts := StatusTexts(rows);
    if texts.None? then None
    else Some(seq(|texts.value|, i requires 0 <= i < |texts.value| => StatusIndicator.Render(texts.value[i])))
  }

  /** The table renders exactly when every record has a "Status" cell, with one badge per record in order. */
  lemma {:induction false} StatusColumnRenders(rows: seq<Row>)
    ensures StatusColumn(rows).None? <==> exists i :: 0 <= i < |rows| && StatusCell(rows[i]).None?
    ensures StatusColumn(rows).Some? ==> |StatusColumn(rows).value| == |rows|
    ensures StatusColumn(rows).Some? ==> forall i :: 0 <= i < |rows| ==> Some(StatusColumn(rows).value[i]) == StatusCell(rows[i])
  {
    StatusTextsSpec(rows);
  }

  /**
   * For a record that lacks the "Status" column the metrics are still computed (the
   * counts use `item.Status?.`), but the client table's render throws; with no error
   * boundary around the dashboard, React then removes the whole page, cards included.
   */
  lemma {:induction false} MissingStatusBreaksTable(rows: seq<Row>, i: nat)
    requires i < |rows| && STATUS !in rows[i]
    ensures ComputeMetrics(rows).Some?
    ensures !HasStatus(rows[i], "delivered") && StatusKey(rows[i]) == "unknown"
    ensures StatusColumn(rows).None?
  {
    StatusColumnRenders(rows);
  }

  // ---------------------------------------------------------------- chart data

  datatype Charts = Charts(revenue: seq<Point>, products: seq<Point>, status: seq<Slice>)

  /** The `chartData` memo: all three series, empty when there are no rows. */
  method ChartData(rows: seq<Row>) returns (c: Charts)
    ensures |rows| == 0 ==> c == Charts([], [], [])
    ensures c.revenue == RevenueSeries(rows) && c.products == ProductSeries(rows)
    ensures c.status == StatusSeries(rows)
  {
    if |rows| == 0 {
      return Charts([], [], []);
    }
    var status := StatusDistribution(rows);
    c := Charts(RevenueSeries(rows), ProductSeries(rows), status);
  }

  // ---------------------------------------------------------------- views

  datatype View = LoadingView | ErrorView(message: string) | MainView

  /**
   * Lines 83-113: loading wins over everything; then a truthy `error` (a non-empty
   * message) shows the error screen with that message; otherwise the dashboard.
   */
  function SelectView(loading: bool, error: Option<string>): (v: View)
    ensures v.LoadingView? <==> loading
    ensures v.ErrorView? <==> !loading && error.Some? && error.value != ""
    ensures v.ErrorView? ==> error == Some(v.message)
  {
    if loading then LoadingView
    else if error.Some? && error.value != "" then ErrorView(error.value)
    else MainView
  }

  /**
   * After a failed fetch the error screen shows the caught message; a thrown `Error`
   * with an empty message is falsy, so the dashboard shows the old rows instead.
   */
  lemma {:induction false} FailureView(o: SheetSource.Outcome)
    requires !o.Body?
    ensures o.NotOk? ==> SelectView(false, Some(SheetSource.FailureMessage(o))) == ErrorView(SheetSource.FETCH_FAILED)
    ensures o == SheetSource.Threw(SheetSource.ErrorObject("")) ==> SelectView(false, Some(SheetSource.FailureMessage(o))) == MainView
  {
  }

  /** The `isChatOpen` state cell with its two setters. */
  class ChatFlag {
    var isChatOpen: bool

    constructor ()
      ensures !isChatOpen
    {
      isChatOpen := false;
    }

    /** `onChatToggle={() => setIsChatOpen(!isChatOpen)}`. */
    method Toggle()
      modifies this
      ensures isChatOpen == !old(isChatOpen)
    {
      isChatOpen := !isChatOpen;
    }

    /** `onClose={() => setIsChatOpen(false)}`. */
    method Close()
      modifies this
      ensures !isChatOpen
    {
      isChatOpen := false;
    }
  }

  /** Toggling twice leaves the panel as it was. */
  method ToggleTwice(f: ChatFlag)
    modifies f
    ensures f.isChatOpen == old(f.isChatOpen)
  {
    f.Toggle();
    f.Toggle();
  }
}
