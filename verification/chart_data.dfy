/** The candle records of the career chart, the distinct year columns and
    the keys that identify each rendered candle. */
module ChartData {
  import opened Text

  datatype CandleKind = Up | Down

  /** One milestone: `intensity` drives the body length and `level`
      (0 is "Start", `MaxLevel` is "Moon") the vertical band. */
  datatype Candle = Candle(year: string, kind: CandleKind, intensity: real, level: real, title: string)

  const MaxLevel: real := 4.5

  const CandleData: seq<Candle> := [
    Candle("2020", Up, 26.0, 1.35, Titles[0]),
    Candle("2020", Down, 22.0, 1.35, Titles[1]),
    Candle("2021", Up, 32.0, 2.1, Titles[2]),
    Candle("2021", Down, 26.0, 2.1, Titles[3]),
    Candle("2022-23", Up, 40.0, 3.05, Titles[4]),
    Candle("2022-23", Down, 30.0, 3.05, Titles[5]),
    Candle("2024", Up, 52.0, 4.05, Titles[6]),
    Candle("2024", Down, 36.0, 4.05, Titles[7]),
    Candle("2025", Down, 30.0, 4.2, Titles[8]),
    Candle("2025", Up, 58.0, 4.2, Titles[9])
  ]

  /** The candles' titles, in the same order; display text only. */
  const Titles: seq<string> := [
    "Spark of curiosity",
    "Starting From Zero in a Tier-2 City",
    "First Real-World Exposure",
    "Too Many Paths, No Map",
    "Entering Web3 With Lumos Labs",
    "Bull Dreams, Bear Lessons",
    "Going Global with Capx AI",
    "New model everyday!!!!",
    "COVID",
    "deAI era with Aethir"
  ]

  /** Every level lies on the chart's scale. */
  ghost predicate LevelsInRange(data: seq<Candle>) {
    forall i :: 0 <= i < |data| ==> 0.0 <= data[i].level <= MaxLevel
  }

  /** The candles of one year sit on one band. */
  ghost predicate YearsShareLevel(data: seq<Candle>) {
    forall i, j :: 0 <= i < |data| && 0 <= j < |data| && data[i].year == data[j].year ==> data[i].level == data[j].level
  }

  /** Every intensity is positive and at most `bound`. */
  ghost predicate IntensitiesWithin(data: seq<Candle>, bound: real) {
    forall i :: 0 <= i < |data| ==> 0.0 < data[i].intensity <= bound
  }

  lemma CandleDataWellFormed()
    ensures LevelsInRange(CandleData)
    ensures YearsShareLevel(CandleData)
    ensures IntensitiesWithin(CandleData, 200.0)
  {
    forall i, j | 0 <= i < |CandleData| && 0 <= j < |CandleData| && CandleData[i].year == CandleData[j].year
      ensures CandleData[i].level == CandleData[j].level
    {
      assert i / 2 == j / 2;
    }
  }

  /** The years of `data`, in order, with repetitions. */
  function YearsOf(data: seq<Candle>): (r: seq<string>)
    ensures |r| == |data|
    ensures forall i :: 0 <= i < |data| ==> r[i] == data[i].year
  {
    if data == [] then [] else [data[0].year] + YearsOf(data[1..])
  }

  ghost predicate NoDuplicates(xs: seq<string>) {
    forall i, j :: 0 <= i < j < |xs| ==> xs[i] != xs[j]
  }

  /** `Array.from(new Set(xs))`: every value once, at the position of its
      first occurrence. */
  function Distinct(xs: seq<string>): seq<string> {
    if xs == [] then []
    else if xs[|xs| - 1] in xs[..|xs| - 1] then Distinct(xs[..|xs| - 1])
    else Distinct(xs[..|xs| - 1]) + [xs[|xs| - 1]]
  }

  /** The de-duplication keeps every value of `xs`, adds none, and repeats none. */
  lemma {:induction false} DistinctSpec(xs: seq<string>)
    ensures forall y :: y in Distinct(xs) <==> y in xs
    ensures NoDuplicates(Distinct(xs))
  {
    if xs != [] {
      var init := xs[..|xs| - 1];
      DistinctSpec(init);
      assert xs == init + [xs[|xs| - 1]];
    }
  }

  /** Where `x` first occurs in `xs`. */
  function FirstIndex(xs: seq<string>, x: string): (k: nat)
    requires x in xs
    ensures k < |xs| && xs[k] == x
    ensures forall q :: 0 <= q < k ==> xs[q] != x
  {
    if xs[0] == x then 0 else 1 + FirstIndex(xs[1..], x)
  }

  /** Appending a value leaves the first occurrence of an earlier one where it was. */
  lemma FirstIndexAppend(init: seq<string>, last: string, a: string)
    requires a in init
    ensures FirstIndex(init + [last], a) == FirstIndex(init, a)
  {
    var xs := init + [last];
    assert forall q :: 0 <= q < |init| ==> xs[q] == init[q];
  }

  /** The de-duplication lists the values in the order of their first
      occurrence in `xs`, as a `Set` iterates in insertion order. */
  lemma {:induction false} DistinctFirstOccurrence(xs: seq<string>, i: nat, j: nat)
    requires i < j < |Distinct(xs)|
    ensures Distinct(xs)[i] in xs && Distinct(xs)[j] in xs
    ensures FirstIndex(xs, Distinct(xs)[i]) < FirstIndex(xs, Distinct(xs)[j])
  {
    DistinctSpec(xs);
    var d := Distinct(xs);
    assert d[i] in d && d[j] in d;
    var init, last := xs[..|xs| - 1], xs[|xs| - 1];
    assert xs == init + [last];
    var di := Distinct(init);
    DistinctSpec(init);
    if j < |di| {
      assert d[i] == di[i] && d[j] == di[j];
      DistinctFirstOccurrence(init, i, j);
      FirstIndexAppend(init, last, d[i]);
      FirstIndexAppend(init, last, d[j]);
    } else {
      assert last !in init && d == di + [last] && d[j] == last;
      assert di[i] in di;
      FirstIndexAppend(init, last, d[i]);
      assert FirstIndex(init, d[i]) < |init|;
      assert FirstIndex(xs, last) == |init|;
    }
  }

  /** The chart's year columns: every year of `data`, each once. */
  function Years(data: seq<Candle>): (r: seq<string>)
    ensures forall y :: y in r <==> exists i :: 0 <= i < |data| && data[i].year == y
    ensures NoDuplicates(r)
  {
    var ys := YearsOf(data);
    assert forall y :: y in ys <==> exists i :: 0 <= i < |data| && data[i].year == y by {
      forall y ensures y in ys <==> exists i :: 0 <= i < |data| && data[i].year == y {
        if y in ys {
          var i :| 0 <= i < |ys| && ys[i] == y;
          assert data[i].year == y;
        }
      }
    }
    DistinctSpec(ys);
    Distinct(ys)
  }

  /** The year sequence of the dataset, candle by candle. */
  const CandleYearSeq: seq<string> :=
    ["2020", "2020", "2021", "2021", "2022-23", "2022-23", "2024", "2024", "2025", "2025"]

  /** The first three columns appear within the first five candles. */
  lemma DistinctCandleYearsHead(ys: seq<string>)
    requires ys == CandleYearSeq
    ensures Distinct(ys[..5]) == ["2020", "2021", "2022-23"]
  {
    assert Distinct(ys[..1]) == ["2020"];
    assert ys[..2][..1] == ys[..1];
    assert Distinct(ys[..2]) == ["2020"];
    assert ys[..3][..2] == ys[..2] && ys[2] !in ys[..2];
    assert Distinct(ys[..3]) == ["2020", "2021"];
    assert ys[..4][..3] == ys[..3] && ys[3] in ys[..3];
    assert Distinct(ys[..4]) == ["2020", "2021"];
    assert ys[..5][..4] == ys[..4] && ys[4] !in ys[..4];
  }

  /** The de-duplication of the dataset's year sequence, step by step. */
  lemma DistinctCandleYears(ys: seq<string>)
    requires ys == CandleYearSeq
    ensures Distinct(ys) == ["2020", "2021", "2022-23", "2024", "2025"]
  {
    DistinctCandleYearsHead(ys);
    assert ys[..6][..5] == ys[..5] && ys[5] in ys[..5];
    assert Distinct(ys[..6]) == ["2020", "2021", "2022-23"];
    assert ys[..7][..6] == ys[..6] && ys[6] !in ys[..6];
    assert Distinct(ys[..7]) == ["2020", "2021", "2022-23", "2024"];
    assert ys[..8][..7] == ys[..7] && ys[7] in ys[..7];
    assert Distinct(ys[..8]) == ["2020", "2021", "2022-23", "2024"];
    assert ys[..9][..8] == ys[..8] && ys[8] !in ys[..8];
    assert Distinct(ys[..9]) == ["2020", "2021", "2022-23", "2024", "2025"];
    assert ys[..9] == ys[..|ys| - 1] && ys[9] in ys[..9];
  }

  /** The candles' years, in order. */
  lemma CandleDataYearSeq()
    ensures YearsOf(CandleData) == CandleYearSeq
  {
    YearSeqOf(CandleData, YearsOf(CandleData));
  }

  lemma YearSeqOf(data: seq<Candle>, ys: seq<string>)
    requires data == CandleData && ys == YearsOf(data)
    ensures ys == CandleYearSeq
  {
    assert forall i :: 0 <= i < |data| ==> ys[i] == data[i].year;
    assert forall i :: 0 <= i < |data| ==> data[i].year == CandleYearSeq[i];
  }

  /** The dataset has five columns, in the order their years first appear. */
  lemma CandleDataYears()
    ensures Years(CandleData) == ["2020", "2021", "2022-23", "2024", "2025"]
  {
    CandleDataYearSeq();
    DistinctCandleYears(YearsOf(CandleData));
  }

  /** The candles of one column, `CANDLE_DATA.filter((d) => d.year === year)`. */
  function ItemsOf(data: seq<Candle>, year: string): (r: seq<Candle>)
    ensures |r| <= |data|
    ensures forall i :: 0 <= i < |r| ==> r[i].year == year && r[i] in data
    ensures forall c :: c in data && c.year == year ==> c in r
  {
    if data == [] then []
    else if data[0].year == year then [data[0]] + ItemsOf(data[1..], year)
    else ItemsOf(data[1..], year)
  }

  /** Filtering a concatenation filters each part. */
  lemma {:induction false} ItemsOfAppend(a: seq<Candle>, b: seq<Candle>, year: string)
    ensures ItemsOf(a + b, year) == ItemsOf(a, year) + ItemsOf(b, year)
    decreases |a|
  {
    if a == [] {
      assert a + b == b;
    } else {
      assert (a + b)[1..] == a[1..] + b;
      ItemsOfAppend(a[1..], b, year);
    }
  }

  /** A run without a candle of the year contributes nothing. */
  lemma {:induction false} ItemsOfNone(a: seq<Candle>, year: string)
    requires forall i :: 0 <= i < |a| ==> a[i].year != year
    ensures ItemsOf(a, year) == []
    decreases |a|
  {
    if a != [] {
      ItemsOfNone(a[1..], year);
    }
  }

  /** A run of candles all of the year is kept whole. */
  lemma {:induction false} ItemsOfAll(a: seq<Candle>, year: string)
    requires forall i :: 0 <= i < |a| ==> a[i].year == year
    ensures ItemsOf(a, year) == a
    decreases |a|
  {
    if a != [] {
      ItemsOfAll(a[1..], year);
      assert a == [a[0]] + a[1..];
    }
  }

  /** A column stored as the consecutive pair `data[2k]`, `data[2k+1]` is
      exactly that pair, in that order. */
  lemma ColumnAt(data: seq<Candle>, k: nat, year: string)
    requires 2 * k + 2 <= |data|
    requires data[2 * k].year == year && data[2 * k + 1].year == year
    requires forall i :: 0 <= i < |data| && (i < 2 * k || 2 * k + 2 <= i) ==> data[i].year != year
    ensures ItemsOf(data, year) == data[2 * k..2 * k + 2]
  {
    var pre, pair, post := data[..2 * k], data[2 * k..2 * k + 2], data[2 * k + 2..];
    var rest := pair + post;
    assert data == pre + rest;
    forall i | 0 <= i < |pre| ensures pre[i].year != year {
      assert pre[i] == data[i];
    }
    forall i | 0 <= i < |post| ensures post[i].year != year {
      assert post[i] == data[2 * k + 2 + i];
    }
    assert pair == [data[2 * k], data[2 * k + 1]];
    ItemsOfNone(pre, year);
    ItemsOfNone(post, year);
    ItemsOfAll(pair, year);
    ItemsOfAppend(pair, post, year);
    assert ItemsOf(rest, year) == pair;
    ItemsOfAppend(pre, rest, year);
  }

  /** The chart's columns, oldest first. */
  const ColumnYears: seq<string> := ["2020", "2021", "2022-23", "2024", "2025"]

  lemma ColumnYearsDistinct()
    ensures NoDuplicates(ColumnYears)
  {
  }

  /** Entry `i` of the year sequence is column `i / 2`. */
  lemma YearSeqByColumn(ys: seq<string>)
    requires ys == CandleYearSeq
    ensures forall i :: 0 <= i < |ys| ==> ys[i] == ColumnYears[i / 2]
  {
    forall i | 0 <= i < |ys| ensures ys[i] == ColumnYears[i / 2] {
      if i < 5 {
        assert i / 2 == 0 || i / 2 == 1 || i / 2 == 2;
      } else {
        assert i / 2 == 2 || i / 2 == 3 || i / 2 == 4;
      }
    }
  }

  /** Candle `i` of the dataset belongs to column `i / 2`. */
  lemma CandleYearsByColumn()
    ensures forall i :: 0 <= i < |CandleData| ==> CandleData[i].year == ColumnYears[i / 2]
  {
    CandleDataYearSeq();
    YearSeqByColumn(YearsOf(CandleData));
  }

  /** The filter of column `k` of the chart's data is its `k`-th pair of
      candles, in the data's order. */
  lemma CandleDataColumn(k: nat)
    requires k < |ColumnYears|
    ensures ItemsOf(CandleData, ColumnYears[k]) == CandleData[2 * k..2 * k + 2]
  {
    CandleYearsByColumn();
    ColumnYearsDistinct();
    forall i | 0 <= i < |CandleData| && (i < 2 * k || 2 * k + 2 <= i)
      ensures CandleData[i].year != ColumnYears[k]
    {
      assert i / 2 != k;
    }
    ColumnAt(CandleData, k, ColumnYears[k]);
  }

  function KindName(k: CandleKind): string {
    match k
    case Up => "up"
    case Down => "down"
  }

  /** The React key of the `j`-th candle of its column: `${year}-${type}-${j}`. */
  function CandleKey(c: Candle, j: nat): string {
    c.year + "-" + KindName(c.kind) + "-" + NatToString(j)
  }

  /** A key names one slot: its year, its direction and its place in the column. */
  lemma CandleKeyInjective(c1: Candle, j1: nat, c2: Candle, j2: nat)
    requires CandleKey(c1, j1) == CandleKey(c2, j2)
    ensures c1.year == c2.year && c1.kind == c2.kind && j1 == j2
  {
    var q1, q2 := c1.year + "-" + KindName(c1.kind), c2.year + "-" + KindName(c2.kind);
    DashNumberInjective(q1, j1, q2, j2);
    assert q1[|q1| - 1] == KindName(c1.kind)[|KindName(c1.kind)| - 1];
    assert q2[|q2| - 1] == KindName(c2.kind)[|KindName(c2.kind)| - 1];
    assert c1.kind == c2.kind;
    assert c1.year == q1[..|c1.year|];
    assert c2.year == q2[..|c2.year|];
  }

  /** The keys of one column as drawn: `items.map((c, j) => ...)` gives the
      `j`-th candle of the column the key with `j`. */
  function ColumnKeys(data: seq<Candle>, year: string): (keys: seq<string>)
    ensures |keys| == |ItemsOf(data, year)|
  {
    var items := ItemsOf(data, year);
    seq(|items|, j requires 0 <= j < |items| => CandleKey(items[j], j))
  }

  /** The keys of one column are pairwise distinct, whatever the data: two
      candles of a column never share a React key. */
  lemma ColumnKeysDistinct(data: seq<Candle>, year: string)
    ensures var keys := ColumnKeys(data, year);
      forall i, j :: 0 <= i < j < |keys| ==> keys[i] != keys[j]
  {
    var items := ItemsOf(data, year);
    var keys := ColumnKeys(data, year);
    forall i, j | 0 <= i < j < |keys| ensures keys[i] != keys[j] {
      if keys[i] == keys[j] {
        assert keys[i] == CandleKey(items[i], i) && keys[j] == CandleKey(items[j], j);
        CandleKeyInjective(items[i], i, items[j], j);
      }
    }
  }

  /** The newest column: its falling candle comes first, so it is keyed 0. */
  lemma NewestColumnKeys(data: seq<Candle>, year: string, k: nat)
    requires data == CandleData && year == "2025" && k == 4
    ensures ColumnKeys(data, year) == ["2025-down-0", "2025-up-1"]
  {
    NewestColumnSlots(data, year, k);
    NewestCandles(data);
    NewestKeys(data[8], data[9]);
  }

  lemma NewestColumnSlots(data: seq<Candle>, year: string, k: nat)
    requires data == CandleData && year == "2025" && k == 4
    ensures ColumnKeys(data, year) == [CandleKey(data[8], 0), CandleKey(data[9], 1)]
  {
    CandleDataColumn(k);
    assert ColumnYears[k] == year;
    PairKeys(data, year, 8);
  }

  lemma NewestCandles(data: seq<Candle>)
    requires data == CandleData
    ensures data[8].year == "2025" && data[8].kind == Down
    ensures data[9].year == "2025" && data[9].kind == Up
  {
  }

  /** The keys of a 2025 falling candle at place 0 and rising one at place 1. */
  lemma NewestKeys(a: Candle, b: Candle)
    requires a.year == "2025" && a.kind == Down && b.year == "2025" && b.kind == Up
    ensures [CandleKey(a, 0), CandleKey(b, 1)] == ["2025-down-0", "2025-up-1"]
  {
    assert CandleKey(a, 0) == "2025-down-0";
    assert CandleKey(b, 1) == "2025-up-1";
  }

  /** The keys of a two-candle column stored at `data[i]`, `data[i+1]`. */
  lemma PairKeys(data: seq<Candle>, year: string, i: nat)
    requires i + 2 <= |data| && ItemsOf(data, year) == data[i..i + 2]
    ensures ColumnKeys(data, year) == [CandleKey(data[i], 0), CandleKey(data[i + 1], 1)]
  {
  }
}
