/**
 * The readjustment bar chart: the records are grouped by year into an
 * individual and a collective series, one bar group per year, in
 * ascending order of year.
 */
module ReajusteChart {
  import opened Wrappers
  import opened Text
  import opened Sorting
  import opened ApiClient

  datatype ChartPoint = ChartPoint(ano: int, individual: Option<real>, coletivo: Option<real>)

  /** A record belongs to the individual series when its lower-cased type contains "individual". */
  predicate IsIndividual(r: Reajuste)
  {
    Contains(ToLower(r.tipoPlano), "individual")
  }

  /** The point after one record: the record's series takes its percentage. */
  function Apply(p: ChartPoint, r: Reajuste): ChartPoint
  {
    if IsIndividual(r) then p.(individual := Some(r.percentual)) else p.(coletivo := Some(r.percentual))
  }

  /** `acc[ano]`: the position of the year's point, or -1. */
  function Find(ps: seq<ChartPoint>, ano: int): (k: int)
    ensures -1 <= k < |ps|
    ensures k == -1 <==> forall i :: 0 <= i < |ps| ==> ps[i].ano != ano
    ensures k >= 0 ==> ps[k].ano == ano
  {
    if ps == [] then -1
    else if ps[|ps| - 1].ano == ano then |ps| - 1
    else Find(ps[..|ps| - 1], ano)
  }

  /** One step of the reduce: create the year's point when missing, then apply the record to it. */
  function Record(ps: seq<ChartPoint>, r: Reajuste): seq<ChartPoint>
  {
    var k := Find(ps, r.ano);
    if k >= 0 then ps[k := Apply(ps[k], r)]
    else ps + [Apply(ChartPoint(r.ano, None, None), r)]
  }

  /** The grouped points, in the order their years first appear. */
  function Group(data: seq<Reajuste>): seq<ChartPoint>
  {
    if data == [] then [] else Record(Group(data[..|data| - 1]), data[|data| - 1])
  }

  /** The comparator `(a, b) => a.ano - b.ano`. */
  predicate ByYear(a: ChartPoint, b: ChartPoint)
  {
    a.ano <= b.ano
  }

  /** The percentage of the last record of that year and series, if any. */
  function LastOf(data: seq<Reajuste>, ano: int, individual: bool): Option<real>
  {
    if data == [] then None
    else
      var r := data[|data| - 1];
      if r.ano == ano && IsIndividual(r) == individual then Some(r.percentual)
      else LastOf(data[..|data| - 1], ano, individual)
  }

  function Years(ps: seq<ChartPoint>): set<int>
  {
    set p | p in ps :: p.ano
  }

  function DataYears(data: seq<Reajuste>): set<int>
  {
    set r | r in data :: r.ano
  }

  predicate OnePerYear(ps: seq<ChartPoint>)
  {
    forall i, j :: 0 <= i < j < |ps| ==> ps[i].ano != ps[j].ano
  }

  /** Each point holds, per series, the last record of its year. */
  predicate Holds(ps: seq<ChartPoint>, data: seq<Reajuste>)
  {
    forall p :: p in ps ==> p.individual == LastOf(data, p.ano, true) && p.coletivo == LastOf(data, p.ano, false)
  }

  lemma {:induction false} LastOfAbsent(data: seq<Reajuste>, ano: int, individual: bool)
    requires ano !in DataYears(data)
    ensures LastOf(data, ano, individual) == None
    decreases |data|
  {
    if data != [] {
      assert data[|data| - 1] in data;
      var init := data[..|data| - 1];
      assert forall r :: r in init ==> r in data;
      LastOfAbsent(init, ano, individual);
    }
  }

  lemma DataYearsStep(data: seq<Reajuste>)
    requires data != []
    ensures DataYears(data) == DataYears(data[..|data| - 1]) + {data[|data| - 1].ano}
  {
    assert data == data[..|data| - 1] + [data[|data| - 1]];
  }

  /**
   * The grouping has one point per year of the input, and each point
   * carries the last individual and the last collective record of its
   * year (absent when there is none).
   */
  lemma {:induction false} GroupFacts(data: seq<Reajuste>)
    ensures OnePerYear(Group(data))
    ensures Years(Group(data)) == DataYears(data)
    ensures Holds(Group(data), data)
    decreases |data|
  {
    if data != [] {
      var init := data[..|data| - 1];
      GroupFacts(init);
      DataYearsStep(data);
      if Find(Group(init), data[|data| - 1].ano) >= 0 {
        RecordExisting(init, data);
      } else {
        RecordNew(init, data);
      }
    }
  }

  /** Replacing a point by one of the same year keeps the years. */
  lemma UpdateSameYear(ps: seq<ChartPoint>, k: nat, v: ChartPoint)
    requires k < |ps| && v.ano == ps[k].ano
    ensures Years(ps[k := v]) == Years(ps)
    ensures OnePerYear(ps) ==> OnePerYear(ps[k := v])
  {
    var qs := ps[k := v];
    forall y | y in Years(qs) ensures y in Years(ps) {
      var p :| p in qs && p.ano == y;
      var i :| 0 <= i < |qs| && qs[i] == p;
      assert ps[i] in ps;
    }
    forall y | y in Years(ps) ensures y in Years(qs) {
      var p :| p in ps && p.ano == y;
      var i :| 0 <= i < |ps| && ps[i] == p;
      assert qs[i] in qs;
    }
  }

  /** A record of a year already grouped updates that year's point only. */
  lemma RecordExisting(init: seq<Reajuste>, data: seq<Reajuste>)
    requires data != [] && init == data[..|data| - 1]
    requires OnePerYear(Group(init)) && Years(Group(init)) == DataYears(init) && Holds(Group(init), init)
    requires Find(Group(init), data[|data| - 1].ano) >= 0
    ensures OnePerYear(Group(data)) && Years(Group(data)) == Years(Group(init)) && Holds(Group(data), data)
  {
    var r := data[|data| - 1];
    var ps := Group(init);
    var k := Find(ps, r.ano);
    var qs := Group(data);
    assert qs == ps[k := Apply(ps[k], r)];
    UpdateSameYear(ps, k, Apply(ps[k], r));
    forall p | p in qs
      ensures p.individual == LastOf(data, p.ano, true) && p.coletivo == LastOf(data, p.ano, false)
    {
      var i :| 0 <= i < |qs| && qs[i] == p;
      if i != k {
        assert p == ps[i] && p.ano != r.ano;
        assert ps[i] in ps;
      }
    }
  }

  /** Appending a point of a new year adds that year. */
  lemma AppendNewYear(ps: seq<ChartPoint>, v: ChartPoint)
    requires v.ano !in Years(ps)
    ensures Years(ps + [v]) == Years(ps) + {v.ano}
    ensures OnePerYear(ps) ==> OnePerYear(ps + [v])
  {
    var qs := ps + [v];
    assert forall i :: 0 <= i < |ps| ==> qs[i] == ps[i] && ps[i] in ps;
    assert qs[|ps|] == v;
  }

  /** A record of a new year appends that year's point. */
  lemma RecordNew(init: seq<Reajuste>, data: seq<Reajuste>)
    requires data != [] && init == data[..|data| - 1]
    requires OnePerYear(Group(init)) && Years(Group(init)) == DataYears(init) && Holds(Group(init), init)
    requires Find(Group(init), data[|data| - 1].ano) < 0
    ensures OnePerYear(Group(data)) && Years(Group(data)) == Years(Group(init)) + {data[|data| - 1].ano}
    ensures Holds(Group(data), data)
  {
    var r := data[|data| - 1];
    var ps := Group(init);
    var qs := Group(data);
    assert r.ano !in Years(ps) by {
      forall p | p in ps ensures p.ano != r.ano {
        var i :| 0 <= i < |ps| && ps[i] == p;
      }
    }
    LastOfAbsent(init, r.ano, true);
    LastOfAbsent(init, r.ano, false);
    assert qs == ps + [Apply(ChartPoint(r.ano, None, None), r)];
    AppendNewYear(ps, Apply(ChartPoint(r.ano, None, None), r));
    forall p | p in qs
      ensures p.individual == LastOf(data, p.ano, true) && p.coletivo == LastOf(data, p.ano, false)
    {
      var i :| 0 <= i < |qs| && qs[i] == p;
      if i < |ps| {
        assert p == ps[i] && p.ano in Years(ps);
      }
    }
  }

  lemma {:induction false} NoEquivalent(s: seq<ChartPoint>, k: ChartPoint)
    requires forall i :: 0 <= i < |s| ==> s[i].ano != k.ano
    ensures EquivalentTo(s, ByYear, k) == []
    decreases |s|
  {
    if s != [] {
      NoEquivalent(s[..|s| - 1], k);
    }
  }

  /** With one point per year, at most one point shares a year with any given point. */
  lemma {:induction false} OnePerYearEquivalent(s: seq<ChartPoint>, k: ChartPoint)
    requires OnePerYear(s)
    ensures |EquivalentTo(s, ByYear, k)| <= 1
    decreases |s|
  {
    if s != [] {
      var init := s[..|s| - 1];
      OnePerYearEquivalent(init, k);
      if s[|s| - 1].ano == k.ano {
        NoEquivalent(init, k);
      }
    }
  }

  lemma {:induction false} EquivalentPrefix(s: seq<ChartPoint>, m: nat, n: nat, k: ChartPoint)
    requires m <= n <= |s|
    ensures |EquivalentTo(s[..m], ByYear, k)| <= |EquivalentTo(s[..n], ByYear, k)|
    ensures m < n && s[m].ano == k.ano ==> |EquivalentTo(s[..m], ByYear, k)| < |EquivalentTo(s[..n], ByYear, k)|
    decreases n - m
  {
    if m < n {
      EquivalentPrefix(s, m + 1, n, k);
      assert s[..m + 1][..m] == s[..m];
    }
  }

  /** Two points sharing a year make two equivalents. */
  lemma SharedYear(s: seq<ChartPoint>, i: nat, j: nat)
    requires i < j < |s| && s[i].ano == s[j].ano
    ensures |EquivalentTo(s, ByYear, s[i])| >= 2
  {
    EquivalentPrefix(s, 0, i, s[i]);
    EquivalentPrefix(s, i, j, s[i]);
    EquivalentPrefix(s, j, |s|, s[i]);
    assert s[..|s|] == s;
  }

  /** The chart data: the grouped points sorted by year. */
  function ChartData(data: seq<Reajuste>): seq<ChartPoint>
  {
    SortBy(Group(data), ByYear)
  }

  /** Sorting one point per year by year gives strictly ascending years. */
  lemma SortedStrictly(g: seq<ChartPoint>, pts: seq<ChartPoint>)
    requires OnePerYear(g) && pts == SortBy(g, ByYear)
    ensures forall i, j :: 0 <= i < j < |pts| ==> pts[i].ano < pts[j].ano
  {
    assert TotalPreorder(ByYear);
    SortBySorted(g, ByYear);
    forall i, j | 0 <= i < j < |pts| ensures pts[i].ano < pts[j].ano {
      assert ByYear(pts[i], pts[j]);
      if pts[i].ano == pts[j].ano {
        SharedYear(pts, i, j);
        SortByStable(g, ByYear, pts[i]);
        OnePerYearEquivalent(g, pts[i]);
        assert false;
      }
    }
  }

  /** Sorting keeps the same points. */
  lemma SortedSamePoints(g: seq<ChartPoint>)
    ensures forall p :: p in SortBy(g, ByYear) <==> p in g
  {
    SortByPermutes(g, ByYear);
    var pts := SortBy(g, ByYear);
    forall p ensures p in pts <==> p in g {
      assert p in pts <==> p in multiset(pts);
    }
  }

  /** Two sequences holding the same points have the same years. */
  lemma SamePointsYears(a: seq<ChartPoint>, b: seq<ChartPoint>)
    requires forall p :: p in a <==> p in b
    ensures Years(a) == Years(b)
  {
  }

  /** Two sequences holding the same points hold the same records. */
  lemma SamePointsHold(a: seq<ChartPoint>, b: seq<ChartPoint>, data: seq<Reajuste>)
    requires forall p :: p in a <==> p in b
    requires Holds(b, data)
    ensures Holds(a, data)
  {
  }

  /**
   * The chart has exactly one point per distinct year of the input, in
   * strictly ascending order of year, each holding per series the last
   * record of its year; it is empty exactly when the input is.
   */
  lemma ChartDataFacts(data: seq<Reajuste>)
    ensures forall i, j :: 0 <= i < j < |ChartData(data)| ==> ChartData(data)[i].ano < ChartData(data)[j].ano
    ensures Years(ChartData(data)) == DataYears(data)
    ensures Holds(ChartData(data), data)
    ensures ChartData(data) == [] <==> data == []
  {
    var g := Group(data);
    var pts := ChartData(data);
    assert pts == SortBy(g, ByYear);
    GroupFacts(data);
    SortedStrictly(g, pts);
    SortedSamePoints(g);
    SamePointsYears(pts, g);
    SamePointsHold(pts, g, data);
    if data != [] {
      assert data[0] in data;
      assert data[0].ano in Years(pts);
    }
  }

  /**
   * The reduce and sort of the component: the records are folded into
   * points in input order, then sorted by year.
   */
  method BuildChartData(data: seq<Reajuste>) returns (points: seq<ChartPoint>)
    ensures points == ChartData(data)
  {
    var grouped: seq<ChartPoint> := [];
    for i := 0 to |data|
      invariant grouped == Group(data[..i])
    {
      var r := data[i];
      var k := Find(grouped, r.ano);
      if k < 0 {
        grouped := grouped + [ChartPoint(r.ano, None, None)];
        k := |grouped| - 1;
      }
      grouped := grouped[k := Apply(grouped[k], r)];
      assert data[..i + 1][..i] == data[..i];
    }
    assert data[..|data|] == data;
    points := SortBy(grouped, ByYear);
  }

  /** What the component renders: the placeholder, or the bars with the ANS ceiling line when given. */
  datatype ChartView = NoData | Bars(points: seq<ChartPoint>, ceiling: Option<real>)

  function View(data: seq<Reajuste>, tetoAns: Option<real>): ChartView
  {
    var pts := ChartData(data);
    if pts == [] then NoData else Bars(pts, tetoAns)
  }

  /** The placeholder shows exactly for an empty input, and the ceiling line exactly when a ceiling is given. */
  lemma ViewFacts(data: seq<Reajuste>, tetoAns: Option<real>)
    ensures View(data, tetoAns).NoData? <==> data == []
    ensures View(data, tetoAns).Bars? ==> View(data, tetoAns).ceiling == tetoAns
  {
    ChartDataFacts(data);
  }
}
