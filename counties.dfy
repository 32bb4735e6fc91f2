/** `generate_county_data`: the records grouped by their (truthy) county in
    the order counties are first seen, one file per county under its slug,
    and the summary of `{name, leaders_count}` per county. The file writes
    are replaced by the list of (slug, records) pairs they would write. */
module Counties {
  import opened Text
  import opened Collect
  import opened Records
  import opened Persistence

  /** The `counties` dictionary: county name to its records, in insertion order. */
  type Groups = seq<(string, seq<Leader>)>

  /** `'county' in leader and leader['county']` */
  predicate HasCounty(l: Leader) { Truthy(l.county) }

  /** The county of every record that has one, in record order, repeats included. */
  function CountyKeys(ls: seq<Leader>): (r: seq<string>)
    ensures |r| <= |ls|
    decreases |ls|
  {
    if |ls| == 0 then []
    else CountyKeys(ls[..|ls| - 1]) + (if HasCounty(ls[|ls| - 1]) then [ls[|ls| - 1].county.value] else [])
  }

  /** The records of county `c`, in record order. */
  function Members(ls: seq<Leader>, c: string): seq<Leader>
    decreases |ls|
  {
    if |ls| == 0 then []
    else
      var l := ls[|ls| - 1];
      Members(ls[..|ls| - 1], c) + (if HasCounty(l) && l.county.value == c then [l] else [])
  }

  /** `counties.keys()` */
  function Names(gs: Groups): (r: seq<string>)
    ensures |r| == |gs|
    decreases |gs|
  {
    if |gs| == 0 then [] else [gs[0].0] + Names(gs[1..])
  }

  /** `counties.get(c, [])` */
  function Lookup(gs: Groups, c: string): seq<Leader>
    decreases |gs|
  {
    if |gs| == 0 then [] else if gs[0].0 == c then gs[0].1 else Lookup(gs[1..], c)
  }

  /** `if county not in counties: counties[county] = []` then
      `counties[county].append(leader)`: a new county goes last. */
  function AddTo(gs: Groups, c: string, l: Leader): Groups
    decreases |gs|
  {
    if |gs| == 0 then [(c, [l])]
    else if gs[0].0 == c then [(c, gs[0].1 + [l])] + gs[1..]
    else [gs[0]] + AddTo(gs[1..], c, l)
  }

  /** The dictionary after the grouping loop. */
  function GroupsOf(ls: seq<Leader>): Groups
    decreases |ls|
  {
    if |ls| == 0 then []
    else
      var gs := GroupsOf(ls[..|ls| - 1]);
      var l := ls[|ls| - 1];
      if HasCounty(l) then AddTo(gs, l.county.value, l) else gs
  }

  /** `[{"name": county, "leaders_count": len(leaders)} for county, leaders in counties.items()]` */
  function Summary(gs: Groups): (r: Counter)
    ensures |r| == |gs|
    decreases |gs|
  {
    if |gs| == 0 then [] else [(gs[0].0, |gs[0].1|)] + Summary(gs[1..])
  }

  /** `generate_county_data(all_leaders)`: the grouping loop, then one file
      `counties/<slug>.json` per county with its records, then the summary. */
  method GenerateCountyData(allLeaders: seq<Leader>) returns (files: seq<(string, seq<Leader>)>, summary: Counter)
    ensures |files| == |GroupsOf(allLeaders)|
    ensures forall k :: 0 <= k < |files| ==>
              files[k] == (CountySlug(GroupsOf(allLeaders)[k].0), GroupsOf(allLeaders)[k].1)
    ensures summary == Summary(GroupsOf(allLeaders))
  {
    var counties: Groups := [];
    var i := 0;
    while i < |allLeaders|
      invariant 0 <= i <= |allLeaders|
      invariant counties == GroupsOf(allLeaders[..i])
    {
      assert allLeaders[..i + 1][..i] == allLeaders[..i];
      var leader := allLeaders[i];
      if leader.county.Some? && leader.county.value != "" {
        counties := AddTo(counties, leader.county.value, leader);
      }
      i := i + 1;
    }
    assert allLeaders[..i] == allLeaders;

    files := [];
    var k := 0;
    while k < |counties|
      invariant 0 <= k <= |counties|
      invariant |files| == k
      invariant forall j :: 0 <= j < k ==> files[j] == (CountySlug(counties[j].0), counties[j].1)
    {
      var (county, leaders) := counties[k];
      var safeCounty := CountySlug(county);
      files := files + [(safeCounty, leaders)];
      k := k + 1;
    }
    summary := Summary(counties);
  }

  lemma {:induction false} AddToNames(gs: Groups, c: string, l: Leader)
    ensures Names(AddTo(gs, c, l)) == if c in Names(gs) then Names(gs) else Names(gs) + [c]
    decreases |gs|
  {
    if |gs| > 0 && gs[0].0 != c {
      AddToNames(gs[1..], c, l);
      assert AddTo(gs, c, l)[1..] == AddTo(gs[1..], c, l);
    } else if |gs| > 0 {
      assert AddTo(gs, c, l)[1..] == gs[1..];
    }
  }

  lemma {:induction false} AddToLookup(gs: Groups, c: string, l: Leader, j: string)
    ensures Lookup(AddTo(gs, c, l), j) == Lookup(gs, j) + (if j == c then [l] else [])
    decreases |gs|
  {
    if |gs| > 0 && gs[0].0 != c {
      AddToLookup(gs[1..], c, l, j);
      assert AddTo(gs, c, l)[1..] == AddTo(gs[1..], c, l);
    } else if |gs| > 0 {
      assert AddTo(gs, c, l)[1..] == gs[1..];
    }
  }

  lemma {:induction false} AddToSummary(gs: Groups, c: string, l: Leader)
    ensures Summary(AddTo(gs, c, l)) == Inc(Summary(gs), c)
    decreases |gs|
  {
    if |gs| > 0 && gs[0].0 != c {
      AddToSummary(gs[1..], c, l);
      assert AddTo(gs, c, l)[1..] == AddTo(gs[1..], c, l);
    } else if |gs| > 0 {
      assert AddTo(gs, c, l)[1..] == gs[1..];
    }
  }

  /** The grouping loop builds a dictionary whose keys are the counties in
      first-seen order, whose entry for each county is the list of its
      records in record order, and whose summary counts equal a counter of
      the counties. */
  lemma {:induction false} GroupsOfSpec(ls: seq<Leader>)
    ensures Names(GroupsOf(ls)) == Dedup(CountyKeys(ls))
    ensures forall c :: Lookup(GroupsOf(ls), c) == Members(ls, c)
    ensures Summary(GroupsOf(ls)) == IncAll([], CountyKeys(ls))
    decreases |ls|
  {
    if |ls| > 0 {
      var init, l := ls[..|ls| - 1], ls[|ls| - 1];
      GroupsOfSpec(init);
      var gs := GroupsOf(init);
      if HasCounty(l) {
        var c := l.county.value;
        assert CountyKeys(ls) == CountyKeys(init) + [c];
        AddToNames(gs, c, l);
        DedupSnoc(CountyKeys(init), c);
        forall j ensures Lookup(GroupsOf(ls), j) == Members(ls, j) {
          AddToLookup(gs, c, l, j);
        }
        AddToSummary(gs, c, l);
      } else {
        assert CountyKeys(ls) == CountyKeys(init);
      }
    }
  }

  /** The entry of the `k`-th key is found by looking that key up. */
  lemma {:induction false} LookupAt(gs: Groups, k: nat)
    requires k < |gs| && Distinct(Names(gs))
    ensures Lookup(gs, gs[k].0) == gs[k].1
    decreases |gs|
  {
    assert Names(gs)[0] == gs[0].0;
    if k > 0 {
      assert Names(gs)[k] == gs[k].0 by {
        NamesAt(gs, k);
      }
      assert gs[0].0 != gs[k].0;
      assert Names(gs[1..]) == Names(gs)[1..];
      LookupAt(gs[1..], k - 1);
    }
  }

  lemma {:induction false} NamesAt(gs: Groups, k: nat)
    requires k < |gs|
    ensures Names(gs)[k] == gs[k].0
    decreases |gs|
  {
    if k > 0 {
      NamesAt(gs[1..], k - 1);
    }
  }

  /** What the files and the summary hold: file `k` is named by the slug of
      the `k`-th county first seen and holds exactly that county's records
      in record order; the counties are each named once and are the
      records' counties; the summary counts of a county equal the number of
      its records and add up to the number of records with a county. */
  lemma CountyDataSpec(ls: seq<Leader>)
    ensures var gs := GroupsOf(ls);
      Distinct(Names(gs)) &&
      (forall c :: c in Names(gs) <==> c in CountyKeys(ls)) &&
      (forall k :: 0 <= k < |gs| ==> gs[k].1 == Members(ls, gs[k].0)) &&
      (forall c :: Get(Summary(gs), c) == multiset(CountyKeys(ls))[c]) &&
      Total(Summary(gs)) == |CountyKeys(ls)|
  {
    var gs := GroupsOf(ls);
    GroupsOfSpec(ls);
    DedupDistinct(CountyKeys(ls));
    forall c ensures c in Names(gs) <==> c in CountyKeys(ls) {
      DedupElements(CountyKeys(ls), c);
    }
    forall k | 0 <= k < |gs| ensures gs[k].1 == Members(ls, gs[k].0) {
      LookupAt(gs, k);
    }
    forall c ensures Get(Summary(gs), c) == multiset(CountyKeys(ls))[c] {
      IncAllGet([], CountyKeys(ls), c);
    }
    IncAllTotal([], CountyKeys(ls));
  }

  /** A record without a truthy county is in no group. */
  lemma {:induction false} EmptyCountyInNoGroup(ls: seq<Leader>)
    ensures Members(ls, "") == []
    decreases |ls|
  {
    if |ls| > 0 {
      EmptyCountyInNoGroup(ls[..|ls| - 1]);
    }
  }
}
