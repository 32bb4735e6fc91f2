/** `enrich_county_data`: fills in the county of a record from its
    constituency, using a fixed table, for records that have a constituency
    and no county. The records are updated in place (they are shared
    dictionaries) and also returned as a new list in the same order. */
module Enrichment {
  import opened Text
  import opened Records

  /** `constituency_county_map` */
  const CountyOfConstituency: map<string, string> := map[
    "Tarbaj" := "Wajir",
    "Lafey" := "Mandera",
    "Kamukunji" := "Nairobi",
    "Rongo" := "Migori",
    "Tigania East" := "Meru",
    "Wajir East" := "Wajir",
    "Wajir South" := "Wajir",
    "Bura" := "Tana River",
    "Lomas" := "Tana River",
    "Bomachoge Chache" := "Kisii",
    "Ijara" := "Garissa",
    "Nyali" := "Mombasa",
    "Rangwe" := "Homa Bay",
    "Turkana South" := "Turkana"
  ]

  /** The guard of the update: a truthy constituency, a falsy county and a
      constituency the table knows. */
  predicate Enrichable(l: Leader) {
    Truthy(l.constituency) && !Truthy(l.county) && l.constituency.value in CountyOfConstituency
  }

  /** One record after the loop body. */
  function EnrichOne(l: Leader): Leader {
    if Enrichable(l) then l.(county := Some(CountyOfConstituency[l.constituency.value])) else l
  }

  /** Every record after the loop, in the same order. */
  function EnrichAll(ls: seq<Leader>): (r: seq<Leader>)
    ensures |r| == |ls|
    decreases |ls|
  {
    if |ls| == 0 then [] else EnrichAll(ls[..|ls| - 1]) + [EnrichOne(ls[|ls| - 1])]
  }

  /** `enrich_county_data(politicians_data)`: the loop assigns `county` in
      the shared records and appends each of them to the returned list. */
  method EnrichCountyData(records: array<Leader>) returns (enriched: seq<Leader>)
    modifies records
    ensures records[..] == EnrichAll(old(records[..]))
    ensures enriched == records[..]
  {
    enriched := [];
    var i := 0;
    while i < records.Length
      invariant 0 <= i <= records.Length
      invariant records[..i] == EnrichAll(old(records[..])[..i])
      invariant forall k :: i <= k < records.Length ==> records[k] == old(records[k])
      invariant enriched == records[..i]
    {
      ghost var before := old(records[..]);
      assert before[..i + 1][..i] == before[..i];
      assert records[i] == before[i];
      ghost var prefix := records[..i];
      var politician := records[i];
      if politician.constituency.Some? && politician.constituency.value != ""
         && !Truthy(politician.county) {
        var constituency := politician.constituency.value;
        if constituency in CountyOfConstituency {
          records[i] := politician.(county := Some(CountyOfConstituency[constituency]));
        }
      }
      assert records[i] == EnrichOne(before[i]);
      assert records[..i] == prefix;
      enriched := enriched + [records[i]];
      assert records[..i + 1] == records[..i] + [records[i]];
      i := i + 1;
    }
    assert records[..i] == records[..];
    assert old(records[..])[..i] == old(records[..]);
  }

  /** The list keeps its length and order: record `k` of the result is
      record `k` of the input after the loop body. */
  lemma {:induction false} EnrichAllPointwise(ls: seq<Leader>, k: nat)
    requires k < |ls|
    ensures EnrichAll(ls)[k] == EnrichOne(ls[k])
    decreases |ls|
  {
    if k < |ls| - 1 {
      EnrichAllPointwise(ls[..|ls| - 1], k);
    }
  }

  /** A record gains a county (its county key changes) exactly when the
      guard holds, and then it is the table's county; no other key changes. */
  lemma EnrichOneSpec(l: Leader)
    ensures EnrichOne(l).county != l.county <==> Enrichable(l)
    ensures Enrichable(l) ==> EnrichOne(l).county == Some(CountyOfConstituency[l.constituency.value])
    ensures EnrichOne(l) == l.(county := EnrichOne(l).county)
  {
    if Enrichable(l) {
      assert CountyOfConstituency[l.constituency.value] != "";
    }
  }

  /** After enrichment a record has a truthy county exactly when it had
      one or its constituency is a table key. */
  lemma EnrichOneTruthy(l: Leader)
    ensures Truthy(EnrichOne(l).county) <==>
      (Truthy(l.county) || (Truthy(l.constituency) && l.constituency.value in CountyOfConstituency))
  {
    if Enrichable(l) {
      assert CountyOfConstituency[l.constituency.value] != "";
    }
  }

  /** Records that already have a county are left as they are. */
  lemma {:induction false} EnrichKeepsCounty(ls: seq<Leader>)
    requires forall k :: 0 <= k < |ls| ==> Truthy(ls[k].county)
    ensures EnrichAll(ls) == ls
  {
    forall k | 0 <= k < |ls| ensures EnrichAll(ls)[k] == ls[k] {
      EnrichAllPointwise(ls, k);
      assert !Enrichable(ls[k]);
    }
  }

  /** Enriching twice is enriching once. */
  lemma {:induction false} EnrichIdempotent(ls: seq<Leader>)
    ensures EnrichAll(EnrichAll(ls)) == EnrichAll(ls)
  {
    var r := EnrichAll(ls);
    forall k | 0 <= k < |ls| ensures EnrichAll(r)[k] == r[k] {
      EnrichAllPointwise(ls, k);
      EnrichAllPointwise(r, k);
      if Enrichable(ls[k]) {
        assert CountyOfConstituency[ls[k].constituency.value] != "";
      }
    }
  }

  /** A record for "Kamukunji" without a county is placed in Nairobi. */
  lemma KamukunjiIsNairobi(l: Leader, c: string)
    requires c == "Kamukunji" && l.constituency == Some(c) && l.county.None?
    ensures EnrichOne(l).county == Some("Nairobi")
  {
    assert c in CountyOfConstituency;
  }
}
