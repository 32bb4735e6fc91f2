/** `categorize_promise`: a case-insensitive keyword scan over the categories
    in their declared order; the first category with a keyword that occurs
    in the text wins, and "Other" is the fallback. */
module Classifier {
  import opened Text

  /** `categories_keywords` in declaration order (a Python dict keeps it). */
  const Categories: seq<(string, seq<string>)> := [
    ("Education", ["education", "school", "university", "college", "student", "learning"]),
    ("Healthcare", ["health", "hospital", "medical", "clinic", "doctor", "disease", "treatment"]),
    ("Infrastructure", ["road", "bridge", "building", "construction", "infrastructure"]),
    ("Water", ["water", "irrigation", "dam", "borehole", "pipeline"]),
    ("Agriculture", ["farm", "agriculture", "crop", "livestock", "cattle", "dairy"]),
    ("Economy", ["economy", "business", "enterprise", "job", "employment", "income"]),
    ("Security", ["security", "police", "crime", "safety"])
  ]

  const Fallback: string := "Other"

  /** Some keyword of category `k` occurs in the lower-cased text. */
  predicate Matches(k: nat, lowered: string)
    requires k < |Categories|
  {
    exists w :: 0 <= w < |Categories[k].1| && Contains(lowered, Categories[k].1[w])
  }

  /** The scan from category `k` on. */
  function FirstMatchFrom(k: nat, lowered: string): string
    requires k <= |Categories|
    decreases |Categories| - k
  {
    if k == |Categories| then Fallback
    else if Matches(k, lowered) then Categories[k].0
    else FirstMatchFrom(k + 1, lowered)
  }

  function CategorizePromise(text: string): string {
    FirstMatchFrom(0, Lower(text))
  }

  lemma CategoryNamesDistinct()
    ensures forall i, j :: 0 <= i < j < |Categories| ==> Categories[i].0 != Categories[j].0
    ensures forall i :: 0 <= i < |Categories| ==> Categories[i].0 != Fallback
  {
  }

  lemma {:induction false} FirstMatchFromRange(k: nat, lowered: string)
    requires k <= |Categories|
    ensures FirstMatchFrom(k, lowered) == Fallback ||
            exists j :: k <= j < |Categories| && FirstMatchFrom(k, lowered) == Categories[j].0
    decreases |Categories| - k
  {
    if k < |Categories| && !Matches(k, lowered) {
      FirstMatchFromRange(k + 1, lowered);
    }
  }

  lemma {:induction false} FirstMatchFromSpec(k: nat, lowered: string, c: nat)
    requires k <= c < |Categories|
    ensures FirstMatchFrom(k, lowered) == Categories[c].0 <==>
              Matches(c, lowered) && forall j :: k <= j < c ==> !Matches(j, lowered)
    decreases c - k
  {
    CategoryNamesDistinct();
    if k < c {
      FirstMatchFromSpec(k + 1, lowered, c);
    } else if !Matches(c, lowered) {
      FirstMatchFromRange(c + 1, lowered);
    }
  }

  lemma {:induction false} FirstMatchFromFallback(k: nat, lowered: string)
    requires k <= |Categories|
    ensures FirstMatchFrom(k, lowered) == Fallback <==>
              forall j :: k <= j < |Categories| ==> !Matches(j, lowered)
    decreases |Categories| - k
  {
    CategoryNamesDistinct();
    if k < |Categories| {
      FirstMatchFromFallback(k + 1, lowered);
    }
  }

  /** The category is the first one, in declared order, with a keyword in
      the lower-cased text; no other category can be returned. */
  lemma CategorizeIsFirstMatch(text: string, c: nat)
    requires c < |Categories|
    ensures CategorizePromise(text) == Categories[c].0 <==>
              Matches(c, Lower(text)) && forall j :: 0 <= j < c ==> !Matches(j, Lower(text))
  {
    FirstMatchFromSpec(0, Lower(text), c);
  }

  /** "Other" exactly when no keyword of any category occurs. */
  lemma CategorizeFallback(text: string)
    ensures CategorizePromise(text) == Fallback <==>
              forall j :: 0 <= j < |Categories| ==> !Matches(j, Lower(text))
  {
    FirstMatchFromFallback(0, Lower(text));
  }

  /** Every result is one of the declared categories or "Other". */
  lemma CategorizeRange(text: string)
    ensures CategorizePromise(text) == Fallback ||
            exists c :: 0 <= c < |Categories| && CategorizePromise(text) == Categories[c].0
  {
    FirstMatchFromRange(0, Lower(text));
  }

  /** Tie-break by declared order: "school" with "hospital" (or any other
      keyword) is Education, because Education is declared first. */
  lemma SchoolWinsOverHospital(text: string)
    requires Contains(Lower(text), "school")
    ensures CategorizePromise(text) == "Education"
  {
    assert Categories[0].1[1] == "school";
    assert Matches(0, Lower(text));
    CategorizeIsFirstMatch(text, 0);
  }

  /** Case does not matter: the scan only sees the lower-cased text. */
  lemma CategorizeIgnoresCase(a: string, b: string)
    requires Lower(a) == Lower(b)
    ensures CategorizePromise(a) == CategorizePromise(b)
  {
  }
}
