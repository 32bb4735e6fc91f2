/** `get_pagination_links`: the listing-page URLs collected from the numbered
    pagination anchors. The HTML selection is replaced by the `href`
    attribute of each selected anchor, None when the anchor has none. */
module Pagination {
  import opened Text
  import opened Collect
  import opened Url

  /** urljoin(BaseUrl, '/parliament/national_assembly/'): the page the
      function puts first, whatever category is being scraped (see
      Url.NationalAssemblyJoined). */
  const NationalAssemblyUrl: string := "https://mzalendo.com/parliament/national_assembly/"

  /** The absolute URLs of the anchors that carry an href, in page order. */
  function Collected(hrefs: seq<Option<string>>): (r: seq<string>)
    ensures |r| <= |hrefs|
    decreases |hrefs|
  {
    if |hrefs| == 0 then []
    else
      var last := hrefs[|hrefs| - 1];
      Collected(hrefs[..|hrefs| - 1]) + (if last.Some? then [UrlJoin(last.value)] else [])
  }

  /** `any('page=1' in url for url in page_urls)` */
  predicate HasPageOne(urls: seq<string>) {
    exists j :: 0 <= j < |urls| && Contains(urls[j], "page=1")
  }

  /** The loop over the numbered anchors. */
  method CollectPageUrls(hrefs: seq<Option<string>>) returns (pageUrls: seq<string>)
    ensures pageUrls == Collected(hrefs)
  {
    pageUrls := [];
    var i := 0;
    while i < |hrefs|
      invariant 0 <= i <= |hrefs|
      invariant pageUrls == Collected(hrefs[..i])
    {
      if hrefs[i].Some? {
        pageUrls := pageUrls + [UrlJoin(hrefs[i].value)];
      }
      assert hrefs[..i + 1][..i] == hrefs[..i];
      i := i + 1;
    }
    assert hrefs[..i] == hrefs;
  }

  /** `any('page=1' in url for url in page_urls)`, stopping at the first hit. */
  method AnyPageOne(pageUrls: seq<string>) returns (found: bool)
    ensures found <==> HasPageOne(pageUrls)
  {
    found := false;
    var k := 0;
    while k < |pageUrls| && !found
      invariant 0 <= k <= |pageUrls|
      invariant found <==> exists j :: 0 <= j < k && Contains(pageUrls[j], "page=1")
    {
      found := Contains(pageUrls[k], "page=1");
      k := k + 1;
    }
  }

  /** `seen = set(); [x for x in page_urls if not (x in seen or seen.add(x))]` */
  method DedupUrls(pageUrls: seq<string>) returns (out: seq<string>)
    ensures out == Dedup(pageUrls)
  {
    var seen: set<string> := {};
    out := [];
    var m := 0;
    while m < |pageUrls|
      invariant 0 <= m <= |pageUrls|
      invariant out == Dedup(pageUrls[..m])
      invariant forall x :: x in seen <==> x in out
    {
      var x := pageUrls[m];
      DedupSnoc(pageUrls[..m], x);
      assert pageUrls[..m + 1] == pageUrls[..m] + [x];
      if x !in seen {
        seen := seen + {x};
        out := out + [x];
      }
      m := m + 1;
    }
    assert pageUrls[..m] == pageUrls;
  }

  /** `get_pagination_links(html)` as written: the `return` sits inside the
      `if`, so a link to page 1 makes the function return None; otherwise
      the national-assembly URL is put first and duplicates are dropped,
      keeping first occurrences. */
  method GetPaginationLinks(hrefs: seq<Option<string>>) returns (r: Option<seq<string>>)
    ensures r.None? <==> HasPageOne(Collected(hrefs))
    ensures r.Some? ==> r.value == Dedup([NationalAssemblyUrl] + Collected(hrefs))
  {
    var pageUrls := CollectPageUrls(hrefs);
    var found := AnyPageOne(pageUrls);
    if found {
      return None;
    }
    pageUrls := [NationalAssemblyUrl] + pageUrls;
    var out := DedupUrls(pageUrls);
    r := Some(out);
  }

  /** When the function returns a list, it starts with the national-assembly
      URL, holds every collected URL and nothing else, and holds none twice. */
  lemma PaginationListShape(hrefs: seq<Option<string>>)
    ensures var r := Dedup([NationalAssemblyUrl] + Collected(hrefs));
      && |r| > 0 && r[0] == NationalAssemblyUrl
      && Distinct(r)
      && (forall u :: u in Collected(hrefs) ==> u in r)
      && (forall u :: u in r ==> u == NationalAssemblyUrl || u in Collected(hrefs))
  {
    var s := [NationalAssemblyUrl] + Collected(hrefs);
    DedupHead(NationalAssemblyUrl, Collected(hrefs));
    DedupDistinct(s);
    forall u | u in Collected(hrefs) ensures u in Dedup(s) {
      DedupElements(s, u);
    }
    forall u | u in Dedup(s) ensures u == NationalAssemblyUrl || u in Collected(hrefs) {
      DedupElements(s, u);
    }
  }

  /** A page without numbered links still yields the national-assembly URL. */
  lemma NoLinksGiveFirstPageOnly()
    ensures !HasPageOne(Collected([]))
    ensures Dedup([NationalAssemblyUrl] + Collected([])) == [NationalAssemblyUrl]
  {
    assert [NationalAssemblyUrl] + Collected([]) == [NationalAssemblyUrl];
    assert Dedup([NationalAssemblyUrl]) == Dedup([NationalAssemblyUrl][..0]) + [NationalAssemblyUrl];
  }

  lemma PageLinkText()
    ensures BaseUrl + "?page=1" == "https://mzalendo.com?page=1"
    ensures BaseUrl + "?page=2" == "https://mzalendo.com?page=2"
  {
  }

  /** A relative link to page 1 next to a link to page 2 makes the function
      as written return None, so the caller's loop over the result fails. */
  lemma PageOneLinkDropsEveryPage()
    ensures Collected([Some("?page=1"), Some("?page=2")]) ==
            ["https://mzalendo.com?page=1", "https://mzalendo.com?page=2"]
    ensures HasPageOne(Collected([Some("?page=1"), Some("?page=2")]))
  {
    PageLinksCollected();
    PageOneLinkFound(["https://mzalendo.com?page=1", "https://mzalendo.com?page=2"]);
  }

  lemma PageOneLinkFound(urls: seq<string>)
    requires |urls| > 0 && urls[0] == "https://mzalendo.com?page=1"
    ensures HasPageOne(urls)
  {
    var u := urls[0];
    assert u[21..27] == "page=1";
    ContainsAt(u, "page=1", 21);
  }

  lemma PageLinksCollected()
    ensures Collected([Some("?page=1"), Some("?page=2")]) ==
            ["https://mzalendo.com?page=1", "https://mzalendo.com?page=2"]
  {
    var hs := [Some("?page=1"), Some("?page=2")];
    assert hs[..1] == [Some("?page=1")];
    assert hs[..1][..0] == [];
    PageLinksJoined();
    assert Collected(hs[..1]) == ["https://mzalendo.com?page=1"];
  }

  lemma PageLinksJoined()
    ensures UrlJoin("?page=1") == "https://mzalendo.com?page=1"
    ensures UrlJoin("?page=2") == "https://mzalendo.com?page=2"
  {
    assert "?" + "page=1" == "?page=1" && "?" + "page=2" == "?page=2";
    UrlJoinQuery("page=1");
    UrlJoinQuery("page=2");
    PageLinkText();
  }

  /** The evidently intended function: the national-assembly URL is put
      first only when no link already points at page 1, and the
      de-duplicated list is returned in both cases. */
  ghost function CorrectedPaginationLinks(hrefs: seq<Option<string>>): seq<string> {
    var urls := Collected(hrefs);
    Dedup(if HasPageOne(urls) then urls else [NationalAssemblyUrl] + urls)
  }

  /** The corrected function always yields a list holding every collected
      URL once, and agrees with the function as written wherever that one
      returns a list. */
  lemma CorrectedPaginationLinksSound(hrefs: seq<Option<string>>)
    ensures Distinct(CorrectedPaginationLinks(hrefs))
    ensures forall u :: u in Collected(hrefs) ==> u in CorrectedPaginationLinks(hrefs)
    ensures !HasPageOne(Collected(hrefs)) ==>
              CorrectedPaginationLinks(hrefs) == Dedup([NationalAssemblyUrl] + Collected(hrefs))
    ensures HasPageOne(Collected(hrefs)) ==>
              forall u :: u in CorrectedPaginationLinks(hrefs) ==> u in Collected(hrefs)
  {
    var urls := Collected(hrefs);
    var s := if HasPageOne(urls) then urls else [NationalAssemblyUrl] + urls;
    DedupDistinct(s);
    forall u | u in urls ensures u in Dedup(s) {
      DedupElements(s, u);
    }
    forall u | u in Dedup(s) && HasPageOne(urls) ensures u in urls {
      DedupElements(s, u);
    }
  }
}
