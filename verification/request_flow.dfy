/** From the listing page to the upstream catalogue: the URL the products
    route fetches for the request the page writes. */
module RequestFlow {

  import opened Wrappers
  import opened Text
  import opened QueryString
  import opened Listing
  import opened ProductsRoute

  /** The route forwards the page's window: `limit=12` and the page's skip. */
  lemma PageWindowForwarded(req: PageRequest)
    requires req.page >= 1
    requires PlainValue(req.category)
    ensures ForwardedLimit(Parse(req.Query())) == "12"
    ensures ForwardedSkip(Parse(req.Query())) == NatToDecimal(req.Skip())
    ensures UpstreamQuery(Parse(req.Query())) == "?limit=12&skip=" + NatToDecimal(req.Skip())
  {
    var skip := NatToDecimal(req.Skip());
    ParseQuery(req);
    var ps := req.Params();
    assert ps == [("limit", "12"), ("skip", skip)] + ps[2..];
    UpstreamQueryOfWindow("12", skip, ps[2..]);
    WindowQueryText(skip);
  }

  lemma WindowQueryText(skip: string)
    ensures "?limit=" + "12" + "&skip=" + skip == "?limit=12&skip=" + skip
  {
    assert "?limit=" + "12" + "&skip=" == "?limit=12&skip=";
  }

  /** The route scopes to the page's category exactly when the page selected
      one other than "all" and it is not empty. */
  lemma PageCategoryScoped(req: PageRequest)
    requires req.page >= 1
    requires PlainValue(req.category)
    ensures ScopedCategory(Parse(req.Query()))
         == if req.category == "all" || req.category == "" then None else Some(req.category)
  {
    ParseQuery(req);
    var ps := req.Params();
    assert ps[0].0 != "category" by { assert ps[0].0[0] != "category"[0]; }
    assert ps[1].0 != "category" by { assert ps[1].0[0] != "category"[0]; }
    if req.category != "all" {
      assert Get(ps, "category") == Some(req.category);
    } else {
      assert Get(ps, "category") == None;
    }
  }

  /** The page's request for page `p` reaches the upstream catalogue as
      `limit=12&skip=(p-1)*12`, scoped to the selected category unless that is
      "all" or empty. */
  lemma PageRequestReachesUpstream(req: PageRequest)
    requires req.page >= 1
    requires PlainValue(req.category)
    ensures var tail := "?limit=12&skip=" + NatToDecimal(req.Skip());
            UpstreamUrl(Parse(req.Query()))
              == if req.category == "all" || req.category == ""
                 then Upstream + tail
                 else Upstream + CategorySegment + req.category + tail
  {
    PageWindowForwarded(req);
    PageCategoryScoped(req);
  }

  /** The upstream query carries the page's `limit` and `skip` unchanged. */
  lemma UpstreamSeesPageWindow(req: PageRequest)
    requires req.page >= 1
    requires PlainValue(req.category)
    ensures Parse(UpstreamQuery(Parse(req.Query()))[1..]) == [("limit", "12"), ("skip", NatToDecimal(req.Skip()))]
  {
    var skip := NatToDecimal(req.Skip());
    PageWindowForwarded(req);
    assert '&' !in skip by {
      forall k | 0 <= k < |skip| ensures skip[k] != '&' {
        assert IsDigit(skip[k]);
      }
    }
    ForwardedQueryReadsBack(Parse(req.Query()));
  }
}
