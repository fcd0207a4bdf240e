/**
 * The blog list: nine articles a page, each card with a reading-time
 * estimate and its tags, and page navigation in the query.
 */
module Blog {
  import opened Wrappers
  import opened Text
  import opened Numbers
  import opened UrlParams
  import opened Pagination

  /** `Math.max(1, Math.ceil(words / perMinute))`. */
  function ReadMinutes(words: nat, perMinute: nat): (r: int)
    requires perMinute > 0
    ensures r >= 1
    ensures words > 0 ==> (r - 1) * perMinute < words
    ensures words <= r * perMinute
  {
    var m := CeilDiv(words, perMinute);
    if m > 1 then m else 1
  }

  /** More words never take less time. */
  lemma ReadMinutesMonotone(a: nat, b: nat, perMinute: nat)
    requires perMinute > 0 && a <= b
    ensures ReadMinutes(a, perMinute) <= ReadMinutes(b, perMinute)
  {
    var ra := CeilDiv(a, perMinute);
    var rb := CeilDiv(b, perMinute);
    assert (ra - 1) * perMinute < rb * perMinute;
    if ra - 1 >= rb {
      ScaleMonotone(ra - 1, rb, perMinute);
    }
  }

  lemma ScaleMonotone(x: int, y: int, k: nat)
    requires x >= y
    ensures x * k >= y * k
  {
    assert x * k - y * k == (x - y) * k;
  }

  /** A card's reading time: the summary's white-space pieces at 40 a minute. */
  function EstimateReadTime(summary: string): int
  {
    ReadMinutes(|SplitSpaceRuns(summary)|, 40)
  }

  lemma EstimateReadTimeBounds(summary: string)
    ensures EstimateReadTime(summary) >= 1
    ensures |SplitSpaceRuns(summary)| <= 40 ==> EstimateReadTime(summary) == 1
  {
  }

  /** `goToPage(p)`: only `page` changes. */
  function GoToPage(params: Params, p: int): Params
  {
    Set(params, "page", IntToString(p))
  }

  lemma GoToPageFacts(params: Params, p: int, other: string)
    ensures PageParam(GoToPage(params, p)) == Some(p)
    ensures other != "page" ==> Get(GoToPage(params, p), other) == Get(params, other)
  {
    PageParamDefault(params, p);
    if other != "page" {
      SetGetOther(params, "page", IntToString(p), other);
    }
  }

  /** A page of the blog list: each article's summary and tags, and the page count. */
  datatype Article = Article(summary: string, tags: string)
  datatype BlogPage = BlogPage(items: seq<Article>, pages: int)

  /** What a failed request is replaced with. */
  const EmptyBlog := BlogPage([], 0)

  datatype BlogView = NoArticles(paged: bool) | Articles(cards: seq<(int, seq<string>)>, paged: bool)

  /** `tags.split(",")` with each piece trimmed; an empty tag text shows no tags. */
  function Tags(tags: string): (r: seq<string>)
    ensures tags == "" ==> r == []
    ensures tags != "" ==> |r| == |SplitOn(tags, ",")| && forall i :: 0 <= i < |r| ==> r[i] == Trim(SplitOn(tags, ",")[i])
  {
    if tags == "" then []
    else
      var pieces := SplitOn(tags, ",");
      seq(|pieces|, i requires 0 <= i < |pieces| => Trim(pieces[i]))
  }

  /** Tags written comma-separated, each without a comma and without space at its ends, are read back as written. */
  lemma TagsOfJoined(ts: seq<string>)
    requires ts != [] && ts != [""]
    requires forall i :: 0 <= i < |ts| ==> ',' !in ts[i] && (ts[i] == [] || (!IsSpace(ts[i][0]) && !IsSpace(ts[i][|ts[i]| - 1])))
    ensures Tags(JoinWith(ts, ",")) == ts
  {
    var joined := JoinWith(ts, ",");
    if |ts| > 1 {
      assert ',' in joined by {
        JoinHasSep(ts);
      }
    }
    assert joined != "";
    SplitJoin(ts, ',');
    forall i | 0 <= i < |ts|
      ensures Trim(ts[i]) == ts[i]
    {
      TrimUnspaced(ts[i]);
    }
  }

  lemma JoinHasSep(ts: seq<string>)
    requires |ts| > 1
    ensures JoinWith(ts, ",")[|ts[0]|] == ','
  {
  }

  /**
   * The list area: the cards, or the "no articles yet" message; the
   * pagination bar is drawn after either, whenever there is more than
   * one page.
   */
  function View(response: Option<BlogPage>): (r: BlogView)
    ensures var d := response.GetOr(EmptyBlog);
      (r.NoArticles? <==> d.items == []) && r.paged == ShowPagination(d.pages)
      && (r.Articles? ==> |r.cards| == |d.items|)
  {
    var d := response.GetOr(EmptyBlog);
    if |d.items| == 0 then NoArticles(ShowPagination(d.pages))
    else Articles(seq(|d.items|, i requires 0 <= i < |d.items| => (EstimateReadTime(d.items[i].summary), Tags(d.items[i].tags))), ShowPagination(d.pages))
  }

  /**
   * A failed request shows "no articles yet" with no pagination, as a blog
   * with no articles on a single page does; a page past the last one shows
   * the message together with the pagination, so the reader can go back.
   */
  lemma FailureShowsNoArticles(pages: int)
    ensures View(None) == NoArticles(false)
    ensures pages <= 1 ==> View(Some(BlogPage([], pages))) == View(None)
    ensures pages > 1 ==> View(Some(BlogPage([], pages))) == NoArticles(true)
  {
  }

}
